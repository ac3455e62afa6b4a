/**
 * A delimited-text entity format: a configurable column layout and the
 * line parser it makes. Each line of a file becomes one entity; the i-th
 * token of the line goes to the i-th column.
 */
module DelimitedFormat {
  import opened Results
  import opened Entities

  /** Java's `int`. */
  const IntMin: int := -0x8000_0000
  const IntMax: int := 0x7fff_ffff
  type Int32 = x: int | IntMin <= x <= IntMax

  /** `x += 1` on a Java `int`: the largest value wraps to the smallest. */
  function Increment(x: Int32): (r: Int32)
  {
    if x == IntMax then IntMin else x + 1
  }

  /** The `IllegalStateException` raised when labeled and unlabeled columns are mixed. */
  datatype FormatError = MixedColumns

  /** A column of a file: the attribute it holds, or `None` for a column to skip. */
  type Column = Option<Attribute>

  /**
   * An insertion-ordered map from header labels to columns (a `LinkedHashMap`):
   * `order` lists the labels in the order they were first put.
   */
  datatype LabelMap = LabelMap(order: seq<string>, entries: map<string, Column>)
  {
    ghost predicate Valid()
    {
      && (forall i, j :: 0 <= i < j < |order| ==> order[i] != order[j])
      && (forall l :: l in entries <==> l in order)
    }

    /** `get`: the column of a label, `None` both for an unknown label and for a label put with `null`. */
    function Get(name: string): (c: Column)
    {
      if name in entries then entries[name] else None
    }

    /** `put`: a new label goes last; a label already present keeps its place and takes the new column. */
    function Put(name: string, attr: Column): (r: LabelMap)
      requires Valid()
      ensures r.Valid()
      ensures r.Get(name) == attr
      ensures forall l :: l != name ==> r.Get(l) == Get(l)
      ensures |order| <= |r.order| && r.order[..|order|] == order
      ensures name in order ==> r.order == order
      ensures name !in order ==> r.order == order + [name]
    {
      if name in entries then
        LabelMap(order, entries[name := attr])
      else
        var r := LabelMap(order + [name], entries[name := attr]);
        assert forall l :: l in r.order <==> l in order || l == name;
        r
    }
  }

  const EmptyLabels: LabelMap := LabelMap([], map[])

  /** The i-th token of a line, or `None` past its end (`StrTokenizer.nextToken`). */
  function NextToken(tokens: seq<string>, i: nat): (t: Option<string>)
  {
    if i < |tokens| then Some(tokens[i]) else None
  }

  /**
   * The entity built from `init` after the columns `cols` have been matched, position
   * by position, with `tokens`: column i sets its attribute to the value parsed from
   * token i when both are present. Only attributes that have a column are ever set.
   */
  function Assign<V>(init: Entity<V>, cols: seq<Column>, tokens: seq<string>, parse: (Attribute, string) -> V): (e: Entity<V>)
    ensures forall a :: a in e.attributes && a !in init.attributes ==> Some(a) in cols
    decreases |cols|
  {
    if cols == [] then init
    else
      var k := |cols| - 1;
      var e := Assign(init, cols[..k], tokens, parse);
      var value := NextToken(tokens, k);
      if value.Some? && cols[k].Some? then e.SetAttribute(cols[k].value, parse(cols[k].value, value.value)) else e
  }

  /** The last position at which both a token and the column for `a` are present. */
  function LastColumn(cols: seq<Column>, tokens: seq<string>, a: Attribute): (r: Option<nat>)
    ensures r.Some? ==> r.value < |cols| && r.value < |tokens| && cols[r.value] == Some(a)
    ensures r.Some? ==> forall j :: r.value < j < |cols| && j < |tokens| ==> cols[j] != Some(a)
    ensures r.None? ==> forall j :: 0 <= j < |cols| && j < |tokens| ==> cols[j] != Some(a)
    decreases |cols|
  {
    if cols == [] then None
    else
      var k := |cols| - 1;
      if k < |tokens| && cols[k] == Some(a) then Some(k) else LastColumn(cols[..k], tokens, a)
  }

  /** Matching columns with tokens never changes the entity type. */
  lemma {:induction false} AssignKeepsType<V>(init: Entity<V>, cols: seq<Column>, tokens: seq<string>, parse: (Attribute, string) -> V)
    ensures Assign(init, cols, tokens, parse).entityType == init.entityType
    decreases |cols|
  {
    if cols != [] {
      AssignKeepsType(init, cols[..|cols| - 1], tokens, parse);
    }
  }

  /**
   * An attribute other than the id holds the value parsed from the token at the last
   * position its column has a token, and keeps its initial value when there is none.
   */
  lemma {:induction false} AssignAttribute<V>(init: Entity<V>, cols: seq<Column>, tokens: seq<string>, parse: (Attribute, string) -> V, a: Attribute)
    requires a != EntityIdAttribute
    ensures var e := Assign(init, cols, tokens, parse);
      match LastColumn(cols, tokens, a)
      case Some(k) => a in e.attributes && e.attributes[a] == parse(a, tokens[k])
      case None => (a in e.attributes <==> a in init.attributes) && (a in init.attributes ==> e.attributes[a] == init.attributes[a])
    decreases |cols|
  {
    if cols != [] {
      var k := |cols| - 1;
      AssignAttribute(init, cols[..k], tokens, parse, a);
    }
  }

  /** The id is the value parsed from the last id column that has a token, and stays the initial one otherwise. */
  lemma {:induction false} AssignId<V>(init: Entity<V>, cols: seq<Column>, tokens: seq<string>, parse: (Attribute, string) -> V)
    ensures Assign(init, cols, tokens, parse).id ==
      match LastColumn(cols, tokens, EntityIdAttribute)
      case Some(k) => FromColumn(parse(EntityIdAttribute, tokens[k]))
      case None => init.id
    decreases |cols|
  {
    if cols != [] {
      AssignId(init, cols[..|cols| - 1], tokens, parse);
    }
  }

  /** Tokens beyond the last column are ignored. */
  lemma {:induction false} SurplusTokensIgnored<V>(init: Entity<V>, cols: seq<Column>, tokens: seq<string>, parse: (Attribute, string) -> V)
    requires |cols| <= |tokens|
    ensures Assign(init, cols, tokens, parse) == Assign(init, cols, tokens[..|cols|], parse)
    decreases |cols|
  {
    if cols != [] {
      var k := |cols| - 1;
      SurplusTokensIgnored(init, cols[..k], tokens, parse);
      AssignTokensAgree(init, cols[..k], tokens[..k + 1], tokens[..k], parse);
    }
  }

  /** Columns beyond the last token set nothing. */
  lemma {:induction false} MissingTokensSkipped<V>(init: Entity<V>, cols: seq<Column>, tokens: seq<string>, parse: (Attribute, string) -> V)
    requires |tokens| <= |cols|
    ensures Assign(init, cols, tokens, parse) == Assign(init, cols[..|tokens|], tokens, parse)
    decreases |cols|
  {
    if |cols| > |tokens| {
      var k := |cols| - 1;
      assert cols[..k][..|tokens|] == cols[..|tokens|];
      MissingTokensSkipped(init, cols[..k], tokens, parse);
    } else {
      assert cols[..|tokens|] == cols;
    }
  }

  /** Only the tokens at column positions matter. */
  lemma {:induction false} AssignTokensAgree<V>(init: Entity<V>, cols: seq<Column>, t1: seq<string>, t2: seq<string>, parse: (Attribute, string) -> V)
    requires |cols| <= |t1| && |cols| <= |t2|
    requires t1[..|cols|] == t2[..|cols|]
    ensures Assign(init, cols, t1, parse) == Assign(init, cols, t2, parse)
    decreases |cols|
  {
    if cols != [] {
      var k := |cols| - 1;
      assert t1[k] == t1[..|cols|][k];
      assert t1[..k] == t1[..|cols|][..k];
      assert t2[..k] == t2[..|cols|][..k];
      AssignTokensAgree(init, cols[..k], t1, t2, parse);
    }
  }

  /**
   * What a parsed line holds: an attribute other than the id is set exactly when some
   * position has both its column and a token, and the id is the line number unless an
   * id column with a token overrides it.
   */
  lemma ParsedEntity<V>(t: EntityType, line: int, cols: seq<Column>, tokens: seq<string>, parse: (Attribute, string) -> V, a: Attribute)
    requires a != EntityIdAttribute
    ensures var e := Assign(Entity(t, LineNumber(line), map[]), cols, tokens, parse);
      && e.entityType == t
      && (a in e.attributes <==> exists i :: 0 <= i < |cols| && i < |tokens| && cols[i] == Some(a))
      && ((forall i :: 0 <= i < |cols| && i < |tokens| ==> cols[i] != Some(EntityIdAttribute)) ==> e.id == LineNumber(line))
  {
    var init: Entity<V> := Entity(t, LineNumber(line), map[]);
    AssignKeepsType(init, cols, tokens, parse);
    AssignAttribute(init, cols, tokens, parse, a);
    AssignId(init, cols, tokens, parse);
  }

  /** A delimited column entity format, configured by its setters and `AddColumn` calls. */
  class DelimitedColumnEntityFormat {
    var delimiter: string
    var headerLines: Int32
    var readHeader: bool
    var entityType: EntityType
    var entityBuilder: BuilderClass
    /** The unlabeled columns, in file order; `None` until the first unlabeled column is added. */
    var columns: Option<seq<Column>>
    /** The labeled columns; `None` until the first labeled column is added. */
    var labeledColumns: Option<LabelMap>

    /**
     * The format's invariant: the two ways of declaring columns exclude each other, the
     * label map is well formed, and reading a header always means reading exactly one
     * header line.
     */
    ghost predicate Valid()
      reads this
    {
      && !(columns.Some? && labeledColumns.Some?)
      && (labeledColumns.Some? ==> labeledColumns.value.Valid())
      && (readHeader ==> headerLines == 1)
    }

    /** `usesHeader`: whether the first line is read as a header, which in a valid format is then the only header line. */
    function UsesHeader(): (b: bool)
      reads this
      ensures Valid() && b ==> headerLines == 1
    {
      readHeader
    }

    constructor ()
      ensures Valid()
      ensures delimiter == "\t" && headerLines == 0 && !UsesHeader()
      ensures entityType == RatingType && entityBuilder == BasicEntityBuilder
      ensures columns == None && labeledColumns == None
    {
      delimiter := "\t";
      headerLines := 0;
      readHeader := false;
      entityType := RatingType;
      entityBuilder := BasicEntityBuilder;
      columns := None;
      labeledColumns := None;
    }

    method SetDelimiter(delim: string)
      requires Valid()
      modifies this`delimiter
      ensures Valid() && delimiter == delim
    {
      delimiter := delim;
    }

    /** Choose whether to read a header; either way one header line is skipped. */
    method SetHeader(header: bool)
      requires Valid()
      modifies this`readHeader, this`headerLines
      ensures Valid() && UsesHeader() == header && headerLines == 1
    {
      readHeader := header;
      headerLines := 1;
    }

    /** Skip `lines` header lines without parsing them: this turns header parsing off. */
    method SetHeaderLines(lines: Int32)
      requires Valid()
      modifies this`readHeader, this`headerLines
      ensures Valid() && headerLines == lines && !UsesHeader()
    {
      headerLines := lines;
      readHeader := false;
    }

    method SetEntityType(t: EntityType)
      requires Valid()
      modifies this`entityType
      ensures Valid() && entityType == t
    {
      entityType := t;
    }

    method SetEntityBuilder(builder: BuilderClass)
      requires Valid()
      modifies this`entityBuilder
      ensures Valid() && entityBuilder == builder
    {
      entityBuilder := builder;
    }

    /** Append an unlabeled column (`None` skips a column); refused once labeled columns exist. */
    method AddColumn(attr: Column) returns (r: Outcome<FormatError>)
      requires Valid()
      modifies this`columns
      ensures Valid()
      ensures old(labeledColumns).Some? ==> r == Fail(MixedColumns) && columns == old(columns)
      ensures old(labeledColumns).None? ==>
        r == Pass && columns == Some((if old(columns).Some? then old(columns).value else []) + [attr])
    {
      var cols: seq<Column>;
      if columns.None? {
        if labeledColumns.Some? {
          return Fail(MixedColumns);
        }
        cols := [];
      } else {
        cols := columns.value;
      }
      columns := Some(cols + [attr]);
      r := Pass;
    }

    /** Map a header label to a column; refused once unlabeled columns exist. */
    method AddLabeledColumn(name: string, attr: Column) returns (r: Outcome<FormatError>)
      requires Valid()
      modifies this`labeledColumns
      ensures Valid()
      ensures old(columns).Some? ==> r == Fail(MixedColumns) && labeledColumns == old(labeledColumns)
      ensures old(columns).None? ==>
        r == Pass && labeledColumns == Some((if old(labeledColumns).Some? then old(labeledColumns).value else EmptyLabels).Put(name, attr))
    {
      var labels: LabelMap;
      if labeledColumns.None? {
        if columns.Some? {
          return Fail(MixedColumns);
        }
        labels := EmptyLabels;
      } else {
        labels := labeledColumns.value;
      }
      labeledColumns := Some(labels.Put(name, attr));
      r := Pass;
    }

    /** The file's columns, one per header label, looked up among the labeled columns. */
    method HeaderColumns(labels: seq<string>) returns (cols: seq<Column>)
      requires Valid() && labeledColumns.Some?
      ensures |cols| == |labels|
      ensures forall i :: 0 <= i < |labels| ==> cols[i] == labeledColumns.value.Get(labels[i])
    {
      cols := [];
      var i := 0;
      while i < |labels|
        invariant 0 <= i <= |labels|
        invariant |cols| == i
        invariant forall j :: 0 <= j < i ==> cols[j] == labeledColumns.value.Get(labels[j])
      {
        cols := cols + [labeledColumns.value.Get(labels[i])];
        i := i + 1;
      }
    }

    /**
     * Make a parser for a file whose header lines are `header`, each given as its tokens.
     * With a header and labeled columns the header's labels pick the columns; otherwise
     * the parser uses this format's unlabeled column list itself, so columns added later
     * are seen by the parser too.
     */
    method MakeParser(header: seq<seq<string>>) returns (p: OrderedParser)
      requires Valid()
      requires |header| == headerLines
      requires !(UsesHeader() && labeledColumns.Some?) ==> columns.Some?
      ensures fresh(p) && p.format == this && p.lineNo == 0 && p.delimiter == delimiter
      ensures UsesHeader() && labeledColumns.Some? ==>
        && p.headerColumns.Some?
        && |p.headerColumns.value| == |header[0]|
        && forall i :: 0 <= i < |header[0]| ==> p.headerColumns.value[i] == labeledColumns.value.Get(header[0][i])
      ensures !(UsesHeader() && labeledColumns.Some?) ==> p.headerColumns == None
      ensures p.HasColumns()
    {
      if UsesHeader() && labeledColumns.Some? {
        var cols := HeaderColumns(header[0]);
        p := new OrderedParser(this, Some(cols), delimiter);
      } else {
        p := new OrderedParser(this, None, delimiter);
      }
    }
  }

  /** A line parser made by a format; it counts the lines it has parsed. */
  class OrderedParser {
    /** The format that made this parser; its entity type is read at each parse. */
    const format: DelimitedColumnEntityFormat
    /** The columns read from a header, or `None` when the parser shares the format's unlabeled list. */
    const headerColumns: Option<seq<Column>>
    /** The delimiter of the format when this parser was made; it splits each line into tokens. */
    const delimiter: string
    var lineNo: Int32

    constructor (format: DelimitedColumnEntityFormat, headerColumns: Option<seq<Column>>, delimiter: string)
      ensures this.format == format && this.headerColumns == headerColumns && this.delimiter == delimiter
      ensures lineNo == 0
    {
      this.format := format;
      this.headerColumns := headerColumns;
      this.delimiter := delimiter;
      lineNo := 0;
    }

    predicate HasColumns()
      reads format
    {
      headerColumns.Some? || format.columns.Some?
    }

    /** The columns a line is matched against. */
    function FileColumns(): (cols: seq<Column>)
      reads format
      requires HasColumns()
    {
      if headerColumns.Some? then headerColumns.value else format.columns.value
    }

    /**
     * Parse one line, given as its tokens: count the line, then build an entity of the
     * format's type whose id is the new line number, setting the attribute of column i
     * to the value parsed from token i.
     */
    method Parse<V>(tokens: seq<string>, parseString: (Attribute, string) -> V) returns (e: Entity<V>)
      requires HasColumns()
      modifies this`lineNo
      ensures lineNo == Increment(old(lineNo))
      ensures old(lineNo) < IntMax ==> lineNo == old(lineNo) + 1
      ensures e == Assign(Entity(format.entityType, LineNumber(lineNo), map[]), FileColumns(), tokens, parseString)
      ensures e.entityType == format.entityType
      ensures LastColumn(FileColumns(), tokens, EntityIdAttribute).None? ==> e.id == LineNumber(lineNo)
    {
      lineNo := Increment(lineNo);
      e := Entity(format.entityType, LineNumber(lineNo), map[]);
      ghost var init := e;
      var cols := FileColumns();
      var i := 0;
      while i < |cols|
        invariant 0 <= i <= |cols|
        invariant e == Assign(init, cols[..i], tokens, parseString)
      {
        var value := NextToken(tokens, i);
        if value.Some? && cols[i].Some? {
          e := e.SetAttribute(cols[i].value, parseString(cols[i].value, value.value));
        }
        assert cols[..i + 1][..i] == cols[..i];
        i := i + 1;
      }
      assert cols[..|cols|] == cols;
      AssignKeepsType(init, cols, tokens, parseString);
      AssignId(init, cols, tokens, parseString);
    }
  }
}
