/**
 * Entity defaults: the well-known attributes of an entity type, its default
 * column layout and its default builder class, with lookups by attribute name.
 */
module Defaults {
  import opened Results
  import opened Entities

  /**
   * Why building a descriptor fails: a `null` attribute (a `NullPointerException` when
   * its name is read), two attributes with one name (the immutable map builder refuses
   * duplicate keys) or a `null` column (the immutable list refuses `null` elements).
   */
  datatype DefaultsError = NullAttribute | DuplicateAttribute(name: string) | NullColumn

  /** The descriptor; `attributes` maps each attribute's name to the attribute. */
  datatype EntityDefaults = EntityDefaults(
    entityType: EntityType,
    attributes: map<string, TypedName>,
    defaultColumns: seq<TypedName>,
    defaultBuilder: BuilderClass)
  {
    /** The attribute with this name, or `None` when there is none. */
    function GetAttributeDefaults(name: string): (t: Option<TypedName>)
      ensures t.Some? <==> name in attributes
    {
      if name in attributes then Some(attributes[name]) else None
    }

    /** The attributes typically associated with the entity type: at most one per name. */
    function GetCommonAttributes(): (attrs: set<TypedName>)
      ensures |attrs| <= |attributes|
    {
      ValuesAtMostKeys(attributes);
      attributes.Values
    }
  }

  /** A map has no more distinct values than keys. */
  lemma {:induction false} ValuesAtMostKeys<K, V>(m: map<K, V>)
    ensures |m.Values| <= |m|
    decreases |m|
  {
    if |m| > 0 {
      var k :| k in m;
      var rest := m - {k};
      ValuesAtMostKeys(rest);
      assert m.Values <= rest.Values + {m[k]} by {
        forall v | v in m.Values ensures v in rest.Values + {m[k]} {
          var j :| j in m && m[j] == v;
          if j != k {
            assert rest[j] == v;
          }
        }
      }
      SubsetCardinality(m.Values, rest.Values + {m[k]});
    }
  }

  lemma {:induction false} SubsetCardinality<T>(a: set<T>, b: set<T>)
    requires a <= b
    ensures |a| <= |b|
    decreases |b|
  {
    if b != {} {
      var x :| x in b;
      SubsetCardinality(a - {x}, b - {x});
    }
  }

  /** The raw form of a defaults description: attribute names with type names, column names, a builder name. */
  datatype DefaultsBean = DefaultsBean(attributes: map<string, string>, columns: seq<string>, builder: Option<string>)

  ghost predicate NoNulls<T>(s: seq<Option<T>>)
  {
    forall i :: 0 <= i < |s| ==> s[i].Some?
  }

  /** No two attributes share a name. */
  ghost predicate DistinctNames(s: seq<TypedName>)
  {
    forall i, j :: 0 <= i < j < |s| ==> s[i].name != s[j].name
  }

  /** The elements of a list without `null`s, in order. */
  function Unwrap<T>(s: seq<Option<T>>): (r: seq<T>)
    requires NoNulls(s)
    ensures |r| == |s|
    ensures forall i :: 0 <= i < |s| ==> s[i] == Some(r[i])
  {
    if s == [] then [] else [s[0].value] + Unwrap(s[1..])
  }

  /** A list of attributes as a collection that may hold `null`s (it holds none). */
  function Wrap<T>(s: seq<T>): (r: seq<Option<T>>)
    ensures NoNulls(r) && Unwrap(r) == s
  {
    var r := seq(|s|, i requires 0 <= i < |s| => Some(s[i]));
    assert forall i :: 0 <= i < |s| ==> Unwrap(r)[i] == s[i] by {
      forall i | 0 <= i < |s| ensures Unwrap(r)[i] == s[i] {
        assert r[i] == Some(Unwrap(r)[i]);
      }
    }
    r
  }

  /** `m` indexes exactly the attributes `attrs` by name. */
  ghost predicate Indexes(m: map<string, TypedName>, attrs: seq<TypedName>)
  {
    && (forall n :: n in m ==> exists k :: 0 <= k < |attrs| && attrs[k].name == n)
    && (forall k :: 0 <= k < |attrs| ==> attrs[k].name in m && m[attrs[k].name] == attrs[k])
  }

  /** Two maps indexing the same attributes are the same map. */
  lemma IndexUnique(m1: map<string, TypedName>, m2: map<string, TypedName>, attrs: seq<TypedName>)
    requires Indexes(m1, attrs) && Indexes(m2, attrs)
    ensures m1 == m2
  {
  }

  /**
   * A descriptor whose map indexes `attrs`: looking up a name gives the attribute of that
   * name, and `None` exactly when no attribute has it; the common attributes are exactly `attrs`.
   */
  lemma IndexedLookups(d: EntityDefaults, attrs: seq<TypedName>)
    requires Indexes(d.attributes, attrs)
    ensures forall i :: 0 <= i < |attrs| ==> d.GetAttributeDefaults(attrs[i].name) == Some(attrs[i])
    ensures forall n :: d.GetAttributeDefaults(n).None? <==> forall i :: 0 <= i < |attrs| ==> attrs[i].name != n
    ensures forall n :: d.GetAttributeDefaults(n).Some? ==> d.GetAttributeDefaults(n).value.name == n
    ensures d.GetCommonAttributes() == set i | 0 <= i < |attrs| :: attrs[i]
  {
  }

  /** Putting an attribute with a new name extends an index of distinct names. */
  lemma IndexesExtend(m: map<string, TypedName>, attrs: seq<TypedName>, a: TypedName)
    requires Indexes(m, attrs) && DistinctNames(attrs) && a.name !in m
    ensures Indexes(m[a.name := a], attrs + [a]) && DistinctNames(attrs + [a])
  {
    var m', attrs' := m[a.name := a], attrs + [a];
    forall n | n in m' ensures exists k :: 0 <= k < |attrs'| && attrs'[k].name == n {
      if n == a.name {
        assert attrs'[|attrs|].name == n;
      } else {
        var k :| 0 <= k < |attrs| && attrs[k].name == n;
        assert attrs'[k].name == n;
      }
    }
  }

  /**
   * The constructor's loop: put each attribute into the map builder, which collects the
   * entries in order. Reading the name of a `null` attribute fails.
   */
  method PutAttributes(attrs: seq<Option<TypedName>>) returns (r: Result<seq<TypedName>, DefaultsError>)
    ensures r.Success? <==> NoNulls(attrs)
    ensures r.Failure? ==> r.error == NullAttribute
    ensures r.Success? ==> r.value == Unwrap(attrs)
  {
    var entries: seq<TypedName> := [];
    var i := 0;
    while i < |attrs|
      invariant 0 <= i <= |attrs|
      invariant |entries| == i
      invariant forall k :: 0 <= k < i ==> attrs[k] == Some(entries[k])
    {
      if attrs[i].None? {
        return Failure(NullAttribute);
      }
      entries := entries + [attrs[i].value];
      i := i + 1;
    }
    r := Success(entries);
  }

  /**
   * The map builder's `build`: index the collected entries by name, refusing the first
   * entry whose name an earlier entry already has.
   */
  method BuildIndex(entries: seq<TypedName>) returns (r: Result<map<string, TypedName>, DefaultsError>)
    ensures r.Success? <==> DistinctNames(entries)
    ensures r.Failure? ==>
      && r.error.DuplicateAttribute?
      && exists i, j :: 0 <= i < j < |entries| && entries[i].name == r.error.name && entries[j].name == r.error.name
    ensures r.Success? ==> Indexes(r.value, entries)
  {
    var m: map<string, TypedName> := map[];
    var i := 0;
    while i < |entries|
      invariant 0 <= i <= |entries|
      invariant forall p, q :: 0 <= p < q < i ==> entries[p].name != entries[q].name
      invariant forall n :: n in m ==> exists k :: 0 <= k < i && entries[k].name == n
      invariant forall k :: 0 <= k < i ==> entries[k].name in m && m[entries[k].name] == entries[k]
    {
      var a := entries[i];
      if a.name in m {
        ghost var k :| 0 <= k < i && entries[k].name == a.name;
        return Failure(DuplicateAttribute(a.name));
      }
      m := m[a.name := a];
      i := i + 1;
    }
    r := Success(m);
  }

  /**
   * The full constructor: index the attributes by name, copy the columns, keep the
   * builder. Fails on a `null` attribute first, then on a repeated name (the map is
   * built after all attributes are put), then on a `null` column.
   */
  method Create(entityType: EntityType, attrs: seq<Option<TypedName>>, cols: seq<Option<TypedName>>, bld: BuilderClass)
    returns (r: Result<EntityDefaults, DefaultsError>)
    ensures !NoNulls(attrs) ==> r == Failure(NullAttribute)
    ensures NoNulls(attrs) && !DistinctNames(Unwrap(attrs)) ==>
      && r.Failure? && r.error.DuplicateAttribute?
      && exists i, j :: 0 <= i < j < |attrs| && attrs[i].value.name == r.error.name && attrs[j].value.name == r.error.name
    ensures NoNulls(attrs) && DistinctNames(Unwrap(attrs)) && !NoNulls(cols) ==> r == Failure(NullColumn)
    ensures r.Success? <==> NoNulls(attrs) && DistinctNames(Unwrap(attrs)) && NoNulls(cols)
    ensures r.Success? ==>
      && r.value.entityType == entityType
      && r.value.defaultColumns == Unwrap(cols)
      && r.value.defaultBuilder == bld
      && Indexes(r.value.attributes, Unwrap(attrs))
      && (forall a :: a in Unwrap(attrs) ==> r.value.GetAttributeDefaults(a.name) == Some(a))
      && r.value.GetCommonAttributes() == (set a | a in Unwrap(attrs))
  {
    var entries := PutAttributes(attrs);
    if entries.Failure? {
      return Failure(entries.error);
    }
    var indexed := BuildIndex(entries.value);
    if indexed.Failure? {
      return Failure(indexed.error);
    }
    if exists k :: 0 <= k < |cols| && cols[k].None? {
      return Failure(NullColumn);
    }
    r := Success(EntityDefaults(entityType, indexed.value, Unwrap(cols), bld));
    IndexedMembers(r.value, entries.value);
  }

  /** The two-argument constructor: the common attributes are exactly the default columns, built by the basic builder. */
  method CreateFromColumns(entityType: EntityType, cols: seq<Option<TypedName>>) returns (r: Result<EntityDefaults, DefaultsError>)
    ensures r.Success? <==> NoNulls(cols) && DistinctNames(Unwrap(cols))
    ensures !NoNulls(cols) ==> r == Failure(NullAttribute)
    ensures NoNulls(cols) && !DistinctNames(Unwrap(cols)) ==>
      && r.Failure? && r.error.DuplicateAttribute?
      && exists i, j :: 0 <= i < j < |cols| && cols[i].value.name == r.error.name && cols[j].value.name == r.error.name
    ensures r.Success? ==>
      && r.value.entityType == entityType
      && r.value.defaultColumns == Unwrap(cols)
      && Indexes(r.value.attributes, r.value.defaultColumns)
      && (forall c :: c in r.value.defaultColumns ==> r.value.GetAttributeDefaults(c.name) == Some(c))
      && r.value.GetCommonAttributes() == (set c | c in r.value.defaultColumns)
      && r.value.defaultBuilder == BasicEntityBuilder
  {
    r := Create(entityType, cols, cols, BasicEntityBuilder);
    if r.Success? {
      IndexedMembers(r.value, r.value.defaultColumns);
    }
  }

  /** `IndexedLookups` by membership: each indexed attribute is found by its name, and the common attributes are exactly the indexed ones. */
  lemma IndexedMembers(d: EntityDefaults, attrs: seq<TypedName>)
    requires Indexes(d.attributes, attrs)
    ensures forall a :: a in attrs ==> d.GetAttributeDefaults(a.name) == Some(a)
    ensures d.GetCommonAttributes() == (set a | a in attrs)
  {
    IndexedLookups(d, attrs);
    assert (set k | 0 <= k < |attrs| :: attrs[k]) == (set a | a in attrs) by {
      forall a | a in attrs ensures exists k :: 0 <= k < |attrs| && attrs[k] == a {
        var k :| 0 <= k < |attrs| && attrs[k] == a;
      }
    }
  }

  /**
   * The first loop of `fromBean`: one typed name per described attribute, keyed by its
   * name, and the same typed names listed in the order the map hands them on.
   */
  method BeanAttributes(described: map<string, string>) returns (attrs: map<string, TypedName>, values: seq<TypedName>)
    ensures attrs.Keys == described.Keys
    ensures forall n :: n in attrs ==> attrs[n] == TypedName(n, described[n])
    ensures DistinctNames(values) && Indexes(attrs, values)
  {
    attrs, values := map[], [];
    var remaining := described.Keys;
    while remaining != {}
      invariant remaining <= described.Keys
      invariant attrs.Keys == described.Keys - remaining
      invariant forall k :: k in attrs ==> attrs[k] == TypedName(k, described[k])
      invariant Indexes(attrs, values)
      invariant DistinctNames(values)
      decreases remaining
    {
      var k :| k in remaining;
      var a := TypedName(k, described[k]);
      IndexesExtend(attrs, values, a);
      attrs := attrs[k := a];
      values := values + [a];
      remaining := remaining - {k};
    }
  }

  /** The second loop of `fromBean`: each column name looked up among the attributes, `None` when absent. */
  method BeanColumns(attrs: map<string, TypedName>, names: seq<string>) returns (cols: seq<Option<TypedName>>)
    ensures |cols| == |names|
    ensures forall i :: 0 <= i < |names| ==> cols[i] == if names[i] in attrs then Some(attrs[names[i]]) else None
    ensures NoNulls(cols) <==> forall i :: 0 <= i < |names| ==> names[i] in attrs
  {
    cols := [];
    var j := 0;
    while j < |names|
      invariant 0 <= j <= |names|
      invariant |cols| == j
      invariant forall p :: 0 <= p < j ==> cols[p] == if names[p] in attrs then Some(attrs[names[p]]) else None
    {
      var col := names[j];
      cols := cols + [if col in attrs then Some(attrs[col]) else None];
      j := j + 1;
    }
  }

  /**
   * Build defaults from their raw description: each described attribute becomes a
   * typed name, each column name is looked up among them, and a missing builder name
   * means the basic builder. A column name that names no attribute yields a `null`
   * column, which the constructor then refuses.
   */
  method FromBean(entityType: EntityType, bean: DefaultsBean) returns (r: Result<EntityDefaults, DefaultsError>)
    ensures r.Success? <==> forall i :: 0 <= i < |bean.columns| ==> bean.columns[i] in bean.attributes
    ensures r.Failure? ==> r.error == NullColumn
    ensures r.Success? ==>
      && r.value.entityType == entityType
      && |r.value.defaultColumns| == |bean.columns|
      && (forall i :: 0 <= i < |bean.columns| ==>
            r.value.defaultColumns[i] == TypedName(bean.columns[i], bean.attributes[bean.columns[i]]))
      && (forall n :: r.value.GetAttributeDefaults(n) ==
            if n in bean.attributes then Some(TypedName(n, bean.attributes[n])) else None)
      && r.value.GetCommonAttributes() == (set n | n in bean.attributes :: TypedName(n, bean.attributes[n]))
      && r.value.defaultBuilder == (if bean.builder.Some? then BuilderNamed(bean.builder.value) else BasicEntityBuilder)
  {
    var attrs, values := BeanAttributes(bean.attributes);
    var cols := BeanColumns(attrs, bean.columns);
    var builder := if bean.builder.Some? then BuilderNamed(bean.builder.value) else BasicEntityBuilder;
    r := Create(entityType, Wrap(values), cols, builder);
    if r.Success? {
      IndexUnique(r.value.attributes, attrs, values);
      BeanDescriptor(bean, attrs, cols, r.value);
    }
  }

  /** A descriptor holding the typed names made from a description, and its looked-up columns. */
  lemma BeanDescriptor(bean: DefaultsBean, attrs: map<string, TypedName>, cols: seq<Option<TypedName>>, d: EntityDefaults)
    requires attrs.Keys == bean.attributes.Keys
    requires forall n :: n in attrs ==> attrs[n] == TypedName(n, bean.attributes[n])
    requires |cols| == |bean.columns|
    requires forall i :: 0 <= i < |cols| ==> cols[i] == if bean.columns[i] in attrs then Some(attrs[bean.columns[i]]) else None
    requires NoNulls(cols) && d.defaultColumns == Unwrap(cols) && d.attributes == attrs
    ensures |d.defaultColumns| == |bean.columns|
    ensures forall i :: 0 <= i < |bean.columns| ==>
      d.defaultColumns[i] == TypedName(bean.columns[i], bean.attributes[bean.columns[i]])
    ensures forall n :: d.GetAttributeDefaults(n) == if n in bean.attributes then Some(TypedName(n, bean.attributes[n])) else None
    ensures d.GetCommonAttributes() == (set n | n in bean.attributes :: TypedName(n, bean.attributes[n]))
  {
  }
}
