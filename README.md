# LensKit delimited-text entity ingestion, modelled in Dafny

This project models the part of LensKit that turns delimited text into entities:

- `DelimitedColumnEntityFormat` (module `DelimitedFormat`, file `delimited_format.dfy`).
  A format is configured step by step: delimiter, header mode, header line count,
  entity type, builder class, and columns. Columns come either as an ordered list of
  unlabeled attributes or as an insertion-ordered map from header labels to
  attributes, never both. `MakeParser` picks the file's columns. With a header and
  labeled columns, each header label is looked up in the label map. Otherwise the
  parser shares the format's unlabeled list. `OrderedParser.Parse` counts lines and
  builds one entity per line. Token i goes to column i. Missing tokens and null
  columns are skipped, and surplus tokens are ignored.
- `EntityDefaults` (module `Defaults`, file `entity_defaults.dfy`). This is an
  immutable descriptor of an entity type: its common attributes indexed by name,
  its default column list and its default builder class. `Create` and
  `CreateFromColumns` are the two constructors. `FromBean` builds the descriptor
  from its raw form: attribute names with type names, column names, and an optional
  builder name.
- Shared value types live in `entities.dfy` (module `Entities`). Nullable
  references and exceptions are modelled in `results.dfy` (module `Results`).

Modelling choices:

- The format and its parser are classes, because the source updates their fields
  in place. The parser keeps a reference to the format that made it. It reads the
  format's entity type at each parse. On the unlabeled path it reads the format's
  column list at each parse, so columns added after `MakeParser` still reach the
  parser, as the shared `ArrayList` does in the source.
- The format's invariant `Valid()` has three parts. The two column modes exclude each
  other, the label map is well formed (its insertion order lists each label once, and
  exactly its keys), and reading a header implies exactly one header line. Every method
  preserves it. So the assertion `header.size() == 1` in `makeParser` follows from
  `header.size() == getHeaderLines()`, which is a precondition.
- The line counter is a Java `int`. `Increment` wraps from 2^31-1 to -2^31.
- Tokenization is an input. A header line and a data line are handed in as their
  token sequences, already split at the delimiter the parser captured when it was
  made.
- `Attribute.parseString` is the function parameter `parseString` of `Parse`.
- An entity is `(type, id, attributes)`. Its id is the line number, unless a column
  holding the id attribute has a token. In that case the parsed value replaces the
  id (`EntityId.FromColumn`), which matches the source comment at line 203.
- The descriptor constructor follows the immutable collections the source builds.
  A null attribute fails when its name is read. Two attributes with one name fail
  when the map is built. A null column fails when the list is copied. As a result,
  `FromBean` fails whenever a column name has no attribute: the lookup gives null,
  and the constructor then refuses that null. Only the intermediate column list
  holds nulls.
- `usesHeader`, `getAttributeDefaults` and `getCommonAttributes` are functions. The contracts of the setters, of both descriptor constructors, of `FromBean` and of the lemma `IndexedLookups` state what these functions return.

## Model

| member | source | states |
|---|---|---|
| `DelimitedFormat.DelimitedColumnEntityFormat.constructor` | lenskit-core/src/main/java/org/lenskit/data/dao/file/DelimitedColumnEntityFormat.java:37-43 | a fresh format has delimiter tab, no header and 0 header lines, type `rating`, the basic builder, and no columns of either kind |
| `DelimitedFormat.DelimitedColumnEntityFormat.SetDelimiter` | lenskit-core/src/main/java/org/lenskit/data/dao/file/DelimitedColumnEntityFormat.java:57-59 | only the delimiter changes |
| `DelimitedFormat.DelimitedColumnEntityFormat.SetHeader` | lenskit-core/src/main/java/org/lenskit/data/dao/file/DelimitedColumnEntityFormat.java:65-68 | header reading becomes `header` and the header line count becomes 1, also for `false`; nothing else changes |
| `DelimitedFormat.DelimitedColumnEntityFormat.SetHeaderLines` | lenskit-core/src/main/java/org/lenskit/data/dao/file/DelimitedColumnEntityFormat.java:82-85 | the header line count becomes `lines` and header reading is switched off |
| `DelimitedFormat.DelimitedColumnEntityFormat.UsesHeader` | lenskit-core/src/main/java/org/lenskit/data/dao/file/DelimitedColumnEntityFormat.java:91-93 | whether a header line is read; in a valid format a header means exactly one header line. `SetHeader` and `SetHeaderLines` state the value it then returns |
| `DelimitedFormat.DelimitedColumnEntityFormat.SetEntityType` | lenskit-core/src/main/java/org/lenskit/data/dao/file/DelimitedColumnEntityFormat.java:99-101 | only the entity type changes |
| `DelimitedFormat.DelimitedColumnEntityFormat.SetEntityBuilder` | lenskit-core/src/main/java/org/lenskit/data/dao/file/DelimitedColumnEntityFormat.java:115-117 | only the builder class changes |
| `DelimitedFormat.DelimitedColumnEntityFormat.AddColumn` | lenskit-core/src/main/java/org/lenskit/data/dao/file/DelimitedColumnEntityFormat.java:144-150 | fails with the mixed-columns error, changing nothing, when labeled columns exist; otherwise appends the column (possibly null) to the list, creating it if absent; only the list changes; the exclusivity invariant is kept |
| `DelimitedFormat.DelimitedColumnEntityFormat.AddLabeledColumn` | lenskit-core/src/main/java/org/lenskit/data/dao/file/DelimitedColumnEntityFormat.java:158-164 | fails, changing nothing, when unlabeled columns exist; otherwise puts the label into the label map, creating it if absent; the exclusivity invariant is kept |
| `DelimitedFormat.LabelMap.Put` | lenskit-core/src/main/java/org/lenskit/data/dao/file/DelimitedColumnEntityFormat.java:161-163 | after a put, the label maps to the new column and every other label is unchanged; a new label goes last in insertion order; a label already present keeps its position; earlier order is never disturbed |
| `DelimitedFormat.DelimitedColumnEntityFormat.HeaderColumns` | lenskit-core/src/main/java/org/lenskit/data/dao/file/DelimitedColumnEntityFormat.java:172-177 | one column per header label, in header order; each is that label's column in the label map, or null for an unknown label |
| `DelimitedFormat.DelimitedColumnEntityFormat.MakeParser` | lenskit-core/src/main/java/org/lenskit/data/dao/file/DelimitedColumnEntityFormat.java:167-182 | needs as many header lines as the header line count; with a header and labeled columns, the parser's columns are the first header line's labels mapped through the label map; otherwise the parser shares the unlabeled list; a fresh parser starts at line 0 with the current delimiter |
| `DelimitedFormat.OrderedParser.constructor` | lenskit-core/src/main/java/org/lenskit/data/dao/file/DelimitedColumnEntityFormat.java:185-192 | a parser records its columns and tokenizer delimiter and starts at line 0 |
| `DelimitedFormat.OrderedParser.Parse` | lenskit-core/src/main/java/org/lenskit/data/dao/file/DelimitedColumnEntityFormat.java:195-212 | the line counter goes up by one (with 32-bit wrap-around); the entity is the format's current type with the new line number as id, updated column by column as `Assign` describes; it has the format's type, and its id is the line number when no id column has a token |
| `Entities.Entity.SetAttribute` | lenskit-core/src/main/java/org/lenskit/data/dao/file/DelimitedColumnEntityFormat.java:203-208 | setting the id attribute replaces the id; setting any other attribute maps it to the value and leaves the id, the type and other attributes unchanged |
| `DelimitedFormat.AssignAttribute` | lenskit-core/src/main/java/org/lenskit/data/dao/file/DelimitedColumnEntityFormat.java:205-210 | a non-id attribute holds the value parsed from the token at the last position where both its column and a token exist; with no such position it keeps its initial state |
| `DelimitedFormat.AssignId` | lenskit-core/src/main/java/org/lenskit/data/dao/file/DelimitedColumnEntityFormat.java:199-210 | the id is the value parsed from the last id column that has a token; otherwise the id the builder started with (the line number) |
| `DelimitedFormat.Assign` | lenskit-core/src/main/java/org/lenskit/data/dao/file/DelimitedColumnEntityFormat.java:205-210 | the column loop as a function: the only attributes it adds are attributes that have a column. `AssignAttribute`, `AssignId` and `AssignKeepsType` state the value it gives each attribute, the id and the type |
| `DelimitedFormat.AssignKeepsType` | lenskit-core/src/main/java/org/lenskit/data/dao/file/DelimitedColumnEntityFormat.java:199-210 | filling the columns never changes the entity type |
| `DelimitedFormat.LastColumn` | lenskit-core/src/main/java/org/lenskit/data/dao/file/DelimitedColumnEntityFormat.java:205-207 | the last position with both a token and the given column; none exactly when no position has both |
| `DelimitedFormat.SurplusTokensIgnored` | lenskit-core/src/main/java/org/lenskit/data/dao/file/DelimitedColumnEntityFormat.java:205-207 | tokens beyond the last column do not affect the entity |
| `DelimitedFormat.MissingTokensSkipped` | lenskit-core/src/main/java/org/lenskit/data/dao/file/DelimitedColumnEntityFormat.java:206-207 | columns beyond the last token set nothing |
| `DelimitedFormat.ParsedEntity` | lenskit-core/src/main/java/org/lenskit/data/dao/file/DelimitedColumnEntityFormat.java:195-212 | a parsed entity has the format's type; a non-id attribute is set exactly when some position has both its column and a token; the id is the line number when no id column has a token |
| `Defaults.PutAttributes` | lenskit-core/src/main/java/org/lenskit/data/entities/EntityDefaults.java:65-68 | fails with the null-attribute error exactly when some attribute is null; otherwise the builder holds the attributes in their given order |
| `Defaults.BuildIndex` | lenskit-core/src/main/java/org/lenskit/data/entities/EntityDefaults.java:69 | fails exactly when two entries share a name, and names that repeated name with two positions; otherwise the map indexes exactly the entries by name |
| `Defaults.Create` | lenskit-core/src/main/java/org/lenskit/data/entities/EntityDefaults.java:62-72 | fails on a null attribute, then on a repeated attribute name (naming it), then on a null column; succeeds exactly when none applies; on success it keeps the type, the columns (same content and order) and the builder; its map indexes exactly the supplied attributes by name, so looking up an attribute's name gives that attribute, and the common attributes are exactly the supplied ones |
| `Defaults.IndexUnique` | lenskit-core/src/main/java/org/lenskit/data/entities/EntityDefaults.java:65-69 | two maps that index the same attributes are equal, so the map the constructor builds is determined by its attributes |
| `Defaults.EntityDefaults.GetAttributeDefaults` | lenskit-core/src/main/java/org/lenskit/data/entities/EntityDefaults.java:110-112 | a lookup finds an attribute exactly when the map has the name. `IndexedLookups`, `Create`, `CreateFromColumns` and `FromBean` state which attribute it finds |
| `Defaults.EntityDefaults.GetCommonAttributes` | lenskit-core/src/main/java/org/lenskit/data/entities/EntityDefaults.java:118-120 | a descriptor has at most one common attribute per name. `IndexedLookups`, `Create`, `CreateFromColumns` and `FromBean` state the set exactly |
| `Defaults.IndexedLookups` | lenskit-core/src/main/java/org/lenskit/data/entities/EntityDefaults.java:110-120 | for a descriptor whose map indexes a list of attributes, looking up an attribute's name gives that attribute, the lookup gives null exactly when no attribute has the name, a found attribute has the name looked up, and the common attributes are exactly the list's elements |
| `Defaults.IndexedMembers` | lenskit-core/src/main/java/org/lenskit/data/entities/EntityDefaults.java:110-120 | the same facts by membership: looking up an indexed attribute's name gives that attribute, and the common attributes are exactly the set of indexed attributes |
| `Defaults.IndexesExtend` | lenskit-core/src/main/java/org/lenskit/data/entities/EntityDefaults.java:146-149 | putting an attribute under a name not yet present extends the index and keeps the names distinct |
| `Defaults.CreateFromColumns` | lenskit-core/src/main/java/org/lenskit/data/entities/EntityDefaults.java:51-53 | fails on a null column, then on a repeated column name (naming it), and succeeds otherwise; on success the map indexes exactly the default columns by name, so looking up a column's name gives that column, the common attributes are exactly the default columns, and the builder is the basic builder |
| `Defaults.BeanAttributes` | lenskit-core/src/main/java/org/lenskit/data/entities/EntityDefaults.java:146-149 | each described entry `(k, t)` becomes the typed name `k` of type `t`, keyed by `k`; the listed values are exactly these, with distinct names |
| `Defaults.BeanColumns` | lenskit-core/src/main/java/org/lenskit/data/entities/EntityDefaults.java:151-154 | one entry per column name, same order; a name with no attribute gives null; no null appears exactly when every name has an attribute |
| `Defaults.FromBean` | lenskit-core/src/main/java/org/lenskit/data/entities/EntityDefaults.java:145-168 | succeeds exactly when every column name is a described attribute, and otherwise fails on a null column; on success the columns have the bean's length and order, the lookups and common attributes are the described attributes, and the builder is the named class or the basic builder when no name is given |
| `Defaults.BeanDescriptor` | lenskit-core/src/main/java/org/lenskit/data/entities/EntityDefaults.java:145-168 | a descriptor built from a description's typed names and its looked-up columns has one column per column name, in order, each the typed name of that name; looking up a name gives its described typed name or null when it is not described; the common attributes are exactly the described typed names |

## Left out

- The recommender engine, its configuration, symbol mapping and dependency-injection graph are not part of this model. They are exercised only by `LenskitRecommenderEngineTest.java`, which needs reflection and temporary files.
- `EntityDefaults.lookup` is not modelled: it reads a classpath resource and parses YAML.
- FromBean: the builder name always resolves to the class token `BuilderNamed(name)`. A class that cannot be loaded or is not an entity builder is not modelled.
- `TypedName.create` keeps the attribute's type by name. Failure to resolve a type name is not modelled.
- The bean's attribute map and column list are always present. A description missing either field, which makes the source fail on null, is not modelled.
- `newEntityBuilder` is not modelled as a separate operation. In this model every builder class behaves as `BasicEntityBuilder`, including the override of the id by the id column. A builder that cannot be instantiated is not modelled.
- `StrTokenizer` (quoting, trimming, empty tokens) is not modelled: lines arrive as token sequences.
- `Attribute.parseString` is a parameter of `Parse`. Parse errors it may raise are not modelled.
- The id column's value is kept as the parsed value. The conversion of that value to a number by `BasicEntityBuilder` is not modelled. `BasicEntityBuilder` and `CommonAttributes` are not part of this model, and the id attribute is the constant `EntityIdAttribute`.
- MakeParser: the source's `assert` statements are preconditions. The unlabeled path requires an unlabeled column list to exist, because without one the source fails with a null dereference on the first parse.
- The getters `getDelimiter`, `getHeaderLines`, `getEntityType` (both classes), `getEntityBuilder`, `getDefaultColumns` and `getDefaultBuilder` are not separate members: each is a plain read of a Dafny field.
- FromBean: the order in which the attribute map hands its values to the constructor is any enumeration. No result depends on that order.
