# named_enum in Dafny

named_enum is a library of Python enumerations whose members carry
*named-tuple* values. A class declares its field names in
`_field_names_`. The metaclass then does four things:

- it turns every member value into a record of those fields;
- it refuses `name` and `value` as fields;
- it attaches a per-field query for each field: `<field>s`,
  `from_<field>` and `has_<field>`;
- it adds class-level exports (`names`, `values`, `gen`, `as_dict`,
  `as_list`, `as_set`, `as_tuple`, `as_ordereddict`), `in`, `repr` and
  `describe`, a fixed-width table of the members.

Member attribute access reads through to the record's fields.

The repository holds three generations of this metaclass, and they are
modelled side by side:

| Dafny module | source | what it is |
|---|---|---|
| `Collector` | `named_enum/meta.py` | the class-body namespace `_NamedEnumDict` (a `class` with the dictionary, `_member_names` and `_last_values` as fields) and its `__setitem__`, `_clean` and the shared skeleton of `_convert` |
| `Meta` | `named_enum/meta.py` | the current `_convert` conversion, `NamedEnumMeta.__new__`, its spec resolution and reserved-name check, and the class-level queries, exports, `__contains__`, `__repr__` and `describe` |
| `Enums` | `named_enum/enum.py` | member attribute lookup (ordinary lookup, then `__getattr__`) and `__str__`, and the `NamedEnum`, `ExtendedEnum`, `LabeledEnum` and `PairEnum` declarations |
| `Legacy` | `named_enum/__init__.py` | the older version. Its `_convert` differs from the current code: every non-string collection is unpacked. It also has no `__contains__` override. Its `__setitem__`, `_clean`, queries, exports, `describe`, `__getattr__` and `__str__` are the same code as the current version's and are modelled by the same members |
| `Oldest` | `src/named_enum/__init__.py` | the oldest version. It always builds a record class and has no reserved-name check. It attaches only `<field>s` and `from_<field>`, which read fields through `getattr(member, F)`; `from_<field>` returns the first match or `None`. It has `tuples()`, and its `describe` has no name column |

These support modules hold the parts of the Python runtime the library relies on:

- `Python`: the value universe and error kinds, truthiness, hashability,
  `repr`/`str`, record construction with its arity check, and
  `namedtuple`'s field-name validation.
- `Text`: string helpers, including `str.capitalize`, right alignment and
  the whitespace split namedtuple applies to a string spec.
- `Table`: the table layout `describe` builds, with a method that builds it
  line by line like the source does.

Python values are a datatype. An enumeration class is a value
`EnumClass(name, spec, entries, own, bases)`: its name, the fields of the
record class `__new__` built for it (if any), its members in declaration
order, what its own body binds to `_field_names_`, and its chain of first
bases. Each base keeps its own binding and its record class. Attribute
lookup on the class walks this chain, as Python's does: `_fields()`,
`_tuple_cls` and the attached per-field functions are found on the
nearest class that has them. The stateful steps are methods on
`Collector.NamedEnumDict`: `__setitem__`, `_clean`, `_convert` and the
re-insertion loop. The `New` methods of `Meta`, `Legacy` and `Oldest` run
`_convert` on a namespace object. Each is proved to return exactly
`BuildAsWritten`, the pure construction as the code is written, over the
namespace state before the call.

Where the written code and the behaviour the design evidently intends part
ways, the model keeps both. `BuildAsWritten` is the construction as
written. `Build` is the intended construction. The `New` methods and the
sample classes use `BuildAsWritten`. The queries, exports and `describe`
apply to any built class and depend on neither. `BuildAgrees` states where
the two constructions coincide (see "## Findings"):

- `__new__` refuses a field set only when it contains both `name` *and*
  `value`. The error text ("'name' or 'value' cannot be attributes")
  promises that either one alone is refused.
- `__new__` reads an inherited `_field_names_` only from the first base's
  own `__dict__`, while `_fields` reads it by attribute lookup. The oldest
  version indexes that `__dict__`, so a first base without its own spec
  raises `KeyError`. In every version a class that binds no
  `_field_names_` of its own and has no base at all fails at `bases[0]`
  with `IndexError`.

Three name clashes are modelled as the code lets them happen:

- a member named like a function `__new__` attaches makes the `setattr`
  fail, since `EnumMeta` refuses to reassign a member;
- the as-written check lets a single `name` field through. Its plural
  function is attached as `names`, which hides the metaclass's `names()`,
  and `describe` sizes the name column on what that returns;
- an attribute named like a member is that member, so a field with a
  member's name no longer reads the record.

The oldest version has no reserved-name check, and it reads fields through
`getattr(member, F)`. Ordinary attribute lookup runs before `__getattr__`,
so a field called `name` reads the member's name. The model shows the
effect on a class with the fields `("name", "key")`: `names()` lists the
member names, `from_name` searches them, and `describe` sizes the `name`
column for the member names while printing the record's values in it.

The tests and the code also disagree in two places, and the model follows
the code:

- `tests/meta/test__NamedEnumDict.py:93-97` expects an unpack error for
  the string `"1,2"` with two fields. `named_enum/meta.py:66-67` passes a
  string whole to the record constructor, which refuses it for its arity.
- The error texts expected at `tests/meta/test__NamedEnumDict.py:91` differ
  from the one raised at `named_enum/meta.py:65`. Messages are not modelled,
  only error kinds.

## Model

| member | source | states |
|---|---|---|
| `Python.MakeRecord` | named_enum/meta.py:57-69 | calling the namedtuple class succeeds exactly when it gets one argument per field, giving the record of those arguments; otherwise an arity error naming both counts |
| `Python.Unpacked` | named_enum/meta.py:69 | `*value` spreads exactly the collection's elements |
| `Python.NamedTupleFields` | named_enum/meta.py:147 | `namedtuple("NamedTuple", spec)` succeeds exactly when the spec yields candidate names that are all valid, distinct field names; the fields are those names; otherwise the spec is refused |
| `Python.StrOfAll` | named_enum/meta.py:498 | `map(str, ...)`: one string per item, each `str` of that item |
| `Text.Capitalize` | named_enum/meta.py:495-500 | the heading keeps its length; its first letter is upper-cased and the rest lower-cased |
| `Text.Repeat` | named_enum/meta.py:505 | `"-" * n` is n dashes |
| `Text.RightAlign` | named_enum/meta.py:501-502 | `{:>w}` yields a text of width w, or the string's own length when that is larger: it never truncates |
| `Text.RightAlignPads` | named_enum/meta.py:501-502 | the padding `{:>w}` adds is all spaces, on the left, and the text ends with the original string |
| `Text.SplitWords` | named_enum/meta.py:147 | a field-name string splits into non-empty words free of separators |
| `Text.SplitWordsKeepsText` | named_enum/meta.py:147 | the words hold exactly the input's non-separator characters in their original order: splitting drops only separators |
| `Text.SplitFieldNames` | named_enum/meta.py:147 | the names namedtuple reads from a string spec are non-empty and contain no separator |
| `Text.SplitWordsNoSeparator` | named_enum/meta.py:147 | a string with no separator is one field name |
| `Table.ColumnWidth` | named_enum/meta.py:494-499 | a column is as wide as its longest cell or heading: at least each of them and equal to one of them |
| `Table.Widths` | named_enum/meta.py:494-499 | one width per column |
| `Table.Capitalized` | named_enum/meta.py:495-500 | one heading per column |
| `Table.FormatRowLength` | named_enum/meta.py:501-502 | a row of right-aligned cells joined by the three-character separator is as long as the widths plus three per separator, whatever cells fit the widths |
| `Table.HeaderWidth` | named_enum/meta.py:501-504 | the header line has exactly the table's line width |
| `Table.RowWidth` | named_enum/meta.py:506-511 | every member row has exactly the table's line width |
| `Table.RowLines` | named_enum/meta.py:506-511 | one formatted line per member, in order |
| `Table.LinesWithShape` | src/named_enum/__init__.py:205-212 | whatever the column widths, the lines are the title, the header, a dash line as long as the header, then one formatted line per row, in order |
| `Table.TableShape` | named_enum/meta.py:501-511 | the table is the title line, the header, a dash line as long as the header, then one row per member, all as wide as the header |
| `Table.TextWithIsLines` | src/named_enum/__init__.py:205-212 | whatever the column widths, the printed text is the table's lines, each ended by a newline |
| `Table.TableTextIsLines` | named_enum/meta.py:503-511 | with the columns measured on the printed rows, the text is those lines, each ended by a newline |
| `Table.MaxLength` | named_enum/meta.py:494-499 | the loop's maximum of `len` over the heading and the column is the column width |
| `Table.ColumnWidths` | named_enum/meta.py:489-500 | the loop over the columns yields the widths and the capitalized headings |
| `Table.AppendRowLines` | named_enum/meta.py:506-511 | appending row by row gives the output followed by every row line |
| `Table.Render` | named_enum/meta.py:489-511 | the text built step by step is the table with columns sized on the measured strings and holding the printed rows |
| `Collector.ConvertAll` | named_enum/meta.py:56-69 | converting the pending values succeeds exactly when each one converts, giving their conversions in order; otherwise it fails with the error of the first value that fails |
| `Collector.ConvertAllPrefixFails` | named_enum/meta.py:61-69 | once a prefix of the values fails, converting more values fails with the same error, because the loop stops at the first failure |
| `Collector.NamedEnumDict.constructor` | named_enum/meta.py:109 | a fresh namespace is empty and records no members |
| `Collector.NamedEnumDict.SetItem` | named_enum/meta.py:23-33 | `_field_names_` is stored untracked. Any other `_sunder_` name outside the allowed set is refused and nothing changes. An allowed sunder is stored untracked. A dunder is stored untracked, with `__order__` stored as `_order_`. A reused member name and a name already bound are refused without change. A fresh name is bound and appended to the member names and the pending values |
| `Collector.NamedEnumDict.AddMember` | named_enum/meta.py:31-33 | binding a fresh plain name records it as the last member with its value |
| `Collector.NamedEnumDict.Clean` | named_enum/meta.py:35-42 | exactly the member keys are deleted; every other binding keeps its value; the member and value lists are emptied |
| `Collector.NamedEnumDict.ConvertPending` | named_enum/meta.py:56-69 | the conversion loop computes exactly the conversion of the pending values |
| `Collector.NamedEnumDict.Reinsert` | named_enum/meta.py:72-75 | putting the converted values back under the old names makes those the member names and values again, adds exactly those keys, and keeps every other binding |
| `Collector.NamedEnumDict.Materialize` | named_enum/meta.py:53-75 | on a failed conversion the namespace is unchanged; otherwise the members are the same names, in order, bound to their converted values, and the untracked bindings are kept |
| `Collector.FillHead` | tests/meta/test__NamedEnumDict.py:15-26 | after `_field_names_`, `a` and `_a` are set, `_a` counts as a member and `_field_names_` does not |
| `Collector.Filled` | tests/meta/test__NamedEnumDict.py:15-38 | the fixture's five assignments give the expected dictionary, the member names `a, _a, b` and their values; `__a__` is not a member |
| `Collector.FillPending` | tests/meta/test__NamedEnumDict.py:32-36 | the fixture's pending names and values, and the keys bound without being members |
| `Collector.Cleaned` | tests/meta/test__NamedEnumDict.py:66-76 | cleaning the fixture leaves only `_field_names_` and `__a__`, with empty member lists |
| `Collector.CleanedWith` | tests/meta/test__NamedEnumDict.py:86-88 | after cleaning the fixture, binding `b` makes it the only member |
| `Collector.RefuseSunder` | tests/meta/test__NamedEnumDict.py:58-64 | setting `_a_` is refused as a reserved sunder name and binds nothing |
| `Meta.ConvertValue` | named_enum/meta.py:57-69 | with one field every value is wrapped whole. With more fields, a non-sequence cannot be unpacked, a string is passed whole and fails on arity, and other sequences are unpacked, succeeding exactly when their length matches |
| `Meta.Convert` | named_enum/meta.py:44-75 | a class that is not a namedtuple class is refused with nothing changed; otherwise the namespace ends in the converted state of its pending values |
| `Meta.ConvertFixtureOneField` | tests/meta/test__NamedEnumDict.py:99-116 | converting the fixture with a one-field record wraps each member value and keeps the untracked bindings |
| `Meta.ConvertFixturePlainTuple` | tests/meta/test__NamedEnumDict.py:78-84 | converting with bare `tuple` is refused and the members stay |
| `Meta.ConvertCleanedScalar` | tests/meta/test__NamedEnumDict.py:86-91 | the number 1 cannot be unpacked into two fields |
| `Meta.ConvertCleanedString` | tests/meta/test__NamedEnumDict.py:93-97 | the string `"1,2"` with two fields fails the record's arity check, since a string is passed whole |
| `Meta.ConvertCleanedPair` | tests/meta/test__NamedEnumDict.py:118-133 | `[111, 222]` becomes the record `(key=111, value=222)`, the only member |
| `Meta.ResolveSpecAsWritten` | named_enum/meta.py:139-142 | the class's own spec, else what the first base's own body binds, or `None`; with no base at all `bases[0]` fails with `IndexError` |
| `Meta.ResolveSpec` | named_enum/meta.py:225-226 | the specification attribute lookup finds for `cls._field_names_`: the class's own binding, else the nearest base that binds one; `None` when no class up the chain binds it |
| `Meta.ReservedAsWritten` | named_enum/meta.py:148-149 | the written check refuses a field list only when it holds both `name` and `value`, so a refused list is also refused by the intended check and has at least two fields |
| `Meta.Reserved` | named_enum/meta.py:149 | the check the error message states: a field list passes exactly when none of its fields is `name` or `value` |
| `Meta.ChainOf` | named_enum/meta.py:139-156 | each class up the first-base chain keeps its own binding and holds the record class `__new__` built for it from the spec it resolved as written, if any |
| `Meta.FirstReassigned` | named_enum/meta.py:175-179 | nothing exactly when no member is named `_tuple_cls` or like a function `setattr` attaches; otherwise one of the member names it would reassign |
| `Meta.Zip` | named_enum/meta.py:72-75 | member names paired with their values position by position |
| `Meta.Construct` | named_enum/meta.py:145-187 | a falsy spec gives a plain enumeration of the raw values. Otherwise construction succeeds exactly when namedtuple accepts the spec, the reserved check passes, every value converts and no member is named `_tuple_cls` or like an attached function; each failure is reported as such, a reassigned member by its name. The class keeps the name, member names, own binding and chain, its fields are valid and pass the check, and each member's value is its conversion |
| `Meta.BuildAsWritten` | named_enum/meta.py:139-187 | with no own spec and no base the call fails with `IndexError`; otherwise, over the as-written spec, a falsy spec gives a plain enumeration, and construction succeeds exactly when namedtuple accepts the spec, the both-names check passes, every value converts and no member takes an attached name; a field list holding both names is refused. The class records its own binding and its chain |
| `Meta.Build` | named_enum/meta.py:139-187 | the intended construction: the spec the class inherits, and a field list holding `name` or `value` is refused; otherwise the same success condition; a built class never has a reserved field |
| `Meta.BuildAgrees` | named_enum/meta.py:139-149 | when the class or its first base declares the spec and the two reserved checks agree on its fields, the as-written and the intended construction are the same |
| `Meta.New` | named_enum/meta.py:122-187 | the metaclass call returns exactly the as-written construction over the namespace's state before the call, and the class is well formed with no member named like an attached function |
| `Meta.FieldsOfBuilt` | named_enum/meta.py:203-227 | whenever a class is built, `_fields()` of it reports the fields of its inherited specification, even where `__new__` read no specification and built a plain enumeration |
| `Meta.ConstructWellFormed` | named_enum/meta.py:145-187 | a constructed class has distinct member names, valid fields, a record of those fields as every value, and no member named `_tuple_cls` or like an attached function |
| `Meta.ResolveSpecAsWrittenOneLevel` | named_enum/meta.py:139-142 | the spec as written is the inherited lookup cut to the first base. The two agree whenever the class or its first base binds the spec |
| `Meta.ResolveSpecInherits` | named_enum/meta.py:139-142 | the class's own spec wins; without it the parent's inherited spec is used |
| `Meta.SpecResolutionSkipsGrandparent` | named_enum/meta.py:139-142 | a grandchild of `LabeledEnum` through a class with no spec resolves to no spec as written, but to `("key", "label")` by inheritance |
| `Meta.ReservedCheckAcceptsName` | named_enum/meta.py:148-149 | the as-written check lets `("name", "key")` through, which the intended check refuses; the written check is never stricter |
| `Meta.Names` | named_enum/meta.py:546-547 | one name per member |
| `Meta.Values` | named_enum/meta.py:581-582 | one value per member |
| `Meta.Members` | named_enum/meta.py:296-335 | one member per entry |
| `Meta.Gen` | named_enum/meta.py:333-335 | one `(name, value)` pair per member |
| `Meta.GenPairsNamesValues` | named_enum/meta.py:333-335 | `gen()` pairs `names()` with `values()` position by position, and agrees with the members |
| `Meta.Fields` | named_enum/meta.py:203-227 | `_fields()`: a class built with a record class reports its fields; a plain enumeration reports none when `cls._field_names_` is falsy, and otherwise the fields of a record class some base holds |
| `Meta.NearestRecord` | named_enum/meta.py:226 | `cls._tuple_cls` looked up the chain: none exactly when no base holds a record class, else the record class one of them holds |
| `Meta.FieldValues` | named_enum/meta.py:249-251 | `<field>s()` has one value per member, in declaration order; `Enums.FieldReadThrough` shows the i-th is member i's field |
| `Meta.Filter` | named_enum/meta.py:271-273 | filtering keeps exactly the members whose field equals the value, in declaration order |
| `Meta.FromField` | named_enum/meta.py:271-273 | `from_<field>(v)` gives exactly the members whose field equals v, in order |
| `Meta.HasField` | named_enum/meta.py:276-294 | `has_<field>(v)` holds exactly when some member's field equals v |
| `Meta.HasFieldIffFromField` | named_enum/meta.py:293-294 | `has_<field>(v)` holds exactly when `from_<field>(v)` is non-empty |
| `Meta.LookupFunction` | named_enum/meta.py:175-183 | the attribute names a generated function of some field. None of the later fields generates the same name, so the last assignment is the one kept. There is no function exactly when no field generates the name |
| `Meta.LookupFunctionOfField` | named_enum/meta.py:175-183 | when no generated names clash, the function named after a field and a kind is that query |
| `Meta.ClassFunctionOfField` | named_enum/meta.py:158-183 | `cls.<field>s`, `cls.from_<field>` and `cls.has_<field>` are the three queries of that field when names do not clash |
| `Meta.UnknownClassFunction` | named_enum/meta.py:175-183 | attribute lookup on the class finds nothing exactly when no member has that name and no field of the class or of any class up its chain generates it |
| `Meta.ClassFunction` | named_enum/meta.py:175-183 | `getattr(cls, attr)` among the attributes the metaclass creates: a member of that name, else a per-field function found on the class or up its chain, attached under exactly that name by a field of that level; otherwise an attribute error naming it |
| `Meta.ClassFunctionFinds` | named_enum/meta.py:175-183 | lookup fails exactly when no member and no level generates the name; a member is found exactly when one has the name, and then the first; a function is found at the nearest level whose fields generate the name |
| `Meta.LookupFrom` | named_enum/meta.py:175-183 | the per-field function found from a given level up: it lies at or above that level and is the function that level's fields attach under the name |
| `Meta.LookupFromNone` | named_enum/meta.py:175-183 | lookup from a level finds nothing exactly when no level from there up generates the name |
| `Meta.LookupFromFirst` | named_enum/meta.py:175-183 | every level below the one where lookup finds the function generates nothing under that name |
| `Meta.InheritedQueriesEmpty` | named_enum/meta.py:249-294 | a function inherited from a base is bound to that base, which has no members: `<field>s()` and `from_<field>(v)` are empty and `has_<field>(v)` is false |
| `Meta.PluralsBound` | named_enum/meta.py:175-183 | when no member takes a generated name and no generated names clash, `cls.<field>s` is that field's own plural function for every field |
| `Meta.ContainsExactlyMembers` | named_enum/meta.py:189-201 | every member and every member name is in the class; a string is in it exactly when it names a member; a member of another class, or anything else, is not |
| `Meta.Contains` | named_enum/meta.py:189-201 | `x in cls` holds only for a string or a member of this class, and only when some member has that name |
| `Meta.DictOfPairs` | named_enum/meta.py:374 | the dictionary has exactly the keys of the pairs |
| `Meta.DictOfPairsAt` | named_enum/meta.py:374 | with distinct keys, each key maps to its own value |
| `Meta.DictOfDistinctPairs` | named_enum/meta.py:374 | with distinct keys, every pair survives in the dictionary |
| `Meta.FirstUnhashable` | named_enum/meta.py:416 | there is no unhashable value exactly when all values are hashable; otherwise it finds the first unhashable one |
| `Meta.GenDict` | named_enum/meta.py:374 | `dict(gen())` has exactly the member names as keys, each holding its member's value |
| `Meta.NameValueDict` | named_enum/meta.py:374 | `as_dict()` maps exactly the member names, each to its member's value |
| `Meta.AsDataType` | named_enum/meta.py:337-457 | `as_list`/`as_tuple` are `gen()`'s pairs, `as_dict` and `as_ordereddict` map each name to its value (the latter in declaration order), and `as_set` succeeds exactly when every value is hashable |
| `Meta.ClassRepr` | named_enum/meta.py:459-465 | `repr(cls)` is `<named enum '` + the class name + `'>` |
| `Meta.Labels` | named_enum/meta.py:491 | the columns are `name` followed by every field `_fields()` reports, or `value` alone |
| `Meta.Row` | named_enum/meta.py:506-511 | a row starts with the member's name and has a cell per column |
| `Meta.Rows` | named_enum/meta.py:506-511 | one row per member, each as wide as the heading row |
| `Meta.FirstUnformattableIn` | named_enum/meta.py:508 | there is no unformattable item exactly when every item can be right-aligned |
| `Meta.FirstUnformattable` | named_enum/meta.py:506-508 | nothing exactly when every field value can be width-formatted; otherwise a value that cannot, at a position where every value before it, member by member and field by field, can |
| `Meta.NameWidth` | named_enum/meta.py:493-494 | the name column is at least as wide as its heading; it is measured on whatever `cls.names()` returns |
| `Meta.FieldWidth` | named_enum/meta.py:496-499 | a field column is at least as wide as its heading; it is measured on `str` of whatever `getattr(cls, "<field>s")()` returns |
| `Meta.WidthResults` | named_enum/meta.py:491-499 | one measurement per column: the name column first, then each label's column in order |
| `Meta.DescribeWidths` | named_enum/meta.py:489-501 | when every column measures, one width per label, each at least as wide as it; a failing `names()` call is the error raised |
| `Meta.MeasureWidths` | named_enum/meta.py:489-500 | the measuring loop returns exactly the widths, or the first error raised while measuring |
| `Meta.MeasureFieldColumns` | named_enum/meta.py:496-500 | after the name column, the loop over the fields returns exactly the widths or the first field column's error |
| `Meta.PrintedRow` | named_enum/meta.py:506-511 | a printed row has one cell per label and starts with the member name; a class reporting fields cannot print a member whose value is not iterable |
| `Meta.PrintedRows` | named_enum/meta.py:506-511 | the rows print exactly when every member's row does, each in declaration order; otherwise the error of the first that does not |
| `Meta.FormatRows` | named_enum/meta.py:506-511 | the loop over members returns exactly the printed rows or the first row's error |
| `Meta.RecordRow` | named_enum/meta.py:506-508 | a member of a class reporting its own fields prints exactly when every item of its record formats with a width, and then as its record row; the first item that does not is the error |
| `Meta.DescribeText` | named_enum/meta.py:467-512 | `describe` succeeds exactly when every column measures and every row prints; a failing name column is its error; the text starts with the `Class:` line |
| `Meta.DescribeTextOf` | named_enum/meta.py:501-511 | once the widths are measured, the text is the table over the printed rows, or the first row's error |
| `Meta.StandardLookupsOf` | named_enum/meta.py:491-499 | for a class that reports its own fields, whose generated names do not clash, and which has no member named `names`, `values`, `_tuple_cls` or like a generated function and no level with a field `name` or `value`, every lookup `describe` makes lands on the metaclass's `names` and each field's own plural function |
| `Meta.StandardWidths` | named_enum/meta.py:491-501 | under those lookups the widths are the longest of each column's heading and the cells of the table's rows |
| `Meta.DescribeStandard` | named_enum/meta.py:467-512 | under those lookups, a record class with a value that cannot be width-formatted raises on the first such value; otherwise the text is the table of the labels over the member rows |
| `Meta.DescribeStandardLayout` | named_enum/meta.py:467-512 | under those lookups `describe` fails exactly when a record field holds a value that cannot be width-formatted, and otherwise every line after the title is as wide as the header |
| `Meta.Describe` | named_enum/meta.py:467-512 | the method built step by step, measuring then formatting, returns exactly the described text |
| `Meta.DescribeLayout` | named_enum/meta.py:489-512 | whatever the lookups find, a successful `describe` prints the title line, the header of capitalized labels, a dash line as long as the header, then one line per member in declaration order starting with its name, every column at least as wide as its label. Lines are not promised equal widths: a lookup that lands elsewhere measures other strings than the rows print |
| `Enums.ClassAttribute` | named_enum/meta.py:155-184 | what ordinary lookup finds on the class for a member: `_field_names_` always; a member of that name (the first); `_tuple_cls` exactly when the class or a base holds a record class; otherwise exactly what `ClassFunction` finds, a function attached under that name by a field at its level |
| `Enums.GetAttr` | named_enum/enum.py:126-139 | `name`/`_name_` and `value`/`_value_` come from the member itself; then a class attribute is found by ordinary lookup; only otherwise does `__getattr__` run, reading a field `_fields()` reports from the value; anything else fails naming the class and the attribute |
| `Enums.ReadField` | named_enum/enum.py:138 | `getattr(self._value_, item)`: a record yields the item of that field; a value without that field fails naming its type and the attribute |
| `Enums.MemberShadowsField` | named_enum/enum.py:126-139 | an attribute named like a member is that member, whatever the fields say |
| `Enums.MemberSeesFunctions` | named_enum/enum.py:126-139 | when generated names do not clash, `member.<F>s`, `member.from_<F>` and `member.has_<F>` are field F's functions and never a record field |
| `Enums.FieldReadThrough` | named_enum/enum.py:137-139 | when no field is reserved and none is named like a generated function, `member.<field>` equals the member's entry in `<field>s()` |
| `Enums.NameFieldShadowed` | named_enum/enum.py:126-139 | with fields `("name", "key")` the intended construction refuses the class, the as-written one builds it, and `member.name` then returns the member's name rather than its `name` field |
| `Enums.FieldsReadRawValues` | named_enum/meta.py:57-69 | after construction, reading field k of a member gives the raw value declared for it (one field) or its k-th element |
| `Enums.MemberStr` | named_enum/enum.py:141-148 | `str(member)` is `<Class>.<name>: <repr(value)>` |
| `Enums.MemberStrDistinct` | named_enum/enum.py:141-148 | two members of a class have different `str` as long as member names contain no colon |
| `Enums.TwoNameSpec` | named_enum/enum.py:308 | a two-name tuple spec of valid distinct names yields those two fields and is truthy |
| `Enums.KeyLabelValid` | named_enum/enum.py:308 | `("key", "label")` are valid, unreserved fields |
| `Enums.FirstSecondValid` | named_enum/enum.py:413 | `("first", "second")` are valid, unreserved fields |
| `Enums.NameKeyValid` | named_enum/meta.py:147-149 | `("name", "key")` are valid field names that the as-written reserved check lets through |
| `Enums.TwoFieldConstruct` | named_enum/meta.py:145-152 | with a two-field spec, construction succeeds exactly when every value is a non-string sequence of two elements, each becoming the record of its elements |
| `Enums.LabeledEnumSubclass` | named_enum/enum.py:205-308 | a direct `LabeledEnum` subclass is built the same as written and as intended, with fields `key, label`, exactly from pairs |
| `Enums.LabeledEnumGrandchild` | named_enum/meta.py:139-142 | a grandchild of `LabeledEnum` through a class without a spec is, as written, a plain enumeration of its raw values whose `_fields()` still reports `key, label`; the intended construction builds records of `key, label` and accepts exactly pairs |
| `Enums.LabeledChain` | named_enum/enum.py:205-308 | under a spec-less class, the chain holds that class and `LabeledEnum` with the record class `key, label`, and `NamedEnum` with none |
| `Enums.PlainChain` | named_enum/meta.py:185-186 | a plain enumeration under classes that bind no truthy spec reports no fields, keeps its raw values and has no per-field functions |
| `Enums.GrandchildBuilt` | named_enum/meta.py:139-186 | `class B(A): X = ("x", "y")` under `class A(LabeledEnum): pass` builds, as written, the plain class B over that chain |
| `Enums.GrandchildWellFormed` | named_enum/meta.py:203-227 | B is well formed, its only member is `X`, `_fields()` reports `key, label`, and A and `LabeledEnum` hold that record class while B and `NamedEnum` hold none |
| `Enums.GrandchildPlurals` | named_enum/meta.py:175-180 | `B.keys` and `B.labels` are the plural functions attached on A |
| `Enums.GrandchildView` | named_enum/enum.py:126-139 | `B._fields()` is `key, label`, `B.keys` is A's function and returns nothing, and `B.X.key` fails on the raw tuple |
| `Enums.GrandchildNames` | named_enum/meta.py:546-547 | `B.names()` is the metaclass's: the member name `X` |
| `Enums.GrandchildWidths` | named_enum/meta.py:489-501 | `B.describe()` measures the widths 4, 3 and 5: the field columns measure only their headings |
| `Enums.GrandchildRows` | named_enum/meta.py:506-508 | B prints the one row `X`, `x`, `y` from the items of its raw tuple |
| `Enums.GrandchildDescribe` | named_enum/meta.py:467-512 | `B.describe()` prints a `Name`, `Key`, `Label` table over that row |
| `Enums.PairEnumSubclass` | named_enum/enum.py:312-413 | a `PairEnum` subclass is built the same as written and as intended, with fields `first, second`, exactly from pairs |
| `Enums.ExtendedEnumSubclass` | named_enum/enum.py:151-202 | `ExtendedEnum` and `NamedEnum` subclasses are, as written and as intended, plain enumerations over their raw values, with no fields and no per-field functions |
| `Enums.LegendaryWellFormed` | tests/enum/test_LabeledEnum.py:6-8 | the test class `NBALegendary` is well formed, with fields `key, label` |
| `Enums.LegendaryJordan` | tests/enum/test_LabeledEnum.py:156-161 | `Jordan.key` is `"Jordan"`, `Jordan.name` is `"Jordan"`, `Jordan.keys` is the class's `keys` function, and `nickname` is refused naming the class |
| `Enums.NameKeyClassBuilt` | named_enum/meta.py:139-187 | `_field_names_ = ("name", "key")` with `A = ("long text", 1)` builds as written |
| `Enums.NameKeyPlurals` | named_enum/meta.py:175-180 | on that class the attached `names` hides the metaclass's: `names()` returns `long text`, and `keys()` returns `1` |
| `Enums.NameKeyWidths` | named_enum/meta.py:489-501 | `describe` then measures the name column on `long text` too: the widths are 9, 9 and 3 |
| `Enums.NameKeyRows` | named_enum/meta.py:506-508 | the printed row is `A`, `long text`, `1` |
| `Enums.NameFieldDescribe` | named_enum/meta.py:467-512 | the table it prints has the columns `name`, `name`, `key` with those widths over that row |
| `Enums.ReassignRefused` | named_enum/meta.py:175-179 | a member `keys` under `LabeledEnum` makes `__new__` fail: `setattr` would reassign the member |
| `Enums.MemberNamedLikeField` | named_enum/enum.py:126-139 | on a `LabeledEnum` subclass with a member `key`, `member.key` is that member, while the field's values are still read from the records |
| `Legacy.ConvertValue` | named_enum/__init__.py:61-65 | a non-string collection is unpacked and must match the field count; anything else is the single argument, so it needs exactly one field |
| `Legacy.Convert` | named_enum/__init__.py:50-71 | the older `_convert` leaves the namespace unchanged on failure, else in the converted state |
| `Legacy.New` | named_enum/__init__.py:112-170 | the older metaclass call is the as-written construction over the older conversion, and the class is well formed |
| `Legacy.AgreesWithCurrent` | named_enum/__init__.py:61-65 | with any number of fields but one (none included) the two versions agree on sequences; only the older unpacks a set of the right size; both refuse a scalar |
| `Legacy.DiffersOnOneField` | named_enum/__init__.py:61-65 | with one field they agree on everything but non-string collections, which only the older one unpacks and refuses unless they have one element |
| `Legacy.PairEnumSubclass` | named_enum/__init__.py:509-514 | an older `PairEnum` subclass is built the same as written and as intended, with fields `first, second`, exactly from two-element non-string collections |
| `Oldest.ResolveSpecAsWritten` | src/named_enum/__init__.py:108-111 | indexing fails exactly when neither the class nor its first base binds the spec: `IndexError` with no base, `KeyError` when the first base binds none; where it succeeds it is the nearest declaration |
| `Oldest.Construct` | src/named_enum/__init__.py:113-139 | a record class is always built: it succeeds exactly when namedtuple accepts the spec, every value converts the older way and no member is named like an attached function; an invalid spec and a reassigned member are reported as such. The class keeps the name and member names, with valid fields and each value its conversion; there is no reserved check |
| `Oldest.BuildAsWritten` | src/named_enum/__init__.py:106-119 | with no own spec, no base gives `IndexError` and a first base without a spec gives `KeyError`; otherwise it is the construction over that spec |
| `Oldest.Build` | src/named_enum/__init__.py:106-119 | the intended construction over the nearest declaration up the first-base chain, with the same success condition and errors |
| `Oldest.BuildAgrees` | src/named_enum/__init__.py:108-111 | wherever the as-written construction succeeds it is the intended one, and the two are the same whenever the class or its first base declares the spec |
| `Oldest.New` | src/named_enum/__init__.py:94-139 | the metaclass call returns exactly the as-written construction of the old namespace state, always a well-formed class with fields under which no member takes an attached name |
| `Oldest.ChainOf` | src/named_enum/__init__.py:108-119 | each class up the first-base chain keeps its own binding and holds the record class built from the spec it resolved as written, if that succeeded |
| `Oldest.ConstructWellFormed` | src/named_enum/__init__.py:113-139 | a constructed class has distinct member names, valid fields, a record of those fields as every value, and no member named like an attached function |
| `Oldest.DefaultKeyField` | src/named_enum/__init__.py:266 | a direct `NamedEnum` subclass has the one field `key`; a non-string collection must hold exactly one element, anything else is wrapped whole |
| `Oldest.PairEnumGrandchild` | src/named_enum/__init__.py:108-111 | a grandchild of `PairEnum` through a class with no spec fails with `KeyError` as written, while the intended construction gives fields `first, second` and accepts exactly two-element non-string collections |
| `Oldest.ClassFunctionOfField` | src/named_enum/__init__.py:121-138 | without clashes, `<field>s` and `from_<field>` are that field's queries; `has_<field>` is found only when a member has that name or a field somewhere up the chain happens to generate it |
| `Oldest.FieldAttr` | src/named_enum/__init__.py:278-289 | `getattr(member, F)`: a field called `name` or `value` gives the member's name or value; a field named like a member gives that member; one named like an attached function on any level gives that function; otherwise the record's field |
| `Oldest.ReadsRecordField` | src/named_enum/__init__.py:278-289 | a field that is neither `name` nor `value`, names no member and is named like no attached function reads the record's field |
| `Oldest.FieldAttrs` | src/named_enum/__init__.py:141-149 | `<field>s()` has one attribute per member, in declaration order: the field's column when it reads through to the record, the member names for a field called `name`, and the same member throughout for a field named like a member |
| `Oldest.FirstMatchFrom` | src/named_enum/__init__.py:161-162 | nothing exactly when no member from a position on has attribute F equal to the value; otherwise the first member that does |
| `Oldest.FromFieldFirst` | src/named_enum/__init__.py:151-162 | `from_<field>(v)` is the first member whose attribute F equals v, or `None` when none does |
| `Oldest.FilterNoMatch` | src/named_enum/__init__.py:161-162 | with no matching member the filter is empty |
| `Oldest.FilterHead` | src/named_enum/__init__.py:161-162 | the first element of the filter is the first matching member |
| `Oldest.FromFieldFirstIsHead` | src/named_enum/__init__.py:151-162 | for a field that reads through to the record, the oldest `from_<field>` is the head of the current version's `from_<field>`, or `None` |
| `Oldest.FirstMatchIsFilterHead` | src/named_enum/__init__.py:151-162 | the first matching member heads the current `from_<field>` |
| `Oldest.NoMatchEmptyFilter` | src/named_enum/__init__.py:151-162 | with no match the current `from_<field>` is empty |
| `Oldest.DistinctHashable` | src/named_enum/__init__.py:172-178 | the value map's keys are exactly the hashable values, each once |
| `Oldest.DistinctHashableOrdered` | src/named_enum/__init__.py:172-178 | the keys come in the order in which their values first appear among the members |
| `Oldest.Tuples` | src/named_enum/__init__.py:172-178 | `tuples()` holds only hashable member values and every one of them, each once, in the order of first appearance |
| `Oldest.DistinctHashableIsIdentity` | src/named_enum/__init__.py:172-178 | hashable, pairwise distinct values pass through unchanged and in order |
| `Oldest.TuplesAreValues` | src/named_enum/__init__.py:172-178 | when values are hashable and distinct, `tuples()` is the member values in declaration order |
| `Oldest.MeasuredRows` | src/named_enum/__init__.py:200-203 | the strings `describe` measures: `str(getattr(member, F))` for each field, which is the record's item where the field reads through, the member name for a field called `name`, and the `str` of the member for a field named like one |
| `Oldest.AttributeText` | src/named_enum/__init__.py:202 | `str` of what `getattr(member, F)` gives: a value's `str`, a member's `str`, or for an attached function the text `functools.partial(...)` ending with the field name's repr |
| `Oldest.Rows` | src/named_enum/__init__.py:210-212 | the printed rows: one per member, the `str` of each item of its record |
| `Oldest.MeasuredRowsArePrinted` | src/named_enum/__init__.py:200-212 | when every field reads through to the record, the measured strings are the printed ones |
| `Oldest.PluralBoundIff` | src/named_enum/__init__.py:121-138 | `getattr(cls, "<F>s")` is field F's own query exactly when no later field's `from_<G>` has that name, and always when no generated names clash |
| `Oldest.FirstMisbound` | src/named_enum/__init__.py:200-202 | the first field whose `<F>s` was taken over, every field before it keeping its own; nothing exactly when every field keeps it |
| `Oldest.MisboundError` | src/named_enum/__init__.py:202 | calling a taken-over `<F>s()` fails as not callable exactly when a member has that name, and for want of an argument exactly when it is another field's `from_` function |
| `Oldest.DescribeText` | src/named_enum/__init__.py:190-213 | a taken-over `<F>s` is the error raised first; then the first value that cannot be width-formatted; a successful text starts with the `Class:` line |
| `Oldest.CheckPluralNames` | src/named_enum/__init__.py:200-202 | the loop looks up `<F>s` for each field and stops at the first one that is not that field's own query: exactly that first field |
| `Oldest.Describe` | src/named_enum/__init__.py:190-213 | the method built step by step returns the described text: for a field whose `<F>s` was taken over, calling it fails (a member is not callable, a `from_` function lacks its argument); else the first unformattable value; else the table sized on the measured strings over the printed rows |
| `Oldest.DescribeFails` | src/named_enum/__init__.py:190-213 | `describe` fails exactly when some field's `<F>s` was taken over or some value cannot be width-formatted |
| `Oldest.DescribeLayout` | src/named_enum/__init__.py:197-212 | the text is the title, the header of the fields alone, a dash line as long as the header, and one line per member with only its record's items; when every field reads through, every line is as wide as the header |
| `Oldest.NameKeySampleBuilt` | src/named_enum/__init__.py:108-119 | `_field_names_ = ("name", "key")` with `A = ("long text", 1)` under `NamedEnum` builds, as written, the sample class, which is well formed |
| `Oldest.NameKeySampleWellFormed` | src/named_enum/__init__.py:108-139 | the sample has the one member `A` and the fields `name, key`, under `NamedEnum`'s record class `key` |
| `Oldest.NameKeySampleKeyUnbound` | src/named_enum/__init__.py:121-138 | no attribute `key` is attached on the sample or on `NamedEnum` |
| `Oldest.NameKeySampleAttrs` | src/named_enum/__init__.py:278-289 | on the sample member, `getattr(A, "name")` is `"A"` and `getattr(A, "key")` is `1` |
| `Oldest.NameFieldReadsMemberName` | src/named_enum/__init__.py:141-162 | on the sample, `names()` gives the member name, `from_name("long text")` finds nothing and `from_name("A")` finds the member |
| `Oldest.NameKeySampleRows` | src/named_enum/__init__.py:200-212 | on the sample, `describe` measures `A` and `1` but prints `long text` and `1` |
| `Oldest.NameColumnOverflows` | src/named_enum/__init__.py:197-212 | on the sample, `describe` sizes its columns 4 and 3, and the printed row is wider than the header |
| `Oldest.SampleDescribes` | src/named_enum/__init__.py:190-213 | the sample's `describe` succeeds |
| `Oldest.SampleLineLengths` | src/named_enum/__init__.py:197-209 | the columns measured on `A` and `1` are 4 and 3 wide; the header is 10 characters and the row of `long text` and `1` is 15 |

## Left out

- `__prepare__`, `namedenum()` (the dynamic class factory), and the parts
  of the standard `EnumMeta` that the library does not change: member
  objects, aliases of equal values, `_value2member_map_`, iteration
  protocols and `_ignore_`/`auto()` handling. The standard library is not
  part of this model. Members are modelled as `(name, value)` entries in
  declaration order. Two members with equal values are two entries, where
  Python makes the second an alias of the first.
- Collector.NamedEnumDict.SetItem: models the version of `_EnumDict.__setitem__`
  that keeps `_member_names` as a list (before Python 3.11), not the later
  dict form. Descriptors such as functions are not distinguished from
  plain values. Exception messages are not modelled, only their kinds.
- `print` in `describe`: the model returns the text that is printed.
- Generators: `gen()` and `from_<field>(as_tuple=False)` are lazy in
  Python. The model gives the finished sequence.
- `setattr` with `functools.partial`: the attached functions are modelled
  as `LookupFunction`, which names the query an attribute resolves to on
  one level of the chain. Class attributes other than the members,
  `_field_names_`, `_tuple_cls`, the attached functions and the
  metaclass's own `names()` and `values()` are not modelled, so a clash
  with any other metaclass method is not either.
- Enums.GetAttr: the only class attributes it knows are the ones the
  metaclass code creates (`_field_names_`, `_tuple_cls` and the attached
  functions). Other attributes of `Enum` and `object`, such as methods
  and `__class__`, are treated as absent.
- Enums.ReadField: reading a field from a value that is not a record
  (the raw tuples of a plain enumeration) always fails naming the value's
  type. Attributes of that type itself, such as a tuple's `count`, are
  not modelled.
- Oldest.AttributeText: the `str` of an attached `functools.partial` is
  written in the CPython 3.8+ layout. It also assumes that the metaclass
  is not subclassed and that the package is imported as `named_enum`.
- Membership in the older version: `named_enum/__init__.py` does not
  override `__contains__`, so `in` falls to the standard `EnumMeta`, which
  is not part of this model. `Meta.Contains` models only the current
  version's override.
- Meta.ContainsExactlyMembers: a member operand is compared by its class
  name and member name, not by object identity. Two distinct classes with
  the same name are therefore not told apart.
- Meta.FromField: field values are compared by structural equality of the
  model's values. In Python a namedtuple equals a plain tuple of the same
  items, while the model's `Rec` never equals a `Tuple`.
  `Oldest.FromFieldFirst`, `Meta.HasFieldIffFromField` and
  `Meta.ContainsExactlyMembers` compare in the same way.
- `repr` of strings uses single quotes without escaping. Identifiers are
  ASCII only. The model has no `str`/`int` mix-in enumerations.
- namedtuple's `rename` and `defaults`, and tuple subclasses that lack
  `_fields`. The current `_convert` rejects every class that is not a
  namedtuple class with one error kind.
- Oldest: the message of the failing `super().__getattr__` call is not
  modelled, only that the lookup fails with an `AttributeError`.
- The exact exception types (`ValueError`, `TypeError`, `AttributeError`,
  `KeyError`, `IndexError`): the model only distinguishes the error kinds.

## Findings

| source | as written | input that shows it | evidently intended | confidence | as-written member | corrected member |
|---|---|---|---|---|---|---|
| named_enum/meta.py:148-149 | `{"name", "value"}.issubset(fields)` refuses only a field set holding both names | `_field_names_ = ("name", "key")`: the class is built, and `member.name` returns the member's name instead of the field | refuse a field set holding either name, as the error message says ("'name' or 'value' cannot be attributes") | not executed | `Enums.NameFieldShadowed` | `Meta.Build` |
| named_enum/meta.py:139-142 | a class without its own spec reads only `bases[0].__dict__` | `class A(LabeledEnum): pass` then `class B(A): X = ("x", "y")`: B gets no spec, so its values stay plain tuples, while `B._fields()`, `B.keys` and `B.describe()` still see A's fields `key, label` | inherit the nearest spec up the chain, as `_fields` and attribute lookup do | not executed | `Enums.LabeledEnumGrandchild` | `Meta.Build` |
| src/named_enum/__init__.py:108-111 | `bases[0].__dict__['_field_names_']` raises `KeyError` when the first base has no spec of its own | `class A(PairEnum): pass` then `class B(A): X = (1, 2)` | inherit the nearest spec (`first`, `second`) | not executed | `Oldest.PairEnumGrandchild` | `Oldest.Build` |
