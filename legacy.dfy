/**
 * The older metaclass, named_enum/__init__.py.  Its namespace class,
 * construction, queries, exports and `describe` are the same code as the
 * current version's except for `_convert`, which neither checks the record
 * class nor looks at the field count: every collection other than a string
 * is unpacked positionally and everything else is passed whole.  This module
 * models that conversion, the construction built on it, the `PairEnum` it
 * declares, and how the two conversions relate.
 */
module Legacy {
  import opened Python
  import opened Collector
  import Meta
  import Enums

  /**
   * The conversion of one raw value by the older `_convert`: a non-string
   * collection (a sequence, a set, a dictionary) is unpacked into the record
   * constructor, anything else is its single argument; the record takes
   * exactly one argument per field.
   */
  function ConvertValue(fields: seq<string>, raw: Value): (r: Result<Value, Error>)
    ensures r.Ok? ==> Meta.RecordOf(r.value, fields)
    ensures IsCollection(raw) && !raw.Str? ==>
      (r.Ok? <==> |raw.items| == |fields|) && (r.Ok? ==> r.value.items == raw.items)
    ensures !(IsCollection(raw) && !raw.Str?) ==>
      (r.Ok? <==> |fields| == 1) && (r.Ok? ==> r.value.items == [raw])
    ensures r.Err? ==> r.error.ArityMismatch? && r.error.expected == |fields|
  {
    if IsCollection(raw) && !raw.Str? then MakeRecord(fields, Unpacked(raw))
    else MakeRecord(fields, [raw])
  }

  /**
   * The older `_convert`: every pending value converted in order; on the
   * first failure the namespace is left as it was; otherwise the namespace
   * is cleaned and the records are put back under the same names.
   */
  method Convert(d: NamedEnumDict, fields: seq<string>) returns (r: Outcome<Error>)
    requires d.Valid()
    modifies d
    ensures d.Valid()
    ensures ConvertedState(ConvertAll(ConvertValue, fields, old(d.lastValues)), r,
                           old(d.entries), old(d.memberNames), old(d.lastValues), d.entries, d.memberNames, d.lastValues)
  {
    r := d.Materialize(ConvertValue, fields);
  }

  /**
   * The older `NamedEnumMeta.__new__`: the same resolution from the class
   * body or the first base's body, truthiness test and both-names
   * reserved check as the current one, over the older conversion.
   */
  method New(name: string, ancestors: seq<Meta.Ancestor>, ns: NamedEnumDict) returns (r: Result<Meta.EnumClass, Error>)
    requires ns.Valid()
    modifies ns
    ensures ns.Valid()
    ensures r == Meta.BuildAsWritten(ConvertValue, name, old(ns.entries), old(ns.memberNames), old(ns.lastValues), ancestors)
    ensures r.Ok? ==> Meta.WellFormed(r.value)
  {
    r := Meta.New(ConvertValue, name, ancestors, ns);
  }

  /**
   * For any field count but one the two conversions agree on every value except
   * a non-string collection that is not a sequence, which only the older one
   * unpacks, and a scalar, which the older one passes whole and the current
   * one refuses before calling the constructor.
   */
  lemma AgreesWithCurrent(fields: seq<string>, raw: Value)
    requires |fields| != 1
    ensures IsSequence(raw) ==> ConvertValue(fields, raw) == Meta.ConvertValue(fields, raw)
    ensures raw.Coll? && |raw.items| == |fields| ==> ConvertValue(fields, raw).Ok? && Meta.ConvertValue(fields, raw).Err?
    ensures !IsCollection(raw) ==> ConvertValue(fields, raw).Err? && Meta.ConvertValue(fields, raw).Err?
  {
  }

  /**
   * For one field the current conversion wraps every value whole, while the
   * older one unpacks a non-string collection and so refuses one of any
   * length other than one.
   */
  lemma DiffersOnOneField(field: string, raw: Value)
    ensures !(IsCollection(raw) && !raw.Str?) ==> ConvertValue([field], raw) == Meta.ConvertValue([field], raw)
    ensures IsCollection(raw) && !raw.Str? && |raw.items| != 1 ==>
      ConvertValue([field], raw) == Err(ArityMismatch(1, |raw.items|)) && Meta.ConvertValue([field], raw).Ok?
  {
  }

  /** The older `NamedEnum`, whose body binds `_field_names_ = None`. */
  const NamedEnum: Meta.Ancestor := Meta.Ancestor("NamedEnum", Some(PyNone))

  /** The older `PairEnum`: `_field_names_ = ("first", "second")` */
  const PairEnum: Meta.Ancestor := Meta.Ancestor("PairEnum", Some(Tuple([Str("first"), Str("second")])))

  /**
   * A subclass of the older `PairEnum` that declares no specification has
   * the fields `first` and `second`, as written and as intended alike; it is
   * built exactly when every raw value is a non-string collection of two
   * elements, each becoming the record of those two elements.
   */
  lemma PairEnumSubclass(name: string, entries: map<string, Value>, names: seq<string>, raws: seq<Value>)
    requires |names| == |raws| && FieldNamesKey !in entries
    ensures var r := Meta.BuildAsWritten(ConvertValue, name, entries, names, raws, [PairEnum, NamedEnum]);
      && r == Meta.Build(ConvertValue, name, entries, names, raws, [PairEnum, NamedEnum])
      && (r.Ok? <==> Meta.Attachable(names, ["first", "second"], Meta.AllKinds) &&
                     forall i :: 0 <= i < |raws| ==> IsCollection(raws[i]) && !raws[i].Str? && |raws[i].items| == 2)
      && (r.Ok? ==> Meta.Fields(r.value) == ["first", "second"]
                    && forall i :: 0 <= i < |raws| ==> r.value.entries[i].1 == Rec(["first", "second"], raws[i].items))
  {
    var ancestors := [PairEnum, NamedEnum];
    assert Meta.OwnSpec(entries) == None;
    assert Meta.Bindings(ancestors) == [PairEnum.binding, NamedEnum.binding];
    Meta.ResolveSpecAsWrittenOneLevel(None, Meta.Bindings(ancestors));
    Enums.FirstSecondValid();
    Enums.TwoNameSpec("first", "second");
    Meta.BuildAgrees(ConvertValue, name, entries, names, raws, ancestors);
    var r := Meta.BuildAsWritten(ConvertValue, name, entries, names, raws, ancestors);
    if r.Ok? {
      forall i | 0 <= i < |raws|
        ensures r.value.entries[i].1 == Rec(["first", "second"], raws[i].items)
      {
        assert ConvertValue(["first", "second"], raws[i]) == Ok(r.value.entries[i].1);
      }
    }
  }
}
