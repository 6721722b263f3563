/**
 * The enumeration members and the ready-made base classes of
 * named_enum/enum.py: reading a field through a member, `str(member)`, and
 * the field specifications `NamedEnum`, `ExtendedEnum`, `LabeledEnum` and
 * `PairEnum` declare, with what a subclass of each inherits.
 *
 * A member is addressed by its class and its position in declaration order.
 */
module Enums {
  import opened Python
  import opened Collector
  import opened Meta

  // ---------------------------------------------------------------------------
  // NamedEnum.__getattr__
  // ---------------------------------------------------------------------------

  /**
   * Attributes that ordinary lookup finds on every member, so that
   * `__getattr__` is never consulted for them.
   */
  predicate OwnAttribute(attr: string) {
    attr == "name" || attr == "_name_" || attr == "value" || attr == "_value_"
  }

  /** What `member.attr` evaluates to. */
  datatype Attribute =
    | Data(v: Value)                          // the member's name or value, or a field of its value
    | MemberOfClass(index: nat)               // a member of the class, stored on the class under its name
    | PerFieldFunction(level: nat, q: Query)  // a function `__new__` attached to a class of the chain
    | TupleClass                              // the record class, stored as `_tuple_cls`
    | FieldNamesSpec                          // `_field_names_`, which every class inherits from `NamedEnum`

  /**
   * The class attributes a member reaches by ordinary lookup before
   * `__getattr__` runs: `_field_names_`, bound on `NamedEnum` itself; the
   * members, stored on their class; the nearest `_tuple_cls`; and the
   * per-field functions of the kinds the version attaches, the class's own
   * dictionary first and then each class up the chain.
   */
  function ClassAttribute(c: EnumClass, kinds: set<QueryKind>, attr: string): (r: Option<Attribute>)
    ensures attr == "_field_names_" ==> r == Some(FieldNamesSpec)
    ensures attr != "_field_names_" && attr in Names(c) ==> r == Some(MemberOfClass(IndexOf(Names(c), attr)))
    ensures attr == "_tuple_cls" && attr !in Names(c) ==> (r == Some(TupleClass) <==> TupleClassFields(c).Some?)
    ensures attr != "_field_names_" && attr != "_tuple_cls" ==> (r.None? <==> ClassFunction(c, kinds, attr).Err?)
    ensures r.Some? && r.value.PerFieldFunction? ==>
      && r.value.level <= |c.bases| && r.value.q.kind in kinds && r.value.q.field < |LevelFields(c, r.value.level)|
      && FunctionName(LevelFields(c, r.value.level)[r.value.q.field], r.value.q.kind) == attr
  {
    if attr == "_field_names_" then Some(FieldNamesSpec)
    else if attr == "_tuple_cls" && attr !in Names(c) && TupleClassFields(c).Some? then Some(TupleClass)
    else
      match ClassFunction(c, kinds, attr)
      case Ok(MemberOf(j)) => Some(MemberOfClass(j))
      case Ok(BoundFunction(l, q)) => Some(PerFieldFunction(l, q))
      case Err(_) => None
  }

  /**
   * `getattr(v, attr)` on a member's value, as `__getattr__` asks for a
   * field: a record has its fields as attributes; anything else, or a field
   * the record lacks, raises `'<type>' object has no attribute '<attr>'`.
   */
  function ReadField(v: Value, attr: string): (r: Result<Value, Error>)
    ensures r.Err? ==> r == Err(NoAttribute(TypeName(v), attr))
    ensures !v.Rec? || attr !in v.fields ==> r.Err?
    ensures v.Rec? && RecordOf(v, v.fields) && Distinct(v.fields) ==>
      forall k :: 0 <= k < |v.fields| && v.fields[k] == attr ==> r == Ok(v.items[k])
  {
    if v.Rec? && attr in v.fields && IndexOf(v.fields, attr) < |v.items| then Ok(v.items[IndexOf(v.fields, attr)])
    else Err(NoAttribute(TypeName(v), attr))
  }

  /**
   * `member.attr` for a class whose per-field functions are of `kinds`
   * (all three in the current and the middle version, two in the oldest):
   * the member's name and value come first, then the class attributes;
   * only when both fail does `__getattr__` read a field `_fields()` reports
   * from the member's value; anything else fails with
   * `'<Class>' object has no attribute '<attr>'`.
   */
  function GetAttr(c: EnumClass, kinds: set<QueryKind>, i: nat, attr: string): (r: Result<Attribute, Error>)
    requires WellFormed(c) && i < |c.entries|
    ensures attr == "name" || attr == "_name_" ==> r == Ok(Data(Str(c.entries[i].0)))
    ensures attr == "value" || attr == "_value_" ==> r == Ok(Data(c.entries[i].1))
    ensures !OwnAttribute(attr) && ClassAttribute(c, kinds, attr).Some? ==> r == Ok(ClassAttribute(c, kinds, attr).value)
    ensures !OwnAttribute(attr) && ClassAttribute(c, kinds, attr).None? ==>
      && (attr !in Fields(c) ==> r == Err(NoAttribute(c.name, attr)))
      && (attr in Fields(c) ==> r == (match ReadField(c.entries[i].1, attr) case Ok(v) => Ok(Data(v)) case Err(e) => Err(e)))
  {
    if attr == "name" || attr == "_name_" then Ok(Data(Str(c.entries[i].0)))
    else if attr == "value" || attr == "_value_" then Ok(Data(c.entries[i].1))
    else if ClassAttribute(c, kinds, attr).Some? then Ok(ClassAttribute(c, kinds, attr).value)
    else if attr in Fields(c) then
      match ReadField(c.entries[i].1, attr)
      case Ok(v) => Ok(Data(v))
      case Err(e) => Err(e)
    else Err(NoAttribute(c.name, attr))
  }

  /** No field is called like one of the functions attached for a field. */
  predicate NoFieldShadowed(fields: seq<string>, kinds: set<QueryKind>) {
    forall j, k :: 0 <= j < |fields| && 0 <= k < |fields| ==> !Generates(fields[j], kinds, fields[k])
  }

  /**
   * `member.<f>` reaches `__getattr__`: no member is called `f`, and no
   * field of the class or of any class up its chain generates a function
   * called `f`.
   */
  predicate ReadsThrough(c: EnumClass, f: string) {
    && f !in Names(c)
    && forall l, j :: 0 <= l <= |c.bases| && 0 <= j < |LevelFields(c, l)| ==> !Generates(LevelFields(c, l)[j], AllKinds, f)
  }

  /** A name that neither starts with an underscore nor is `name` or `value` is looked up past the member and the specials. */
  lemma NotSpecialName(attr: string)
    requires |attr| > 0 && attr[0] != '_' && attr != "name" && attr != "value"
    ensures attr != "_field_names_" && attr != "_tuple_cls" && !OwnAttribute(attr)
  {
    assert "_field_names_"[0] == '_' && "_tuple_cls"[0] == '_' && "_name_"[0] == '_' && "_value_"[0] == '_';
  }

  /** A function generated for a plain field name neither starts with an underscore nor is `name` or `value`. */
  lemma GeneratedNameNotSpecial(f: string, kd: QueryKind)
    requires PlainFieldName(f)
    ensures var attr := FunctionName(f, kd); |attr| > 0 && attr[0] != '_' && attr != "name" && attr != "value"
  {
    var attr := FunctionName(f, kd);
    match kd {
      case Plural =>
        assert attr[0] == f[0];
        assert attr[|attr| - 1] == 's';
      case From =>
        assert attr[0] == 'f' && attr[1] == 'r';
      case Has =>
        assert attr[0] == 'h';
    }
  }

  /**
   * Through a member, the functions attached for its class are found by
   * ordinary lookup: when their names do not clash, `<F>s`, `from_<F>` and
   * `has_<F>` are field F's queries bound to the class itself, never a field.
   */
  lemma MemberSeesFunctions(c: EnumClass, i: nat, k: nat, kd: QueryKind)
    requires WellFormed(c) && Attached(c, AllKinds) && NoClash(RecordFields(c), AllKinds)
    requires i < |c.entries| && k < |RecordFields(c)|
    ensures GetAttr(c, AllKinds, i, FunctionName(RecordFields(c)[k], kd)) == Ok(PerFieldFunction(0, Query(kd, k)))
  {
    var f := RecordFields(c)[k];
    assert PlainFieldName(f);
    GeneratedNameNotSpecial(f, kd);
    NotSpecialName(FunctionName(f, kd));
    ClassFunctionOfField(c, k, kd);
  }

  /**
   * A member reads another member of its class under that member's name,
   * ahead of any field of the same name.
   */
  lemma MemberShadowsField(c: EnumClass, kinds: set<QueryKind>, i: nat, j: nat)
    requires WellFormed(c) && i < |c.entries| && j < |c.entries|
    requires !OwnAttribute(c.entries[j].0) && c.entries[j].0 != "_field_names_"
    ensures GetAttr(c, kinds, i, c.entries[j].0) == Ok(MemberOfClass(j))
  {
    var names := Names(c);
    assert names[j] == c.entries[j].0;
    assert IndexOf(names, c.entries[j].0) == j;
  }

  /**
   * Reading field `k` through member `i` gives the `i`-th element of `<F>s()`
   * for that field, provided the field list passed the reserved-name check
   * and neither a member nor a function up the chain is called like the field.
   */
  lemma FieldReadThrough(c: EnumClass, i: nat, k: nat)
    requires WellFormed(c) && i < |c.entries| && k < |RecordFields(c)|
    requires !Reserved(RecordFields(c)) && ReadsThrough(c, RecordFields(c)[k])
    ensures GetAttr(c, AllKinds, i, RecordFields(c)[k]) == Ok(Data(FieldValues(c, k)[i]))
  {
    var f := RecordFields(c)[k];
    assert PlainFieldName(f);
    assert f != "name" && f != "value";
    NotSpecialName(f);
    UnknownClassFunction(c, AllKinds, f);
    var v := c.entries[i].1;
    assert RecordOf(v, RecordFields(c));
    assert ReadField(v, f) == Ok(v.items[k]);
  }

  /**
   * As written, a class declaring `_field_names_ = ("name", "key")` passes
   * the reserved-name check and is built whenever its values convert, while
   * the intended construction refuses it; and reading `name` through one of
   * its members yields the member's name, never the record's `name` field.
   */
  lemma NameFieldShadowed(name: string, entries: map<string, Value>, names: seq<string>, raws: seq<Value>,
                          ancestors: seq<Ancestor>, i: nat)
    requires |names| == |raws| && Distinct(names) && i < |raws|
    requires OwnSpec(entries) == Some(Tuple([Str("name"), Str("key")]))
    requires forall j :: 0 <= j < |raws| ==> IsSequence(raws[j]) && !raws[j].Str? && |raws[j].items| == 2
    ensures Build(ConvertValue, name, entries, names, raws, ancestors) == Err(ReservedField)
    ensures var r := BuildAsWritten(ConvertValue, name, entries, names, raws, ancestors);
      && (r.Ok? <==> Attachable(names, ["name", "key"], AllKinds))
      && (r.Ok? ==> && Fields(r.value) == ["name", "key"] && WellFormed(r.value)
                    && GetAttr(r.value, AllKinds, i, "name") == Ok(Data(Str(names[i])))
                    && r.value.entries[i].1.items[0] == raws[i].items[0])
  {
    NameKeyValid();
    TwoNameSpec("name", "key");
    ReservedCheckAcceptsName();
    assert ConvertAll(ConvertValue, ["name", "key"], raws).Ok?;
    var r := BuildAsWritten(ConvertValue, name, entries, names, raws, ancestors);
    if r.Ok? {
      ChainValid(ancestors);
      ConstructWellFormed(ConvertValue, name, names, raws, Tuple([Str("name"), Str("key")]), BothNames, OwnSpec(entries), ChainOf(ancestors));
      assert Names(r.value)[i] == names[i];
      assert ConvertValue(["name", "key"], raws[i]) == Ok(r.value.entries[i].1);
    }
  }

  /**
   * Under the intended construction, every field of a member of a class
   * built under `_convert`'s rules reads back the raw value it was declared
   * with: the whole value for a one-field record, its `k`-th element
   * otherwise (unless a member or a function is called like the field).
   */
  lemma FieldsReadRawValues(name: string, entries: map<string, Value>, names: seq<string>, raws: seq<Value>,
                            ancestors: seq<Ancestor>, i: nat, k: nat)
    requires |names| == |raws| && Distinct(names)
    requires Build(ConvertValue, name, entries, names, raws, ancestors).Ok?
    requires i < |raws| && k < |RecordFields(Build(ConvertValue, name, entries, names, raws, ancestors).value)|
    requires var c := Build(ConvertValue, name, entries, names, raws, ancestors).value; ReadsThrough(c, RecordFields(c)[k])
    ensures var c := Build(ConvertValue, name, entries, names, raws, ancestors).value;
      && WellFormed(c)
      && i < |c.entries|
      && GetAttr(c, AllKinds, i, RecordFields(c)[k]) == Ok(Data(if |RecordFields(c)| == 1 then raws[i] else raws[i].items[k]))
  {
    ChainValid(ancestors);
    ConstructWellFormed(ConvertValue, name, names, raws, ResolveSpec(OwnSpec(entries), Bindings(ancestors)), EitherName,
                        OwnSpec(entries), ChainOf(ancestors));
    var c := Build(ConvertValue, name, entries, names, raws, ancestors).value;
    assert ConvertValue(RecordFields(c), raws[i]) == Ok(c.entries[i].1);
    FieldReadThrough(c, i, k);
  }

  // ---------------------------------------------------------------------------
  // NamedEnum.__str__
  // ---------------------------------------------------------------------------

  /**
   * `str(member)`: the class name, a dot, the member name, a colon and a
   * space, then `repr` of the value.
   */
  function MemberStr(c: EnumClass, i: nat): (r: string)
    requires i < |c.entries|
    ensures var n, m, v := |c.name|, |c.entries[i].0|, Repr(c.entries[i].1);
      && |r| == n + 1 + m + 2 + |v|
      && r[..n] == c.name && r[n] == '.'
      && r[n + 1..n + 1 + m] == c.entries[i].0
      && r[n + 1 + m..n + 3 + m] == ": "
      && r[n + 3 + m..] == v
  {
    c.name + "." + c.entries[i].0 + ": " + Repr(c.entries[i].1)
  }

  /**
   * Two members of one class print differently: their names differ, and a
   * member name holds no `:`, so the text before the first `": "` after the
   * class name tells them apart.
   */
  lemma MemberStrDistinct(c: EnumClass, i: nat, j: nat)
    requires WellFormed(c) && i < |c.entries| && j < |c.entries| && i != j
    requires forall k :: 0 <= k < |c.entries| ==> ':' !in c.entries[k].0
    ensures MemberStr(c, i) != MemberStr(c, j)
  {
    var n, a, b := |c.name|, c.entries[i].0, c.entries[j].0;
    var s, t := MemberStr(c, i), MemberStr(c, j);
    assert Names(c)[i] == a && Names(c)[j] == b;
    if |a| < |b| {
      assert s[n + 1 + |a|] == ':' && t[n + 1 + |a|] == b[|a|];
      assert b[|a|] in b;
    } else if |b| < |a| {
      assert t[n + 1 + |b|] == ':' && s[n + 1 + |b|] == a[|b|];
      assert a[|b|] in a;
    } else {
      assert s[n + 1..n + 1 + |a|] == a && t[n + 1..n + 1 + |b|] == b;
    }
  }

  // ---------------------------------------------------------------------------
  // The ready-made classes
  // ---------------------------------------------------------------------------

  /** `NamedEnum`, whose body binds `_field_names_ = None`; its own base is `Enum`. */
  const NamedEnum: Ancestor := Ancestor("NamedEnum", Some(PyNone))

  /** `ExtendedEnum` declares no specification of its own. */
  const ExtendedEnum: Ancestor := Ancestor("ExtendedEnum", None)

  /** `LabeledEnum._field_names_ = ("key", "label")` */
  const LabeledEnum: Ancestor := Ancestor("LabeledEnum", Some(Tuple([Str("key"), Str("label")])))

  /** `PairEnum._field_names_ = ("first", "second")` */
  const PairEnum: Ancestor := Ancestor("PairEnum", Some(Tuple([Str("first"), Str("second")])))

  /** A tuple of two distinct valid names is taken by namedtuple as exactly those two fields. */
  lemma TwoNameSpec(a: string, b: string)
    requires ValidFieldName(a) && ValidFieldName(b) && a != b
    ensures NamedTupleFields(Tuple([Str(a), Str(b)])) == Ok([a, b])
    ensures Truthy(Tuple([Str(a), Str(b)]))
  {
    var names := StrOfAll([Str(a), Str(b)]);
    assert names == [a, b];
  }

  lemma KeyLabelValid()
    ensures ValidFieldName("key") && ValidFieldName("label") && !Reserved(["key", "label"])
  {
    assert IsIdentChar('e') && IsIdentChar('y');
    assert IsIdentChar('a') && IsIdentChar('b') && IsIdentChar('l');
  }

  lemma FirstSecondValid()
    ensures ValidFieldName("first") && ValidFieldName("second") && !Reserved(["first", "second"])
  {
    assert forall ch :: ch in "irst" ==> IsIdentChar(ch);
    assert forall ch :: ch in "econd" ==> IsIdentChar(ch);
  }

  lemma NameKeyValid()
    ensures ValidFieldName("name") && ValidFieldName("key") && !ReservedAsWritten(["name", "key"])
  {
    assert forall ch :: ch in "ame" ==> IsIdentChar(ch);
    assert IsIdentChar('e') && IsIdentChar('y');
    assert "value" !in ["name", "key"];
  }

  /**
   * A two-field class constructed under `_convert`'s rules: it succeeds
   * exactly when no member holds a name `__new__` sets and every raw value
   * is a non-string sequence of two elements, and each value is then the
   * record of those two elements.
   */
  lemma TwoFieldConstruct(name: string, names: seq<string>, raws: seq<Value>, a: string, b: string, check: ReservedCheck,
                          own: Option<Value>, bases: seq<Base>)
    requires |names| == |raws|
    requires ValidFieldName(a) && ValidFieldName(b) && a != b && !Refuses(check, [a, b])
    ensures var r := Construct(ConvertValue, name, names, raws, Tuple([Str(a), Str(b)]), check, own, bases);
      && (r.Ok? <==> Attachable(names, [a, b], AllKinds) &&
                     forall i :: 0 <= i < |raws| ==> IsSequence(raws[i]) && !raws[i].Str? && |raws[i].items| == 2)
      && (r.Ok? ==> Fields(r.value) == [a, b] && Names(r.value) == names
                    && forall i :: 0 <= i < |raws| ==> r.value.entries[i].1 == Rec([a, b], raws[i].items))
  {
    TwoNameSpec(a, b);
    var r := Construct(ConvertValue, name, names, raws, Tuple([Str(a), Str(b)]), check, own, bases);
    if r.Ok? {
      forall i | 0 <= i < |raws|
        ensures r.value.entries[i].1 == Rec([a, b], raws[i].items)
      {
        assert ConvertValue([a, b], raws[i]) == Ok(r.value.entries[i].1);
      }
    }
  }

  /**
   * A direct subclass of `LabeledEnum` that declares no specification has
   * the fields `key` and `label`, as written and as intended alike.
   */
  lemma LabeledEnumSubclass(name: string, entries: map<string, Value>, names: seq<string>, raws: seq<Value>)
    requires |names| == |raws| && FieldNamesKey !in entries
    ensures var ancestors := [LabeledEnum, NamedEnum];
      var r := BuildAsWritten(ConvertValue, name, entries, names, raws, ancestors);
      && r == Build(ConvertValue, name, entries, names, raws, ancestors)
      && (r.Ok? <==> Attachable(names, ["key", "label"], AllKinds) &&
                     forall i :: 0 <= i < |raws| ==> IsSequence(raws[i]) && !raws[i].Str? && |raws[i].items| == 2)
      && (r.Ok? ==> Fields(r.value) == ["key", "label"]
                    && forall i :: 0 <= i < |raws| ==> r.value.entries[i].1 == Rec(["key", "label"], raws[i].items))
  {
    KeyLabelValid();
    var ancestors := [LabeledEnum, NamedEnum];
    assert OwnSpec(entries) == None;
    assert Bindings(ancestors) == [LabeledEnum.binding, NamedEnum.binding];
    ResolveSpecAsWrittenOneLevel(None, Bindings(ancestors));
    BuildAgrees(ConvertValue, name, entries, names, raws, ancestors);
    TwoFieldConstruct(name, names, raws, "key", "label", BothNames, None, ChainOf(ancestors));
  }

  /** The chain of a class declaring no specification under `LabeledEnum`: as written, `parent` gets the record class. */
  lemma LabeledChain(parent: string)
    ensures ChainOf([Ancestor(parent, None), LabeledEnum, NamedEnum]) ==
      [Base(parent, None, Some(["key", "label"])), Base("LabeledEnum", LabeledEnum.binding, Some(["key", "label"])),
       Base("NamedEnum", Some(PyNone), None)]
  {
    KeyLabelValid();
    TwoNameSpec("key", "label");
    var ancestors := [Ancestor(parent, None), LabeledEnum, NamedEnum];
    assert ancestors[1..] == [LabeledEnum, NamedEnum] && ancestors[2..] == [NamedEnum] && ancestors[3..] == [];
    assert Bindings(ancestors[1..]) == [LabeledEnum.binding, NamedEnum.binding];
    assert Bindings(ancestors[2..]) == [NamedEnum.binding];
    assert LevelRecord(ancestors, 0) == Some(["key", "label"]);
    assert LevelRecord(ancestors, 1) == Some(["key", "label"]);
    assert LevelRecord(ancestors, 2) == None;
  }

  /**
   * A subclass of a `LabeledEnum` subclass (one that added no members and no
   * specification): as written it is a plain enumeration of its raw values,
   * yet `_fields()` reports `key` and `label` for it through attribute
   * lookup; the intended construction gives it those fields as records.
   */
  lemma LabeledEnumGrandchild(name: string, parent: string, entries: map<string, Value>, names: seq<string>, raws: seq<Value>)
    requires |names| == |raws| && FieldNamesKey !in entries
    ensures var ancestors := [Ancestor(parent, None), LabeledEnum, NamedEnum];
      && BuildAsWritten(ConvertValue, name, entries, names, raws, ancestors) == Ok(EnumClass(name, None, Zip(names, raws), None, ChainOf(ancestors)))
      && Fields(BuildAsWritten(ConvertValue, name, entries, names, raws, ancestors).value) == ["key", "label"]
      && var r := Build(ConvertValue, name, entries, names, raws, ancestors);
         && (r.Ok? <==> Attachable(names, ["key", "label"], AllKinds) &&
                        forall i :: 0 <= i < |raws| ==> IsSequence(raws[i]) && !raws[i].Str? && |raws[i].items| == 2)
         && (r.Ok? ==> Fields(r.value) == ["key", "label"])
  {
    KeyLabelValid();
    var ancestors := [Ancestor(parent, None), LabeledEnum, NamedEnum];
    var bs := Bindings(ancestors);
    assert bs == [None, LabeledEnum.binding, NamedEnum.binding];
    assert OwnSpec(entries) == None;
    ResolveSpecInherits(None, None, [LabeledEnum.binding, NamedEnum.binding]);
    ResolveSpecInherits(None, LabeledEnum.binding, [NamedEnum.binding]);
    assert bs == [None] + [LabeledEnum.binding, NamedEnum.binding];
    assert [LabeledEnum.binding, NamedEnum.binding] == [LabeledEnum.binding] + [NamedEnum.binding];
    TwoNameSpec("key", "label");
    FieldsOfBuilt(ConvertValue, name, entries, names, raws, ancestors);
    TwoFieldConstruct(name, names, raws, "key", "label", EitherName, None, ChainOf(ancestors));
  }

  /** A subclass of `PairEnum` that declares no specification has the fields `first` and `second`. */
  lemma PairEnumSubclass(name: string, entries: map<string, Value>, names: seq<string>, raws: seq<Value>)
    requires |names| == |raws| && FieldNamesKey !in entries
    ensures var ancestors := [PairEnum, NamedEnum];
      var r := BuildAsWritten(ConvertValue, name, entries, names, raws, ancestors);
      && r == Build(ConvertValue, name, entries, names, raws, ancestors)
      && (r.Ok? <==> Attachable(names, ["first", "second"], AllKinds) &&
                     forall i :: 0 <= i < |raws| ==> IsSequence(raws[i]) && !raws[i].Str? && |raws[i].items| == 2)
      && (r.Ok? ==> Fields(r.value) == ["first", "second"]
                    && forall i :: 0 <= i < |raws| ==> r.value.entries[i].1 == Rec(["first", "second"], raws[i].items))
  {
    FirstSecondValid();
    var ancestors := [PairEnum, NamedEnum];
    assert OwnSpec(entries) == None;
    assert Bindings(ancestors) == [PairEnum.binding, NamedEnum.binding];
    ResolveSpecAsWrittenOneLevel(None, Bindings(ancestors));
    BuildAgrees(ConvertValue, name, entries, names, raws, ancestors);
    TwoFieldConstruct(name, names, raws, "first", "second", BothNames, None, ChainOf(ancestors));
  }

  /**
   * A subclass of `ExtendedEnum`, or of `NamedEnum` itself, that declares no
   * specification is a plain enumeration: its values are the raw values
   * unchanged, `_fields()` is empty and no per-field function exists.
   */
  lemma ExtendedEnumSubclass(name: string, entries: map<string, Value>, names: seq<string>, raws: seq<Value>, attr: string)
    requires |names| == |raws| && FieldNamesKey !in entries
    ensures forall ancestors :: ancestors == [ExtendedEnum, NamedEnum] || ancestors == [NamedEnum] ==>
      var r := BuildAsWritten(ConvertValue, name, entries, names, raws, ancestors);
      && r == Ok(EnumClass(name, None, Zip(names, raws), None, ChainOf(ancestors)))
      && r == Build(ConvertValue, name, entries, names, raws, ancestors)
      && Fields(r.value) == []
      && Values(r.value) == raws
      && (attr !in names ==> ClassFunction(r.value, AllKinds, attr) == Err(NoClassAttribute(attr)))
  {
    assert OwnSpec(entries) == None;
    var extended, named := [ExtendedEnum, NamedEnum], [NamedEnum];
    assert Bindings(extended) == [None, Some(PyNone)] && Bindings(named) == [Some(PyNone)];
    ResolveSpecInherits(None, None, [Some(PyNone)]);
    ResolveSpecInherits(None, Some(PyNone), []);
    assert [Some(PyNone)] == [Some(PyNone)] + [];
    assert [None, Some(PyNone)] == [None] + [Some(PyNone)];
    PlainChain(name, names, raws, attr, extended);
    PlainChain(name, names, raws, attr, named);
  }

  /** Under a chain that built no record class and binds nothing truthy, a plain enumeration has no fields and no functions. */
  lemma PlainChain(name: string, names: seq<string>, raws: seq<Value>, attr: string, ancestors: seq<Ancestor>)
    requires |names| == |raws|
    requires forall j :: 0 <= j < |ancestors| ==> ancestors[j].binding == None || ancestors[j].binding == Some(PyNone)
    ensures var c := EnumClass(name, None, Zip(names, raws), None, ChainOf(ancestors));
      && Fields(c) == [] && Values(c) == raws
      && (attr !in names ==> ClassFunction(c, AllKinds, attr) == Err(NoClassAttribute(attr)))
  {
    var c := EnumClass(name, None, Zip(names, raws), None, ChainOf(ancestors));
    forall j | 0 <= j < |ancestors|
      ensures LevelRecord(ancestors, j) == None
    {
      PlainLevel(ancestors, j);
    }
    assert TupleClassFields(c) == None;
    assert Values(c) == raws;
    assert Names(c) == names;
    if attr !in names {
      UnknownClassFunction(c, AllKinds, attr);
    }
  }

  /** A level whose own binding and whose ancestors' bindings are all falsy builds no record class. */
  lemma {:induction false} PlainLevel(ancestors: seq<Ancestor>, j: nat)
    requires j < |ancestors|
    requires forall j :: 0 <= j < |ancestors| ==> ancestors[j].binding == None || ancestors[j].binding == Some(PyNone)
    ensures LevelRecord(ancestors, j) == None
  {
    var rest := Bindings(ancestors[j + 1..]);
    if ancestors[j].binding.None? && rest != [] {
      assert rest[0] == ancestors[j + 1].binding;
    }
  }

  /** `NBALegendary` of the tests: two members of a direct `LabeledEnum` subclass. */
  const NBALegendary: EnumClass :=
    EnumClass("NBALegendary", Some(["key", "label"]),
              [("JOHNSON", Rec(["key", "label"], [Str("Johnson"), Str("Magic Johnson")])),
               ("Jordan", Rec(["key", "label"], [Str("Jordan"), Str("Air Jordan")]))],
              None, [Base("LabeledEnum", LabeledEnum.binding, Some(["key", "label"])), Base("NamedEnum", Some(PyNone), None)])

  lemma LegendaryWellFormed()
    ensures WellFormed(NBALegendary) && Fields(NBALegendary) == ["key", "label"]
  {
    KeyLabelValid();
    assert Names(NBALegendary) == ["JOHNSON", "Jordan"];
  }

  /**
   * `NBALegendary.Jordan`: its `key` field and its name are both `'Jordan'`,
   * `Jordan.keys` is the class's `keys` function, and it has no attribute
   * `nickname`.
   */
  lemma LegendaryJordan()
    ensures WellFormed(NBALegendary)
    ensures GetAttr(NBALegendary, AllKinds, 1, "key") == Ok(Data(Str("Jordan")))
    ensures GetAttr(NBALegendary, AllKinds, 1, "name") == Ok(Data(Str("Jordan")))
    ensures GetAttr(NBALegendary, AllKinds, 1, "keys") == Ok(PerFieldFunction(0, Query(Plural, 0)))
    ensures GetAttr(NBALegendary, AllKinds, 1, "nickname") == Err(NoAttribute("NBALegendary", "nickname"))
  {
    LegendaryWellFormed();
    JordanKey();
    JordanKeys();
    JordanNickname();
  }

  /** No field of the class or up its chain generates `attr`, and no member is called so. */
  lemma LegendaryUnbound(attr: string)
    requires attr != "JOHNSON" && attr != "Jordan"
    requires !Generates("key", AllKinds, attr) && !Generates("label", AllKinds, attr)
    ensures ClassFunction(NBALegendary, AllKinds, attr).Err?
  {
    assert Names(NBALegendary) == ["JOHNSON", "Jordan"];
    assert LevelFields(NBALegendary, 0) == ["key", "label"];
    assert LevelFields(NBALegendary, 1) == ["key", "label"];
    assert LevelFields(NBALegendary, 2) == [];
    UnknownClassFunction(NBALegendary, AllKinds, attr);
  }

  /** `Jordan.key` reads the record: no member and no field's function is called `key`. */
  lemma JordanKey()
    ensures WellFormed(NBALegendary)
    ensures GetAttr(NBALegendary, AllKinds, 1, "key") == Ok(Data(Str("Jordan")))
  {
    LegendaryWellFormed();
    assert !Generates("key", AllKinds, "key") && !Generates("label", AllKinds, "key") by {
      assert |"key"| < |"keys"|;
    }
    LegendaryUnbound("key");
    assert ReadField(NBALegendary.entries[1].1, "key") == Ok(Str("Jordan"));
  }

  /** `Jordan.keys` is the function the class's own `key` field generates. */
  lemma JordanKeys()
    ensures WellFormed(NBALegendary)
    ensures GetAttr(NBALegendary, AllKinds, 1, "keys") == Ok(PerFieldFunction(0, Query(Plural, 0)))
  {
    LegendaryWellFormed();
    assert "keys" == FunctionName("key", Plural);
    assert !Generates("label", AllKinds, "keys") by {
      assert "keys"[0] != "labels"[0];
    }
    assert "keys" !in Names(NBALegendary) by {
      assert Names(NBALegendary) == ["JOHNSON", "Jordan"];
    }
    assert LevelFields(NBALegendary, 0) == ["key", "label"];
    assert LookupFunction(LevelFields(NBALegendary, 0), AllKinds, "keys") == Some(Query(Plural, 0));
  }

  /** `Jordan.nickname` is neither a member, a field nor a generated function. */
  lemma JordanNickname()
    ensures WellFormed(NBALegendary)
    ensures GetAttr(NBALegendary, AllKinds, 1, "nickname") == Err(NoAttribute("NBALegendary", "nickname"))
  {
    LegendaryWellFormed();
    assert !Generates("key", AllKinds, "nickname") && !Generates("label", AllKinds, "nickname") by {
      assert "nickname"[0] != "from_key"[0];
    }
    LegendaryUnbound("nickname");
    assert "nickname" !in Fields(NBALegendary);
  }

  // ---------------------------------------------------------------------------
  // A class two levels below LabeledEnum
  // ---------------------------------------------------------------------------

  /** The raw value of member `X` in `class B(A): X = ("x", "y")`. */
  const PairXY: Value := Tuple([Str("x"), Str("y")])

  /** `class A(LabeledEnum): pass` and `class B(A): X = ("x", "y")`, with B as the metaclass builds it. */
  const GrandchildB: EnumClass :=
    EnumClass("B", None, [("X", PairXY)], None,
              [Base("A", None, Some(["key", "label"])), Base("LabeledEnum", LabeledEnum.binding, Some(["key", "label"])),
               Base("NamedEnum", Some(PyNone), None)])

  /** As written, B is a plain enumeration under a chain whose first two classes carry the record class `(key, label)`. */
  lemma GrandchildBuilt()
    ensures BuildAsWritten(ConvertValue, "B", map["X" := PairXY], ["X"], [PairXY], [Ancestor("A", None), LabeledEnum, NamedEnum])
            == Ok(GrandchildB)
  {
    var entries := map["X" := PairXY];
    assert FieldNamesKey !in entries;
    assert Attachable(["X"], ["key", "label"], AllKinds);
    LabeledEnumGrandchild("B", "A", entries, ["X"], [PairXY]);
    LabeledChain("A");
    assert Zip(["X"], [PairXY]) == [("X", PairXY)];
  }

  lemma GrandchildWellFormed()
    ensures WellFormed(GrandchildB) && Names(GrandchildB) == ["X"] && Fields(GrandchildB) == ["key", "label"]
    ensures LevelFields(GrandchildB, 0) == [] && LevelFields(GrandchildB, 1) == ["key", "label"]
    ensures LevelFields(GrandchildB, 2) == ["key", "label"] && LevelFields(GrandchildB, 3) == []
  {
    KeyLabelValid();
    GrandchildLevels();
    GrandchildFields();
  }

  /** B's members and the record fields of each level of its chain. */
  lemma GrandchildLevels()
    ensures Names(GrandchildB) == ["X"]
    ensures LevelFields(GrandchildB, 0) == [] && LevelFields(GrandchildB, 1) == ["key", "label"]
    ensures LevelFields(GrandchildB, 2) == ["key", "label"] && LevelFields(GrandchildB, 3) == []
  {
  }

  /** B reaches `_field_names_` on LabeledEnum and `_tuple_cls` on A. */
  lemma GrandchildFields()
    ensures Fields(GrandchildB) == ["key", "label"]
  {
    KeyLabelValid();
    GrandchildFieldNames();
    assert NearestRecord(GrandchildB.bases) == Some(["key", "label"]);
    TwoNameSpec("key", "label");
  }

  /** `B._field_names_` is the specification `LabeledEnum` binds, two classes up. */
  lemma GrandchildFieldNames()
    ensures FieldNamesAttr(GrandchildB) == LabeledEnum.binding.value
  {
    var chain := [GrandchildB.own] + BaseBindings(GrandchildB.bases);
    assert chain == [None, None, LabeledEnum.binding, Some(PyNone)];
    assert chain[1..][1..] == [LabeledEnum.binding, Some(PyNone)];
    assert InheritedSpec(chain) == InheritedSpec(chain[1..]) == InheritedSpec(chain[1..][1..]);
  }

  /** Among the functions of the fields `key` and `label`, `keys` is the plural of `key`. */
  lemma KeysOfKeyLabel()
    ensures LookupFunction(["key", "label"], AllKinds, "keys") == Some(Query(Plural, 0))
  {
    assert ["key", "label"][..1] == ["key"];
    assert "keys"[0] != "labels"[0] && "keys"[0] != "from_label"[0] && "keys"[0] != "has_label"[0];
    assert "keys"[0] != "from_key"[0] && "keys"[0] != "has_key"[0];
  }

  /** Among the functions of the fields `key` and `label`, `labels` is the plural of `label`. */
  lemma LabelsOfKeyLabel()
    ensures LookupFunction(["key", "label"], AllKinds, "labels") == Some(Query(Plural, 1))
  {
    assert "labels"[0] != "from_label"[0] && "labels"[0] != "has_label"[0];
  }

  /** A name that no member of B holds and that one of the fields `key` and `label` generates is found on A. */
  lemma GrandchildFoundOnA(attr: string)
    requires attr != "X" && LookupFunction(["key", "label"], AllKinds, attr).Some?
    ensures ClassFunction(GrandchildB, AllKinds, attr) == Ok(BoundFunction(1, LookupFunction(["key", "label"], AllKinds, attr).value))
  {
    var c := GrandchildB;
    GrandchildLevels();
    assert attr !in Names(c);
    assert LookupFrom(c, AllKinds, attr, 0) == LookupFrom(c, AllKinds, attr, 1);
  }

  /** `B.keys` and `B.labels` are the functions attached to A, the nearest class with fields. */
  lemma GrandchildPlurals()
    ensures WellFormed(GrandchildB)
    ensures ClassFunction(GrandchildB, AllKinds, "keys") == Ok(BoundFunction(1, Query(Plural, 0)))
    ensures ClassFunction(GrandchildB, AllKinds, "labels") == Ok(BoundFunction(1, Query(Plural, 1)))
  {
    GrandchildWellFormed();
    KeysOfKeyLabel();
    LabelsOfKeyLabel();
    GrandchildFoundOnA("keys");
    GrandchildFoundOnA("labels");
  }

  /**
   * Through attribute lookup B reports A's fields, finds `keys` on A and
   * calls it to an empty list; reading `key` through member `X` asks the raw
   * tuple for an attribute it lacks.
   */
  lemma GrandchildView()
    ensures WellFormed(GrandchildB)
    ensures Fields(GrandchildB) == ["key", "label"]
    ensures ClassFunction(GrandchildB, AllKinds, "keys") == Ok(BoundFunction(1, Query(Plural, 0)))
    ensures CallWithoutArguments(GrandchildB, "keys") == Ok([])
    ensures GetAttr(GrandchildB, AllKinds, 0, "key") == Err(NoAttribute("tuple", "key"))
  {
    GrandchildWellFormed();
    GrandchildPlurals();
    GrandchildKey();
  }

  /** A name that no member of B holds and neither field `key` nor `label` generates is not found on B. */
  lemma GrandchildUnbound(attr: string)
    requires attr != "X" && LookupFunction(["key", "label"], AllKinds, attr).None?
    ensures ClassFunction(GrandchildB, AllKinds, attr) == Err(NoClassAttribute(attr))
  {
    var c := GrandchildB;
    GrandchildLevels();
    assert attr !in Names(c);
    assert LookupFrom(c, AllKinds, attr, 0) == LookupFrom(c, AllKinds, attr, 1) == LookupFrom(c, AllKinds, attr, 2)
        == LookupFrom(c, AllKinds, attr, 3) == LookupFrom(c, AllKinds, attr, 4) == None;
  }

  /** No member of B and no function of a class up its chain is called `key`. */
  lemma GrandchildKeyUnbound()
    ensures ClassFunction(GrandchildB, AllKinds, "key") == Err(NoClassAttribute("key"))
  {
    assert LookupFunction(["key", "label"], AllKinds, "key").None? by {
      assert ["key", "label"][..1] == ["key"] && ["key"][..0] == [];
      assert |"key"| < |"keys"| && |"key"| < |"labels"|;
    }
    GrandchildUnbound("key");
  }

  /** `B.X.key` reaches `__getattr__`, which reads `key` from the tuple `("x", "y")`. */
  lemma GrandchildKey()
    ensures WellFormed(GrandchildB)
    ensures GetAttr(GrandchildB, AllKinds, 0, "key") == Err(NoAttribute("tuple", "key"))
  {
    GrandchildWellFormed();
    GrandchildKeyUnbound();
    NotSpecialName("key");
    assert ClassAttribute(GrandchildB, AllKinds, "key").None?;
    assert "key" in Fields(GrandchildB);
    assert ReadField(PairXY, "key") == Err(NoAttribute("tuple", "key"));
  }

  /** `B.names()` is the metaclass's: neither field generates `names`. */
  lemma GrandchildNames()
    ensures WellFormed(GrandchildB)
    ensures CallWithoutArguments(GrandchildB, "names") == Ok([Str("X")])
  {
    GrandchildWellFormed();
    assert LookupFunction(["key", "label"], AllKinds, "names").None? by {
      assert ["key", "label"][..1] == ["key"] && ["key"][..0] == [];
      assert "names"[0] != "keys"[0] && "names"[0] != "labels"[0];
      assert "names"[0] != "from_key"[0] && "names"[0] != "has_key"[0];
      assert "names"[0] != "from_label"[0] && "names"[0] != "has_label"[0];
    }
    GrandchildUnbound("names");
    assert NameValues(GrandchildB) == [Str("X")];
  }

  /** The widths `describe` measures for B: the name column, then two empty field columns. */
  lemma GrandchildWidths()
    ensures WellFormed(GrandchildB)
    ensures DescribeWidths(GrandchildB) == Ok([4, 3, 5])
  {
    GrandchildWellFormed();
    GrandchildWidthResults();
    CollectAll(WidthResults(GrandchildB), [4, 3, 5]);
  }

  /** Each of B's columns measured on its own. */
  lemma GrandchildWidthResults()
    ensures WellFormed(GrandchildB)
    ensures WidthResults(GrandchildB) == [Ok(4), Ok(3), Ok(5)]
  {
    GrandchildWellFormed();
    GrandchildNameWidth();
    GrandchildFieldWidths();
    assert Labels(GrandchildB) == ["name", "key", "label"];
  }

  /** The name column measures the member name `X` against the heading. */
  lemma GrandchildNameWidth()
    ensures WellFormed(GrandchildB)
    ensures NameWidth(GrandchildB) == Ok(4)
  {
    GrandchildNames();
  }

  /** The field columns measure nothing: A's plural functions find no members. */
  lemma GrandchildFieldWidths()
    ensures WellFormed(GrandchildB)
    ensures FieldWidth(GrandchildB, "key") == Ok(3) && FieldWidth(GrandchildB, "label") == Ok(5)
  {
    GrandchildPlurals();
  }

  /** The one row B prints: the member name and the items of its raw tuple. */
  lemma GrandchildRows()
    ensures WellFormed(GrandchildB)
    ensures PrintedRows(GrandchildB) == Ok([["X", "x", "y"]])
  {
    GrandchildWellFormed();
    GrandchildRow();
    assert PrintedRows(GrandchildB).Ok?;
    assert PrintedRows(GrandchildB).value == [["X", "x", "y"]];
  }

  /** The row of `X`: its name, then `str` of each item of its raw tuple. */
  lemma GrandchildRow()
    ensures WellFormed(GrandchildB)
    ensures PrintedRow(GrandchildB, 0) == Ok(["X", "x", "y"])
  {
    GrandchildWellFormed();
    var c := GrandchildB;
    var items := [Str("x"), Str("y")];
    FormatRecordRow("X", items);
    assert forall k :: 0 <= k < |items| ==> Formattable(items[k]);
    assert FormatFrom([Str("X")] + items, 3, 0) == Ok(["X"] + StrOfAll(items));
    assert StrOfAll(items) == ["x", "y"];
    assert Labels(c) == ["name", "key", "label"];
    assert Spread(PairXY) == Ok([Str("x"), Str("y")]);
    assert [Str(c.entries[0].0)] + Spread(c.entries[0].1).value == [Str("X")] + items;
    assert ["X"] + StrOfAll(items) == ["X", "x", "y"];
  }

  /**
   * `B.describe()` prints the header `Name Key Label` over a row holding the
   * tuple's items, with the field columns only as wide as their labels:
   * the functions it calls belong to A, which has no members.
   */
  lemma GrandchildDescribe()
    ensures WellFormed(GrandchildB)
    ensures DescribeText(GrandchildB) == Ok(Table.TextWith("B", [4, 3, 5], ["name", "key", "label"], [["X", "x", "y"]]))
  {
    GrandchildWellFormed();
    GrandchildWidths();
    GrandchildRows();
    assert Labels(GrandchildB) == ["name", "key", "label"];
    DescribeTextOf(GrandchildB);
  }

  // ---------------------------------------------------------------------------
  // Names that clash
  // ---------------------------------------------------------------------------

  /** The raw value of member `A` in a class declaring `_field_names_ = ("name", "key")`. */
  const LongTextPair: Value := Tuple([Str("long text"), Num(1)])

  /** `_field_names_ = ("name", "key")` with `A = ("long text", 1)`, as the metaclass as written builds it. */
  const NameKeyClass: EnumClass :=
    EnumClass("Sample", Some(["name", "key"]), [("A", Rec(["name", "key"], [Str("long text"), Num(1)]))],
              Some(Tuple([Str("name"), Str("key")])), [Base("NamedEnum", Some(PyNone), None)])

  lemma NameKeyClassBuilt()
    ensures BuildAsWritten(ConvertValue, "Sample", map[FieldNamesKey := Tuple([Str("name"), Str("key")]), "A" := LongTextPair],
                           ["A"], [LongTextPair], [NamedEnum]) == Ok(NameKeyClass)
  {
    var entries := map[FieldNamesKey := Tuple([Str("name"), Str("key")]), "A" := LongTextPair];
    assert OwnSpec(entries) == Some(Tuple([Str("name"), Str("key")]));
    assert Attachable(["A"], ["name", "key"], AllKinds);
    NameFieldShadowed("Sample", entries, ["A"], [LongTextPair], [NamedEnum], 0);
    var r := BuildAsWritten(ConvertValue, "Sample", entries, ["A"], [LongTextPair], [NamedEnum]);
    assert ConvertValue(["name", "key"], LongTextPair) == Ok(r.value.entries[0].1);
    assert r.value.entries == [("A", Rec(["name", "key"], [Str("long text"), Num(1)]))];
    assert ChainOf([NamedEnum]) == [Base("NamedEnum", Some(PyNone), None)] by {
      assert LevelRecord([NamedEnum], 0) == None;
    }
  }

  lemma NameKeyClassWellFormed()
    ensures WellFormed(NameKeyClass) && Names(NameKeyClass) == ["A"] && Fields(NameKeyClass) == ["name", "key"]
    ensures LevelFields(NameKeyClass, 0) == ["name", "key"] && LevelFields(NameKeyClass, 1) == []
  {
    NameKeyValid();
  }

  /**
   * The `name` field's plural function is called `names`, and is found
   * before the metaclass's `names()`; `keys` is the `key` field's.
   */
  lemma NameKeyPlurals()
    ensures WellFormed(NameKeyClass)
    ensures CallWithoutArguments(NameKeyClass, "names") == Ok([Str("long text")])
    ensures CallWithoutArguments(NameKeyClass, "keys") == Ok([Num(1)])
  {
    NameKeyClassWellFormed();
    var c := NameKeyClass;
    assert "names" == FunctionName("name", Plural) && "keys" == FunctionName("key", Plural);
    assert !Generates("key", AllKinds, "names") by {
      assert "names"[0] != "keys"[0];
    }
    assert LookupFunction(["name", "key"], AllKinds, "names") == Some(Query(Plural, 0)) by {
      assert ["name", "key"][..1] == ["name"];
    }
    assert ClassFunction(c, AllKinds, "names") == Ok(BoundFunction(0, Query(Plural, 0)));
    assert ClassFunction(c, AllKinds, "keys") == Ok(BoundFunction(0, Query(Plural, 1)));
    assert FieldValues(c, 0) == [Str("long text")];
    assert FieldValues(c, 1) == [Num(1)];
  }

  /** The widths: `names()` measures the `name` field, so the name column is as wide as `long text`. */
  lemma NameKeyWidths()
    ensures WellFormed(NameKeyClass)
    ensures DescribeWidths(NameKeyClass) == Ok([9, 9, 3])
  {
    NameKeyClassWellFormed();
    NameKeyWidthResults();
    CollectAll(WidthResults(NameKeyClass), [9, 9, 3]);
  }

  /** Each column measured on its own. */
  lemma NameKeyWidthResults()
    ensures WellFormed(NameKeyClass)
    ensures WidthResults(NameKeyClass) == [Ok(9), Ok(9), Ok(3)]
  {
    NameKeyClassWellFormed();
    NameKeyNameWidths();
    NameKeyKeyWidth();
    var c := NameKeyClass;
    assert Labels(c) == ["name", "name", "key"];
  }

  /** The name column and the `name` column both measure `long text`. */
  lemma NameKeyNameWidths()
    ensures WellFormed(NameKeyClass)
    ensures NameWidth(NameKeyClass) == Ok(9) && FieldWidth(NameKeyClass, "name") == Ok(9)
  {
    NameKeyPlurals();
    assert StrOfAll([Str("long text")]) == ["long text"];
  }

  /** The `key` column measures `1` against its heading. */
  lemma NameKeyKeyWidth()
    ensures WellFormed(NameKeyClass)
    ensures FieldWidth(NameKeyClass, "key") == Ok(3)
  {
    NameKeyPlurals();
    assert StrOfAll([Num(1)]) == ["1"];
  }

  /** The row: the member name `A`, then the record's items. */
  lemma NameKeyRows()
    ensures WellFormed(NameKeyClass)
    ensures PrintedRows(NameKeyClass) == Ok([["A", "long text", "1"]])
  {
    NameKeyClassWellFormed();
    var c := NameKeyClass;
    var items := [Str("long text"), Num(1)];
    FormatRecordRow("A", items);
    assert forall k :: 0 <= k < |items| ==> Formattable(items[k]);
    assert FormatFrom([Str("A")] + items, 3, 0) == Ok(["A"] + StrOfAll(items));
    assert StrOfAll(items) == ["long text", "1"];
    assert Labels(c) == ["name", "name", "key"];
    assert Spread(c.entries[0].1) == Ok(items);
    assert [Str(c.entries[0].0)] + Spread(c.entries[0].1).value == [Str("A")] + items;
    assert ["A"] + StrOfAll(items) == ["A", "long text", "1"];
    assert PrintedRow(c, 0) == Ok(["A", "long text", "1"]);
    assert PrintedRows(c).Ok?;
    assert PrintedRows(c).value == [["A", "long text", "1"]];
  }

  /**
   * `describe` on that class: the header is `Name Name Key`, and the name
   * column takes the width of the `name` field's values, not of the member
   * names.
   */
  lemma NameFieldDescribe()
    ensures WellFormed(NameKeyClass)
    ensures DescribeText(NameKeyClass) ==
      Ok(Table.TextWith("Sample", [9, 9, 3], ["name", "name", "key"], [["A", "long text", "1"]]))
  {
    NameKeyClassWellFormed();
    NameKeyWidths();
    NameKeyRows();
    assert Labels(NameKeyClass) == ["name", "name", "key"];
    DescribeTextOf(NameKeyClass);
  }

  /**
   * A member holding the name of a function `__new__` would attach is
   * refused: `class C(LabeledEnum): keys = ("k", "K")` raises
   * `Cannot reassign members.` for `keys`.
   */
  lemma ReassignRefused()
    ensures BuildAsWritten(ConvertValue, "C", map["keys" := Tuple([Str("k"), Str("K")])], ["keys"], [Tuple([Str("k"), Str("K")])],
                           [LabeledEnum, NamedEnum]) == Err(ReassignMember("keys"))
  {
    KeyLabelValid();
    TwoNameSpec("key", "label");
    var entries := map["keys" := Tuple([Str("k"), Str("K")])];
    assert OwnSpec(entries) == None;
    var ancestors := [LabeledEnum, NamedEnum];
    assert Bindings(ancestors) == [LabeledEnum.binding, NamedEnum.binding];
    assert FunctionName("key", Plural) == "keys";
    assert !Attachable(["keys"], ["key", "label"], AllKinds) by {
      assert Plural in AllKinds && ["key", "label"][0] == "key";
    }
    assert ConvertValue(["key", "label"], Tuple([Str("k"), Str("K")])).Ok?;
    var first := FirstReassigned(["keys"], ["key", "label"], AllKinds);
    assert first == Some("keys");
  }

  /** `class C(LabeledEnum): key = ("k", "K")`: a member named like a field. */
  const KeyMemberClass: EnumClass :=
    EnumClass("C", Some(["key", "label"]), [("key", Rec(["key", "label"], [Str("k"), Str("K")]))],
              None, [Base("LabeledEnum", LabeledEnum.binding, Some(["key", "label"])), Base("NamedEnum", Some(PyNone), None)])

  /** `C.key.key` is the member `C.key` itself, not the record's `key` field `'k'`, while `C.keys()` still reads the field. */
  lemma MemberNamedLikeField()
    ensures WellFormed(KeyMemberClass)
    ensures GetAttr(KeyMemberClass, AllKinds, 0, "key") == Ok(MemberOfClass(0))
    ensures FieldValues(KeyMemberClass, 0) == [Str("k")]
  {
    KeyLabelValid();
    var c := KeyMemberClass;
    assert Names(c) == ["key"];
    MemberShadowsField(c, AllKinds, 0, 0);
    assert FieldValues(c, 0) == [Str("k")];
  }
}
