/**
 * The oldest metaclass, src/named_enum/__init__.py.  It always builds the
 * record class (the root `NamedEnum` declares `("key",)`), has no
 * reserved-name check, converts values like the older version (non-string
 * collections unpacked, everything else passed whole), attaches only `<F>s`
 * and `from_<F>`, returns the first match or nothing from `from_<F>`, lists
 * the distinct values in `tuples()`, and prints no name column in `describe`.
 */
module Oldest {
  import opened Python
  import opened Collector
  import opened Meta
  import Legacy
  import Enums
  import Table

  // ---------------------------------------------------------------------------
  // NamedEnumMeta.__new__
  // ---------------------------------------------------------------------------

  /** The oldest version attaches `<F>s` and `from_<F>` only. */
  const Kinds: set<QueryKind> := {Plural, From}

  /**
   * The specification as written: the class's own binding, else the binding
   * in the body of its first base, which must be there (`bases[0].__dict__`
   * is indexed, so a first base that declares none raises `KeyError`, and a
   * class with no base raises `IndexError`).  Wherever it succeeds it is the
   * nearest declaration.
   */
  function ResolveSpecAsWritten(own: Option<Value>, ancestors: seq<Option<Value>>): (r: Result<Value, Error>)
    ensures r.Err? <==> own.None? && (ancestors == [] || ancestors[0].None?)
    ensures own.None? && ancestors == [] ==> r == Err(NoBase)
    ensures own.None? && ancestors != [] && ancestors[0].None? ==> r == Err(MissingBaseSpec)
    ensures r.Ok? ==> r.value == ResolveSpec(own, ancestors)
  {
    ResolveSpecAsWrittenOneLevel(own, ancestors);
    if own.Some? then Ok(own.value)
    else if ancestors == [] then Err(NoBase)
    else if ancestors[0].Some? then Ok(ancestors[0].value)
    else Err(MissingBaseSpec)
  }

  /**
   * The record class `__new__` as written built for ancestor `j`, which
   * found its specification the same way; the topmost one's first base is
   * `Enum`, which binds nothing.
   */
  function LevelRecord(ancestors: seq<Ancestor>, j: nat): (r: Option<seq<string>>)
    requires j < |ancestors|
    ensures r.Some? ==> ValidFieldNames(r.value)
  {
    match ResolveSpecAsWritten(ancestors[j].binding, Bindings(ancestors[j + 1..]))
    case Ok(spec) => if NamedTupleFields(spec).Ok? then Some(NamedTupleFields(spec).value) else None
    case Err(_) => None
  }

  /** The chain of a class the oldest metaclass builds under `ancestors`. */
  function ChainOf(ancestors: seq<Ancestor>): (r: seq<Base>)
    ensures |r| == |ancestors|
    ensures forall j :: 0 <= j < |ancestors| ==> r[j] == Base(ancestors[j].name, ancestors[j].binding, LevelRecord(ancestors, j))
  {
    seq(|ancestors|, j requires 0 <= j < |ancestors| => Base(ancestors[j].name, ancestors[j].binding, LevelRecord(ancestors, j)))
  }

  /**
   * The class `__new__` creates once the specification is known:
   * namedtuple's field list for it, every raw value converted, then
   * `_tuple_cls` and the functions set on the class, none of which a member
   * may already hold.  A record class is built whatever the specification.
   */
  function Construct(name: string, names: seq<string>, raws: seq<Value>, spec: Value,
                     own: Option<Value>, bases: seq<Base>): (r: Result<EnumClass, Error>)
    requires |names| == |raws|
    ensures r.Ok? <==> (&& NamedTupleFields(spec).Ok?
                        && (forall i :: 0 <= i < |raws| ==> Legacy.ConvertValue(NamedTupleFields(spec).value, raws[i]).Ok?)
                        && Attachable(names, NamedTupleFields(spec).value, Kinds))
    ensures NamedTupleFields(spec).Err? ==> r == Err(InvalidFieldSpec(spec))
    ensures && NamedTupleFields(spec).Ok?
            && (forall i :: 0 <= i < |raws| ==> Legacy.ConvertValue(NamedTupleFields(spec).value, raws[i]).Ok?)
            && !Attachable(names, NamedTupleFields(spec).value, Kinds)
            ==> r == Err(ReassignMember(FirstReassigned(names, NamedTupleFields(spec).value, Kinds).value))
    ensures r.Ok? ==>
      && r.value.spec == Some(NamedTupleFields(spec).value)
      && r.value.name == name && Names(r.value) == names && r.value.own == own && r.value.bases == bases
      && ValidFieldNames(r.value.spec.value)
      && forall i :: 0 <= i < |raws| ==> Legacy.ConvertValue(r.value.spec.value, raws[i]) == Ok(r.value.entries[i].1)
  {
    match NamedTupleFields(spec)
    case Err(e) => Err(e)
    case Ok(fields) =>
      match ConvertAll(Legacy.ConvertValue, fields, raws)
      case Err(e) => Err(e)
      case Ok(values) =>
        match FirstReassigned(names, fields, Kinds)
        case Some(attr) => Err(ReassignMember(attr))
        case None => Ok(EnumClass(name, Some(fields), Zip(names, values), own, bases))
  }

  /**
   * The class `__new__` as written builds: the specification from the class
   * body or, failing that, from the first base's body, which must hold one.
   */
  function BuildAsWritten(name: string, entries: map<string, Value>, names: seq<string>, raws: seq<Value>,
                          ancestors: seq<Ancestor>): (r: Result<EnumClass, Error>)
    requires |names| == |raws|
    ensures OwnSpec(entries).None? && ancestors == [] ==> r == Err(NoBase)
    ensures OwnSpec(entries).None? && ancestors != [] && ancestors[0].binding.None? ==> r == Err(MissingBaseSpec)
    ensures ResolveSpecAsWritten(OwnSpec(entries), Bindings(ancestors)).Ok? ==>
      var spec := ResolveSpecAsWritten(OwnSpec(entries), Bindings(ancestors)).value;
      && (r.Ok? <==> (&& NamedTupleFields(spec).Ok?
                      && (forall i :: 0 <= i < |raws| ==> Legacy.ConvertValue(NamedTupleFields(spec).value, raws[i]).Ok?)
                      && Attachable(names, NamedTupleFields(spec).value, Kinds)))
      && (NamedTupleFields(spec).Err? ==> r == Err(InvalidFieldSpec(spec)))
      && (r.Ok? ==> r.value.spec == Some(NamedTupleFields(spec).value))
    ensures r.Ok? ==> r.value.own == OwnSpec(entries) && r.value.bases == ChainOf(ancestors)
  {
    match ResolveSpecAsWritten(OwnSpec(entries), Bindings(ancestors))
    case Err(e) => Err(e)
    case Ok(spec) => Construct(name, names, raws, spec, OwnSpec(entries), ChainOf(ancestors))
  }

  /**
   * The class `__new__` is evidently meant to build: the specification the
   * class inherits by attribute lookup, the nearest declaration up the
   * first-base chain.
   */
  function Build(name: string, entries: map<string, Value>, names: seq<string>, raws: seq<Value>,
                 ancestors: seq<Ancestor>): (r: Result<EnumClass, Error>)
    requires |names| == |raws|
    ensures var spec := ResolveSpec(OwnSpec(entries), Bindings(ancestors));
      && (r.Ok? <==> (&& NamedTupleFields(spec).Ok?
                      && (forall i :: 0 <= i < |raws| ==> Legacy.ConvertValue(NamedTupleFields(spec).value, raws[i]).Ok?)
                      && Attachable(names, NamedTupleFields(spec).value, Kinds)))
      && (NamedTupleFields(spec).Err? ==> r == Err(InvalidFieldSpec(spec)))
      && (r.Ok? ==> r.value.spec == Some(NamedTupleFields(spec).value))
  {
    Construct(name, names, raws, ResolveSpec(OwnSpec(entries), Bindings(ancestors)), OwnSpec(entries), ChainOf(ancestors))
  }

  /**
   * Wherever the construction as written succeeds it builds the intended
   * class, and it succeeds whenever the class or its first base declares
   * the specification and the intended construction does.
   */
  lemma BuildAgrees(name: string, entries: map<string, Value>, names: seq<string>, raws: seq<Value>,
                    ancestors: seq<Ancestor>)
    requires |names| == |raws|
    ensures BuildAsWritten(name, entries, names, raws, ancestors).Ok? ==>
      BuildAsWritten(name, entries, names, raws, ancestors) == Build(name, entries, names, raws, ancestors)
    ensures OwnSpec(entries).Some? || (ancestors != [] && ancestors[0].binding.Some?) ==>
      BuildAsWritten(name, entries, names, raws, ancestors) == Build(name, entries, names, raws, ancestors)
  {
    if ancestors != [] {
      assert Bindings(ancestors)[0] == ancestors[0].binding;
    }
  }

  /**
   * `__new__` on a collected namespace: resolve the specification, build
   * the record type, convert the namespace in place, and set `_tuple_cls`
   * and the functions on the class.
   */
  method New(name: string, ancestors: seq<Ancestor>, ns: NamedEnumDict) returns (r: Result<EnumClass, Error>)
    requires ns.Valid()
    modifies ns
    ensures ns.Valid()
    ensures r == BuildAsWritten(name, old(ns.entries), old(ns.memberNames), old(ns.lastValues), ancestors)
    ensures r.Ok? ==> WellFormed(r.value) && r.value.spec.Some? && Attached(r.value, Kinds)
  {
    var own := OwnSpec(ns.entries);
    var spec;
    if FieldNamesKey in ns.entries {
      spec := ns.entries[FieldNamesKey];
    } else if ancestors == [] {
      return Err(NoBase);
    } else if ancestors[0].binding.None? {
      return Err(MissingBaseSpec);
    } else {
      spec := ancestors[0].binding.value;
    }
    var tupleFields := NamedTupleFields(spec);
    if tupleFields.Err? {
      return Err(tupleFields.error);
    }
    var fields := tupleFields.value;
    var o := ns.Materialize(Legacy.ConvertValue, fields);
    if o.Fail? {
      return Err(o.error);
    }
    var taken := FirstReassigned(ns.memberNames, fields, Kinds);
    if taken.Some? {
      return Err(ReassignMember(taken.value));
    }
    r := Ok(EnumClass(name, Some(fields), Zip(ns.memberNames, ns.lastValues), own, ChainOf(ancestors)));
    assert r == Construct(name, old(ns.memberNames), old(ns.lastValues), spec, own, ChainOf(ancestors));
    ConstructWellFormed(name, old(ns.memberNames), old(ns.lastValues), spec, own, ChainOf(ancestors));
  }

  /**
   * A class constructed from distinct pending names under a chain whose
   * record classes namedtuple accepts is well formed, and no member holds a
   * name `__new__` set on it.
   */
  lemma ConstructWellFormed(name: string, names: seq<string>, raws: seq<Value>, spec: Value,
                            own: Option<Value>, bases: seq<Base>)
    requires |names| == |raws| && Distinct(names)
    requires forall j :: 0 <= j < |bases| && bases[j].record.Some? ==> ValidFieldNames(bases[j].record.value)
    requires Construct(name, names, raws, spec, own, bases).Ok?
    ensures WellFormed(Construct(name, names, raws, spec, own, bases).value)
    ensures Attached(Construct(name, names, raws, spec, own, bases).value, Kinds)
  {
    var c := Construct(name, names, raws, spec, own, bases).value;
    forall i | 0 <= i < |c.entries|
      ensures RecordOf(c.entries[i].1, c.spec.value)
    {
      assert Legacy.ConvertValue(c.spec.value, raws[i]) == Ok(c.entries[i].1);
    }
  }

  /** The oldest `NamedEnum`: `_field_names_ = ("key",)` */
  const NamedEnum: Ancestor := Ancestor("NamedEnum", Some(Tuple([Str("key")])))

  /** The oldest `PairEnum`: `_field_names_ = ("first", "second")` */
  const PairEnum: Ancestor := Ancestor("PairEnum", Some(Tuple([Str("first"), Str("second")])))

  /**
   * A direct subclass of `NamedEnum` that declares no specification has the
   * single field `key`: each value is wrapped whole, except that a
   * non-string collection is unpacked and so must hold exactly one element;
   * no member may be called `_tuple_cls`, `keys` or `from_key`.
   */
  lemma DefaultKeyField(name: string, entries: map<string, Value>, names: seq<string>, raws: seq<Value>)
    requires |names| == |raws| && FieldNamesKey !in entries
    ensures var r := BuildAsWritten(name, entries, names, raws, [NamedEnum]);
      && (r.Ok? <==> Attachable(names, ["key"], Kinds) &&
                     forall i :: 0 <= i < |raws| ==> !(IsCollection(raws[i]) && !raws[i].Str?) || |raws[i].items| == 1)
      && (r.Ok? ==> Fields(r.value) == ["key"]
                    && forall i :: 0 <= i < |raws| ==>
                         r.value.entries[i].1 == Rec(["key"], if IsCollection(raws[i]) && !raws[i].Str? then raws[i].items else [raws[i]]))
  {
    assert OwnSpec(entries) == None;
    assert Bindings([NamedEnum]) == [NamedEnum.binding];
    Enums.KeyLabelValid();
    assert StrOfAll([Str("key")]) == ["key"];
    var r := BuildAsWritten(name, entries, names, raws, [NamedEnum]);
    assert r == Construct(name, names, raws, Tuple([Str("key")]), None, ChainOf([NamedEnum]));
    if r.Ok? {
      forall i | 0 <= i < |raws|
        ensures r.value.entries[i].1 == Rec(["key"], if IsCollection(raws[i]) && !raws[i].Str? then raws[i].items else [raws[i]])
      {
        assert Legacy.ConvertValue(["key"], raws[i]) == Ok(r.value.entries[i].1);
      }
    }
  }

  /**
   * A subclass, declaring no specification, of a subclass of `PairEnum`
   * that declares none either: as written its construction raises
   * `KeyError`, while the nearest declaration gives it `first` and `second`.
   */
  lemma PairEnumGrandchild(name: string, parent: string, entries: map<string, Value>, names: seq<string>, raws: seq<Value>)
    requires |names| == |raws| && FieldNamesKey !in entries
    ensures BuildAsWritten(name, entries, names, raws, [Ancestor(parent, None), PairEnum, NamedEnum]) == Err(MissingBaseSpec)
    ensures var r := Build(name, entries, names, raws, [Ancestor(parent, None), PairEnum, NamedEnum]);
      && (r.Ok? <==> Attachable(names, ["first", "second"], Kinds) &&
                     forall i :: 0 <= i < |raws| ==> IsCollection(raws[i]) && !raws[i].Str? && |raws[i].items| == 2)
      && (r.Ok? ==> Fields(r.value) == ["first", "second"])
  {
    assert OwnSpec(entries) == None;
    var bs := Bindings([Ancestor(parent, None), PairEnum, NamedEnum]);
    assert bs == [None, PairEnum.binding, NamedEnum.binding];
    ResolveSpecInherits(None, None, [PairEnum.binding, NamedEnum.binding]);
    ResolveSpecInherits(None, PairEnum.binding, [NamedEnum.binding]);
    assert bs == [None] + [PairEnum.binding, NamedEnum.binding];
    assert [PairEnum.binding, NamedEnum.binding] == [PairEnum.binding] + [NamedEnum.binding];
    Enums.FirstSecondValid();
    Enums.TwoNameSpec("first", "second");
  }

  // ---------------------------------------------------------------------------
  // The per-field functions: `<F>s` and `from_<F>` only
  // ---------------------------------------------------------------------------

  /**
   * When the generated names do not clash and no member holds them, `<F>s`
   * and `from_<F>` of a field of the class itself are that field's queries
   * bound to the class.  No `has_<F>` is attached: that name is found only
   * when a member holds it or some function of the class or of a class up
   * its chain happens to be called so.
   */
  lemma ClassFunctionOfField(c: EnumClass, k: nat, kd: QueryKind)
    requires Attached(c, Kinds) && NoClash(RecordFields(c), Kinds) && k < |RecordFields(c)|
    ensures kd != Has ==>
      ClassFunction(c, Kinds, FunctionName(RecordFields(c)[k], kd)) == Ok(BoundFunction(0, Query(kd, k)))
    ensures var attr := FunctionName(RecordFields(c)[k], Has);
      ClassFunction(c, Kinds, attr).Ok? ==>
        || attr in Names(c)
        || exists l, j :: 0 <= l <= |c.bases| && 0 <= j < |LevelFields(c, l)| && Generates(LevelFields(c, l)[j], Kinds, attr)
  {
    if kd != Has {
      assert kd in Kinds by {
        assert kd == Plural || kd == From;
      }
      LookupFunctionOfField(RecordFields(c), Kinds, k, kd);
      assert LevelFields(c, 0) == RecordFields(c);
    }
    UnknownClassFunction(c, Kinds, FunctionName(RecordFields(c)[k], Has));
  }

  /**
   * An attribute of a member that `describe` can turn into text: a value, a
   * member of the class, or a function `__new__` attached to a class of the
   * chain.
   */
  predicate Measurable(c: EnumClass, a: Enums.Attribute) {
    match a
    case Data(_) => true
    case MemberOfClass(j) => j < |c.entries|
    case PerFieldFunction(l, q) => l <= |c.bases| && q.kind in Kinds && q.field < |LevelFields(c, l)|
    case TupleClass => false
    case FieldNamesSpec => false
  }

  /**
   * `getattr(member, F)` for field `k` of member `i`, as `_field_values`,
   * `_from_field` and `describe` read it.  Ordinary lookup comes first, so
   * a field called `name` or `value` reads the member's name or value, a
   * field called like a member reads that member, and a field called like a
   * function attached to the class or to a class up its chain reads that
   * function; only otherwise does `__getattr__` hand out the record's field.
   */
  function FieldAttr(c: EnumClass, i: nat, k: nat): (a: Enums.Attribute)
    requires WellFormed(c) && i < |c.entries| && k < |RecordFields(c)|
    ensures RecordFields(c)[k] == "name" ==> a == Enums.Data(Str(c.entries[i].0))
    ensures RecordFields(c)[k] == "value" ==> a == Enums.Data(c.entries[i].1)
    ensures RecordFields(c)[k] != "name" && RecordFields(c)[k] != "value" ==>
      match ClassFunction(c, Kinds, RecordFields(c)[k])
      case Ok(MemberOf(j)) => a == Enums.MemberOfClass(j)
      case Ok(BoundFunction(l, q)) => a == Enums.PerFieldFunction(l, q)
      case Err(_) => a == Enums.Data(Field(c.entries[i].1, k))
    ensures Measurable(c, a)
  {
    var f := RecordFields(c)[k];
    assert PlainFieldName(f);
    assert f != "_field_names_" && f != "_tuple_cls" && f != "_name_" && f != "_value_" by {
      assert f[0] != '_';
    }
    assert Fields(c) == RecordFields(c);
    assert RecordOf(c.entries[i].1, RecordFields(c));
    assert Enums.ReadField(c.entries[i].1, f) == Ok(Field(c.entries[i].1, k));
    match Enums.GetAttr(c, Kinds, i, f)
    case Ok(a) => a
    case Err(_) => assert false; Enums.Data(PyNone)
  }

  /**
   * Reading field `k` through a member reaches the record: the field is
   * called neither `name` nor `value`, no member is called like it, and no
   * function attached to the class or to a class up its chain is either.
   */
  predicate ReadsRecord(c: EnumClass, k: nat)
    requires k < |RecordFields(c)|
  {
    var f := RecordFields(c)[k];
    && f != "name" && f != "value" && f !in Names(c)
    && forall l, j :: 0 <= l <= |c.bases| && 0 <= j < |LevelFields(c, l)| ==> !Generates(LevelFields(c, l)[j], Kinds, f)
  }

  /**
   * `_field_values` (`<F>s()`): `getattr(member, F)` for every member, in
   * declaration order.  It is the column of field `k` when reading the
   * field reaches the record, the member names for a field called `name`,
   * and the same member over and over for a field called like one.
   */
  function FieldAttrs(c: EnumClass, k: nat): (r: seq<Enums.Attribute>)
    requires WellFormed(c) && k < |RecordFields(c)|
    ensures |r| == |c.entries|
    ensures ReadsRecord(c, k) ==> forall i :: 0 <= i < |r| ==> r[i] == Enums.Data(FieldValues(c, k)[i])
    ensures RecordFields(c)[k] == "name" ==> forall i :: 0 <= i < |r| ==> r[i] == Enums.Data(Str(Names(c)[i]))
    ensures RecordFields(c)[k] != "name" && RecordFields(c)[k] != "value" && RecordFields(c)[k] in Names(c) ==>
      forall i :: 0 <= i < |r| ==> r[i] == Enums.MemberOfClass(IndexOf(Names(c), RecordFields(c)[k]))
  {
    assert ReadsRecord(c, k) ==> forall i :: 0 <= i < |c.entries| ==> FieldAttr(c, i, k) == Enums.Data(FieldValues(c, k)[i]) by {
      if ReadsRecord(c, k) {
        forall i | 0 <= i < |c.entries|
          ensures FieldAttr(c, i, k) == Enums.Data(FieldValues(c, k)[i])
        {
          ReadsRecordField(c, i, k);
        }
      }
    }
    seq(|c.entries|, i requires 0 <= i < |c.entries| => FieldAttr(c, i, k))
  }

  /** The first member at or after `i` whose attribute F equals `v`. */
  function FirstMatchFrom(c: EnumClass, k: nat, v: Value, i: nat): (r: Option<nat>)
    requires WellFormed(c) && k < |RecordFields(c)| && i <= |c.entries|
    ensures r.None? <==> forall j :: i <= j < |c.entries| ==> FieldAttr(c, j, k) != Enums.Data(v)
    ensures r.Some? ==> i <= r.value < |c.entries| && FieldAttr(c, r.value, k) == Enums.Data(v)
                        && forall j :: i <= j < r.value ==> FieldAttr(c, j, k) != Enums.Data(v)
    decreases |c.entries| - i
  {
    if i == |c.entries| then None
    else if FieldAttr(c, i, k) == Enums.Data(v) then Some(i)
    else FirstMatchFrom(c, k, v, i + 1)
  }

  /**
   * `_from_field`: the first member in declaration order whose attribute F
   * equals `v`, or nothing.  A member or an attached function equals no
   * value.
   */
  function FromFieldFirst(c: EnumClass, k: nat, v: Value): (r: Option<Member>)
    requires WellFormed(c) && k < |RecordFields(c)|
    ensures r.None? <==> forall i :: 0 <= i < |c.entries| ==> FieldAttr(c, i, k) != Enums.Data(v)
    ensures r.Some? ==> exists i :: 0 <= i < |c.entries| && r.value == MemberAt(c, i) && FieldAttr(c, i, k) == Enums.Data(v)
                                    && forall j :: 0 <= j < i ==> FieldAttr(c, j, k) != Enums.Data(v)
  {
    match FirstMatchFrom(c, k, v, 0)
    case None => None
    case Some(i) => Some(MemberAt(c, i))
  }

  /** A filter with no match is empty. */
  lemma {:induction false} FilterNoMatch(ms: seq<Member>, k: nat, v: Value)
    requires forall j :: 0 <= j < |ms| ==> ms[j].value.Rec? && k < |ms[j].value.items|
    requires forall j :: 0 <= j < |ms| ==> Field(ms[j].value, k) != v
    ensures Filter(ms, k, v) == []
  {
    if ms != [] {
      var n := |ms| - 1;
      assert forall j :: 0 <= j < n ==> ms[..n][j] == ms[j];
      FilterNoMatch(ms[..n], k, v);
    }
  }

  /** A filter whose first match is at `i` starts with `ms[i]`. */
  lemma {:induction false} FilterHead(ms: seq<Member>, k: nat, v: Value, i: nat)
    requires forall j :: 0 <= j < |ms| ==> ms[j].value.Rec? && k < |ms[j].value.items|
    requires i < |ms| && Field(ms[i].value, k) == v
    requires forall j :: 0 <= j < i ==> Field(ms[j].value, k) != v
    ensures Filter(ms, k, v) != [] && Filter(ms, k, v)[0] == ms[i]
  {
    var n := |ms| - 1;
    var p := Filter(ms[..n], k, v);
    assert forall j :: 0 <= j < n ==> ms[..n][j] == ms[j];
    if i < n {
      FilterHead(ms[..n], k, v, i);
    } else {
      FilterNoMatch(ms[..n], k, v);
    }
  }

  /**
   * When reading field F reaches the record, the oldest `from_<F>(v)` is
   * the first element of the current one, or nothing when the current one
   * is empty.
   */
  lemma FromFieldFirstIsHead(c: EnumClass, k: nat, v: Value)
    requires WellFormed(c) && k < |RecordFields(c)| && ReadsRecord(c, k)
    ensures FromFieldFirst(c, k, v) == if FromField(c, k, v) == [] then None else Some(FromField(c, k, v)[0])
  {
    var m := FirstMatchFrom(c, k, v, 0);
    var n := if m.Some? then m.value else |c.entries|;
    forall j | 0 <= j < n
      ensures Field(c.entries[j].1, k) != v
    {
      ReadsRecordField(c, j, k);
    }
    if m.Some? {
      ReadsRecordField(c, n, k);
      FirstMatchIsFilterHead(c, k, v, n);
    } else {
      NoMatchEmptyFilter(c, k, v);
    }
  }

  /** Where reading a field reaches the record, it reads the member's record field. */
  lemma ReadsRecordField(c: EnumClass, i: nat, k: nat)
    requires WellFormed(c) && i < |c.entries| && k < |RecordFields(c)| && ReadsRecord(c, k)
    ensures FieldAttr(c, i, k) == Enums.Data(Field(c.entries[i].1, k))
  {
    UnknownClassFunction(c, Kinds, RecordFields(c)[k]);
  }

  lemma FirstMatchIsFilterHead(c: EnumClass, k: nat, v: Value, i: nat)
    requires WellFormed(c) && k < |RecordFields(c)| && i < |c.entries|
    requires Field(c.entries[i].1, k) == v
    requires forall j :: 0 <= j < i ==> Field(c.entries[j].1, k) != v
    ensures FromField(c, k, v) != [] && FromField(c, k, v)[0] == MemberAt(c, i)
  {
    var ms := Members(c);
    assert forall j :: 0 <= j < |ms| ==> ms[j] == MemberAt(c, j);
    FilterHead(ms, k, v, i);
  }

  lemma NoMatchEmptyFilter(c: EnumClass, k: nat, v: Value)
    requires WellFormed(c) && k < |RecordFields(c)|
    requires forall i :: 0 <= i < |c.entries| ==> Field(c.entries[i].1, k) != v
    ensures FromField(c, k, v) == []
  {
    var ms := Members(c);
    assert forall j :: 0 <= j < |ms| ==> ms[j] == MemberAt(c, j);
    FilterNoMatch(ms, k, v);
  }

  // ---------------------------------------------------------------------------
  // tuples
  // ---------------------------------------------------------------------------

  /** Within a prefix that holds `x`, its first occurrence is where it is in the whole. */
  lemma {:induction false} IndexOfPrefix<T>(s: seq<T>, n: nat, x: T)
    requires n <= |s| && x in s[..n]
    ensures IndexOf(s, x) == IndexOf(s[..n], x) < n
  {
    var t := s[..n];
    assert t[0] == s[0];
    if s[0] != x {
      assert t[1..] == s[1..][..n - 1];
      assert x in t[1..];
      IndexOfPrefix(s[1..], n - 1, x);
      assert IndexOf(t, x) == 1 + IndexOf(t[1..], x);
      assert IndexOf(s, x) == 1 + IndexOf(s[1..], x);
    }
  }

  /**
   * The keys of the value-to-member map, in first-occurrence order: every
   * hashable value once.
   */
  function DistinctHashable(vs: seq<Value>): (r: seq<Value>)
    ensures forall v :: v in r ==> v in vs && Hashable(v)
    ensures forall i :: 0 <= i < |vs| && Hashable(vs[i]) ==> vs[i] in r
    ensures Distinct(r)
  {
    if vs == [] then []
    else
      var n := |vs| - 1;
      var p := DistinctHashable(vs[..n]);
      assert forall i :: 0 <= i < n ==> vs[..n][i] == vs[i];
      if Hashable(vs[n]) && vs[n] !in p then p + [vs[n]] else p
  }

  /** The elements of `r` come in the order in which they first appear in `vs`. */
  predicate FirstOccurrenceOrder(vs: seq<Value>, r: seq<Value>) {
    forall a, b :: 0 <= a < b < |r| ==> IndexOf(vs, r[a]) < IndexOf(vs, r[b])
  }

  /** The keys come in the order in which their values first appear. */
  lemma {:induction false} DistinctHashableOrdered(vs: seq<Value>)
    ensures FirstOccurrenceOrder(vs, DistinctHashable(vs))
  {
    if vs != [] {
      var n := |vs| - 1;
      var p := DistinctHashable(vs[..n]);
      DistinctHashableOrdered(vs[..n]);
      var r := DistinctHashable(vs);
      var grows := Hashable(vs[n]) && vs[n] !in p;
      assert r == if grows then p + [vs[n]] else p;
      forall a, b | 0 <= a < b < |r|
        ensures IndexOf(vs, r[a]) < IndexOf(vs, r[b])
      {
        assert r[a] == p[a];
        IndexOfPrefix(vs, n, p[a]);
        if b < |p| {
          assert r[b] == p[b];
          IndexOfPrefix(vs, n, p[b]);
          assert FirstOccurrenceOrder(vs[..n], p);
        } else {
          assert grows && r[b] == vs[n];
          assert forall i :: 0 <= i < n ==> vs[i] != vs[n] by {
            assert forall i :: 0 <= i < n ==> vs[..n][i] == vs[i];
          }
          IndexOfFresh(vs, n);
        }
      }
    }
  }

  /** An element absent from the prefix before it first occurs where it is. */
  lemma IndexOfFresh(vs: seq<Value>, n: nat)
    requires n < |vs| && forall i :: 0 <= i < n ==> vs[i] != vs[n]
    ensures IndexOf(vs, vs[n]) == n
  {
  }

  /**
   * `tuples()`: every hashable member value once, in the order of first
   * appearance, which for distinct hashable values is `values()` itself.
   */
  function Tuples(c: EnumClass): (r: seq<Value>)
    ensures forall v :: v in r ==> v in Values(c) && Hashable(v)
    ensures forall i :: 0 <= i < |c.entries| && Hashable(Values(c)[i]) ==> Values(c)[i] in r
    ensures Distinct(r)
    ensures FirstOccurrenceOrder(Values(c), r)
  {
    var vs := Values(c);
    DistinctHashableOrdered(vs);
    DistinctHashable(vs)
  }

  /** When every value is hashable and no two are equal, `tuples()` is `values()` in declaration order. */
  lemma {:induction false} DistinctHashableIsIdentity(vs: seq<Value>)
    requires forall i :: 0 <= i < |vs| ==> Hashable(vs[i])
    requires Distinct(vs)
    ensures DistinctHashable(vs) == vs
  {
    if vs != [] {
      var n := |vs| - 1;
      var init := vs[..n];
      assert Distinct(init) && forall i :: 0 <= i < |init| ==> Hashable(init[i]) by {
        assert forall i :: 0 <= i < n ==> init[i] == vs[i];
      }
      DistinctHashableIsIdentity(init);
      assert vs[n] !in init;
      assert init + [vs[n]] == vs;
    }
  }

  lemma TuplesAreValues(c: EnumClass)
    requires forall i :: 0 <= i < |c.entries| ==> Hashable(c.entries[i].1)
    requires Distinct(Values(c))
    ensures Tuples(c) == Values(c)
  {
    DistinctHashableIsIdentity(Values(c));
  }

  // ---------------------------------------------------------------------------
  // describe
  // ---------------------------------------------------------------------------

  /**
   * `str` of what `getattr(member, F)` returned: a value's own `str`, a
   * member's `str`, or the `repr` of the `functools.partial` that `__new__`
   * attached to a class of the chain (the metaclass bound to its first two
   * arguments, that class and the field name, which the text ends with).
   */
  function AttributeText(c: EnumClass, a: Enums.Attribute): (r: string)
    requires Measurable(c, a)
    ensures a.Data? ==> r == StrOf(a.v)
    ensures a.MemberOfClass? ==> r == Enums.MemberStr(c, a.index)
    ensures a.PerFieldFunction? ==>
      var prefix, suffix := "functools.partial(", Repr(Str(LevelFields(c, a.level)[a.q.field])) + ")";
      && |prefix| + |suffix| <= |r| && r[..|prefix|] == prefix && r[|r| - |suffix|..] == suffix
  {
    match a
    case Data(v) => StrOf(v)
    case MemberOfClass(j) => Enums.MemberStr(c, j)
    case PerFieldFunction(l, q) =>
      var prefix, suffix := "functools.partial(", Repr(Str(LevelFields(c, l)[q.field])) + ")";
      var middle := "<bound method NamedEnumMeta." + (if q.kind == Plural then "_field_values" else "_from_field")
        + " of <class 'named_enum.NamedEnumMeta'>>, <named enum " + Repr(Str(Level(c, l).name)) + ">, ";
      var s := prefix + middle + suffix;
      assert s[..|prefix|] == prefix;
      assert s[|s| - |suffix|..] == suffix;
      s
  }

  /**
   * Row `i` as `describe` measures it: `str` of `getattr(member, F)` for
   * every field, the strings `list(map(str, cls.<F>s()))` holds.  Where
   * reading the field reaches the record it is the printed cell; a field
   * called `name` measures the member name instead, and a field called like
   * a member measures that member's `str`.
   */
  function MeasuredRows(c: EnumClass): (rows: seq<seq<string>>)
    requires WellFormed(c) && c.spec.Some?
    ensures |rows| == |c.entries| && Table.WellShaped(Fields(c), rows)
    ensures forall i, k :: 0 <= i < |rows| && 0 <= k < |Fields(c)| && ReadsRecord(c, k) ==>
      rows[i][k] == StrOf(c.entries[i].1.items[k])
    ensures forall i, k :: 0 <= i < |rows| && 0 <= k < |Fields(c)| && Fields(c)[k] == "name" ==>
      rows[i][k] == c.entries[i].0
    ensures forall i, k :: 0 <= i < |rows| && 0 <= k < |Fields(c)| &&
                           Fields(c)[k] != "name" && Fields(c)[k] != "value" && Fields(c)[k] in Names(c) ==>
      rows[i][k] == Enums.MemberStr(c, IndexOf(Names(c), Fields(c)[k]))
  {
    assert Fields(c) == RecordFields(c);
    assert forall i, k :: 0 <= i < |c.entries| && 0 <= k < |Fields(c)| && ReadsRecord(c, k) ==>
      FieldAttr(c, i, k) == Enums.Data(Field(c.entries[i].1, k)) by {
      forall i, k | 0 <= i < |c.entries| && 0 <= k < |Fields(c)| && ReadsRecord(c, k)
        ensures FieldAttr(c, i, k) == Enums.Data(Field(c.entries[i].1, k))
      {
        ReadsRecordField(c, i, k);
      }
    }
    seq(|c.entries|, i requires 0 <= i < |c.entries| =>
      seq(|Fields(c)|, k requires 0 <= k < |Fields(c)| => AttributeText(c, FieldAttr(c, i, k))))
  }

  /** Row `i` as `describe` prints it: the record's items; there is no name column. */
  function Rows(c: EnumClass): (rows: seq<seq<string>>)
    requires WellFormed(c) && c.spec.Some?
    ensures |rows| == |c.entries| && Table.WellShaped(Fields(c), rows)
    ensures forall i :: 0 <= i < |rows| ==> rows[i] == StrOfAll(c.entries[i].1.items)
  {
    seq(|c.entries|, i requires 0 <= i < |c.entries| => StrOfAll(c.entries[i].1.items))
  }

  /** When every field reads through to the record, `describe` measures the rows it prints. */
  lemma MeasuredRowsArePrinted(c: EnumClass)
    requires WellFormed(c) && c.spec.Some?
    requires forall k :: 0 <= k < |Fields(c)| ==> ReadsRecord(c, k)
    ensures MeasuredRows(c) == Rows(c)
  {
    var m, p := MeasuredRows(c), Rows(c);
    forall i | 0 <= i < |m|
      ensures m[i] == p[i]
    {
      assert |m[i]| == |p[i]|;
      forall k | 0 <= k < |m[i]|
        ensures m[i][k] == p[i][k]
      {
        assert ReadsRecord(c, k);
      }
    }
  }

  /**
   * `getattr(cls, "<F>s")` for field `k` is its own `<F>s`: no member holds
   * that name, and no later field G has `from_<G>` equal to it, whose
   * assignment would have replaced it.
   */
  predicate PluralBound(c: EnumClass, k: nat)
    requires k < |RecordFields(c)|
  {
    var fs := RecordFields(c);
    && FunctionName(fs[k], Plural) !in Names(c)
    && forall j :: k < j < |fs| ==> FunctionName(fs[j], From) != FunctionName(fs[k], Plural)
  }

  /**
   * `getattr(cls, "<F>s")` is field F's own `<F>s` exactly when the name is
   * bound as `PluralBound` states; when no member holds a name `__new__`
   * set and the names do not clash, it always is.
   */
  lemma PluralBoundIff(c: EnumClass, k: nat)
    requires WellFormed(c) && k < |RecordFields(c)|
    ensures ClassFunction(c, Kinds, FunctionName(RecordFields(c)[k], Plural)) == Ok(BoundFunction(0, Query(Plural, k)))
            <==> PluralBound(c, k)
    ensures Attached(c, Kinds) && NoClash(RecordFields(c), Kinds) ==> PluralBound(c, k)
  {
    var fs := RecordFields(c);
    var attr := FunctionName(fs[k], Plural);
    assert LevelFields(c, 0) == fs;
    assert Generates(fs[k], Kinds, attr);
    LookupFunctionLast(fs, Kinds, attr);
    var q := LookupFunction(fs, Kinds, attr).value;
    if q.kind == Plural {
      assert fs[q.field] + "s" == fs[k] + "s";
      assert fs[q.field] == (fs[q.field] + "s")[..|fs[q.field]|];
      assert fs[q.field] == fs[k];
      assert q.field == k;
    }
    assert |FunctionName(fs[k], From)| != |attr|;
    if Attached(c, Kinds) && NoClash(fs, Kinds) {
      ClassFunctionOfField(c, k, Plural);
    }
  }

  /** The first field, from `k` on, whose `<F>s` name a member or another field's function took over. */
  function FirstMisbound(c: EnumClass, k: nat): (r: Option<nat>)
    requires k <= |RecordFields(c)|
    ensures r.None? <==> forall j :: k <= j < |RecordFields(c)| ==> PluralBound(c, j)
    ensures r.Some? ==> k <= r.value < |RecordFields(c)| && !PluralBound(c, r.value)
                        && forall j :: k <= j < r.value ==> PluralBound(c, j)
    decreases |RecordFields(c)| - k
  {
    if k == |RecordFields(c)| then None
    else if !PluralBound(c, k) then Some(k)
    else FirstMisbound(c, k + 1)
  }

  /**
   * What calling `getattr(cls, "<F>s")()` raises for a field whose name was
   * taken over: a member is not callable, and a `from_<G>` function needs
   * its argument.
   */
  function MisboundError(c: EnumClass, k: nat): (e: Error)
    requires WellFormed(c) && k < |RecordFields(c)| && !PluralBound(c, k)
    ensures var attr := FunctionName(RecordFields(c)[k], Plural);
      && (attr in Names(c) <==> e == NotCallable(attr))
      && (attr !in Names(c) <==> e == MissingArgument(attr))
  {
    var attr := FunctionName(RecordFields(c)[k], Plural);
    if attr in Names(c) then NotCallable(attr) else MissingArgument(attr)
  }

  /**
   * The text `describe` prints, unless calling `<F>s` for some field calls
   * a member or another field's `from_` function, or a field value cannot
   * be formatted with a width.  Each column is as wide as the longest of
   * its heading and the measured strings; the printed cells are the
   * record's items.
   */
  function DescribeText(c: EnumClass): (r: Result<string, Error>)
    requires WellFormed(c) && c.spec.Some?
    ensures FirstMisbound(c, 0).Some? ==> r == Err(MisboundError(c, FirstMisbound(c, 0).value))
    ensures FirstMisbound(c, 0).None? && FirstUnformattable(c.entries).Some? ==>
      r == Err(Unformattable(FirstUnformattable(c.entries).value))
    ensures r.Ok? ==> |r.value| > 8 + |c.name| && r.value[..8 + |c.name|] == "Class: " + c.name + "\n"
  {
    match FirstMisbound(c, 0)
    case Some(k) => Err(MisboundError(c, k))
    case None =>
      if FirstUnformattable(c.entries).Some? then Err(Unformattable(FirstUnformattable(c.entries).value))
      else
        var ws := Table.Widths(Fields(c), MeasuredRows(c));
        Table.TextWithTitle(c.name, ws, Fields(c), Rows(c));
        Ok(Table.TextWith(c.name, ws, Fields(c), Rows(c)))
  }

  /**
   * The pass over the fields that calls `getattr(cls, "<F>s")()` for each:
   * the first field whose call does not land on its own plural function,
   * if any.
   */
  method CheckPluralNames(c: EnumClass) returns (r: Option<nat>)
    requires WellFormed(c)
    ensures r == FirstMisbound(c, 0)
  {
    var fields := RecordFields(c);
    var k := 0;
    while k < |fields|
      invariant 0 <= k <= |fields|
      invariant FirstMisbound(c, 0) == FirstMisbound(c, k)
    {
      PluralBoundIff(c, k);
      if ClassFunction(c, Kinds, FunctionName(fields[k], Plural)) != Ok(BoundFunction(0, Query(Plural, k))) {
        return Some(k);
      }
      k := k + 1;
    }
    r := None;
  }

  /** `describe` without the final `print`. */
  method Describe(c: EnumClass) returns (r: Result<string, Error>)
    requires WellFormed(c) && c.spec.Some?
    ensures r == DescribeText(c)
  {
    var misbound := CheckPluralNames(c);
    if misbound.Some? {
      var attr := FunctionName(RecordFields(c)[misbound.value], Plural);
      if attr in Names(c) {
        return Err(NotCallable(attr));
      }
      return Err(MissingArgument(attr));
    }
    var bad := FirstUnformattable(c.entries);
    if bad.Some? {
      return Err(Unformattable(bad.value));
    }
    var output := Table.Render(c.name, Fields(c), MeasuredRows(c), Rows(c));
    r := Ok(output);
  }

  /**
   * The oldest `describe` fails exactly when a `<F>s` name was taken over
   * or a field value is neither a string nor an integer.
   */
  lemma DescribeFails(c: EnumClass)
    requires WellFormed(c) && c.spec.Some?
    ensures DescribeText(c).Err? <==>
      || (exists k :: 0 <= k < |RecordFields(c)| && !PluralBound(c, k))
      || (exists i, k :: 0 <= i < |c.entries| && 0 <= k < |c.entries[i].1.items| && !Formattable(c.entries[i].1.items[k]))
  {
    if FirstMisbound(c, 0).Some? {
      assert !PluralBound(c, FirstMisbound(c, 0).value);
    }
  }

  /**
   * The layout the oldest `describe` prints: `Class: <name>`, a header of
   * the capitalized field names, a dash line exactly as long as the header,
   * then one line per member holding its record's items only, each column
   * as wide as the longest of its heading and its measured strings.  When
   * every field reads through to the record, every line after the first is
   * as wide as the header.
   */
  lemma DescribeLayout(c: EnumClass)
    requires WellFormed(c) && c.spec.Some?
    ensures DescribeText(c).Ok? ==>
      var ws := Table.Widths(Fields(c), MeasuredRows(c));
      var ls := Table.LinesWith(c.name, ws, Fields(c), Rows(c));
      && DescribeText(c).value == Table.Unlines(ls)
      && |ls| == 3 + |c.entries|
      && ls[0] == "Class: " + c.name
      && ls[1] == Table.FormatRow(ws, Table.Capitalized(Fields(c)))
      && |ls[1]| == Table.LineWidth(ws)
      && ls[2] == Text.Repeat('-', |ls[1]|)
      && (forall i :: 0 <= i < |c.entries| ==> ls[3 + i] == Table.FormatRow(ws, StrOfAll(c.entries[i].1.items)))
      && ((forall k :: 0 <= k < |Fields(c)| ==> ReadsRecord(c, k)) ==> forall i :: 1 <= i < |ls| ==> |ls[i]| == |ls[1]|)
  {
    if DescribeText(c).Ok? {
      var fs, rows := Fields(c), Rows(c);
      var ws := Table.Widths(fs, MeasuredRows(c));
      assert DescribeText(c) == Ok(Table.TextWith(c.name, ws, fs, rows));
      Table.TextWithIsLines(c.name, ws, fs, rows);
      Table.LinesWithShape(c.name, ws, fs, rows);
      Table.HeaderWidth(fs, MeasuredRows(c));
      if forall k :: 0 <= k < |fs| ==> ReadsRecord(c, k) {
        MeasuredRowsArePrinted(c);
        Table.TableShape(c.name, fs, rows);
      }
    }
  }

  /**
   * A class declaring the fields `name` and `key` under `NamedEnum`, with
   * the single member `A = ("long text", 1)`.
   */
  const NameKeySample: EnumClass :=
    EnumClass("Sample", Some(["name", "key"]), [("A", Rec(["name", "key"], [Str("long text"), Num(1)]))],
              Some(Tuple([Str("name"), Str("key")])), [Base("NamedEnum", NamedEnum.binding, Some(["key"]))])

  /** The sample is well formed: its member, its fields and the level of `NamedEnum` above it. */
  lemma NameKeySampleWellFormed()
    ensures WellFormed(NameKeySample) && Names(NameKeySample) == ["A"]
    ensures RecordFields(NameKeySample) == Fields(NameKeySample) == LevelFields(NameKeySample, 0) == ["name", "key"]
    ensures LevelFields(NameKeySample, 1) == ["key"]
  {
    Enums.NameKeyValid();
    assert Names(NameKeySample) == ["A"];
  }

  /** `_field_names_ = ("name", "key")` with `A = ("long text", 1)` builds that class as written. */
  lemma NameKeySampleBuilt()
    ensures BuildAsWritten("Sample", map[FieldNamesKey := Tuple([Str("name"), Str("key")])], ["A"],
                           [Tuple([Str("long text"), Num(1)])], [NamedEnum]) == Ok(NameKeySample)
    ensures WellFormed(NameKeySample)
  {
    NameKeySampleWellFormed();
    Enums.NameKeyValid();
    Enums.TwoNameSpec("name", "key");
    Enums.KeyLabelValid();
    assert StrOfAll([Str("key")]) == ["key"];
    var raws := [Tuple([Str("long text"), Num(1)])];
    assert Legacy.ConvertValue(["name", "key"], raws[0]) == Ok(Rec(["name", "key"], [Str("long text"), Num(1)]));
    var conv := ConvertAll(Legacy.ConvertValue, ["name", "key"], raws);
    assert conv.Ok? && |conv.value| == 1 && conv.value[0] == Rec(["name", "key"], [Str("long text"), Num(1)]);
    assert conv.value == [Rec(["name", "key"], [Str("long text"), Num(1)])];
    assert Zip(["A"], [Rec(["name", "key"], [Str("long text"), Num(1)])]) == NameKeySample.entries;
    assert Attachable(["A"], ["name", "key"], Kinds) by {
      assert "_tuple_cls" != "A";
      forall k, kd | 0 <= k < 2 && kd in Kinds
        ensures FunctionName(["name", "key"][k], kd) !in ["A"]
      {
        assert |FunctionName(["name", "key"][k], kd)| > 1;
      }
    }
    assert [NamedEnum][0 + 1..] == [];
    assert LevelRecord([NamedEnum], 0) == Some(["key"]);
    assert ChainOf([NamedEnum]) == NameKeySample.bases;
    assert OwnSpec(map[FieldNamesKey := Tuple([Str("name"), Str("key")])]) == NameKeySample.own;
  }

  /** No member of the sample and no function of it or of `NamedEnum` is called `key`. */
  lemma NameKeySampleKeyUnbound()
    ensures ClassFunction(NameKeySample, Kinds, "key") == Err(NoClassAttribute("key"))
  {
    var c := NameKeySample;
    NameKeySampleWellFormed();
    assert LookupFunction(["key"], Kinds, "key").None? by {
      assert ["key"][..0] == [];
      assert |"key"| < |"keys"| && |"key"| < |"from_key"|;
    }
    assert LookupFunction(["name", "key"], Kinds, "key").None? by {
      assert ["name", "key"][..1] == ["name"] && ["name"][..0] == [];
      assert |"key"| < |"keys"| && |"key"| < |"from_key"| && "key" != "names" && |"key"| < |"from_name"|;
    }
    assert LookupFrom(c, Kinds, "key", 0) == LookupFrom(c, Kinds, "key", 1) == LookupFrom(c, Kinds, "key", 2) == None;
  }

  /** Reading `name` and `key` through the sample's member. */
  lemma NameKeySampleAttrs()
    ensures WellFormed(NameKeySample)
    ensures FieldAttr(NameKeySample, 0, 0) == Enums.Data(Str("A"))
    ensures FieldAttr(NameKeySample, 0, 1) == Enums.Data(Num(1))
  {
    NameKeySampleWellFormed();
    NameKeySampleKeyUnbound();
  }

  /**
   * The oldest version accepts a field called `name`, but reading it
   * through a member gives the member's name: `names()` is `("A",)`, and
   * `from_name("long text")` finds nothing while `from_name("A")` finds the
   * member.
   */
  lemma NameFieldReadsMemberName()
    ensures WellFormed(NameKeySample)
    ensures FieldAttrs(NameKeySample, 0) == [Enums.Data(Str("A"))]
    ensures FromFieldFirst(NameKeySample, 0, Str("long text")) == None
    ensures FromFieldFirst(NameKeySample, 0, Str("A")) == Some(MemberAt(NameKeySample, 0))
  {
    NameKeySampleAttrs();
  }

  /**
   * `describe` on the sample sizes the `name` column for `A` (width 4, the
   * heading's) and the `key` column at 3, so it prints the row
   * `long text |   1`, wider than its header `Name | Key`.
   */
  lemma NameColumnOverflows()
    ensures WellFormed(NameKeySample)
    ensures DescribeText(NameKeySample) == Ok(Table.TextWith("Sample", [4, 3], ["name", "key"], [["long text", "1"]]))
    ensures |Table.FormatRow([4, 3], ["long text", "1"])| > |Table.FormatRow([4, 3], Table.Capitalized(["name", "key"]))|
  {
    SampleDescribes();
    NameKeySampleRows();
    SampleLineLengths();
  }

  /** Both fields of the sample keep their `<F>s` function, and every value formats. */
  lemma SampleDescribes()
    ensures WellFormed(NameKeySample)
    ensures DescribeText(NameKeySample).Ok?
  {
    NameKeySampleWellFormed();
    var c := NameKeySample;
    assert |FunctionName("key", From)| != |FunctionName("name", Plural)|;
    assert PluralBound(c, 0) && PluralBound(c, 1);
    assert FirstMisbound(c, 0).None?;
    assert FirstUnformattable(c.entries).None?;
  }

  /** The header and the row of the sample, with its columns sized 4 and 3. */
  lemma SampleLineLengths()
    ensures Table.Widths(["name", "key"], [["A", "1"]]) == [4, 3]
    ensures |Table.FormatRow([4, 3], Table.Capitalized(["name", "key"]))| == 10
    ensures |Table.FormatRow([4, 3], ["long text", "1"])| == 15
  {
    var hs := Table.Capitalized(["name", "key"]);
    assert |hs[0]| == 4 && |hs[1]| == 3;
    assert [4, 3][1..] == [3];
    assert hs[1..] == [hs[1]];
    assert ["long text", "1"][1..] == ["1"];
    var ws := Table.Widths(["name", "key"], [["A", "1"]]);
    assert ws[0] == Table.ColumnWidth("name", [["A", "1"]], 0) == 4;
    assert ws[1] == Table.ColumnWidth("key", [["A", "1"]], 1) == 3;
  }

  /** What `describe` measures and prints for the sample. */
  lemma NameKeySampleRows()
    ensures WellFormed(NameKeySample)
    ensures MeasuredRows(NameKeySample) == [["A", "1"]]
    ensures Rows(NameKeySample) == [["long text", "1"]]
  {
    var c := NameKeySample;
    NameKeySampleAttrs();
    assert StrOf(Num(1)) == "1" by {
      assert NatToString(1) == "1";
    }
    var m := MeasuredRows(c);
    assert m == [["A", "1"]] by {
      assert |m| == 1 && |m[0]| == 2;
      assert m[0][0] == "A" && m[0][1] == "1";
      assert m[0] == ["A", "1"];
    }
    var p := Rows(c);
    assert p == [["long text", "1"]] by {
      assert |p| == 1 && |p[0]| == 2;
      assert p[0] == StrOfAll([Str("long text"), Num(1)]);
      assert p[0][0] == "long text" && p[0][1] == "1";
      assert p[0] == ["long text", "1"];
    }
  }
}
