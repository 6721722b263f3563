/**
 * The current metaclass, named_enum/meta.py: how `_convert` turns raw member
 * values into records, how `NamedEnumMeta.__new__` resolves the field
 * specification and builds the class, and the queries, exports and the
 * `describe` table of a finished class.
 *
 * A finished class is an `EnumClass`: its name, the fields of the record
 * class built for it (absent for a plain enumeration), its members as
 * (name, value) pairs in declaration order, what its own body binds to
 * `_field_names_`, and the classes up its first-base chain.  Attribute lookup
 * on the class walks that chain, so `_fields()`, the per-field functions and
 * `describe` can see what an ancestor defines.
 */
module Meta {
  import opened Python
  import opened Collector
  import Table

  // ---------------------------------------------------------------------------
  // _NamedEnumDict._convert
  // ---------------------------------------------------------------------------

  /** The class handed to `_convert`: `tuple` itself, a class that is not a tuple, or a namedtuple class. */
  datatype RecordClass = PlainTuple | NotATuple | NamedTupleClass(fields: seq<string>)

  /**
   * The conversion of one raw value by `_convert`.  A one-field record wraps
   * the raw value whatever it is; with any other number of fields the raw
   * value must be a sequence: a string is passed whole as a single argument,
   * any other sequence is unpacked positionally, and the record takes exactly
   * one argument per field.
   */
  function ConvertValue(fields: seq<string>, raw: Value): (r: Result<Value, Error>)
    ensures r.Ok? ==> r.value.Rec? && r.value.fields == fields && |r.value.items| == |fields|
    ensures |fields| == 1 ==> r.Ok? && r.value.items == [raw]
    ensures |fields| != 1 && !IsSequence(raw) ==> r == Err(CannotUnpack(raw))
    ensures |fields| != 1 && raw.Str? ==> r == Err(ArityMismatch(|fields|, 1))
    ensures |fields| != 1 && IsSequence(raw) && !raw.Str? ==>
      (r.Ok? <==> |raw.items| == |fields|) && (r.Ok? ==> r.value.items == raw.items)
  {
    if |fields| == 1 then MakeRecord(fields, [raw])
    else if !IsSequence(raw) then Err(CannotUnpack(raw))
    else if raw.Str? then MakeRecord(fields, [raw])
    else MakeRecord(fields, Unpacked(raw))
  }

  /**
   * A record class with fields converts its values the way its own field
   * count dictates.
   */
  method Convert(d: NamedEnumDict, tupleCls: RecordClass) returns (r: Outcome<Error>)
    requires d.Valid()
    modifies d
    ensures d.Valid()
    ensures !tupleCls.NamedTupleClass? ==> r == Fail(NotRecordClass) && unchanged(d)
    ensures tupleCls.NamedTupleClass? ==>
      ConvertedState(ConvertAll(ConvertValue, tupleCls.fields, old(d.lastValues)), r,
                     old(d.entries), old(d.memberNames), old(d.lastValues), d.entries, d.memberNames, d.lastValues)
  {
    if !tupleCls.NamedTupleClass? {
      return Fail(NotRecordClass);
    }
    r := d.Materialize(ConvertValue, tupleCls.fields);
  }

  /**
   * `_convert` on the namespace fixture with a one-field record class:
   * every pending value, the list included, becomes the only field of its
   * record, under the same name and in the same order, while
   * `_field_names_` and `__a__` keep their values.
   */
  method ConvertFixtureOneField() returns (r: Outcome<Error>, entries: map<string, Value>, names: seq<string>, values: seq<Value>)
    ensures r == Pass
    ensures names == ["a", "_a", "b"]
    ensures values == [Rec(["key"], [List([Str("a"), Str("b")])]), Rec(["key"], [Str("a")]), Rec(["key"], [Num(1)])]
    ensures entries == map[FieldNamesKey := Str("b"), "a" := values[0], "_a" := values[1], "__a__" := Str("a"), "b" := values[2]]
  {
    var d := Filled();
    r := Convert(d, NamedTupleClass(["key"]));
    entries, names, values := d.entries, d.memberNames, d.lastValues;
  }

  /** `_convert` refuses `tuple` itself and leaves the namespace as it was. */
  method ConvertFixturePlainTuple() returns (r: Outcome<Error>, names: seq<string>)
    ensures r == Fail(NotRecordClass)
    ensures names == ["a", "_a", "b"]
  {
    var d := Filled();
    r := Convert(d, PlainTuple);
    names := d.memberNames;
  }

  /**
   * After cleaning the fixture and binding `b` again, `_convert` with the
   * two-field record class `(key, value)` refuses the scalar `1`, which is
   * not a sequence.
   */
  method ConvertCleanedScalar() returns (r: Outcome<Error>)
    ensures r == Fail(CannotUnpack(Num(1)))
  {
    var d := CleanedWith(Num(1));
    r := Convert(d, NamedTupleClass(["key", "value"]));
  }

  /**
   * The string `"1,2"` is passed whole as one argument, so the two-field
   * record refuses it for its arity.
   */
  method ConvertCleanedString() returns (r: Outcome<Error>)
    ensures r == Fail(ArityMismatch(2, 1))
  {
    var d := CleanedWith(Str("1,2"));
    r := Convert(d, NamedTupleClass(["key", "value"]));
  }

  /**
   * The list `[111, 222]` is unpacked into the record `(key=111, value=222)`,
   * stored under `b` beside the untouched `_field_names_` and `__a__`.
   */
  method ConvertCleanedPair() returns (r: Outcome<Error>, entries: map<string, Value>, names: seq<string>)
    ensures r == Pass && names == ["b"]
    ensures entries == map[FieldNamesKey := Str("b"), "__a__" := Str("a"), "b" := Rec(["key", "value"], [Num(111), Num(222)])]
  {
    var d := CleanedWith(List([Num(111), Num(222)]));
    r := Convert(d, NamedTupleClass(["key", "value"]));
    entries, names := d.entries, d.memberNames;
  }

  // ---------------------------------------------------------------------------
  // NamedEnumMeta.__new__
  // ---------------------------------------------------------------------------

  /** What a class body binds to `_field_names_`, if it binds it. */
  function OwnSpec(entries: map<string, Value>): Option<Value> {
    if FieldNamesKey in entries then Some(entries[FieldNamesKey]) else None
  }

  /**
   * The field specification `__new__` uses, as written: the class's own
   * binding, else the binding in the body of its first base, else None; a
   * class with no base at all cannot be asked for `bases[0]`.  `ancestors`
   * lists what each class up the first-base chain binds in its own body,
   * nearest first.
   */
  function ResolveSpecAsWritten(own: Option<Value>, ancestors: seq<Option<Value>>): (r: Result<Value, Error>)
    ensures r.Err? <==> own.None? && ancestors == []
    ensures r.Err? ==> r.error == NoBase
    ensures own.Some? ==> r == Ok(own.value)
    ensures own.None? && ancestors != [] ==> r == Ok(if ancestors[0].Some? then ancestors[0].value else PyNone)
  {
    if own.Some? then Ok(own.value)
    else if ancestors == [] then Err(NoBase)
    else if ancestors[0].Some? then Ok(ancestors[0].value)
    else Ok(PyNone)
  }

  /** What attribute lookup finds for `cls._field_names_`: the nearest binding up the chain. */
  function InheritedSpec(chain: seq<Option<Value>>): Value {
    if chain == [] then PyNone
    else if chain[0].Some? then chain[0].value
    else InheritedSpec(chain[1..])
  }

  /**
   * The field specification as `_fields` reads it, which `__new__` is
   * evidently meant to agree with: the nearest binding, the class's own first.
   */
  function ResolveSpec(own: Option<Value>, ancestors: seq<Option<Value>>): (r: Value)
    ensures own.Some? ==> r == own.value
    ensures own.None? && ancestors != [] && ancestors[0].Some? ==> r == ancestors[0].value
    ensures own.None? && (forall j :: 0 <= j < |ancestors| ==> ancestors[j].None?) ==> r == PyNone
  {
    InheritedSpecUnbound(ancestors);
    assert ([own] + ancestors)[1..] == ancestors;
    InheritedSpec([own] + ancestors)
  }

  /** Nothing bound up the whole chain: lookup finds no specification. */
  lemma {:induction false} InheritedSpecUnbound(chain: seq<Option<Value>>)
    ensures (forall j :: 0 <= j < |chain| ==> chain[j].None?) ==> InheritedSpec(chain) == PyNone
  {
    if chain != [] && forall j :: 0 <= j < |chain| ==> chain[j].None? {
      assert forall j :: 0 <= j < |chain[1..]| ==> chain[1..][j] == chain[j + 1];
      InheritedSpecUnbound(chain[1..]);
    }
  }

  /** As written: the configuration error needs both reserved names among the fields. */
  predicate ReservedAsWritten(fields: seq<string>): (r: bool)
    ensures r ==> Reserved(fields) && |fields| >= 2
  {
    "name" in fields && "value" in fields
  }

  /** As the error message says: neither `name` nor `value` may be a field. */
  predicate Reserved(fields: seq<string>): (r: bool)
    ensures !r <==> forall k :: 0 <= k < |fields| ==> fields[k] != "name" && fields[k] != "value"
  {
    "name" in fields || "value" in fields
  }

  /** Which reserved-name test a construction applies: the one written, or the one its message states. */
  datatype ReservedCheck = BothNames | EitherName

  predicate Refuses(check: ReservedCheck, fields: seq<string>) {
    match check
    case BothNames => ReservedAsWritten(fields)
    case EitherName => Reserved(fields)
  }

  /** A class up the first-base chain of a class being built: its name and what its own body binds to `_field_names_`. */
  datatype Ancestor = Ancestor(name: string, binding: Option<Value>)

  /** What each ancestor's own body binds, nearest first. */
  function Bindings(ancestors: seq<Ancestor>): (r: seq<Option<Value>>)
    ensures |r| == |ancestors| && forall j :: 0 <= j < |ancestors| ==> r[j] == ancestors[j].binding
  {
    seq(|ancestors|, j requires 0 <= j < |ancestors| => ancestors[j].binding)
  }

  /**
   * A class up the first-base chain of a finished class, nearest first: its
   * name, what its own body binds to `_field_names_`, and the fields of the
   * record class `__new__` built for it, if it built one.  Only a class
   * without members can be subclassed, so none of these has members.
   */
  datatype Base = Base(name: string, binding: Option<Value>, record: Option<seq<string>>)

  /**
   * A finished class: its name, the fields of the record class `__new__`
   * built for it (absent for a plain enumeration), its members as
   * (name, value) pairs in declaration order, what its own body binds to
   * `_field_names_`, and the classes up its first-base chain.
   */
  datatype EnumClass = EnumClass(name: string, spec: Option<seq<string>>, entries: seq<(string, Value)>,
                                 own: Option<Value>, bases: seq<Base>)

  /** An enumeration member: its class's name, its name and its value. */
  datatype Member = Member(cls: string, name: string, value: Value)

  function Zip(names: seq<string>, values: seq<Value>): (r: seq<(string, Value)>)
    requires |names| == |values|
    ensures |r| == |names| && forall i :: 0 <= i < |r| ==> r[i] == (names[i], values[i])
  {
    seq(|names|, i requires 0 <= i < |names| => (names[i], values[i]))
  }

  /**
   * The record class `__new__` as written built for ancestor `j`, which
   * found its specification the same way; the topmost one's first base is
   * `Enum`, which binds nothing.
   */
  function LevelRecord(ancestors: seq<Ancestor>, j: nat): (r: Option<seq<string>>)
    requires j < |ancestors|
    ensures r.Some? ==> ValidFieldNames(r.value)
  {
    match ResolveSpecAsWritten(ancestors[j].binding, Bindings(ancestors[j + 1..]))
    case Ok(spec) => if Truthy(spec) && NamedTupleFields(spec).Ok? then Some(NamedTupleFields(spec).value) else None
    case Err(_) => None
  }

  /** The chain of a class the current metaclass builds under `ancestors`. */
  function ChainOf(ancestors: seq<Ancestor>): (r: seq<Base>)
    ensures |r| == |ancestors|
    ensures forall j :: 0 <= j < |ancestors| ==> r[j] == Base(ancestors[j].name, ancestors[j].binding, LevelRecord(ancestors, j))
  {
    seq(|ancestors|, j requires 0 <= j < |ancestors| => Base(ancestors[j].name, ancestors[j].binding, LevelRecord(ancestors, j)))
  }

  /** No member holds a name among `_tuple_cls` and the functions of these kinds for these fields. */
  predicate Attachable(names: seq<string>, fields: seq<string>, kinds: set<QueryKind>) {
    && "_tuple_cls" !in names
    && forall k, kd :: 0 <= k < |fields| && kd in kinds ==> FunctionName(fields[k], kd) !in names
  }

  /** The first function name, field by field and per field plural, `from_`, `has_`, that a member holds. */
  function FirstReassignedFunction(names: seq<string>, fields: seq<string>, kinds: set<QueryKind>): (r: Option<string>)
    ensures r.None? <==> forall k, kd :: 0 <= k < |fields| && kd in kinds ==> FunctionName(fields[k], kd) !in names
    ensures r.Some? ==> r.value in names
  {
    if fields == [] then None
    else if Plural in kinds && FunctionName(fields[0], Plural) in names then Some(FunctionName(fields[0], Plural))
    else if From in kinds && FunctionName(fields[0], From) in names then Some(FunctionName(fields[0], From))
    else if Has in kinds && FunctionName(fields[0], Has) in names then Some(FunctionName(fields[0], Has))
    else
      var r := FirstReassignedFunction(names, fields[1..], kinds);
      assert forall k :: 1 <= k < |fields| ==> fields[1..][k - 1] == fields[k];
      assert forall kd :: kd in kinds ==> FunctionName(fields[0], kd) !in names by {
        forall kd | kd in kinds
          ensures FunctionName(fields[0], kd) !in names
        {
          assert kd == Plural || kd == From || kd == Has;
        }
      }
      r
  }

  /**
   * The first attribute `__new__` sets on the new class that one of its
   * members already holds, which `EnumMeta.__setattr__` refuses: first
   * `_tuple_cls`, then the functions in the order they are attached.
   */
  function FirstReassigned(names: seq<string>, fields: seq<string>, kinds: set<QueryKind>): (r: Option<string>)
    ensures r.None? <==> Attachable(names, fields, kinds)
    ensures r.Some? ==> r.value in names
  {
    if "_tuple_cls" in names then Some("_tuple_cls") else FirstReassignedFunction(names, fields, kinds)
  }

  /**
   * The class `__new__` creates once the specification is known: with a
   * falsy specification a plain enumeration over the raw values; otherwise
   * the field list namedtuple accepts, the reserved-name check, the
   * conversion of every raw value, and the attributes set on the class,
   * none of which a member may already hold.  `conv` is the version's
   * per-value conversion; `own` and `bases` are the class's own binding and
   * its chain.
   */
  function Construct(conv: (seq<string>, Value) -> Result<Value, Error>, name: string,
                     names: seq<string>, raws: seq<Value>, spec: Value, check: ReservedCheck,
                     own: Option<Value>, bases: seq<Base>): (r: Result<EnumClass, Error>)
    requires |names| == |raws|
    ensures !Truthy(spec) ==> r == Ok(EnumClass(name, None, Zip(names, raws), own, bases))
    ensures Truthy(spec) ==>
      && (r.Ok? <==> (&& NamedTupleFields(spec).Ok?
                      && !Refuses(check, NamedTupleFields(spec).value)
                      && (forall i :: 0 <= i < |raws| ==> conv(NamedTupleFields(spec).value, raws[i]).Ok?)
                      && Attachable(names, NamedTupleFields(spec).value, AllKinds)))
      && (NamedTupleFields(spec).Err? ==> r == Err(InvalidFieldSpec(spec)))
      && (NamedTupleFields(spec).Ok? && Refuses(check, NamedTupleFields(spec).value) ==> r == Err(ReservedField))
      && (&& NamedTupleFields(spec).Ok? && !Refuses(check, NamedTupleFields(spec).value)
          && (forall i :: 0 <= i < |raws| ==> conv(NamedTupleFields(spec).value, raws[i]).Ok?)
          && !Attachable(names, NamedTupleFields(spec).value, AllKinds)
          ==> r == Err(ReassignMember(FirstReassigned(names, NamedTupleFields(spec).value, AllKinds).value)))
      && (r.Ok? ==> r.value.spec == Some(NamedTupleFields(spec).value))
    ensures r.Ok? ==> r.value.name == name && Names(r.value) == names && r.value.own == own && r.value.bases == bases
    ensures r.Ok? && r.value.spec.Some? ==>
      && ValidFieldNames(r.value.spec.value) && !Refuses(check, r.value.spec.value)
      && Attachable(names, r.value.spec.value, AllKinds)
      && forall i :: 0 <= i < |raws| ==> conv(r.value.spec.value, raws[i]) == Ok(r.value.entries[i].1)
  {
    if !Truthy(spec) then Ok(EnumClass(name, None, Zip(names, raws), own, bases))
    else
      match NamedTupleFields(spec)
      case Err(e) => Err(e)
      case Ok(fields) =>
        if Refuses(check, fields) then Err(ReservedField)
        else
          match ConvertAll(conv, fields, raws)
          case Err(e) => Err(e)
          case Ok(values) =>
            match FirstReassigned(names, fields, AllKinds)
            case Some(attr) => Err(ReassignMember(attr))
            case None => Ok(EnumClass(name, Some(fields), Zip(names, values), own, bases))
  }

  /**
   * The class `__new__` as written builds: the specification from the class
   * body or the first base's body, and the reserved-name check that needs
   * both names.
   */
  function BuildAsWritten(conv: (seq<string>, Value) -> Result<Value, Error>, name: string,
                          entries: map<string, Value>, names: seq<string>, raws: seq<Value>,
                          ancestors: seq<Ancestor>): (r: Result<EnumClass, Error>)
    requires |names| == |raws|
    ensures OwnSpec(entries).None? && ancestors == [] ==> r == Err(NoBase)
    ensures ResolveSpecAsWritten(OwnSpec(entries), Bindings(ancestors)).Ok? ==>
      var spec := ResolveSpecAsWritten(OwnSpec(entries), Bindings(ancestors)).value;
      && (!Truthy(spec) ==> r == Ok(EnumClass(name, None, Zip(names, raws), OwnSpec(entries), ChainOf(ancestors))))
      && (Truthy(spec) ==>
            (r.Ok? <==> (&& NamedTupleFields(spec).Ok?
                         && !ReservedAsWritten(NamedTupleFields(spec).value)
                         && (forall i :: 0 <= i < |raws| ==> conv(NamedTupleFields(spec).value, raws[i]).Ok?)
                         && Attachable(names, NamedTupleFields(spec).value, AllKinds))))
      && (Truthy(spec) && NamedTupleFields(spec).Ok? && ReservedAsWritten(NamedTupleFields(spec).value) ==> r == Err(ReservedField))
    ensures r.Ok? ==> r.value.own == OwnSpec(entries) && r.value.bases == ChainOf(ancestors)
  {
    match ResolveSpecAsWritten(OwnSpec(entries), Bindings(ancestors))
    case Err(e) => Err(e)
    case Ok(spec) => Construct(conv, name, names, raws, spec, BothNames, OwnSpec(entries), ChainOf(ancestors))
  }

  /**
   * The class `__new__` is evidently meant to build: the specification the
   * class inherits by attribute lookup, and no field called `name` or
   * `value`.
   */
  function Build(conv: (seq<string>, Value) -> Result<Value, Error>, name: string,
                 entries: map<string, Value>, names: seq<string>, raws: seq<Value>,
                 ancestors: seq<Ancestor>): (r: Result<EnumClass, Error>)
    requires |names| == |raws|
    ensures var spec := ResolveSpec(OwnSpec(entries), Bindings(ancestors));
      && (!Truthy(spec) ==> r == Ok(EnumClass(name, None, Zip(names, raws), OwnSpec(entries), ChainOf(ancestors))))
      && (Truthy(spec) ==>
            && (r.Ok? <==> (&& NamedTupleFields(spec).Ok?
                            && !Reserved(NamedTupleFields(spec).value)
                            && (forall i :: 0 <= i < |raws| ==> conv(NamedTupleFields(spec).value, raws[i]).Ok?)
                            && Attachable(names, NamedTupleFields(spec).value, AllKinds)))
            && (NamedTupleFields(spec).Ok? && Reserved(NamedTupleFields(spec).value) ==> r == Err(ReservedField)))
    ensures r.Ok? && r.value.spec.Some? ==> !Reserved(r.value.spec.value)
  {
    Construct(conv, name, names, raws, ResolveSpec(OwnSpec(entries), Bindings(ancestors)), EitherName, OwnSpec(entries), ChainOf(ancestors))
  }

  /**
   * The construction as written and the intended one agree whenever the
   * class or its first base declares the specification and the two
   * reserved-name tests agree on the field list it yields.
   */
  lemma BuildAgrees(conv: (seq<string>, Value) -> Result<Value, Error>, name: string,
                    entries: map<string, Value>, names: seq<string>, raws: seq<Value>,
                    ancestors: seq<Ancestor>)
    requires |names| == |raws|
    requires OwnSpec(entries).Some? || (ancestors != [] && ancestors[0].binding.Some?)
    requires var spec := ResolveSpec(OwnSpec(entries), Bindings(ancestors));
      NamedTupleFields(spec).Ok? ==> (Reserved(NamedTupleFields(spec).value) <==> ReservedAsWritten(NamedTupleFields(spec).value))
    ensures BuildAsWritten(conv, name, entries, names, raws, ancestors) == Build(conv, name, entries, names, raws, ancestors)
  {
    ResolveSpecAsWrittenOneLevel(OwnSpec(entries), Bindings(ancestors));
  }

  /**
   * `NamedEnumMeta.__new__` on a collected namespace: resolve the
   * specification, and when it is truthy build the record type, refuse the
   * reserved names, convert the namespace in place and set `_tuple_cls` and
   * the functions on the class.  The class it returns has every property
   * `WellFormed` states, and none of its members holds a name `__new__` set.
   */
  method New(conv: (seq<string>, Value) -> Result<Value, Error>, name: string,
             ancestors: seq<Ancestor>, ns: NamedEnumDict) returns (r: Result<EnumClass, Error>)
    requires ns.Valid()
    requires forall f, v :: conv(f, v).Ok? ==> RecordOf(conv(f, v).value, f)
    modifies ns
    ensures ns.Valid()
    ensures r == BuildAsWritten(conv, name, old(ns.entries), old(ns.memberNames), old(ns.lastValues), ancestors)
    ensures r.Ok? ==> WellFormed(r.value) && Attached(r.value, AllKinds)
  {
    var own := OwnSpec(ns.entries);
    var spec;
    if FieldNamesKey !in ns.entries {
      if ancestors == [] {
        return Err(NoBase);
      }
      spec := if ancestors[0].binding.Some? then ancestors[0].binding.value else PyNone;
    } else {
      spec := ns.entries[FieldNamesKey];
    }
    if !Truthy(spec) {
      return Ok(EnumClass(name, None, Zip(ns.memberNames, ns.lastValues), own, ChainOf(ancestors)));
    }
    var tupleFields := NamedTupleFields(spec);
    if tupleFields.Err? {
      return Err(tupleFields.error);
    }
    var fields := tupleFields.value;
    if "name" in fields && "value" in fields {
      return Err(ReservedField);
    }
    var o := ns.Materialize(conv, fields);
    if o.Fail? {
      return Err(o.error);
    }
    var taken := FirstReassigned(ns.memberNames, fields, AllKinds);
    if taken.Some? {
      return Err(ReassignMember(taken.value));
    }
    r := Ok(EnumClass(name, Some(fields), Zip(ns.memberNames, ns.lastValues), own, ChainOf(ancestors)));
  }

  /**
   * A class constructed from pending names that are distinct, with a
   * conversion that yields records of the requested fields, under a chain
   * whose record classes namedtuple accepts, is well formed, and no member
   * holds a name `__new__` set on it.
   */
  lemma ConstructWellFormed(conv: (seq<string>, Value) -> Result<Value, Error>, name: string,
                            names: seq<string>, raws: seq<Value>, spec: Value, check: ReservedCheck,
                            own: Option<Value>, bases: seq<Base>)
    requires |names| == |raws| && Distinct(names)
    requires forall f, v :: conv(f, v).Ok? ==> RecordOf(conv(f, v).value, f)
    requires forall j :: 0 <= j < |bases| && bases[j].record.Some? ==> ValidFieldNames(bases[j].record.value)
    requires Construct(conv, name, names, raws, spec, check, own, bases).Ok?
    ensures WellFormed(Construct(conv, name, names, raws, spec, check, own, bases).value)
    ensures Attached(Construct(conv, name, names, raws, spec, check, own, bases).value, AllKinds)
  {
    var c := Construct(conv, name, names, raws, spec, check, own, bases).value;
    if c.spec.Some? {
      assert forall i :: 0 <= i < |c.entries| ==> conv(c.spec.value, raws[i]) == Ok(c.entries[i].1);
    }
  }

  /** Under any ancestors, every record class up the chain has fields namedtuple accepts. */
  lemma ChainValid(ancestors: seq<Ancestor>)
    ensures var bases := ChainOf(ancestors);
      forall j :: 0 <= j < |bases| && bases[j].record.Some? ==> ValidFieldNames(bases[j].record.value)
  {
  }

  /**
   * The resolution as written consults one level only: wherever it succeeds
   * it is the intended resolution over the first base alone.  A class that
   * declares its own specification, or whose first base declares one, gets
   * the same result either way.
   */
  lemma ResolveSpecAsWrittenOneLevel(own: Option<Value>, ancestors: seq<Option<Value>>)
    ensures own.Some? || ancestors != [] ==>
      ResolveSpecAsWritten(own, ancestors) == Ok(ResolveSpec(own, if ancestors == [] then [] else ancestors[..1]))
    ensures own.Some? || (ancestors != [] && ancestors[0].Some?) ==>
      ResolveSpecAsWritten(own, ancestors) == Ok(ResolveSpec(own, ancestors))
  {
    if own.None? && ancestors != [] {
      var a0 := ancestors[0];
      assert [own] + ancestors[..1] == [None, a0];
      assert [None, a0][1..] == [a0] && [a0][1..] == [];
      assert InheritedSpec([None, a0]) == InheritedSpec([a0]);
      assert InheritedSpec([a0]) == if a0.Some? then a0.value else InheritedSpec([]);
      assert ResolveSpec(own, ancestors[..1]) == InheritedSpec([None, a0]);
      assert ([own] + ancestors)[1..] == ancestors;
      assert InheritedSpec([own] + ancestors) == InheritedSpec(ancestors);
    }
  }

  /**
   * The intended resolution: a class's own specification wins, and a class
   * that declares none resolves exactly as its first base does.
   */
  lemma ResolveSpecInherits(own: Option<Value>, parent: Option<Value>, rest: seq<Option<Value>>)
    ensures own.Some? ==> ResolveSpec(own, [parent] + rest) == own.value
    ensures own.None? ==> ResolveSpec(own, [parent] + rest) == ResolveSpec(parent, rest)
    ensures parent.Some? ==> ResolveSpec(parent, rest) == parent.value
  {
    assert ([own] + ([parent] + rest))[1..] == [parent] + rest;
  }

  /**
   * A class declaring no specification, under a first base declaring none,
   * under a base declaring `("key", "label")` (a subclass of a
   * `LabeledEnum` subclass that added no members): as written it is built as
   * a plain enumeration, although `_fields` reads `("key", "label")` for it
   * through attribute lookup.
   */
  lemma SpecResolutionSkipsGrandparent()
    ensures ResolveSpecAsWritten(None, [None, Some(Tuple([Str("key"), Str("label")])), Some(PyNone)]) == Ok(PyNone)
    ensures ResolveSpec(None, [None, Some(Tuple([Str("key"), Str("label")])), Some(PyNone)]) == Tuple([Str("key"), Str("label")])
  {
    var labels := Some(Tuple([Str("key"), Str("label")]));
    ResolveSpecInherits(None, None, [labels, Some(PyNone)]);
    ResolveSpecInherits(None, labels, [Some(PyNone)]);
    assert [None, labels, Some(PyNone)] == [None] + [labels, Some(PyNone)];
    assert [labels, Some(PyNone)] == [labels] + [Some(PyNone)];
  }

  /** As written, a field list holding `name` but not `value` passes the reserved-name check. */
  lemma ReservedCheckAcceptsName()
    ensures !ReservedAsWritten(["name", "key"]) && Reserved(["name", "key"])
    ensures forall fields :: ReservedAsWritten(fields) ==> Reserved(fields)
  {
    assert "value" !in ["name", "key"];
  }

  // ---------------------------------------------------------------------------
  // A finished class
  // ---------------------------------------------------------------------------

  /** `v` is an instance of the record class with these fields. */
  predicate RecordOf(v: Value, fields: seq<string>) {
    v.Rec? && v.fields == fields && |v.items| == |fields|
  }

  /** `names()`, in declaration order */
  function Names(c: EnumClass): (r: seq<string>)
    ensures |r| == |c.entries|
  {
    seq(|c.entries|, i requires 0 <= i < |c.entries| => c.entries[i].0)
  }

  /** `values()`, in declaration order */
  function Values(c: EnumClass): (r: seq<Value>)
    ensures |r| == |c.entries|
  {
    seq(|c.entries|, i requires 0 <= i < |c.entries| => c.entries[i].1)
  }

  /**
   * Member names are distinct; with a field list, its names are distinct
   * plain identifiers (as in every list namedtuple accepts) and every value
   * is a record of exactly those fields; so are the fields of every record
   * class up the chain.
   */
  predicate WellFormed(c: EnumClass) {
    && Distinct(Names(c))
    && (c.spec.Some? ==> PlainFieldNames(c.spec.value))
    && (c.spec.Some? ==> forall i :: 0 <= i < |c.entries| ==> RecordOf(c.entries[i].1, c.spec.value))
    && (forall j :: 0 <= j < |c.bases| && c.bases[j].record.Some? ==> PlainFieldNames(c.bases[j].record.value))
  }

  /** No member holds `_tuple_cls` or the name of a function of these kinds for one of the class's own fields. */
  predicate Attached(c: EnumClass, kinds: set<QueryKind>) {
    c.spec.Some? ==> Attachable(Names(c), c.spec.value, kinds)
  }

  /** The fields of the record class `__new__` built for the class itself; none for a plain enumeration. */
  function RecordFields(c: EnumClass): seq<string> {
    if c.spec.Some? then c.spec.value else []
  }

  /** What each class up the chain binds, nearest first. */
  function BaseBindings(bases: seq<Base>): (r: seq<Option<Value>>)
    ensures |r| == |bases| && forall j :: 0 <= j < |bases| ==> r[j] == bases[j].binding
  {
    seq(|bases|, j requires 0 <= j < |bases| => bases[j].binding)
  }

  /** `cls._field_names_`: the nearest binding, the class's own first. */
  function FieldNamesAttr(c: EnumClass): Value {
    InheritedSpec([c.own] + BaseBindings(c.bases))
  }

  /** The record class of the nearest class up the chain that was built with one. */
  function NearestRecord(bases: seq<Base>): (r: Option<seq<string>>)
    ensures r.None? <==> forall j :: 0 <= j < |bases| ==> bases[j].record.None?
    ensures r.Some? ==> exists j :: 0 <= j < |bases| && bases[j].record == r
  {
    if bases == [] then None
    else if bases[0].record.Some? then bases[0].record
    else
      assert forall j :: 1 <= j < |bases| ==> bases[1..][j - 1] == bases[j];
      NearestRecord(bases[1..])
  }

  /** The fields of `cls._tuple_cls`, found by lookup: the class's own record class, else the nearest one up the chain. */
  function TupleClassFields(c: EnumClass): Option<seq<string>> {
    if c.spec.Some? then c.spec else NearestRecord(c.bases)
  }

  /**
   * `_fields()`: the fields of `cls._tuple_cls` when `cls._field_names_` is
   * truthy, otherwise `()`.  A class built with a record class holds its
   * own `_tuple_cls`, and its nearest binding is then the truthy
   * specification it was built from; a plain enumeration reaches both
   * attributes up its chain, and so can report fields that its raw values
   * do not have.
   */
  function Fields(c: EnumClass): (r: seq<string>)
    ensures c.spec.Some? ==> r == c.spec.value
    ensures c.spec.None? && !Truthy(FieldNamesAttr(c)) ==> r == []
    ensures c.spec.None? && r != [] ==> exists j :: 0 <= j < |c.bases| && c.bases[j].record == Some(r)
  {
    if c.spec.Some? then c.spec.value
    else if Truthy(FieldNamesAttr(c)) && TupleClassFields(c).Some? then TupleClassFields(c).value
    else []
  }

  /**
   * Level `l` of the chain as a class of its own: the class itself at 0,
   * the memberless base `l - 1` above that.  A per-field function found at
   * level `l` is bound to this class.
   */
  function Level(c: EnumClass, l: nat): (b: EnumClass)
    requires l <= |c.bases|
    ensures l == 0 ==> b == c
    ensures l > 0 ==> b.entries == [] && b.name == c.bases[l - 1].name && b.spec == c.bases[l - 1].record
    ensures WellFormed(c) ==> WellFormed(b)
  {
    if l == 0 then c
    else
      var base := c.bases[l - 1];
      assert forall j :: 0 <= j < |c.bases[l..]| ==> c.bases[l..][j] == c.bases[l + j];
      EnumClass(base.name, base.record, [], base.binding, c.bases[l..])
  }

  /**
   * The fields of the record class at level `l` of the chain: the class's
   * own at 0, then each base's; none where no record class was built.
   */
  function LevelFields(c: EnumClass, l: nat): seq<string>
    requires l <= |c.bases|
  {
    if l == 0 then RecordFields(c)
    else if c.bases[l - 1].record.Some? then c.bases[l - 1].record.value else []
  }

  function MemberAt(c: EnumClass, i: nat): Member
    requires i < |c.entries|
  {
    Member(c.name, c.entries[i].0, c.entries[i].1)
  }

  /** `gen(name_value_pair=False)`: the members in declaration order */
  function Members(c: EnumClass): (r: seq<Member>)
    ensures |r| == |c.entries|
  {
    seq(|c.entries|, i requires 0 <= i < |c.entries| => MemberAt(c, i))
  }

  /** `gen()`: the (name, value) pairs in declaration order */
  function Gen(c: EnumClass): (r: seq<(string, Value)>)
    ensures |r| == |c.entries|
  {
    seq(|c.entries|, i requires 0 <= i < |c.entries| => (c.entries[i].0, c.entries[i].1))
  }

  /** `gen()` pairs each member's name with its value, in the order of `names()` and `values()`. */
  lemma GenPairsNamesValues(c: EnumClass)
    ensures |Gen(c)| == |Names(c)| == |Values(c)| == |Members(c)|
    ensures forall i :: 0 <= i < |Gen(c)| ==> Gen(c)[i] == (Names(c)[i], Values(c)[i])
    ensures forall i :: 0 <= i < |Gen(c)| ==> Members(c)[i].name == Names(c)[i] && Members(c)[i].value == Values(c)[i]
  {
  }

  /** The nearest binding of a class with no own binding is its first base's resolution. */
  lemma {:induction false} NearestRecordOfChain(ancestors: seq<Ancestor>)
    requires ancestors != [] && ancestors[0].binding.None?
    requires Truthy(InheritedSpec(Bindings(ancestors)))
    requires NamedTupleFields(InheritedSpec(Bindings(ancestors))).Ok?
    ensures NearestRecord(ChainOf(ancestors)) == Some(NamedTupleFields(InheritedSpec(Bindings(ancestors))).value)
  {
    var bs := Bindings(ancestors);
    var chain := ChainOf(ancestors);
    assert bs[1..] == Bindings(ancestors[1..]);
    assert InheritedSpec(bs) == InheritedSpec(bs[1..]);
    assert |ancestors| > 1;
    assert ancestors[0 + 1..] == ancestors[1..];
    if ancestors[1].binding.Some? {
      assert InheritedSpec(bs[1..]) == ancestors[1].binding.value;
      assert chain[0].record == LevelRecord(ancestors, 0);
    } else {
      assert chain[0].record.None?;
      var rest := ancestors[1..];
      assert Bindings(rest)[1..] == Bindings(rest[1..]);
      NearestRecordOfChain(rest);
      assert chain[1..] == ChainOf(rest) by {
        forall j | 0 <= j < |rest|
          ensures chain[1..][j] == ChainOf(rest)[j]
        {
          assert ancestors[j + 1 + 1..] == rest[j + 1..];
        }
      }
    }
  }

  /** The field list the intended construction gives a class resolving `spec`. */
  function IntendedFields(spec: Value): seq<string> {
    if Truthy(spec) && NamedTupleFields(spec).Ok? then NamedTupleFields(spec).value else []
  }

  /**
   * Whatever `__new__` as written builds, `_fields()` reads the fields of
   * the nearest specification up the chain, the intended one, provided the
   * class declaring it could itself be built: they are the fields of the
   * record class when the class has one, and otherwise the fields a plain
   * enumeration reports for raw values that are not records of them.
   */
  lemma FieldsOfBuilt(conv: (seq<string>, Value) -> Result<Value, Error>, name: string,
                      entries: map<string, Value>, names: seq<string>, raws: seq<Value>,
                      ancestors: seq<Ancestor>)
    requires |names| == |raws|
    requires BuildAsWritten(conv, name, entries, names, raws, ancestors).Ok?
    requires var spec := ResolveSpec(OwnSpec(entries), Bindings(ancestors)); Truthy(spec) ==> NamedTupleFields(spec).Ok?
    ensures Fields(BuildAsWritten(conv, name, entries, names, raws, ancestors).value)
            == IntendedFields(ResolveSpec(OwnSpec(entries), Bindings(ancestors)))
  {
    var own, bs := OwnSpec(entries), Bindings(ancestors);
    var spec := ResolveSpecAsWritten(own, bs).value;
    var c := BuildAsWritten(conv, name, entries, names, raws, ancestors).value;
    assert c == Construct(conv, name, names, raws, spec, BothNames, own, ChainOf(ancestors)).value;
    FieldsOfResolved(c, spec, ancestors);
  }

  /**
   * A class built from the specification `__new__` resolved as written,
   * with the record class of that specification when it is truthy, reports
   * the fields of the nearest specification up the chain.
   */
  lemma FieldsOfResolved(c: EnumClass, spec: Value, ancestors: seq<Ancestor>)
    requires ResolveSpecAsWritten(c.own, Bindings(ancestors)) == Ok(spec) && c.bases == ChainOf(ancestors)
    requires Truthy(spec) ==> NamedTupleFields(spec).Ok? && c.spec == Some(NamedTupleFields(spec).value)
    requires !Truthy(spec) ==> c.spec.None?
    requires var resolved := ResolveSpec(c.own, Bindings(ancestors)); Truthy(resolved) ==> NamedTupleFields(resolved).Ok?
    ensures Fields(c) == IntendedFields(ResolveSpec(c.own, Bindings(ancestors)))
  {
    var own, bs := c.own, Bindings(ancestors);
    assert ([own] + bs)[1..] == bs;
    assert BaseBindings(c.bases) == bs;
    if own.None? && bs[0].None? {
      assert InheritedSpec([own] + bs) == InheritedSpec(bs);
      assert FieldNamesAttr(c) == InheritedSpec(bs);
      if Truthy(InheritedSpec(bs)) {
        NearestRecordOfChain(ancestors);
      }
    } else if own.None? {
      ResolveSpecAsWrittenOneLevel(own, bs);
    }
  }

  // ---------------------------------------------------------------------------
  // Per-field queries: `<F>s`, `from_<F>`, `has_<F>`
  // ---------------------------------------------------------------------------

  /** `_field_values`: field `k` of every member's value, in declaration order. */
  function FieldValues(c: EnumClass, k: nat): (r: seq<Value>)
    requires WellFormed(c) && k < |RecordFields(c)|
    ensures |r| == |c.entries|
  {
    seq(|c.entries|, i requires 0 <= i < |c.entries| => Field(c.entries[i].1, k))
  }

  /** `a` is `b` with some elements left out and the rest in their original order. */
  predicate IsSubsequence<T(==)>(a: seq<T>, b: seq<T>) {
    if a == [] then true
    else if b == [] then false
    else if a[|a| - 1] == b[|b| - 1] then IsSubsequence(a[..|a| - 1], b[..|b| - 1])
    else IsSubsequence(a, b[..|b| - 1])
  }

  /** The members of `ms` whose field `k` equals `v`. */
  function Filter(ms: seq<Member>, k: nat, v: Value): (r: seq<Member>)
    requires forall i :: 0 <= i < |ms| ==> ms[i].value.Rec? && k < |ms[i].value.items|
    ensures forall m :: m in r ==> m in ms
    ensures forall i :: 0 <= i < |ms| ==> (ms[i] in r <==> Field(ms[i].value, k) == v)
    ensures IsSubsequence(r, ms)
  {
    if ms == [] then []
    else
      var n := |ms| - 1;
      var p := Filter(ms[..n], k, v);
      assert forall i :: 0 <= i < n ==> ms[..n][i] == ms[i];
      if Field(ms[n].value, k) == v then p + [ms[n]] else p
  }

  /**
   * `_from_field`: exactly the members whose field `k` equals `v`, in
   * declaration order; empty when none matches.
   */
  function FromField(c: EnumClass, k: nat, v: Value): (r: seq<Member>)
    requires WellFormed(c) && k < |RecordFields(c)|
    ensures forall m :: m in r ==> m in Members(c)
    ensures forall i :: 0 <= i < |c.entries| ==> (MemberAt(c, i) in r <==> Field(c.entries[i].1, k) == v)
    ensures IsSubsequence(r, Members(c))
  {
    var ms := Members(c);
    assert forall i :: 0 <= i < |ms| ==> ms[i] == MemberAt(c, i);
    Filter(ms, k, v)
  }

  /** `_has_field`: whether `v` occurs among the values of field `k`. */
  function HasField(c: EnumClass, k: nat, v: Value): (r: bool)
    requires WellFormed(c) && k < |RecordFields(c)|
    ensures r <==> exists i :: 0 <= i < |c.entries| && Field(c.entries[i].1, k) == v
  {
    assert forall i :: 0 <= i < |c.entries| ==> FieldValues(c, k)[i] == Field(c.entries[i].1, k);
    v in FieldValues(c, k)
  }

  /** `has_<F>(v)` holds exactly when `from_<F>(v)` is not empty. */
  lemma HasFieldIffFromField(c: EnumClass, k: nat, v: Value)
    requires WellFormed(c) && k < |RecordFields(c)|
    ensures HasField(c, k, v) <==> FromField(c, k, v) != []
  {
    var fv := FieldValues(c, k);
    var r := FromField(c, k, v);
    if HasField(c, k, v) {
      var i :| 0 <= i < |fv| && fv[i] == v;
      assert MemberAt(c, i) in r;
    }
    if r != [] {
      assert r[0] in Members(c);
      var i :| 0 <= i < |c.entries| && Members(c)[i] == r[0];
      assert fv[i] == v;
    }
  }

  /** The three functions `__new__` attaches for each field. */
  datatype QueryKind = Plural | From | Has

  /** A per-field function: its kind and the index of its field. */
  datatype Query = Query(kind: QueryKind, field: nat)

  /** `"%ss"`, `"from_%s"`, `"has_%s"` applied to a field name */
  function FunctionName(field: string, kind: QueryKind): string {
    match kind
    case Plural => field + "s"
    case From => "from_" + field
    case Has => "has_" + field
  }

  /** One of the functions attached for `field` of the given kinds is called `attr`. */
  predicate Generates(field: string, kinds: set<QueryKind>, attr: string) {
    || (Plural in kinds && attr == FunctionName(field, Plural))
    || (From in kinds && attr == FunctionName(field, From))
    || (Has in kinds && attr == FunctionName(field, Has))
  }

  /**
   * The per-field function a class attribute names, if any.  The functions
   * are attached field by field and, per field, plural, `from_`, `has_`;
   * when two of them share a name the later assignment is the one that
   * stays.  `kinds` are the kinds the version attaches.
   */
  function LookupFunction(fields: seq<string>, kinds: set<QueryKind>, attr: string): (r: Option<Query>)
    ensures r.Some? ==> r.value.field < |fields| && r.value.kind in kinds
                        && FunctionName(fields[r.value.field], r.value.kind) == attr
  {
    if fields == [] then None
    else
      var n := |fields| - 1;
      if Has in kinds && attr == FunctionName(fields[n], Has) then Some(Query(Has, n))
      else if From in kinds && attr == FunctionName(fields[n], From) then Some(Query(From, n))
      else if Plural in kinds && attr == FunctionName(fields[n], Plural) then Some(Query(Plural, n))
      else LookupFunction(fields[..n], kinds, attr)
  }

  /**
   * No function is found exactly when no field generates the name, and the
   * one found belongs to the last field that does.
   */
  lemma {:induction false} LookupFunctionLast(fields: seq<string>, kinds: set<QueryKind>, attr: string)
    ensures var r := LookupFunction(fields, kinds, attr);
      && (r.None? <==> forall j :: 0 <= j < |fields| ==> !Generates(fields[j], kinds, attr))
      && (r.Some? ==> forall j :: r.value.field < j < |fields| ==> !Generates(fields[j], kinds, attr))
  {
    if fields != [] {
      var n := |fields| - 1;
      assert forall j :: 0 <= j < n ==> fields[..n][j] == fields[j];
      LookupFunctionLast(fields[..n], kinds, attr);
      if LookupFunction(fields, kinds, attr) == LookupFunction(fields[..n], kinds, attr) {
        assert !Generates(fields[n], kinds, attr);
      }
    }
  }

  /** No two per-field functions of these fields have the same name. */
  predicate NoClash(fields: seq<string>, kinds: set<QueryKind>) {
    forall j, k, a, b ::
      (0 <= j < |fields| && 0 <= k < |fields| && a in kinds && b in kinds
       && FunctionName(fields[j], a) == FunctionName(fields[k], b)) ==> j == k && a == b
  }

  /** The kinds the current and the older version attach. */
  const AllKinds: set<QueryKind> := {Plural, From, Has}

  /**
   * When the generated names do not clash, the function named after field
   * `k` and an attached kind is that kind's query of field `k`.
   */
  lemma LookupFunctionOfField(fields: seq<string>, kinds: set<QueryKind>, k: nat, kd: QueryKind)
    requires NoClash(fields, kinds) && k < |fields| && kd in kinds
    ensures LookupFunction(fields, kinds, FunctionName(fields[k], kd)) == Some(Query(kd, k))
  {
    var name := FunctionName(fields[k], kd);
    assert Generates(fields[k], kinds, name) by {
      assert kd == Plural || kd == From || kd == Has;
    }
    LookupFunctionLast(fields, kinds, name);
    var q := LookupFunction(fields, kinds, name).value;
    assert FunctionName(fields[q.field], q.kind) == FunctionName(fields[k], kd);
  }

  /** What `getattr(cls, attr)` finds among the members and the per-field functions. */
  datatype ClassAttr =
    | MemberOf(index: nat)                 // the class's own member at this position
    | BoundFunction(level: nat, q: Query)  // a per-field function attached to `Level(c, level)`

  /** The nearest level, from `l` up, among whose per-field functions one is called `attr`. */
  function LookupFrom(c: EnumClass, kinds: set<QueryKind>, attr: string, l: nat): (r: Option<ClassAttr>)
    requires l <= |c.bases| + 1
    ensures r.Some? ==>
      && r.value.BoundFunction? && l <= r.value.level <= |c.bases|
      && LookupFunction(LevelFields(c, r.value.level), kinds, attr) == Some(r.value.q)
    decreases |c.bases| + 1 - l
  {
    if l > |c.bases| then None
    else
      match LookupFunction(LevelFields(c, l), kinds, attr)
      case Some(q) => Some(BoundFunction(l, q))
      case None => LookupFrom(c, kinds, attr, l + 1)
  }

  /** The search up the chain finds nothing exactly when no level from `l` up has such a function. */
  lemma {:induction false} LookupFromNone(c: EnumClass, kinds: set<QueryKind>, attr: string, l: nat)
    requires l <= |c.bases| + 1
    ensures LookupFrom(c, kinds, attr, l).None? <==>
      forall l' :: l <= l' <= |c.bases| ==> LookupFunction(LevelFields(c, l'), kinds, attr).None?
    decreases |c.bases| + 1 - l
  {
    if l <= |c.bases| && LookupFunction(LevelFields(c, l), kinds, attr).None? {
      LookupFromNone(c, kinds, attr, l + 1);
      assert LookupFrom(c, kinds, attr, l) == LookupFrom(c, kinds, attr, l + 1);
    }
  }

  /** What the search up the chain finds lies on the nearest level from `l` up that has such a function. */
  lemma {:induction false} LookupFromFirst(c: EnumClass, kinds: set<QueryKind>, attr: string, l: nat)
    requires l <= |c.bases| + 1
    ensures LookupFrom(c, kinds, attr, l).Some? ==>
      forall l' :: l <= l' < LookupFrom(c, kinds, attr, l).value.level ==> LookupFunction(LevelFields(c, l'), kinds, attr).None?
    decreases |c.bases| + 1 - l
  {
    if l <= |c.bases| && LookupFunction(LevelFields(c, l), kinds, attr).None? {
      LookupFromFirst(c, kinds, attr, l + 1);
      assert LookupFrom(c, kinds, attr, l) == LookupFrom(c, kinds, attr, l + 1);
    }
  }

  /**
   * `getattr(cls, attr)` for a member or a per-field function of the given
   * kinds: the class's own dictionary first (its members, then the
   * functions attached to it), then each class up the first-base chain in
   * turn; when none holds the name, `EnumMeta.__getattr__` raises.
   */
  function ClassFunction(c: EnumClass, kinds: set<QueryKind>, attr: string): (r: Result<ClassAttr, Error>)
    ensures r.Err? ==> r == Err(NoClassAttribute(attr))
    ensures r.Ok? && r.value.MemberOf? ==> r.value.index < |c.entries| && c.entries[r.value.index].0 == attr
    ensures r.Ok? && r.value.BoundFunction? ==>
      && attr !in Names(c) && r.value.level <= |c.bases|
      && r.value.q.kind in kinds && r.value.q.field < |LevelFields(c, r.value.level)|
      && FunctionName(LevelFields(c, r.value.level)[r.value.q.field], r.value.q.kind) == attr
  {
    if attr in Names(c) then
      var i := IndexOf(Names(c), attr);
      Ok(MemberOf(i))
    else
      match LookupFrom(c, kinds, attr, 0)
      case Some(a) => Ok(a)
      case None => Err(NoClassAttribute(attr))
  }

  /**
   * The lookup fails exactly when no member has the name and no level of
   * the chain has a function called so; a member comes first, and its first
   * occurrence; a function is found on the nearest level that has one.
   */
  lemma ClassFunctionFinds(c: EnumClass, kinds: set<QueryKind>, attr: string)
    ensures ClassFunction(c, kinds, attr).Err? <==>
      attr !in Names(c) && forall l :: 0 <= l <= |c.bases| ==> LookupFunction(LevelFields(c, l), kinds, attr).None?
    ensures attr in Names(c) <==> ClassFunction(c, kinds, attr).Ok? && ClassFunction(c, kinds, attr).value.MemberOf?
    ensures ClassFunction(c, kinds, attr).Ok? && ClassFunction(c, kinds, attr).value.MemberOf? ==>
      forall j :: 0 <= j < ClassFunction(c, kinds, attr).value.index ==> c.entries[j].0 != attr
    ensures ClassFunction(c, kinds, attr).Ok? && ClassFunction(c, kinds, attr).value.BoundFunction? ==>
      forall l :: 0 <= l < ClassFunction(c, kinds, attr).value.level ==> LookupFunction(LevelFields(c, l), kinds, attr).None?
  {
    LookupFromNone(c, kinds, attr, 0);
    LookupFromFirst(c, kinds, attr, 0);
    assert forall j :: 0 <= j < |c.entries| ==> Names(c)[j] == c.entries[j].0;
  }

  /**
   * When the generated names do not clash, `<F>s`, `from_<F>` and `has_<F>`
   * of a field of the class itself are that field's three queries, attached
   * to the class: no member holds their names, and the class's own
   * dictionary comes before any class up the chain.
   */
  lemma ClassFunctionOfField(c: EnumClass, k: nat, kd: QueryKind)
    requires Attached(c, AllKinds) && NoClash(RecordFields(c), AllKinds) && k < |RecordFields(c)|
    ensures ClassFunction(c, AllKinds, FunctionName(RecordFields(c)[k], kd)) == Ok(BoundFunction(0, Query(kd, k)))
  {
    assert kd in AllKinds by {
      assert kd == Plural || kd == From || kd == Has;
    }
    LookupFunctionOfField(RecordFields(c), AllKinds, k, kd);
    assert LevelFields(c, 0) == RecordFields(c);
  }

  /**
   * A name is not found exactly when no member has it and no field of the
   * class or of any class up its chain generates it: a plain enumeration
   * under a class with fields still reaches that class's functions.
   */
  lemma UnknownClassFunction(c: EnumClass, kinds: set<QueryKind>, attr: string)
    ensures ClassFunction(c, kinds, attr).Err? <==>
      && attr !in Names(c)
      && forall l, k :: 0 <= l <= |c.bases| && 0 <= k < |LevelFields(c, l)| ==>
           !Generates(LevelFields(c, l)[k], kinds, attr)
  {
    ClassFunctionFinds(c, kinds, attr);
    forall l | 0 <= l <= |c.bases|
      ensures LookupFunction(LevelFields(c, l), kinds, attr).None? <==>
              forall k :: 0 <= k < |LevelFields(c, l)| ==> !Generates(LevelFields(c, l)[k], kinds, attr)
    {
      LookupFunctionLast(LevelFields(c, l), kinds, attr);
    }
  }

  /**
   * A per-field function found up the chain is bound to a class without
   * members: its `<F>s()` and `from_<F>(v)` are empty and its `has_<F>(v)`
   * is false.
   */
  lemma InheritedQueriesEmpty(c: EnumClass, l: nat, k: nat, v: Value)
    requires WellFormed(c) && 1 <= l <= |c.bases| && k < |RecordFields(Level(c, l))|
    ensures FieldValues(Level(c, l), k) == [] && FromField(Level(c, l), k, v) == [] && !HasField(Level(c, l), k, v)
  {
    var b := Level(c, l);
    assert Members(b) == [];
  }
  // ---------------------------------------------------------------------------
  // Membership, exports, repr
  // ---------------------------------------------------------------------------

  /** The left operand of `x in Cls`. */
  datatype Operand = StrOperand(s: string) | MemberOperand(m: Member) | OtherOperand

  /** `__contains__`: a string by member name, otherwise only a registered member of this very class. */
  predicate Contains(c: EnumClass, x: Operand): (r: bool)
    ensures r ==> !x.OtherOperand? && exists i :: 0 <= i < |c.entries| && c.entries[i].0 == (if x.StrOperand? then x.s else x.m.name)
    ensures x.MemberOperand? && r ==> x.m.cls == c.name
  {
    match x
    case StrOperand(s) => s in Names(c)
    case MemberOperand(m) => m.cls == c.name && m.name in Names(c)
    case OtherOperand => false
  }

  /**
   * Every member of the class is in it, by itself and by its name; a string
   * is in it only when it names a member; a member of another class, or
   * anything that is neither, is not.
   */
  lemma ContainsExactlyMembers(c: EnumClass, x: Operand)
    ensures forall i :: 0 <= i < |c.entries| ==> Contains(c, MemberOperand(MemberAt(c, i))) && Contains(c, StrOperand(c.entries[i].0))
    ensures x.StrOperand? ==> (Contains(c, x) <==> exists i :: 0 <= i < |c.entries| && c.entries[i].0 == x.s)
    ensures x.MemberOperand? && x.m.cls != c.name ==> !Contains(c, x)
    ensures x.OtherOperand? ==> !Contains(c, x)
  {
    forall i | 0 <= i < |c.entries|
      ensures Contains(c, StrOperand(c.entries[i].0))
    {
      assert Names(c)[i] == c.entries[i].0;
    }
    if x.StrOperand? && Contains(c, x) {
      var i :| 0 <= i < |Names(c)| && Names(c)[i] == x.s;
      assert c.entries[i].0 == x.s;
    }
  }

  /** The containers `_as_data_type` builds. */
  datatype DataType = DictType | ListType | SetType | TupleType | OrderedDictType

  datatype Exported =
    | DictOf(d: map<string, Value>)
    | ListOf(pairs: seq<(string, Value)>)
    | SetOf(elements: set<(string, Value)>)
    | TupleOf(pairs: seq<(string, Value)>)
    | OrderedDictOf(keys: seq<string>, d: map<string, Value>)

  /** `dict(pairs)`: each pair stored in turn, a later one replacing an earlier one with the same key. */
  function DictOfPairs(pairs: seq<(string, Value)>): (d: map<string, Value>)
    ensures forall i :: 0 <= i < |pairs| ==> pairs[i].0 in d
    ensures forall k :: k in d ==> exists i :: 0 <= i < |pairs| && pairs[i].0 == k
  {
    if pairs == [] then map[]
    else
      var n := |pairs| - 1;
      var d := DictOfPairs(pairs[..n]);
      assert forall i :: 0 <= i < n ==> pairs[..n][i] == pairs[i];
      d[pairs[n].0 := pairs[n].1]
  }

  /** With distinct keys, the dictionary holds the value of pair `i` under its key. */
  lemma {:induction false} DictOfPairsAt(pairs: seq<(string, Value)>, i: nat)
    requires forall a, b :: 0 <= a < b < |pairs| ==> pairs[a].0 != pairs[b].0
    requires i < |pairs|
    ensures DictOfPairs(pairs)[pairs[i].0] == pairs[i].1
  {
    var n := |pairs| - 1;
    if i < n {
      var prefix := pairs[..n];
      assert prefix[i] == pairs[i];
      assert pairs[i].0 != pairs[n].0;
      DictOfPairsAt(prefix, i);
    }
  }

  /** With distinct keys, the dictionary holds each pair's value under its key. */
  lemma DictOfDistinctPairs(pairs: seq<(string, Value)>)
    requires forall i, j :: 0 <= i < j < |pairs| ==> pairs[i].0 != pairs[j].0
    ensures forall i :: 0 <= i < |pairs| ==> DictOfPairs(pairs)[pairs[i].0] == pairs[i].1
  {
    forall i | 0 <= i < |pairs|
      ensures DictOfPairs(pairs)[pairs[i].0] == pairs[i].1
    {
      DictOfPairsAt(pairs, i);
    }
  }

  /** The first value that cannot be hashed, in member order. */
  function FirstUnhashable(vs: seq<Value>): (r: Option<Value>)
    ensures r.None? <==> forall i :: 0 <= i < |vs| ==> Hashable(vs[i])
    ensures r.Some? ==> exists i :: 0 <= i < |vs| && vs[i] == r.value && !Hashable(r.value)
                                    && forall j :: 0 <= j < i ==> Hashable(vs[j])
  {
    if vs == [] then None
    else if !Hashable(vs[0]) then Some(vs[0])
    else
      var r := FirstUnhashable(vs[1..]);
      assert forall j :: 1 <= j < |vs| ==> vs[1..][j - 1] == vs[j];
      r
  }

  /** `dict(gen())`: each member name mapped to its value. */
  function NameValueDict(c: EnumClass): (d: map<string, Value>)
    requires WellFormed(c)
    ensures d.Keys == (set i | 0 <= i < |c.entries| :: c.entries[i].0)
    ensures forall i :: 0 <= i < |c.entries| ==> d[c.entries[i].0] == c.entries[i].1
  {
    GenDict(c);
    DictOfPairs(Gen(c))
  }

  /** The dictionary of `gen()`'s pairs has the member names as its keys, each holding its member's value. */
  lemma GenDict(c: EnumClass)
    requires WellFormed(c)
    ensures DictOfPairs(Gen(c)).Keys == (set i | 0 <= i < |c.entries| :: c.entries[i].0)
    ensures forall i :: 0 <= i < |c.entries| ==> DictOfPairs(Gen(c))[c.entries[i].0] == c.entries[i].1
  {
    var pairs := Gen(c);
    assert forall i :: 0 <= i < |c.entries| ==> pairs[i] == c.entries[i];
    assert forall i, j :: 0 <= i < j < |pairs| ==> pairs[i].0 != pairs[j].0 by {
      assert forall i :: 0 <= i < |pairs| ==> pairs[i].0 == Names(c)[i];
    }
    DictOfDistinctPairs(pairs);
    var d := DictOfPairs(pairs);
    forall key | key in d
      ensures key in (set i | 0 <= i < |c.entries| :: c.entries[i].0)
    {
      var i :| 0 <= i < |pairs| && pairs[i].0 == key;
      assert c.entries[i].0 == key;
    }
  }

  /**
   * `_as_data_type` and the `as_*` exports built on it: `gen()` handed to
   * the container's constructor.  Lists and tuples are the pairs in order;
   * dictionaries map each name to its value (the ordered one keeps the
   * declaration order of its keys); a set needs every pair hashable and
   * fails at the first member whose value is not.
   */
  function AsDataType(c: EnumClass, t: DataType): (r: Result<Exported, Error>)
    requires WellFormed(c)
    ensures t == ListType ==> r == Ok(ListOf(Gen(c)))
    ensures t == TupleType ==> r == Ok(TupleOf(Gen(c)))
    ensures t == DictType ==>
      && r.Ok? && r.value.DictOf?
      && r.value.d.Keys == (set i | 0 <= i < |c.entries| :: c.entries[i].0)
      && forall i :: 0 <= i < |c.entries| ==> r.value.d[c.entries[i].0] == c.entries[i].1
    ensures t == OrderedDictType ==>
      && r.Ok? && r.value.OrderedDictOf? && r.value.keys == Names(c)
      && r.value.d.Keys == (set i | 0 <= i < |c.entries| :: c.entries[i].0)
      && forall i :: 0 <= i < |c.entries| ==> r.value.d[c.entries[i].0] == c.entries[i].1
    ensures t == SetType ==> (r.Ok? <==> forall i :: 0 <= i < |c.entries| ==> Hashable(c.entries[i].1))
    ensures t == SetType && r.Ok? ==> r.value == SetOf(set i | 0 <= i < |c.entries| :: c.entries[i])
    ensures t == SetType && r.Err? ==> exists i :: 0 <= i < |c.entries| && r.error == Unhashable(c.entries[i].1)
  {
    match t
    case DictType => Ok(DictOf(NameValueDict(c)))
    case ListType => Ok(ListOf(Gen(c)))
    case TupleType => Ok(TupleOf(Gen(c)))
    case OrderedDictType => Ok(OrderedDictOf(Names(c), NameValueDict(c)))
    case SetType =>
      assert forall i :: 0 <= i < |c.entries| ==> Values(c)[i] == c.entries[i].1;
      match FirstUnhashable(Values(c))
      case Some(v) => Err(Unhashable(v))
      case None => Ok(SetOf(set i | 0 <= i < |c.entries| :: c.entries[i]))
  }

  /** `repr(cls)`: `<named enum 'Name'>`, from which the class name reads back. */
  function ClassRepr(c: EnumClass): (r: string)
    ensures |r| == |c.name| + 15
    ensures r[..13] == "<named enum '" && r[13..|r| - 2] == c.name && r[|r| - 2..] == "'>"
  {
    "<named enum " + Repr(Str(c.name)) + ">"
  }


  // ---------------------------------------------------------------------------
  // describe
  // ---------------------------------------------------------------------------

  /** The columns of the table: the member name, then every field `_fields()` reports, or a single `value` column. */
  function Labels(c: EnumClass): (r: seq<string>)
    ensures |r| >= 2 && r[0] == "name"
    ensures Fields(c) != [] ==> |r| == 1 + |Fields(c)| && forall j :: 1 <= j < |r| ==> r[j] == Fields(c)[j - 1]
  {
    ["name"] + (if Fields(c) != [] then Fields(c) else ["value"])
  }

  /** `names()` as `describe` receives it: the member names as strings. */
  function NameValues(c: EnumClass): (r: seq<Value>)
    ensures |r| == |c.entries| && forall i :: 0 <= i < |c.entries| ==> r[i] == Str(c.entries[i].0)
  {
    seq(|c.entries|, i requires 0 <= i < |c.entries| => Str(c.entries[i].0))
  }

  /**
   * `getattr(cls, attr)()`, as `describe` calls it: a member is not
   * callable; a plural function returns the values of its field among the
   * members of the class it is bound to; `from_<F>` and `has_<F>` need an
   * argument; failing those, the metaclass's own `names` and `values`.
   */
  function CallWithoutArguments(c: EnumClass, attr: string): (r: Result<seq<Value>, Error>)
    requires WellFormed(c)
  {
    match ClassFunction(c, AllKinds, attr)
    case Ok(MemberOf(_)) => Err(NotCallable(attr))
    case Ok(BoundFunction(l, q)) =>
      // a class up the chain has no members: `InheritedQueriesEmpty`
      if q.kind != Plural then Err(MissingArgument(attr))
      else if l == 0 then Ok(FieldValues(c, q.field))
      else Ok([])
    case Err(e) =>
      if attr == "names" then Ok(NameValues(c))
      else if attr == "values" then Ok(Values(c))
      else Err(e)
  }

  /** `map(len, vs)`: every length, or the first value that has none. */
  function Lengths(vs: seq<Value>): (r: Result<seq<nat>, Error>)
    ensures r.Ok? <==> forall i :: 0 <= i < |vs| ==> Len(vs[i]).Ok?
    ensures r.Ok? ==> |r.value| == |vs| && forall i :: 0 <= i < |vs| ==> r.value[i] == Len(vs[i]).value
    ensures r.Err? ==> exists i :: 0 <= i < |vs| && Len(vs[i]) == Err(r.error) && forall j :: 0 <= j < i ==> Len(vs[j]).Ok?
  {
    if vs == [] then Ok([])
    else
      assert forall i :: 1 <= i < |vs| ==> vs[1..][i - 1] == vs[i];
      match Len(vs[0])
      case Err(e) => Err(e)
      case Ok(n) =>
        match Lengths(vs[1..])
        case Err(e) => Err(e)
        case Ok(ns) => Ok([n] + ns)
  }

  /** The lengths of strings are their lengths. */
  lemma LengthsOfStrings(vs: seq<Value>, cells: seq<string>)
    requires |vs| == |cells| && forall i :: 0 <= i < |vs| ==> vs[i] == Str(cells[i])
    ensures Lengths(vs) == Ok(Table.LengthsOf(cells))
  {
    assert Lengths(vs).value == Table.LengthsOf(cells);
  }

  /** The width of the name column: the longest of `name` and of what `cls.names()` returns. */
  function NameWidth(c: EnumClass): (r: Result<nat, Error>)
    requires WellFormed(c)
    ensures r.Ok? ==> r.value >= 4
  {
    match CallWithoutArguments(c, "names")
    case Err(e) => Err(e)
    case Ok(vs) =>
      match Lengths(vs)
      case Err(e) => Err(e)
      case Ok(ns) => Ok(Table.Longest(4, ns))
  }

  /** The width of the column of field `f`: the longest of `f` and of `str` of what `cls.<f>s()` returns. */
  function FieldWidth(c: EnumClass, f: string): (r: Result<nat, Error>)
    requires WellFormed(c)
    ensures r.Ok? ==> r.value >= |f|
  {
    match CallWithoutArguments(c, FunctionName(f, Plural))
    case Err(e) => Err(e)
    case Ok(vs) => Ok(Table.Longest(|f|, Table.LengthsOf(StrOfAll(vs))))
  }

  /** The values of `rs` in order, or the error of the first that failed. */
  function Collect<T>(rs: seq<Result<T, Error>>): Result<seq<T>, Error> {
    if rs == [] then Ok([])
    else
      match Collect(rs[..|rs| - 1])
      case Err(e) => Err(e)
      case Ok(vs) =>
        match rs[|rs| - 1]
        case Err(e) => Err(e)
        case Ok(v) => Ok(vs + [v])
  }

  /**
   * Collecting succeeds exactly when every result has a value, and then
   * holds them in order; otherwise it is the error of the first that failed.
   */
  lemma {:induction false} CollectMeaning<T>(rs: seq<Result<T, Error>>)
    ensures Collect(rs).Ok? <==> forall j :: 0 <= j < |rs| ==> rs[j].Ok?
    ensures Collect(rs).Ok? ==> |Collect(rs).value| == |rs| && forall j :: 0 <= j < |rs| ==> Collect(rs).value[j] == rs[j].value
    ensures Collect(rs).Err? ==>
      exists j :: 0 <= j < |rs| && rs[j].Err? && rs[j].error == Collect(rs).error && forall i :: 0 <= i < j ==> rs[i].Ok?
  {
    if rs != [] {
      var n := |rs| - 1;
      var prefix := rs[..n];
      assert forall j :: 0 <= j < n ==> prefix[j] == rs[j];
      CollectMeaning(prefix);
      if Collect(prefix).Err? {
        var k :| 0 <= k < n && prefix[k].Err? && prefix[k].error == Collect(prefix).error && forall i :: 0 <= i < k ==> prefix[i].Ok?;
        assert rs[k] == prefix[k];
      } else if rs[n].Err? {
        assert forall i :: 0 <= i < n ==> rs[i].Ok?;
      }
    }
  }

  /** Collecting the first result alone gives its value. */
  lemma CollectFirst<T>(rs: seq<Result<T, Error>>)
    requires rs != [] && rs[0].Ok?
    ensures Collect(rs[..1]) == Ok([rs[0].value])
  {
    var p := rs[..1];
    assert p[..|p| - 1] == [] && p[|p| - 1] == rs[0];
    assert [] + [rs[0].value] == [rs[0].value];
  }

  /** When every result has a value, they are collected in order. */
  lemma CollectAll<T>(rs: seq<Result<T, Error>>, vs: seq<T>)
    requires |rs| == |vs| && forall i :: 0 <= i < |rs| ==> rs[i] == Ok(vs[i])
    ensures Collect(rs) == Ok(vs)
  {
    CollectMeaning(rs);
    assert Collect(rs).value == vs;
  }

  /** The first result that is an error is the error collected. */
  lemma CollectFirstError<T>(rs: seq<Result<T, Error>>, j: nat)
    requires j < |rs| && rs[j].Err? && forall i :: 0 <= i < j ==> rs[i].Ok?
    ensures Collect(rs) == Err(rs[j].error)
  {
    CollectMeaning(rs);
  }

  /** Collecting one more result: the prefix's values extended by it, or the first error. */
  lemma CollectExtend<T>(rs: seq<Result<T, Error>>, j: nat)
    requires j < |rs|
    ensures Collect(rs[..j + 1]) == match Collect(rs[..j])
      case Err(e) => Err(e)
      case Ok(vs) => if rs[j].Ok? then Ok(vs + [rs[j].value]) else Err(rs[j].error)
  {
    assert rs[..j + 1][..j] == rs[..j];
  }

  /** An error collected from a prefix is the error collected from the whole. */
  lemma CollectPrefixError<T>(rs: seq<Result<T, Error>>, n: nat)
    requires n <= |rs| && Collect(rs[..n]).Err?
    ensures Collect(rs) == Collect(rs[..n])
  {
    var prefix := rs[..n];
    assert forall i :: 0 <= i < n ==> prefix[i] == rs[i];
    CollectMeaning(prefix);
    var k :| 0 <= k < n && prefix[k].Err? && prefix[k].error == Collect(prefix).error && forall i :: 0 <= i < k ==> prefix[i].Ok?;
    CollectFirstError(rs, k);
  }

  /** The width of every column, each measured separately: the name column first, then each field column. */
  function WidthResults(c: EnumClass): (rs: seq<Result<nat, Error>>)
    requires WellFormed(c)
    ensures |rs| == |Labels(c)|
    ensures rs[0] == NameWidth(c) && forall j :: 1 <= j < |rs| ==> rs[j] == FieldWidth(c, Labels(c)[j])
  {
    var ls := Labels(c);
    seq(|ls|, j requires 0 <= j < |ls| => if j == 0 then NameWidth(c) else FieldWidth(c, ls[j]))
  }

  /**
   * The column widths in order, each at least as wide as its label, or the
   * error of the first column that cannot be measured, the name column's first.
   */
  function DescribeWidths(c: EnumClass): (r: Result<seq<nat>, Error>)
    requires WellFormed(c)
    ensures r.Ok? ==> |r.value| == |Labels(c)| && forall j :: 0 <= j < |Labels(c)| ==> r.value[j] >= |Labels(c)[j]|
    ensures NameWidth(c).Err? ==> r == Err(NameWidth(c).error)
  {
    var rs := WidthResults(c);
    CollectMeaning(rs);
    if NameWidth(c).Err? then
      CollectFirstError(rs, 0);
      Collect(rs)
    else
      Collect(rs)
  }

  /** `format(v, '>w')` with a width: defined for strings and integers only. */
  predicate Formattable(v: Value) {
    v.Str? || v.Num?
  }

  /**
   * Error `e` is what formatting placeholders `p..` with `args` raises at
   * placeholder `j`: every earlier one has a formattable argument, and
   * placeholder `j` has none (`IndexError`) or one that cannot be formatted.
   */
  predicate FormatFails(args: seq<Value>, p: nat, j: nat, e: Error) {
    && (p < j ==> j <= |args|)
    && (forall i :: p <= i < j ==> Formattable(args[i]))
    && (if j < |args| then !Formattable(args[j]) && e == Unformattable(args[j]) else e == MissingReplacement(j))
  }

  /** A failure behind placeholder `p`, whose argument formats, is a failure from `p` on. */
  lemma FormatFailsBehind(args: seq<Value>, p: nat, j: nat, e: Error)
    requires p < |args| && Formattable(args[p]) && FormatFails(args, p + 1, j, e)
    ensures FormatFails(args, p, j, e)
  {
  }

  /**
   * `str.format` on `n` right-aligned placeholders, from placeholder `p` on:
   * each takes the next positional argument in turn; a missing one raises
   * `IndexError`, one that is neither a string nor an integer `TypeError`;
   * arguments beyond the last placeholder are ignored.
   */
  function FormatFrom(args: seq<Value>, n: nat, p: nat): Result<seq<string>, Error>
    requires p <= n
    decreases n - p
  {
    if p == n then Ok([])
    else if p >= |args| then Err(MissingReplacement(p))
    else if !Formattable(args[p]) then Err(Unformattable(args[p]))
    else
      match FormatFrom(args, n, p + 1)
      case Err(e) => Err(e)
      case Ok(cells) => Ok([StrOf(args[p])] + cells)
  }

  /** Formatting succeeds exactly when every placeholder has an argument that can be formatted. */
  lemma {:induction false} FormatFromSucceeds(args: seq<Value>, n: nat, p: nat)
    requires p <= n
    ensures FormatFrom(args, n, p).Ok? <==> (p == n || n <= |args|) && forall j :: p <= j < n ==> Formattable(args[j])
    decreases n - p
  {
    if p < n && p < |args| && Formattable(args[p]) {
      FormatFromSucceeds(args, n, p + 1);
    }
  }

  /** What formatting prints: `str` of the argument of each placeholder, in order. */
  lemma {:induction false} FormatFromCells(args: seq<Value>, n: nat, p: nat)
    requires p <= n
    ensures FormatFrom(args, n, p).Ok? ==>
      && |FormatFrom(args, n, p).value| == n - p
      && (p == n || n <= |args|)
      && forall j :: p <= j < n ==> FormatFrom(args, n, p).value[j - p] == StrOf(args[j])
    decreases n - p
  {
    if p < n && p < |args| && Formattable(args[p]) {
      FormatFromCells(args, n, p + 1);
      var rest := FormatFrom(args, n, p + 1);
      if rest.Ok? {
        var cells := [StrOf(args[p])] + rest.value;
        assert FormatFrom(args, n, p) == Ok(cells);
        forall j | p < j < n
          ensures cells[j - p] == StrOf(args[j])
        {
          assert cells[j - p] == rest.value[j - (p + 1)];
        }
      }
    }
  }

  /** A formatting error is raised at the first placeholder whose argument is missing or cannot be formatted. */
  lemma {:induction false} FormatFromFailure(args: seq<Value>, n: nat, p: nat)
    requires p <= n
    ensures FormatFrom(args, n, p).Err? ==> exists j :: p <= j < n && FormatFails(args, p, j, FormatFrom(args, n, p).error)
    decreases n - p
  {
    if p == n {
    } else if p >= |args| {
      assert FormatFails(args, p, p, MissingReplacement(p));
    } else if !Formattable(args[p]) {
      assert FormatFails(args, p, p, Unformattable(args[p]));
    } else {
      FormatFromFailure(args, n, p + 1);
      var r := FormatFrom(args, n, p + 1);
      if r.Err? {
        var j :| p + 1 <= j < n && FormatFails(args, p + 1, j, r.error);
        FormatFailsBehind(args, p, j, r.error);
      }
    }
  }

  /** Formatting every argument fails at the first one that cannot be formatted. */
  lemma FormatFromFirstFailure(args: seq<Value>, m: nat)
    requires m < |args| && !Formattable(args[m]) && forall i :: 0 <= i < m ==> Formattable(args[i])
    ensures FormatFrom(args, |args|, 0) == Err(Unformattable(args[m]))
  {
    FormatFromSucceeds(args, |args|, 0);
    FormatFromFailure(args, |args|, 0);
    var r := FormatFrom(args, |args|, 0);
    var j :| 0 <= j < |args| && FormatFails(args, 0, j, r.error);
    assert j <= m;
  }

  /**
   * Formatting a name and the items of a record: every cell is `str` of its
   * argument, unless an item cannot be formatted, and then the first such
   * item is the one that raises.
   */
  lemma FormatRecordRow(name: string, items: seq<Value>)
    ensures var r := FormatFrom([Str(name)] + items, 1 + |items|, 0);
      && (r.Ok? <==> forall k :: 0 <= k < |items| ==> Formattable(items[k]))
      && (r.Ok? ==> r.value == [name] + StrOfAll(items))
      && (forall k :: 0 <= k < |items| && !Formattable(items[k]) && (forall j :: 0 <= j < k ==> Formattable(items[j])) ==>
            r == Err(Unformattable(items[k])))
  {
    if forall k :: 0 <= k < |items| ==> Formattable(items[k]) {
      FormattedRecordRow(name, items);
    }
    if FormatFrom([Str(name)] + items, 1 + |items|, 0).Ok? {
      FormattedItems(name, items);
    }
    forall k | 0 <= k < |items| && !Formattable(items[k]) && (forall j :: 0 <= j < k ==> Formattable(items[j]))
      ensures FormatFrom([Str(name)] + items, 1 + |items|, 0) == Err(Unformattable(items[k]))
    {
      RefusedRecordRow(name, items, k);
    }
  }

  /** A name and items format only when every item can be formatted. */
  lemma FormattedItems(name: string, items: seq<Value>)
    requires FormatFrom([Str(name)] + items, 1 + |items|, 0).Ok?
    ensures forall k :: 0 <= k < |items| ==> Formattable(items[k])
  {
    var args := [Str(name)] + items;
    FormatFromSucceeds(args, |args|, 0);
    forall k | 0 <= k < |items|
      ensures Formattable(items[k])
    {
      assert args[k + 1] == items[k];
    }
  }

  /** A name and formattable items format as the name and `str` of each item. */
  lemma FormattedRecordRow(name: string, items: seq<Value>)
    requires forall k :: 0 <= k < |items| ==> Formattable(items[k])
    ensures FormatFrom([Str(name)] + items, 1 + |items|, 0) == Ok([name] + StrOfAll(items))
  {
    var args := [Str(name)] + items;
    forall k | 0 <= k < |args|
      ensures Formattable(args[k])
    {
      if k > 0 {
        assert args[k] == items[k - 1];
      }
    }
    FormatFromSucceeds(args, |args|, 0);
    FormatFromCells(args, |args|, 0);
    var r := FormatFrom(args, |args|, 0);
    var cells := [name] + StrOfAll(items);
    forall j | 0 <= j < |cells|
      ensures r.value[j] == cells[j]
    {
      if j > 0 {
        assert args[j] == items[j - 1];
      }
    }
    assert r.value == cells;
  }

  /** Formatting a name and items fails at the first item that cannot be formatted. */
  lemma RefusedRecordRow(name: string, items: seq<Value>, k: nat)
    requires k < |items| && !Formattable(items[k]) && forall j :: 0 <= j < k ==> Formattable(items[j])
    ensures FormatFrom([Str(name)] + items, 1 + |items|, 0) == Err(Unformattable(items[k]))
  {
    var args := [Str(name)] + items;
    forall i | 0 <= i < k + 1
      ensures Formattable(args[i])
    {
      if i > 0 {
        assert args[i] == items[i - 1];
      }
    }
    FormatFromFirstFailure(args, k + 1);
  }

  /**
   * The cells of member `i`'s row as `describe` formats them: with fields,
   * the name followed by the member value spread positionally; otherwise the
   * name and `str` of the value.
   */
  function PrintedRow(c: EnumClass, i: nat): (r: Result<seq<string>, Error>)
    requires WellFormed(c) && i < |c.entries|
    ensures r.Ok? ==> |r.value| == |Labels(c)| && r.value[0] == c.entries[i].0
    ensures Fields(c) != [] && !IsCollection(c.entries[i].1) ==> r == Err(NotIterable(c.entries[i].1))
  {
    if Fields(c) != [] then
      match Spread(c.entries[i].1)
      case Err(e) => Err(e)
      case Ok(items) =>
        var args := [Str(c.entries[i].0)] + items;
        FormatFromCells(args, |Labels(c)|, 0);
        FormatFrom(args, |Labels(c)|, 0)
    else Ok([c.entries[i].0, StrOf(c.entries[i].1)])
  }

  /** Each member's row, printed separately. */
  function RowResults(c: EnumClass): (rs: seq<Result<seq<string>, Error>>)
    requires WellFormed(c)
    ensures |rs| == |c.entries| && forall i :: 0 <= i < |c.entries| ==> rs[i] == PrintedRow(c, i)
  {
    seq(|c.entries|, i requires 0 <= i < |c.entries| => PrintedRow(c, i))
  }

  /** The printed rows in order, or the error of the first that cannot be printed. */
  function PrintedRows(c: EnumClass): (r: Result<seq<seq<string>>, Error>)
    requires WellFormed(c)
    ensures r.Ok? <==> forall i :: 0 <= i < |c.entries| ==> PrintedRow(c, i).Ok?
    ensures r.Ok? ==> |r.value| == |c.entries| && forall i :: 0 <= i < |c.entries| ==> r.value[i] == PrintedRow(c, i).value
    ensures r.Err? ==> exists i :: 0 <= i < |c.entries| && PrintedRow(c, i) == Err(r.error) && forall j :: 0 <= j < i ==> PrintedRow(c, j).Ok?
  {
    var rs := RowResults(c);
    CollectMeaning(rs);
    Collect(rs)
  }

  /** Every printed row has a cell per label. */
  lemma PrintedRowsShape(c: EnumClass)
    requires WellFormed(c) && PrintedRows(c).Ok?
    ensures forall i :: 0 <= i < |PrintedRows(c).value| ==> |PrintedRows(c).value[i]| == |Labels(c)|
  {
    var rows := PrintedRows(c).value;
    forall i | 0 <= i < |rows|
      ensures |rows[i]| == |Labels(c)|
    {
      assert rows[i] == PrintedRow(c, i).value;
    }
  }

  /**
   * The text `describe` prints: the widths are measured first, through
   * attribute lookup on the class, then the rows are formatted; the first
   * error raised on the way is the result.
   */
  function DescribeText(c: EnumClass): (r: Result<string, Error>)
    requires WellFormed(c)
    ensures r.Ok? <==> DescribeWidths(c).Ok? && PrintedRows(c).Ok?
    ensures DescribeWidths(c).Err? ==> r == Err(DescribeWidths(c).error)
    ensures r.Ok? ==> |r.value| > 8 + |c.name| && r.value[..8 + |c.name|] == "Class: " + c.name + "\n"
  {
    match DescribeWidths(c)
    case Err(e) => Err(e)
    case Ok(ws) =>
      match PrintedRows(c)
      case Err(e) => Err(e)
      case Ok(rows) =>
        PrintedRowsShape(c);
        Table.TextWithTitle(c.name, ws, Labels(c), rows);
        Ok(Table.TextWith(c.name, ws, Labels(c), rows))
  }

  /** Once the widths are measured, the text is the table over the printed rows, or their error. */
  lemma DescribeTextOf(c: EnumClass)
    requires WellFormed(c) && DescribeWidths(c).Ok?
    ensures PrintedRows(c).Err? ==> DescribeText(c) == Err(PrintedRows(c).error)
    ensures PrintedRows(c).Ok? ==>
      DescribeText(c) == Ok(Table.TextWith(c.name, DescribeWidths(c).value, Labels(c), PrintedRows(c).value))
  {
  }

  /** The measuring part of `describe`: the name column, then the field columns. */
  method MeasureWidths(c: EnumClass) returns (r: Result<seq<nat>, Error>)
    requires WellFormed(c)
    ensures r == DescribeWidths(c)
  {
    var nameWidth := NameWidth(c);
    if nameWidth.Err? {
      return Err(nameWidth.error);
    }
    r := MeasureFieldColumns(c, nameWidth.value);
  }

  /** The loop over the fields, once the name column is measured: `str` of each value `cls.<f>s()` returns. */
  method MeasureFieldColumns(c: EnumClass, nameWidth: nat) returns (r: Result<seq<nat>, Error>)
    requires WellFormed(c) && NameWidth(c) == Ok(nameWidth)
    ensures r == DescribeWidths(c)
  {
    ghost var rs := WidthResults(c);
    var labels := Labels(c);
    var widths := [nameWidth];
    CollectFirst(rs);
    var j := 1;
    while j < |labels|
      invariant 1 <= j <= |labels|
      invariant Collect(rs[..j]) == Ok(widths)
    {
      var w := FieldWidth(c, labels[j]);
      assert w == rs[j];
      CollectExtend(rs, j);
      if w.Err? {
        CollectPrefixError(rs, j + 1);
        return Err(w.error);
      }
      widths := widths + [w.value];
      j := j + 1;
    }
    assert rs[..j] == rs;
    r := Ok(widths);
  }

  /** The printing part of `describe`: a loop over the members, formatting each row. */
  method FormatRows(c: EnumClass) returns (r: Result<seq<seq<string>>, Error>)
    requires WellFormed(c)
    ensures r == PrintedRows(c)
  {
    ghost var rs := RowResults(c);
    var rows := [];
    var i := 0;
    while i < |c.entries|
      invariant 0 <= i <= |c.entries|
      invariant Collect(rs[..i]) == Ok(rows)
    {
      var row := PrintedRow(c, i);
      CollectExtend(rs, i);
      if row.Err? {
        CollectPrefixError(rs, i + 1);
        return Err(row.error);
      }
      rows := rows + [row.value];
      i := i + 1;
    }
    assert rs[..i] == rs;
    r := Ok(rows);
  }

  /** `describe` without the final `print`: widths first, then the rows, then the table. */
  method Describe(c: EnumClass) returns (r: Result<string, Error>)
    requires WellFormed(c)
    ensures r == DescribeText(c)
  {
    var widths := MeasureWidths(c);
    if widths.Err? {
      return Err(widths.error);
    }
    var rows := FormatRows(c);
    if rows.Err? {
      return Err(rows.error);
    }
    var output := Table.RenderWith(c.name, widths.value, Labels(c), rows.value);
    r := Ok(output);
  }

  // ---------------------------------------------------------------------------
  // describe on a class whose lookups find its own functions
  // ---------------------------------------------------------------------------

  /** Row `i` as the record class prints it: the member name, then `str` of every field, or `str` of the whole value. */
  function Row(c: EnumClass, i: nat): (r: seq<string>)
    requires WellFormed(c) && i < |c.entries|
    ensures |r| == 1 + (if RecordFields(c) != [] then |RecordFields(c)| else 1) && r[0] == c.entries[i].0
  {
    [c.entries[i].0] + (if RecordFields(c) != [] then StrOfAll(c.entries[i].1.items) else [StrOf(c.entries[i].1)])
  }

  function Rows(c: EnumClass): (rows: seq<seq<string>>)
    requires WellFormed(c)
    ensures |rows| == |c.entries|
    ensures Fields(c) == RecordFields(c) ==> Table.WellShaped(Labels(c), rows)
    ensures forall i :: 0 <= i < |rows| ==> rows[i] == Row(c, i)
  {
    seq(|c.entries|, i requires 0 <= i < |c.entries| => Row(c, i))
  }

  /** The first of `items` that cannot be formatted with a width. */
  function FirstUnformattableIn(items: seq<Value>): (r: Option<Value>)
    ensures r.None? <==> forall k :: 0 <= k < |items| ==> Formattable(items[k])
    ensures r.Some? ==> exists k :: 0 <= k < |items| && items[k] == r.value && !Formattable(r.value)
                                    && forall j :: 0 <= j < k ==> Formattable(items[j])
  {
    if items == [] then None
    else if !Formattable(items[0]) then Some(items[0])
    else
      assert forall k :: 1 <= k < |items| ==> items[1..][k - 1] == items[k];
      FirstUnformattableIn(items[1..])
  }

  /**
   * Item `k` of row `i` cannot be formatted with a width, and every item
   * before it, row by row and within a row field by field, can.
   */
  predicate FirstUnformattableAt(entries: seq<(string, Value)>, i: nat, k: nat)
    requires forall i :: 0 <= i < |entries| ==> entries[i].1.Rec?
  {
    && i < |entries| && k < |entries[i].1.items|
    && !Formattable(entries[i].1.items[k])
    && (forall j :: 0 <= j < k ==> Formattable(entries[i].1.items[j]))
    && (forall i', j :: 0 <= i' < i && 0 <= j < |entries[i'].1.items| ==> Formattable(entries[i'].1.items[j]))
  }

  /** Behind a fully formattable first row, the position moves down one row. */
  lemma FirstUnformattableShift(entries: seq<(string, Value)>, i: nat, k: nat)
    requires entries != [] && forall i :: 0 <= i < |entries| ==> entries[i].1.Rec?
    requires forall j :: 0 <= j < |entries[0].1.items| ==> Formattable(entries[0].1.items[j])
    requires FirstUnformattableAt(entries[1..], i, k)
    ensures FirstUnformattableAt(entries, i + 1, k) && entries[i + 1] == entries[1..][i]
  {
    forall i', j | 0 <= i' < i + 1 && 0 <= j < |entries[i'].1.items|
      ensures Formattable(entries[i'].1.items[j])
    {
      if i' > 0 {
        assert entries[1..][i' - 1] == entries[i'];
      }
    }
  }

  /**
   * The first field value, row by row and within a row field by field, that
   * cannot be formatted with a width: every value before it, in that order,
   * can.
   */
  function FirstUnformattable(entries: seq<(string, Value)>): (r: Option<Value>)
    requires forall i :: 0 <= i < |entries| ==> entries[i].1.Rec?
    ensures r.None? <==> forall i, k :: 0 <= i < |entries| && 0 <= k < |entries[i].1.items| ==> Formattable(entries[i].1.items[k])
    ensures r.Some? ==> exists i: nat, k: nat :: FirstUnformattableAt(entries, i, k) && entries[i].1.items[k] == r.value
  {
    if entries == [] then None
    else
      match FirstUnformattableIn(entries[0].1.items)
      case Some(v) =>
        assert exists k: nat :: FirstUnformattableAt(entries, 0, k) && entries[0].1.items[k] == v;
        Some(v)
      case None =>
        assert forall i :: 1 <= i < |entries| ==> entries[1..][i - 1] == entries[i];
        var r := FirstUnformattable(entries[1..]);
        if r.Some? then
          var i: nat, k: nat :| FirstUnformattableAt(entries[1..], i, k) && entries[1..][i].1.items[k] == r.value;
          FirstUnformattableShift(entries, i, k);
          r
        else r
  }

  /**
   * Every lookup `describe` makes finds what the class itself defines:
   * `_fields()` is its own record's field list, `names` and (for a plain
   * enumeration) `values` are the metaclass's, and each `<F>s` is the
   * plural function of field F attached to the class.
   */
  predicate StandardLookups(c: EnumClass) {
    && Fields(c) == RecordFields(c)
    && ClassFunction(c, AllKinds, "names").Err?
    && (RecordFields(c) == [] ==> ClassFunction(c, AllKinds, "values").Err?)
    && forall k :: 0 <= k < |RecordFields(c)| ==>
         ClassFunction(c, AllKinds, FunctionName(RecordFields(c)[k], Plural)) == Ok(BoundFunction(0, Query(Plural, k)))
  }

  /** A generated name ending in `s` whose stem starts with neither `f` nor `h` is the plural of exactly that stem. */
  lemma PluralOf(f: string, kd: QueryKind, stem: string)
    requires FunctionName(f, kd) == stem + "s" && stem != [] && stem[0] != 'f' && stem[0] != 'h'
    ensures kd == Plural && f == stem
  {
    assert (stem + "s")[0] == stem[0];
    if kd == Plural {
      assert |f| == |stem|;
      assert forall i :: 0 <= i < |f| ==> f[i] == (f + "s")[i] == (stem + "s")[i] == stem[i];
    }
  }

  /** The plural of a stem that no field carries, starting with neither `f` nor `h`, is generated by none of them. */
  lemma PluralNotGenerated(fields: seq<string>, stem: string)
    requires stem != [] && stem[0] != 'f' && stem[0] != 'h' && stem !in fields
    ensures forall k :: 0 <= k < |fields| ==> !Generates(fields[k], AllKinds, stem + "s")
  {
    forall k, kd | 0 <= k < |fields| && kd in AllKinds && FunctionName(fields[k], kd) == stem + "s"
      ensures false
    {
      PluralOf(fields[k], kd, stem);
    }
  }

  /** With no member and no field anywhere up the chain called `stem`, `<stem>s` is not a class attribute. */
  lemma PluralUnbound(c: EnumClass, stem: string)
    requires stem != [] && stem[0] != 'f' && stem[0] != 'h' && stem + "s" !in Names(c)
    requires forall l :: 0 <= l <= |c.bases| ==> stem !in LevelFields(c, l)
    ensures ClassFunction(c, AllKinds, stem + "s").Err?
  {
    forall l | 0 <= l <= |c.bases|
      ensures forall k :: 0 <= k < |LevelFields(c, l)| ==> !Generates(LevelFields(c, l)[k], AllKinds, stem + "s")
    {
      PluralNotGenerated(LevelFields(c, l), stem);
    }
    UnknownClassFunction(c, AllKinds, stem + "s");
  }

  /** Without clashes, every own field's plural function is the class's own. */
  lemma PluralsBound(c: EnumClass)
    requires Attached(c, AllKinds) && NoClash(RecordFields(c), AllKinds)
    ensures forall k :: 0 <= k < |RecordFields(c)| ==>
      ClassFunction(c, AllKinds, FunctionName(RecordFields(c)[k], Plural)) == Ok(BoundFunction(0, Query(Plural, k)))
  {
    forall k | 0 <= k < |RecordFields(c)|
      ensures ClassFunction(c, AllKinds, FunctionName(RecordFields(c)[k], Plural)) == Ok(BoundFunction(0, Query(Plural, k)))
    {
      ClassFunctionOfField(c, k, Plural);
    }
  }

  /**
   * The lookups are the standard ones when no generated names clash, no
   * member is called `names` or `values`, no class up the chain has a field
   * called `name` or `value`, and `_fields()` reads the class's own record.
   */
  lemma StandardLookupsOf(c: EnumClass)
    requires Attached(c, AllKinds) && NoClash(RecordFields(c), AllKinds) && Fields(c) == RecordFields(c)
    requires "names" !in Names(c) && "values" !in Names(c)
    requires forall l :: 0 <= l <= |c.bases| ==> "name" !in LevelFields(c, l) && "value" !in LevelFields(c, l)
    ensures StandardLookups(c)
  {
    assert "name" + "s" == "names" && "value" + "s" == "values";
    PluralUnbound(c, "name");
    PluralUnbound(c, "value");
    PluralsBound(c);
  }

  /** `map(len, names())`: the length of every member name. */
  lemma NameValuesLengths(c: EnumClass)
    ensures Lengths(NameValues(c)) == Ok(Table.LengthsOf(Names(c)))
  {
    LengthsOfStrings(NameValues(c), Names(c));
  }

  /** The first column of the rows holds the member names. */
  lemma NameColumn(c: EnumClass)
    requires WellFormed(c)
    ensures Table.Column(Rows(c), 0) == Names(c)
  {
    var rows := Rows(c);
    var col := Table.Column(rows, 0);
    forall i | 0 <= i < |col|
      ensures col[i] == Names(c)[i]
    {
      assert rows[i] == Row(c, i);
    }
  }

  /** Under the standard lookups, the name column measures exactly the names the rows print. */
  lemma StandardNameWidth(c: EnumClass)
    requires WellFormed(c) && StandardLookups(c)
    ensures NameWidth(c) == Ok(Table.ColumnWidth("name", Rows(c), 0))
  {
    NameValuesLengths(c);
    NameColumn(c);
    Table.ColumnWidthIsLongest("name", Rows(c), 0);
  }

  /** Under the standard lookups, `describe` calls the class's own plural function of the field under label `j`. */
  lemma StandardPluralCall(c: EnumClass, j: nat)
    requires WellFormed(c) && StandardLookups(c) && 1 <= j <= |RecordFields(c)|
    ensures CallWithoutArguments(c, FunctionName(Labels(c)[j], Plural)) == Ok(FieldValues(c, j - 1))
  {
    var f := RecordFields(c)[j - 1];
    assert Labels(c)[j] == f;
    assert ClassFunction(c, AllKinds, FunctionName(f, Plural)) == Ok(BoundFunction(0, Query(Plural, j - 1)));
  }

  /** Under the standard lookups, without a record class, `values` is the metaclass's list of member values. */
  lemma StandardValuesCall(c: EnumClass)
    requires WellFormed(c) && StandardLookups(c) && RecordFields(c) == []
    ensures CallWithoutArguments(c, FunctionName(Labels(c)[1], Plural)) == Ok(Values(c))
  {
    assert FunctionName(Labels(c)[1], Plural) == "values";
  }

  /** With a record class, column `k + 1` of the rows holds field `k` of every member. */
  lemma FieldColumn(c: EnumClass, k: nat)
    requires WellFormed(c) && k < |RecordFields(c)|
    ensures Table.Column(Rows(c), k + 1) == StrOfAll(FieldValues(c, k))
  {
    var rows := Rows(c);
    var col := Table.Column(rows, k + 1);
    forall i | 0 <= i < |col|
      ensures col[i] == StrOfAll(FieldValues(c, k))[i]
    {
      assert rows[i] == Row(c, i);
    }
  }

  /** Without a record class, the second column of the rows holds `str` of every value. */
  lemma ValueColumn(c: EnumClass)
    requires WellFormed(c) && RecordFields(c) == []
    ensures Table.Column(Rows(c), 1) == StrOfAll(Values(c))
  {
    var rows := Rows(c);
    var col := Table.Column(rows, 1);
    forall i | 0 <= i < |col|
      ensures col[i] == StrOfAll(Values(c))[i]
    {
      assert rows[i] == Row(c, i);
    }
  }

  /** A column whose plural call returns `vs` is as wide as the longest of its label and `str` of each of `vs`. */
  lemma FieldWidthOf(c: EnumClass, f: string, vs: seq<Value>)
    requires WellFormed(c) && CallWithoutArguments(c, FunctionName(f, Plural)) == Ok(vs)
    ensures FieldWidth(c, f) == Ok(Table.Longest(|f|, Table.LengthsOf(StrOfAll(vs))))
  {
  }

  /** The values printed under label `j`: field `j - 1` of every record, or the members' values without a record class. */
  function ColumnValues(c: EnumClass, j: nat): seq<Value>
    requires WellFormed(c) && 1 <= j < |Labels(c)|
  {
    if RecordFields(c) != [] then FieldValues(c, j - 1) else Values(c)
  }

  /** Under the standard lookups, the plural function of label `j` returns that column's values. */
  lemma LabelPluralCall(c: EnumClass, j: nat)
    requires WellFormed(c) && StandardLookups(c) && 1 <= j < |Labels(c)|
    ensures CallWithoutArguments(c, FunctionName(Labels(c)[j], Plural)) == Ok(ColumnValues(c, j))
  {
    if RecordFields(c) != [] {
      StandardPluralCall(c, j);
    } else {
      StandardValuesCall(c);
    }
  }

  /** Column `j` of the rows holds `str` of that column's values. */
  lemma LabelColumn(c: EnumClass, j: nat)
    requires WellFormed(c) && Fields(c) == RecordFields(c) && 1 <= j < |Labels(c)|
    ensures Table.Column(Rows(c), j) == StrOfAll(ColumnValues(c, j))
  {
    if RecordFields(c) != [] {
      FieldColumn(c, j - 1);
    } else {
      ValueColumn(c);
    }
  }

  /** Under the standard lookups, each value column measures exactly what the rows print in it. */
  lemma StandardFieldWidth(c: EnumClass, j: nat)
    requires WellFormed(c) && StandardLookups(c) && 1 <= j < |Labels(c)|
    ensures FieldWidth(c, Labels(c)[j]) == Ok(Table.ColumnWidth(Labels(c)[j], Rows(c), j))
  {
    var f := Labels(c)[j];
    LabelPluralCall(c, j);
    FieldWidthOf(c, f, ColumnValues(c, j));
    LabelColumn(c, j);
    Table.ColumnWidthIsLongest(f, Rows(c), j);
  }

  /** Under the standard lookups, the widths are the table's own column widths over the record rows. */
  lemma StandardWidths(c: EnumClass)
    requires WellFormed(c) && StandardLookups(c)
    ensures DescribeWidths(c) == Ok(Table.Widths(Labels(c), Rows(c)))
  {
    var ls := Labels(c);
    var rows := Rows(c);
    assert Table.WellShaped(ls, rows);
    var ws := Table.Widths(ls, rows);
    var rs := WidthResults(c);
    forall j | 0 <= j < |ls|
      ensures rs[j] == Ok(ws[j])
    {
      if j == 0 {
        StandardNameWidth(c);
      } else {
        StandardFieldWidth(c, j);
      }
    }
    CollectAll(rs, ws);
  }

  /** Without fields, a row prints as the name and `str` of the value, as the table shows it. */
  lemma PlainRow(c: EnumClass, i: nat)
    requires WellFormed(c) && Fields(c) == [] && RecordFields(c) == [] && i < |c.entries|
    ensures PrintedRow(c, i) == Ok(Row(c, i))
  {
    assert Row(c, i) == [c.entries[i].0, StrOf(c.entries[i].1)];
  }

  /**
   * When `_fields()` reads the class's own record, a record row prints as
   * the record's items, unless one cannot be formatted, and then the first
   * such item is the one that raises.
   */
  lemma RecordRow(c: EnumClass, i: nat)
    requires WellFormed(c) && Fields(c) == RecordFields(c) && RecordFields(c) != [] && i < |c.entries|
    ensures var items := c.entries[i].1.items;
      && (PrintedRow(c, i).Ok? <==> forall k :: 0 <= k < |items| ==> Formattable(items[k]))
      && (PrintedRow(c, i).Ok? ==> PrintedRow(c, i).value == Row(c, i))
      && (forall k :: 0 <= k < |items| && !Formattable(items[k]) && (forall j :: 0 <= j < k ==> Formattable(items[j])) ==>
            PrintedRow(c, i) == Err(Unformattable(items[k])))
  {
    var items := c.entries[i].1.items;
    assert |Labels(c)| == 1 + |items|;
    assert PrintedRow(c, i) == FormatFrom([Str(c.entries[i].0)] + items, 1 + |items|, 0);
    FormatRecordRow(c.entries[i].0, items);
  }

  /** Without fields, the rows print as the table shows them. */
  lemma PlainRows(c: EnumClass)
    requires WellFormed(c) && Fields(c) == [] && RecordFields(c) == []
    ensures PrintedRows(c) == Ok(Rows(c))
  {
    var rows := Rows(c);
    forall i | 0 <= i < |c.entries|
      ensures RowResults(c)[i] == Ok(rows[i])
    {
      PlainRow(c, i);
    }
    CollectAll(RowResults(c), rows);
  }

  /** Reading the class's own records, fully formattable rows print as the table shows them. */
  lemma RecordRowsPrinted(c: EnumClass)
    requires WellFormed(c) && Fields(c) == RecordFields(c) && RecordFields(c) != []
    requires FirstUnformattable(c.entries).None?
    ensures PrintedRows(c) == Ok(Rows(c))
  {
    var rows := Rows(c);
    forall i | 0 <= i < |c.entries|
      ensures RowResults(c)[i] == Ok(rows[i])
    {
      RecordRow(c, i);
    }
    CollectAll(RowResults(c), rows);
  }

  /** Reading the class's own records, the first unformattable item, row by row, is the error. */
  lemma RecordRowsRefused(c: EnumClass)
    requires WellFormed(c) && Fields(c) == RecordFields(c) && RecordFields(c) != []
    requires FirstUnformattable(c.entries).Some?
    ensures PrintedRows(c) == Err(Unformattable(FirstUnformattable(c.entries).value))
  {
    var i: nat, k: nat :| FirstUnformattableAt(c.entries, i, k) && c.entries[i].1.items[k] == FirstUnformattable(c.entries).value;
    RecordRow(c, i);
    forall i' | 0 <= i' < i
      ensures RowResults(c)[i'].Ok?
    {
      RecordRow(c, i');
    }
    CollectFirstError(RowResults(c), i);
  }

  /**
   * Under the standard lookups `describe` reads the class's own records:
   * the table of `Labels` over the record rows, measured on those rows,
   * unless a field value cannot be formatted, and then the first such value,
   * row by row, is the one that raises.
   */
  lemma DescribeStandard(c: EnumClass)
    requires WellFormed(c) && StandardLookups(c)
    ensures RecordFields(c) != [] && FirstUnformattable(c.entries).Some? ==>
      DescribeText(c) == Err(Unformattable(FirstUnformattable(c.entries).value))
    ensures RecordFields(c) == [] || FirstUnformattable(c.entries).None? ==>
      DescribeText(c) == Ok(Table.TableText(c.name, Labels(c), Rows(c)))
  {
    if RecordFields(c) != [] && FirstUnformattable(c.entries).Some? {
      DescribeStandardRefused(c);
    } else {
      DescribeStandardPrinted(c);
    }
  }

  /** Under the standard lookups, the first record item that cannot be formatted is what `describe` raises. */
  lemma DescribeStandardRefused(c: EnumClass)
    requires WellFormed(c) && StandardLookups(c) && RecordFields(c) != [] && FirstUnformattable(c.entries).Some?
    ensures DescribeText(c) == Err(Unformattable(FirstUnformattable(c.entries).value))
  {
    StandardWidths(c);
    RecordRowsRefused(c);
    DescribeTextOf(c);
  }

  /** Under the standard lookups, when every row formats, `describe` prints the table of the record rows. */
  lemma DescribeStandardPrinted(c: EnumClass)
    requires WellFormed(c) && StandardLookups(c) && (RecordFields(c) == [] || FirstUnformattable(c.entries).None?)
    ensures DescribeText(c) == Ok(Table.TableText(c.name, Labels(c), Rows(c)))
  {
    var ls := Labels(c);
    var rows := Rows(c);
    assert Table.WellShaped(ls, rows);
    var ws := Table.Widths(ls, rows);
    StandardWidths(c);
    if RecordFields(c) == [] {
      PlainRows(c);
    } else {
      RecordRowsPrinted(c);
    }
    DescribeTextOf(c);
    assert Table.TableText(c.name, ls, rows) == Table.TextWith(c.name, ws, ls, rows);
  }

  /**
   * The layout `describe` prints, whatever lookup finds: `Class: <name>`,
   * the header of capitalized labels (`Name` first, then the fields or
   * `Value`), a dash line exactly as long as the header, then one line per
   * member in declaration order with its name in the first column, every
   * column at least as wide as its label.
   */
  lemma DescribeLayout(c: EnumClass)
    requires WellFormed(c)
    ensures DescribeText(c).Ok? ==>
      && DescribeWidths(c).Ok? && PrintedRows(c).Ok?
      && var ws := DescribeWidths(c).value;
         var rows := PrintedRows(c).value;
         var ls := Table.LinesWith(c.name, ws, Labels(c), rows);
         && DescribeText(c).value == Table.Unlines(ls)
         && |ls| == 3 + |c.entries|
         && ls[0] == "Class: " + c.name
         && ls[1] == Table.FormatRow(ws, Table.Capitalized(Labels(c)))
         && ls[2] == Text.Repeat('-', |ls[1]|)
         && (forall j :: 0 <= j < |ws| ==> ws[j] >= |Labels(c)[j]|)
         && (forall i :: 0 <= i < |c.entries| ==> ls[3 + i] == Table.FormatRow(ws, rows[i]) && rows[i][0] == c.entries[i].0)
  {
    if DescribeText(c).Ok? {
      var ws := DescribeWidths(c).value;
      var rows := PrintedRows(c).value;
      Table.TextWithIsLines(c.name, ws, Labels(c), rows);
      Table.LinesWithShape(c.name, ws, Labels(c), rows);
    }
  }

  /**
   * Under the standard lookups `describe` fails only when a field value is
   * neither a string nor an integer, and every line after the first is
   * then as wide as the header.
   */
  lemma DescribeStandardLayout(c: EnumClass)
    requires WellFormed(c) && StandardLookups(c)
    ensures DescribeText(c).Err? <==>
      RecordFields(c) != [] && exists i, k :: 0 <= i < |c.entries| && 0 <= k < |c.entries[i].1.items| && !Formattable(c.entries[i].1.items[k])
    ensures DescribeText(c).Ok? ==>
      var ls := Table.Lines(c.name, Labels(c), Rows(c));
      DescribeText(c).value == Table.Unlines(ls) && forall i :: 1 <= i < |ls| ==> |ls[i]| == |ls[1]|
  {
    DescribeStandard(c);
    if DescribeText(c).Ok? {
      Table.TableShape(c.name, Labels(c), Rows(c));
      Table.TableTextIsLines(c.name, Labels(c), Rows(c));
    }
  }
}
