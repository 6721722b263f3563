/**
 * The namespace a named enumeration class body is executed in (`_NamedEnumDict`
 * in named_enum/meta.py, and identically in the two older versions): a
 * dictionary of every name the body binds, plus the two parallel lists of
 * pending members, `_member_names` and `_last_values`, that the standard
 * library's `_EnumDict.__setitem__` keeps in assignment order.
 */
module Collector {
  import opened Python

  /** The class variable holding the field specification; assigning it bypasses member tracking. */
  const FieldNamesKey: string := "_field_names_"

  /** `enum._is_dunder` */
  predicate IsDunder(name: string) {
    |name| > 4 && name[..2] == "__" && name[|name| - 2..] == "__" && name[2] != '_' && name[|name| - 3] != '_'
  }

  /** `enum._is_sunder` */
  predicate IsSunder(name: string) {
    |name| > 2 && name[0] == '_' && name[|name| - 1] == '_' && name[1] != '_' && name[|name| - 2] != '_'
  }

  /** The `_sunder_` names `_EnumDict` accepts. */
  const AllowedSunders: set<string> := {"_order_", "_create_pseudo_member_", "_generate_next_value_", "_missing_", "_ignore_"}

  /** A key `_EnumDict` records as a member when it is bound to a plain value. */
  predicate IsMemberKey(key: string) {
    !IsDunder(key) && !IsSunder(key)
  }

  /** The key a dunder name is stored under: `__order__` is the old spelling of `_order_`. */
  function DunderKey(key: string): string {
    if key == "__order__" then "_order_" else key
  }

  /**
   * The conversion of every pending raw value, stopping at the first one that
   * fails; `conv` is a version's per-value conversion for a record type with
   * `fields`.  Defined from the end so that it follows the conversion loop.
   */
  function ConvertAll(conv: (seq<string>, Value) -> Result<Value, Error>, fields: seq<string>, raws: seq<Value>): (r: Result<seq<Value>, Error>)
    ensures r.Ok? <==> forall i :: 0 <= i < |raws| ==> conv(fields, raws[i]).Ok?
    ensures r.Ok? ==> |r.value| == |raws| && forall i :: 0 <= i < |raws| ==> conv(fields, raws[i]) == Ok(r.value[i])
    ensures r.Err? ==> exists i :: 0 <= i < |raws| && conv(fields, raws[i]) == Err(r.error)
                                   && forall j :: 0 <= j < i ==> conv(fields, raws[j]).Ok?
  {
    if raws == [] then Ok([])
    else
      var n := |raws| - 1;
      var prefix := ConvertAll(conv, fields, raws[..n]);
      assert forall i :: 0 <= i < n ==> raws[..n][i] == raws[i];
      if prefix.Err? then prefix
      else
        var last := conv(fields, raws[n]);
        if last.Err? then
          assert conv(fields, raws[n]) == Err(last.error) && forall j :: 0 <= j < n ==> conv(fields, raws[j]).Ok?;
          Err(last.error)
        else Ok(prefix.value + [last.value])
  }

  /** Once a prefix of the raw values fails to convert, the whole conversion fails with the same error. */
  lemma {:induction false} ConvertAllPrefixFails(conv: (seq<string>, Value) -> Result<Value, Error>, fields: seq<string>, raws: seq<Value>, k: nat)
    requires k <= |raws|
    requires ConvertAll(conv, fields, raws[..k]).Err?
    ensures ConvertAll(conv, fields, raws) == ConvertAll(conv, fields, raws[..k])
    decreases |raws| - k
  {
    if k < |raws| {
      assert raws[..k + 1][..k] == raws[..k];
      ConvertAllPrefixFails(conv, fields, raws, k + 1);
    } else {
      assert raws[..k] == raws;
    }
  }

  /**
   * The namespace after `_convert`, given the outcome `c` of converting its
   * pending values: on failure nothing has changed; on success the pending
   * names are the same in the same order, the pending values are the
   * converted ones, the same keys are bound and every non-member binding
   * keeps its value.
   */
  ghost predicate ConvertedState(c: Result<seq<Value>, Error>, r: Outcome<Error>,
                                 entries0: map<string, Value>, names0: seq<string>, values0: seq<Value>,
                                 entries: map<string, Value>, names: seq<string>, values: seq<Value>) {
    && (c.Err? ==> r == Fail(c.error) && entries == entries0 && names == names0 && values == values0)
    && (c.Ok? ==> r == Pass && names == names0 && values == c.value && entries.Keys == entries0.Keys
                  && forall k :: k in entries && k !in names ==> entries[k] == entries0[k])
  }

  class NamedEnumDict {
    var entries: map<string, Value>
    var memberNames: seq<string>
    var lastValues: seq<Value>

    /**
     * The pending lists run in parallel, name no key twice, track only
     * member keys, and the i-th pending value is what the dictionary holds
     * under the i-th pending name.
     */
    ghost predicate Valid()
      reads this
    {
      && |memberNames| == |lastValues|
      && Distinct(memberNames)
      && (forall i :: 0 <= i < |memberNames| ==> IsMemberKey(memberNames[i]))
      && (forall i :: 0 <= i < |memberNames| ==> memberNames[i] in entries && entries[memberNames[i]] == lastValues[i])
    }

    constructor ()
      ensures Valid()
      ensures entries == map[] && memberNames == [] && lastValues == []
    {
      entries, memberNames, lastValues := map[], [], [];
    }

    /**
     * `namespace[key] = value` while the class body runs: `_field_names_` is
     * stored as a plain dictionary item; otherwise `_EnumDict`'s rules apply:
     * a `_sunder_` name other than the allowed ones is refused, a `__dunder__`
     * name is stored untracked, a member key may be bound only once and not
     * after a non-member binding of the same name, and a fresh member key is
     * stored and appended to both pending lists.  A refused assignment
     * changes nothing.
     */
    method SetItem(key: string, value: Value) returns (r: Outcome<Error>)
      requires Valid()
      modifies this
      ensures Valid()
      ensures key == FieldNamesKey ==>
        r == Pass && entries == old(entries)[key := value]
        && memberNames == old(memberNames) && lastValues == old(lastValues)
      ensures key != FieldNamesKey && IsSunder(key) && key !in AllowedSunders ==>
        r == Fail(ReservedSunder(key)) && unchanged(this)
      ensures key != FieldNamesKey && IsSunder(key) && key in AllowedSunders ==>
        r == Pass && entries == old(entries)[key := value]
        && memberNames == old(memberNames) && lastValues == old(lastValues)
      ensures IsDunder(key) ==>
        r == Pass && entries == old(entries)[DunderKey(key) := value]
        && memberNames == old(memberNames) && lastValues == old(lastValues)
      ensures IsMemberKey(key) && key in old(memberNames) ==>
        r == Fail(ReusedKey(key)) && unchanged(this)
      ensures IsMemberKey(key) && key !in old(memberNames) && key in old(entries) ==>
        r == Fail(AlreadyDefined(key)) && unchanged(this)
      ensures IsMemberKey(key) && key !in old(memberNames) && key !in old(entries) ==>
        r == Pass && entries == old(entries)[key := value]
        && memberNames == old(memberNames) + [key] && lastValues == old(lastValues) + [value]
    {
      if key == FieldNamesKey {
        entries := entries[key := value];
        return Pass;
      }
      if IsSunder(key) {
        if key !in AllowedSunders {
          return Fail(ReservedSunder(key));
        }
        entries := entries[key := value];
        return Pass;
      }
      if IsDunder(key) {
        entries := entries[DunderKey(key) := value];
        return Pass;
      }
      if key in memberNames {
        return Fail(ReusedKey(key));
      }
      if key in entries {
        return Fail(AlreadyDefined(key));
      }
      entries := entries[key := value];
      memberNames := memberNames + [key];
      lastValues := lastValues + [value];
      return Pass;
    }

    /** `SetItem` for a fresh member key. */
    method AddMember(key: string, value: Value)
      requires Valid() && IsMemberKey(key) && key !in entries
      modifies this
      ensures Valid()
      ensures entries == old(entries)[key := value]
      ensures memberNames == old(memberNames) + [key] && lastValues == old(lastValues) + [value]
    {
      assert key !in memberNames;
      var o := SetItem(key, value);
    }

    /**
     * `_clean`: deletes every pending member from the dictionary and empties
     * both pending lists; every other binding stays as it was.
     */
    method Clean()
      requires Valid()
      modifies this
      ensures Valid()
      ensures forall k :: k in entries <==> k in old(entries) && k !in old(memberNames)
      ensures forall k :: k in entries ==> entries[k] == old(entries)[k]
      ensures memberNames == [] && lastValues == []
    {
      var i := 0;
      while i < |memberNames|
        invariant 0 <= i <= |memberNames|
        invariant memberNames == old(memberNames) && lastValues == old(lastValues)
        invariant forall k :: k in entries <==> k in old(entries) && k !in memberNames[..i]
        invariant forall k :: k in entries ==> entries[k] == old(entries)[k]
      {
        assert forall k :: k in memberNames[..i + 1] <==> k in memberNames[..i] || k == memberNames[i];
        entries := entries - {memberNames[i]};
        i := i + 1;
      }
      assert memberNames[..i] == memberNames;
      memberNames, lastValues := [], [];
    }

    /**
     * The common body of `_convert`: every pending raw value is converted in
     * order; if one conversion raises, the namespace is left exactly as it
     * was; otherwise the namespace is cleaned and the converted values are
     * put back under the same names, in the same order, so that every
     * non-member binding keeps its value.
     */
    method Materialize(conv: (seq<string>, Value) -> Result<Value, Error>, fields: seq<string>) returns (r: Outcome<Error>)
      requires Valid()
      modifies this
      ensures Valid()
      ensures ConvertedState(ConvertAll(conv, fields, old(lastValues)), r,
                             old(entries), old(memberNames), old(lastValues), entries, memberNames, lastValues)
    {
      var c := ConvertPending(conv, fields);
      if c.Err? {
        return Fail(c.error);
      }
      var names := memberNames;
      Clean();
      assert forall i :: 0 <= i < |names| ==> names[i] !in entries;
      Reinsert(names, c.value);
      r := Pass;
    }

    /** The conversion loop of `_convert`, stopping at the first value whose record cannot be built. */
    method ConvertPending(conv: (seq<string>, Value) -> Result<Value, Error>, fields: seq<string>) returns (c: Result<seq<Value>, Error>)
      ensures c == ConvertAll(conv, fields, lastValues)
    {
      var converted: seq<Value> := [];
      var i := 0;
      while i < |lastValues|
        invariant 0 <= i <= |lastValues|
        invariant ConvertAll(conv, fields, lastValues[..i]) == Ok(converted)
      {
        assert lastValues[..i + 1][..i] == lastValues[..i];
        var v := conv(fields, lastValues[i]);
        if v.Err? {
          ConvertAllPrefixFails(conv, fields, lastValues, i + 1);
          return Err(v.error);
        }
        converted := converted + [v.value];
        i := i + 1;
      }
      assert lastValues[..i] == lastValues;
      c := Ok(converted);
    }

    /** The re-insertion loop of `_convert`: `self[name] = _last_values[i]` for each pending name. */
    method Reinsert(names: seq<string>, values: seq<Value>)
      requires Valid() && memberNames == [] && lastValues == []
      requires |names| == |values| && Distinct(names)
      requires forall i :: 0 <= i < |names| ==> IsMemberKey(names[i]) && names[i] !in entries
      modifies this
      ensures Valid()
      ensures memberNames == names && lastValues == values
      ensures forall k :: k in entries <==> k in old(entries) || k in names
      ensures forall k :: k in old(entries) ==> entries[k] == old(entries)[k]
    {
      var k := 0;
      while k < |names|
        invariant 0 <= k <= |names|
        invariant Valid()
        invariant memberNames == names[..k] && lastValues == values[..k]
        invariant forall x :: x in entries <==> x in old(entries) || x in names[..k]
        invariant forall x :: x in old(entries) ==> entries[x] == old(entries)[x]
      {
        assert names[k] !in names[..k];
        assert names[k] !in entries;
        var o := SetItem(names[k], values[k]);
        assert names[..k + 1] == names[..k] + [names[k]];
        assert values[..k + 1] == values[..k] + [values[k]];
        k := k + 1;
      }
      assert names[..k] == names && values[..k] == values;
    }
  }

  /**
   * The first three bindings of the namespace fixture: `_field_names_ = "b"`,
   * `a = ["a", "b"]`, `_a = "a"`.
   */
  method FillHead() returns (d: NamedEnumDict)
    ensures fresh(d) && d.Valid()
    ensures d.entries == map[FieldNamesKey := Str("b"), "a" := List([Str("a"), Str("b")]), "_a" := Str("a")]
    ensures d.memberNames == ["a", "_a"] && d.lastValues == [List([Str("a"), Str("b")]), Str("a")]
  {
    d := new NamedEnumDict();
    var o := d.SetItem(FieldNamesKey, Str("b"));
    d.AddMember("a", List([Str("a"), Str("b")]));
    d.AddMember("_a", Str("a"));
  }

  /**
   * The namespace fixture: `_field_names_ = "b"`, `a = ["a", "b"]`,
   * `_a = "a"`, `__a__ = "a"`, `b = 1`.
   */
  method Filled() returns (d: NamedEnumDict)
    ensures fresh(d) && d.Valid()
    ensures d.entries == map[FieldNamesKey := Str("b"), "a" := List([Str("a"), Str("b")]), "_a" := Str("a"), "__a__" := Str("a"), "b" := Num(1)]
    ensures d.memberNames == ["a", "_a", "b"] && d.lastValues == [List([Str("a"), Str("b")]), Str("a"), Num(1)]
  {
    d := FillHead();
    assert IsDunder("__a__");
    var o := d.SetItem("__a__", Str("a"));
    d.AddMember("b", Num(1));
  }

  /**
   * After the fixture the members `a`, `_a` and `b` are pending in that
   * order with their values, while `_field_names_` and `__a__` are bound
   * without being tracked.
   */
  method FillPending() returns (names: seq<string>, values: seq<Value>, untracked: set<string>)
    ensures names == ["a", "_a", "b"]
    ensures values == [List([Str("a"), Str("b")]), Str("a"), Num(1)]
    ensures untracked == {FieldNamesKey, "__a__"}
  {
    var d := Filled();
    names, values := d.memberNames, d.lastValues;
    untracked := set k | k in d.entries && k !in d.memberNames;
  }

  /**
   * Cleaning the fixture leaves `_field_names_` and `__a__` with their
   * values and empties both pending lists.
   */
  method Cleaned() returns (d: NamedEnumDict)
    ensures fresh(d) && d.Valid()
    ensures d.entries == map[FieldNamesKey := Str("b"), "__a__" := Str("a")]
    ensures d.memberNames == [] && d.lastValues == []
  {
    d := Filled();
    d.Clean();
  }

  /** The cleaned fixture with the member `b` bound again, to `raw`. */
  method CleanedWith(raw: Value) returns (d: NamedEnumDict)
    ensures fresh(d) && d.Valid()
    ensures d.entries == map[FieldNamesKey := Str("b"), "__a__" := Str("a"), "b" := raw]
    ensures d.memberNames == ["b"] && d.lastValues == [raw]
  {
    d := Cleaned();
    assert IsMemberKey("b");
    d.AddMember("b", raw);
  }

  /** Binding the `_sunder_` name `_a_` is refused and leaves the namespace empty. */
  method RefuseSunder() returns (refused: Outcome<Error>, bound: map<string, Value>)
    ensures refused == Fail(ReservedSunder("_a_"))
    ensures bound == map[]
  {
    var d := new NamedEnumDict();
    assert "_a_" != FieldNamesKey && IsSunder("_a_") && "_a_" !in AllowedSunders;
    refused := d.SetItem("_a_", Str("a"));
    bound := d.entries;
  }
}
