/**
 * The fragment of Python's object model that the named enumeration code relies on:
 * the raw values a class body assigns, the record ("namedtuple") values they are
 * turned into, the abstract-base-class tests used to decide how a raw value is
 * unpacked, truthiness, hashability, and `str`/`repr` of these values.
 */
module Python {
  import Text

  datatype Option<+T> = None | Some(value: T)

  datatype Result<+T, +E> = Ok(value: T) | Err(error: E)

  /** The outcome of a statement that either completes or raises. */
  datatype Outcome<+E> = Pass | Fail(error: E)

  /** A raw or converted value.  Scalars are represented by integers and `None`. */
  datatype Value =
    | Str(s: string)                          // str
    | Num(n: int)                             // int (any non-collection scalar)
    | PyNone                                  // None
    | List(items: seq<Value>)                 // list
    | Tuple(items: seq<Value>)                // tuple
    | Coll(kind: CollKind, items: seq<Value>) // a collection that is not a sequence; items in iteration order (a dict's keys)
    | Rec(fields: seq<string>, items: seq<Value>)  // an instance of a namedtuple class with these field names

  /** The collections that are not sequences; a dict also carries its values, one per key. */
  datatype CollKind = SetColl | FrozenSetColl | DictColl(values: seq<Value>)

  /** The error kinds raised by the code modelled here (the Python exception class is noted on each). */
  datatype Error =
    | ReservedSunder(key: string)            // ValueError: _sunder_ names are reserved
    | ReusedKey(key: string)                 // TypeError: attempted to reuse key
    | AlreadyDefined(key: string)            // TypeError: key already defined as a non-member
    | NotRecordClass                         // ValueError: argument is not a namedtuple class
    | CannotUnpack(raw: Value)               // ValueError: unable to unpack the value for the fields
    | ArityMismatch(expected: nat, given: nat)  // TypeError: record constructor called with the wrong number of arguments
    | InvalidFieldSpec(spec: Value)          // TypeError/ValueError raised by namedtuple for an unusable field list
    | ReservedField                          // AttributeError: 'name' or 'value' cannot be attributes
    | MissingBaseSpec                        // KeyError: the first base declares no field list
    | NoBase                                 // IndexError: `bases[0]` of a class with no bases
    | NoAttribute(cls: string, attr: string) // AttributeError: '<cls>' object has no attribute '<attr>'
    | NoClassAttribute(attr: string)         // AttributeError on the class: no such synthesized function
    | MissingArgument(attr: string)          // TypeError: the function named attr called without a required argument
    | Unformattable(cell: Value)             // TypeError: unsupported format string passed to <type>.__format__
    | Unhashable(item: Value)                // TypeError: unhashable type
    | ReassignMember(attr: string)           // AttributeError: Cannot reassign members.
    | NotCallable(attr: string)              // TypeError: the object named attr is not callable
    | NoLength(v: Value)                     // TypeError: object of this type has no len()
    | NotIterable(v: Value)                  // TypeError: argument after * must be an iterable
    | MissingReplacement(index: nat)         // IndexError: Replacement index out of range for positional args tuple

  /** `isinstance(v, collections.abc.Sequence)` */
  predicate IsSequence(v: Value) {
    v.Str? || v.List? || v.Tuple? || v.Rec?
  }

  /** `isinstance(v, collections.abc.Collection)` */
  predicate IsCollection(v: Value) {
    IsSequence(v) || v.Coll?
  }

  /** Python truthiness: `bool(v)` */
  predicate Truthy(v: Value) {
    match v
    case Str(s) => s != ""
    case Num(n) => n != 0
    case PyNone => false
    case List(items) => items != []
    case Tuple(items) => items != []
    case Coll(_, items) => items != []
    case Rec(_, items) => items != []
  }

  /**
   * `hash(v)` succeeds: lists, sets and dicts are unhashable, a frozenset is
   * hashable (its elements always are), tuples are hashable iff their items are
   */
  predicate Hashable(v: Value) {
    match v
    case Str(_) => true
    case Num(_) => true
    case PyNone => true
    case List(_) => false
    case Coll(kind, _) => kind.FrozenSetColl?
    case Tuple(items) => AllHashable(items)
    case Rec(_, items) => AllHashable(items)
  }

  predicate AllHashable(items: seq<Value>) {
    if items == [] then true else Hashable(items[0]) && AllHashable(items[1..])
  }

  /**
   * The elements produced by `*v` when a collection is unpacked into call arguments.
   * A string is deliberately excluded: every caller treats it atomically.
   */
  function Unpacked(v: Value): (r: seq<Value>)
    requires IsCollection(v) && !v.Str?
    ensures |r| == |v.items|
  {
    v.items
  }

  /** `type(v).__name__` */
  function TypeName(v: Value): string {
    match v
    case Str(_) => "str"
    case Num(_) => "int"
    case PyNone => "NoneType"
    case List(_) => "list"
    case Tuple(_) => "tuple"
    case Coll(kind, _) => (match kind case SetColl => "set" case FrozenSetColl => "frozenset" case DictColl(_) => "dict")
    case Rec(_, _) => "NamedTuple"
  }

  /** `len(v)`: the number of characters or items; a scalar has no length. */
  function Len(v: Value): (r: Result<nat, Error>)
    ensures r.Err? <==> v.Num? || v.PyNone?
    ensures r.Err? ==> r.error == NoLength(v)
    ensures v.Str? ==> r == Ok(|v.s|)
    ensures IsCollection(v) && !v.Str? ==> r == Ok(|v.items|)
  {
    match v
    case Str(s) => Ok(|s|)
    case Num(_) => Err(NoLength(v))
    case PyNone => Err(NoLength(v))
    case _ => Ok(|v.items|)
  }

  /**
   * `*v` in a call: the characters of a string, each a string of its own,
   * or the items of any other collection (a dict's keys); a scalar is not
   * iterable.
   */
  function Spread(v: Value): (r: Result<seq<Value>, Error>)
    ensures r.Err? <==> !IsCollection(v)
    ensures r.Err? ==> r.error == NotIterable(v)
    ensures v.Str? ==> r.Ok? && |r.value| == |v.s| && forall i :: 0 <= i < |v.s| ==> r.value[i] == Str([v.s[i]])
    ensures IsCollection(v) && !v.Str? ==> r == Ok(v.items)
  {
    match v
    case Str(s) => Ok(seq(|s|, i requires 0 <= i < |s| => Str([s[i]])))
    case Num(_) => Err(NotIterable(v))
    case PyNone => Err(NotIterable(v))
    case _ => Ok(v.items)
  }

  /**
   * The constructor of a namedtuple class with the given fields, called with `args`
   * positionally: it takes exactly one argument per field.
   */
  function MakeRecord(fields: seq<string>, args: seq<Value>): (r: Result<Value, Error>)
    ensures r.Ok? <==> |args| == |fields|
    ensures r.Ok? ==> r.value == Rec(fields, args)
    ensures r.Err? ==> r.error == ArityMismatch(|fields|, |args|)
  {
    if |args| == |fields| then Ok(Rec(fields, args)) else Err(ArityMismatch(|fields|, |args|))
  }

  /** Positional read: the value of field `k` of a record. */
  function Field(v: Value, k: nat): Value
    requires v.Rec? && k < |v.items|
  {
    v.items[k]
  }

  /** Index of the first occurrence of `x` in `s`, or `|s|` when absent. */
  function IndexOf<T(==)>(s: seq<T>, x: T): (i: nat)
    ensures i <= |s|
    ensures i < |s| ==> s[i] == x
    ensures forall j :: 0 <= j < i ==> s[j] != x
    ensures i == |s| <==> x !in s
  {
    if s == [] then 0 else if s[0] == x then 0 else 1 + IndexOf(s[1..], x)
  }

  predicate Distinct<T(==)>(s: seq<T>) {
    forall i, j :: 0 <= i < j < |s| ==> s[i] != s[j]
  }

  // ---------------------------------------------------------------------------
  // str() and repr()
  // ---------------------------------------------------------------------------

  function DigitChar(d: nat): char
    requires d < 10
  {
    "0123456789"[d]
  }

  /** Decimal digits of a natural number, most significant first. */
  function NatToString(n: nat): (r: string)
    ensures |r| >= 1
    decreases n
  {
    if n < 10 then [DigitChar(n)] else NatToString(n / 10) + [DigitChar(n % 10)]
  }

  /** `str(n)` for an integer */
  function IntToString(n: int): string {
    if n < 0 then "-" + NatToString(-n) else NatToString(n)
  }

  /** `", ".join(parts)` */
  function JoinComma(parts: seq<string>): string {
    if parts == [] then "" else if |parts| == 1 then parts[0] else parts[0] + ", " + JoinComma(parts[1..])
  }

  /** `repr(v)`; string quoting is simplified to single quotes without escaping. */
  function Repr(v: Value): string {
    match v
    case Str(s) => "'" + s + "'"
    case Num(n) => IntToString(n)
    case PyNone => "None"
    case List(items) => "[" + JoinComma(ReprAll(items)) + "]"
    case Tuple(items) =>
      if |items| == 1 then "(" + Repr(items[0]) + ",)" else "(" + JoinComma(ReprAll(items)) + ")"
    case Coll(kind, items) =>
      (match kind
       case SetColl => if items == [] then "set()" else "{" + JoinComma(ReprAll(items)) + "}"
       case FrozenSetColl => if items == [] then "frozenset()" else "frozenset({" + JoinComma(ReprAll(items)) + "})"
       case DictColl(values) =>
         "{" + JoinComma(seq(|items|, i requires 0 <= i < |items| =>
                               Repr(items[i]) + ": " + (if i < |values| then Repr(values[i]) else "None"))) + "}")
    case Rec(fields, items) => "NamedTuple(" + JoinComma(ReprFields(fields, items)) + ")"
  }

  function ReprAll(items: seq<Value>): (r: seq<string>)
    ensures |r| == |items|
  {
    if items == [] then [] else [Repr(items[0])] + ReprAll(items[1..])
  }

  /** `field=repr(item)` for each field of a namedtuple, as its `__repr__` writes them */
  function ReprFields(fields: seq<string>, items: seq<Value>): seq<string>
    decreases items
  {
    if items == [] || fields == [] then []
    else [fields[0] + "=" + Repr(items[0])] + ReprFields(fields[1..], items[1..])
  }

  /** `str(v)`: a string is itself, everything else is its repr. */
  function StrOf(v: Value): string {
    if v.Str? then v.s else Repr(v)
  }

  // ---------------------------------------------------------------------------
  // namedtuple's field list
  // ---------------------------------------------------------------------------

  const Keywords: set<string> := {
    "False", "None", "True", "and", "as", "assert", "async", "await", "break",
    "class", "continue", "def", "del", "elif", "else", "except", "finally", "for",
    "from", "global", "if", "import", "in", "is", "lambda", "nonlocal", "not", "or",
    "pass", "raise", "return", "try", "while", "with", "yield"}

  predicate IsIdentStart(ch: char) {
    'a' <= ch <= 'z' || 'A' <= ch <= 'Z' || ch == '_'
  }

  predicate IsIdentChar(ch: char) {
    IsIdentStart(ch) || '0' <= ch <= '9'
  }

  /** `str.isidentifier`, for ASCII names */
  predicate IsIdentifier(s: string) {
    |s| > 0 && IsIdentStart(s[0]) && forall i :: 0 < i < |s| ==> IsIdentChar(s[i])
  }

  /** An identifier not starting with an underscore: all that the rest of the model needs of a field name. */
  predicate PlainFieldName(s: string) {
    IsIdentifier(s) && s[0] != '_'
  }

  /** A field name namedtuple accepts: an identifier, not a keyword, not starting with an underscore. */
  predicate ValidFieldName(s: string) {
    PlainFieldName(s) && s !in Keywords
  }

  predicate ValidFieldNames(fields: seq<string>) {
    Distinct(fields) && forall i :: 0 <= i < |fields| ==> ValidFieldName(fields[i])
  }

  /** Distinct plain names; every field list namedtuple accepts is one. */
  predicate PlainFieldNames(fields: seq<string>) {
    Distinct(fields) && forall i :: 0 <= i < |fields| ==> PlainFieldName(fields[i])
  }

  function StrOfAll(items: seq<Value>): (r: seq<string>)
    ensures |r| == |items| && forall i :: 0 <= i < |items| ==> r[i] == StrOf(items[i])
  {
    seq(|items|, i requires 0 <= i < |items| => StrOf(items[i]))
  }

  /**
   * The candidate names namedtuple reads from its `field_names` argument: a
   * string is split at commas and whitespace, any other iterable is read item
   * by item through `str`; a scalar is not iterable.
   */
  function CandidateFieldNames(spec: Value): Option<seq<string>> {
    match spec
    case Str(s) => Some(Text.SplitFieldNames(s))
    case Num(_) => None
    case PyNone => None
    case _ => Some(StrOfAll(spec.items))
  }

  /** The field names of `namedtuple("NamedTuple", spec)`, or the error it raises. */
  function NamedTupleFields(spec: Value): (r: Result<seq<string>, Error>)
    ensures r.Ok? <==> CandidateFieldNames(spec).Some? && ValidFieldNames(CandidateFieldNames(spec).value)
    ensures r.Ok? ==> CandidateFieldNames(spec) == Some(r.value)
    ensures r.Err? ==> r.error == InvalidFieldSpec(spec)
  {
    match CandidateFieldNames(spec)
    case None => Err(InvalidFieldSpec(spec))
    case Some(names) => if ValidFieldNames(names) then Ok(names) else Err(InvalidFieldSpec(spec))
  }
}
