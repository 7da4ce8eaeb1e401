/** The JavaScript values the data hooks handle: decoded JSON bodies, the
    records built from them, and the errors thrown along the way. */
module JsValues {
  import opened Text

  datatype Option<+T> = None | Some(value: T)

  /** What a hook stores as its error: a thrown `Error` with its message, or
      the `TypeError` a property read on `null`/`undefined` throws (its text
      is the engine's; the model keeps the property name). */
  datatype Failure = Message(text: string) | NullRead(property: string)

  datatype Result<+T> = Ok(value: T) | Err(failure: Failure) {
    predicate IsFailure() { Err? }

    function PropagateFailure<U>(): Result<U>
      requires Err?
    {
      Err(failure)
    }

    function Extract(): T
      requires Ok?
    {
      value
    }
  }

  /** A JavaScript value. Numbers are integers here; `Obj` is a plain object
      as a map from property names to values. */
  datatype Value =
    | Undefined
    | Null
    | Bool(b: bool)
    | Num(n: int)
    | Str(s: string)
    | Arr(items: seq<Value>)
    | Obj(fields: map<string, Value>)

  type Object = map<string, Value>

  predicate IsNullish(v: Value) { v.Undefined? || v.Null? }

  /** ToBoolean: the falsy values are undefined, null, false, 0 and "". */
  predicate Truthy(v: Value)
  {
    match v
    case Undefined => false
    case Null => false
    case Bool(b) => b
    case Num(n) => n != 0
    case Str(s) => s != ""
    case Arr(_) => true
    case Obj(_) => true
  }

  /** `!s` for a string that may be absent (`null`, `undefined`, an unset
      environment variable): absent or empty. */
  predicate FalsyText(s: Option<string>)
  {
    s.None? || s.value == ""
  }

  /** The primitive values, compared by value in a `Set`; arrays and objects
      are compared by identity. */
  predicate IsPrimitive(v: Value) { !v.Arr? && !v.Obj? }

  /** `a ?? b`: one of the two operands, nullish only when both are. */
  function Coalesce(a: Value, b: Value): (r: Value)
    ensures r == a || r == b
    ensures IsNullish(r) <==> IsNullish(a) && IsNullish(b)
  {
    if IsNullish(a) then b else a
  }

  /** A chain `a ?? b ?? c` picks its first operand that is set, however it
      is grouped; `undefined` and `null` in front are skipped, and a repeated
      operand changes nothing. */
  lemma CoalesceLaws(a: Value, b: Value, c: Value)
    ensures Coalesce(Coalesce(a, b), c) == Coalesce(a, Coalesce(b, c))
    ensures Coalesce(Undefined, a) == a && Coalesce(Null, a) == a
    ensures Coalesce(a, a) == a
  {
  }

  /** `o[key]` on an object, `undefined` when the key is absent. */
  function Get(o: Object, key: string): Value
  {
    if key in o then o[key] else Undefined
  }

  /** `v.key` on a value that is not null or undefined. Only objects carry
      the named properties the mappers read: for strings, arrays, numbers and
      booleans those names are not own or inherited members and read as
      `undefined`. */
  function Prop(v: Value, key: string): Value
  {
    if v.Obj? then Get(v.fields, key) else Undefined
  }

  /** The own properties of an array-like value, keyed by index. */
  function IndexEntries(items: seq<Value>): Object
    decreases |items|
  {
    if items == [] then map[]
    else IndexEntries(items[..|items| - 1])[NatToString(|items| - 1) := items[|items| - 1]]
  }

  /** The properties `...v` contributes to an object literal: the fields of an
      object, the indexed elements of an array or the characters of a string,
      and nothing for the other values. */
  function Spread(v: Value): Object
  {
    match v
    case Obj(fields) => fields
    case Arr(items) => IndexEntries(items)
    case Str(s) => IndexEntries(seq(|s|, i requires 0 <= i < |s| => Str([s[i]])))
    case _ => map[]
  }

  /** `{ ...mapped, ...row }`: the spread properties of row win over the
      mapped ones, and mapped keys row does not carry survive. */
  lemma SpreadOverrides(mapped: Object, row: Value, key: string)
    ensures key in Spread(row) ==> key in mapped + Spread(row) && (mapped + Spread(row))[key] == Spread(row)[key]
    ensures key !in Spread(row) && key in mapped ==> (mapped + Spread(row))[key] == mapped[key]
  {
  }

  /** The index entries of a list hold each element under the decimal text of
      its index, and no other key. */
  lemma {:induction false} IndexEntriesExactly(items: seq<Value>)
    ensures forall i :: 0 <= i < |items| ==>
              NatToString(i) in IndexEntries(items) && IndexEntries(items)[NatToString(i)] == items[i]
    ensures forall k :: k in IndexEntries(items) ==> exists i :: 0 <= i < |items| && k == NatToString(i)
    decreases |items|
  {
    if items != [] {
      var n := |items| - 1;
      var front := items[..n];
      IndexEntriesExactly(front);
      var m := IndexEntries(items);
      assert m == IndexEntries(front)[NatToString(n) := items[n]];
      forall i | 0 <= i < |items| ensures NatToString(i) in m && m[NatToString(i)] == items[i] {
        if i < n {
          if NatToString(i) == NatToString(n) {
            NatToStringInjective(i, n);
          }
          assert front[i] == items[i];
        }
      }
      forall k | k in m ensures exists i :: 0 <= i < |items| && k == NatToString(i) {
        if k != NatToString(n) {
          assert k in IndexEntries(front);
          var i :| 0 <= i < n && k == NatToString(i);
        }
      }
    }
  }

  /** An object spreads its own fields, and a value that is neither an array,
      an object nor a string spreads nothing. */
  lemma SpreadCases(v: Value)
    ensures v.Obj? ==> Spread(v) == v.fields
    ensures IsPrimitive(v) && !v.Str? ==> Spread(v) == map[]
  {
  }

  /** An array spreads its elements, each under the decimal text of its index,
      and nothing else. */
  lemma SpreadArray(items: seq<Value>)
    ensures forall i :: 0 <= i < |items| ==>
              NatToString(i) in Spread(Arr(items)) && Spread(Arr(items))[NatToString(i)] == items[i]
    ensures forall k :: k in Spread(Arr(items)) ==> exists i :: 0 <= i < |items| && k == NatToString(i)
  {
    IndexEntriesExactly(items);
  }

  /** A string spreads its characters, each under the decimal text of its
      index, and nothing else. */
  lemma SpreadString(s: string)
    ensures forall i :: 0 <= i < |s| ==>
              NatToString(i) in Spread(Str(s)) && Spread(Str(s))[NatToString(i)] == Str([s[i]])
    ensures forall k :: k in Spread(Str(s)) ==> exists i :: 0 <= i < |s| && k == NatToString(i)
  {
    var chars := seq(|s|, i requires 0 <= i < |s| => Str([s[i]]));
    assert Spread(Str(s)) == IndexEntries(chars);
    IndexEntriesExactly(chars);
  }
}
