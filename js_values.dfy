/** The JSON-shaped values the frontend handles (response bodies, the
    translation dictionaries, component props), JavaScript truthiness, and
    property access `v[key]` with `undefined` written as None. Numbers are
    integers here. */
module JsValues {
  import opened Wrappers

  datatype Json =
    | Null
    | Bool(b: bool)
    | Num(n: int)
    | Str(s: string)
    | Arr(items: seq<Json>)
    | Obj(fields: map<string, Json>)

  /** `Boolean(v)`: null, false, 0 and "" are falsy; arrays and objects
      (even empty ones) are truthy. */
  predicate Truthy(v: Json)
  {
    match v
    case Null => false
    case Bool(b) => b
    case Num(n) => n != 0
    case Str(s) => s != ""
    case Arr(_) => true
    case Obj(_) => true
  }

  /** `Boolean(v)` for a possibly undefined value. */
  predicate Defined(v: Option<Json>)
  {
    v.Some? && Truthy(v.value)
  }

  function DigitValue(c: char): (d: nat)
    requires IsDigit(c)
    ensures d < 10
  {
    c as int - '0' as int
  }

  predicate IsDigit(c: char)
  {
    '0' <= c <= '9'
  }

  function DecimalValue(s: string): (n: nat)
    requires forall k :: 0 <= k < |s| ==> IsDigit(s[k])
  {
    if s == [] then 0
    else
      assert forall k :: 0 <= k < |s| - 1 ==> s[..|s| - 1][k] == s[k];
      DecimalValue(s[..|s| - 1]) * 10 + DigitValue(s[|s| - 1])
  }

  /** The array index a property name denotes: its canonical decimal form
      ("0", "7", "12", but not "07", "+1" or ""). */
  function ArrayIndex(key: string): (r: Option<nat>)
    ensures r.Some? ==> key != [] && (key[0] == '0' ==> key == "0")
  {
    if key != [] && (forall k :: 0 <= k < |key| ==> IsDigit(key[k])) && (key[0] != '0' || key == "0")
    then Some(DecimalValue(key))
    else None
  }

  /** `v[key]` for an object, array or string value; None stands for
      `undefined`. Reading a property of null throws in JavaScript, so
      callers guard it with a truthiness test first, as the source does. */
  function Member(v: Json, key: string): (r: Option<Json>)
    ensures v.Obj? ==> (r.Some? <==> key in v.fields)
    ensures v.Obj? && key in v.fields ==> r == Some(v.fields[key])
    ensures v.Null? || v.Bool? || v.Num? ==> r.None?
  {
    match v
    case Obj(fields) => if key in fields then Some(fields[key]) else None
    case Arr(items) =>
      if key == "length" then Some(Num(|items|))
      else (match ArrayIndex(key)
            case Some(i) => if i < |items| then Some(items[i]) else None
            case None => None)
    case Str(s) =>
      if key == "length" then Some(Num(|s|))
      else (match ArrayIndex(key)
            case Some(i) => if i < |s| then Some(Str([s[i]])) else None
            case None => None)
    case _ => None
  }
}
