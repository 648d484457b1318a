/**
 * JSON values as stored in the `settings` and `options` JSON fields, with the
 * Python semantics the handlers rely on: truthiness (the `or` fallbacks),
 * `dict.get`, numeric comparison and `int(...)` conversion.
 */
module Json {
  import opened Wrappers

  datatype Json =
    | JNull
    | JBool(b: bool)
    | JInt(i: int)
    | JReal(r: real)
    | JStr(s: string)
    | JList(items: seq<Json>)
    | JObject(members: map<string, Json>)

  type Settings = map<string, Json>

  /** Python truth value: None, False, 0, 0.0, "", [] and {} are false. */
  predicate Truthy(v: Json) {
    match v
    case JNull => false
    case JBool(b) => b
    case JInt(i) => i != 0
    case JReal(r) => r != 0.0
    case JStr(s) => s != ""
    case JList(xs) => xs != []
    case JObject(m) => |m| != 0
  }

  /** `d.get(key)`: a missing key and a stored null both read as None. */
  function Get(d: Settings, key: string): (v: Json)
    ensures key !in d ==> v == JNull
    ensures key in d ==> v == d[key]
  {
    if key in d then d[key] else JNull
  }

  /** `d.get(key) or fallback`. */
  function GetOr(d: Settings, key: string, fallback: Json): (v: Json)
    ensures v == fallback || (key in d && v == d[key] && Truthy(v))
    ensures Truthy(Get(d, key)) ==> v == d[key]
  {
    var stored := Get(d, key);
    if Truthy(stored) then stored else fallback
  }

  /**
   * The value a JSON value takes in a comparison with a Python number;
   * None when Python raises TypeError for that comparison.
   */
  function AsNumber(v: Json): (n: Option<real>)
    ensures n.Some? <==> (v.JBool? || v.JInt? || v.JReal?)
  {
    match v
    case JBool(b) => Some(if b then 1.0 else 0.0)
    case JInt(i) => Some(i as real)
    case JReal(r) => Some(r)
    case _ => None
  }

  /** Truncation toward zero, as Python's `int()` does on a float. */
  function Truncate(r: real): (i: int)
    ensures r >= 0.0 ==> i as real <= r < i as real + 1.0
    ensures r < 0.0 ==> i as real - 1.0 < r <= i as real
  {
    if r >= 0.0 then r.Floor else -((-r).Floor)
  }

  predicate IsDigit(c: char) { '0' <= c <= '9' }

  predicate AllDigits(s: string) { forall k :: 0 <= k < |s| ==> IsDigit(s[k]) }

  /** The value of a string of decimal digits, most significant first. */
  function DigitsValue(s: string): (n: nat)
    requires AllDigits(s)
  {
    if s == [] then 0
    else DigitsValue(s[..|s| - 1]) * 10 + (s[|s| - 1] as int - '0' as int)
  }

  /** `int(s)` for a string: an optional sign followed by at least one digit. */
  function ParseInt(s: string): (r: Option<int>)
    ensures r.Some? <==>
              ((AllDigits(s) && s != []) ||
               (|s| >= 2 && (s[0] == '-' || s[0] == '+') && AllDigits(s[1..])))
  {
    if s != [] && AllDigits(s) then Some(DigitsValue(s))
    else if |s| >= 2 && s[0] == '-' && AllDigits(s[1..]) then Some(0 - DigitsValue(s[1..]))
    else if |s| >= 2 && s[0] == '+' && AllDigits(s[1..]) then Some(DigitsValue(s[1..]))
    else None
  }

  /** Why Python's `int(v)` fails. */
  datatype IntFailure = NotConvertible | BadLiteral

  /**
   * Python's `int(v)`: booleans become 0 or 1, floats are truncated, strings
   * are parsed; None, lists and dicts raise TypeError (NotConvertible), a
   * string that is not an integer literal raises ValueError (BadLiteral).
   */
  function PyInt(v: Json): (r: Result<int, IntFailure>)
    ensures v.JInt? ==> r == Ok(v.i)
    ensures (v.JNull? || v.JList? || v.JObject?) ==> r == Err(NotConvertible)
    ensures r.Err? && r.error == BadLiteral ==> v.JStr?
  {
    match v
    case JNull => Err(NotConvertible)
    case JBool(b) => Ok(if b then 1 else 0)
    case JInt(i) => Ok(i)
    case JReal(x) => Ok(Truncate(x))
    case JStr(s) => if ParseInt(s).Some? then Ok(ParseInt(s).value) else Err(BadLiteral)
    case JList(_) => Err(NotConvertible)
    case JObject(_) => Err(NotConvertible)
  }

  /** `str(n)` for an integer. */
  function Decimal(n: int): (s: string)
  {
    if n < 0 then "-" + Digits(-n) else Digits(n)
  }

  function Digits(n: nat): (s: string)
    ensures s != [] && AllDigits(s)
    ensures s[0] == '0' ==> n == 0
    decreases n
  {
    if n < 10 then [('0' as int + n) as char]
    else Digits(n / 10) + [('0' as int + n % 10) as char]
  }

  lemma {:induction false} DigitsRoundTrip(n: nat)
    ensures DigitsValue(Digits(n)) == n
    decreases n
  {
    if n >= 10 {
      DigitsRoundTrip(n / 10);
      var s := Digits(n);
      assert s[..|s| - 1] == Digits(n / 10);
    }
  }

  /** `int(str(n)) == n`: the string form of an integer setting converts back. */
  lemma DecimalRoundTrip(n: int)
    ensures PyInt(JStr(Decimal(n))) == Ok(n)
  {
    if n < 0 {
      DigitsRoundTrip(-n);
      var s := Decimal(n);
      assert s[1..] == Digits(-n);
      assert !IsDigit(s[0]);
      assert ParseInt(s) == Some(n);
    } else {
      DigitsRoundTrip(n);
    }
  }
}
