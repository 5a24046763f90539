/**
 * Values the TypeScript side of WLED Studio works on: the result of JSON.parse
 * (objects, arrays, strings, numbers, booleans, null), the `undefined` a missing
 * property reads as, and NaN, which Number() produces from non-numeric input.
 * Numbers are exact reals; see README for what that leaves out.
 */
module JsValues {
  import opened Wrappers

  datatype JsValue =
    | Undefined
    | Null
    | Bool(b: bool)
    | Num(x: real)          // a finite number
    | NaN                   // a non-finite number
    | Str(s: string)
    | Arr(items: seq<JsValue>)
    | Obj(fields: map<string, JsValue>)

  /** `v ?? d` treats exactly these two as missing. */
  predicate IsNullish(v: JsValue) { v.Undefined? || v.Null? }

  /** Reading a property of `v` does not throw. */
  predicate Readable(v: JsValue) { !IsNullish(v) }

  /** `v.key`: absent keys, and every key of a non-object, read as undefined. */
  function Get(v: JsValue, key: string): JsValue
  {
    if v.Obj? && key in v.fields then v.fields[key] else Undefined
  }

  /** `v[i]` on an array; out of range (or not an array) reads as undefined. */
  function At(v: JsValue, i: int): JsValue
  {
    if v.Arr? && 0 <= i < |v.items| then v.items[i] else Undefined
  }

  /** `v ?? d` */
  function OrElse(v: JsValue, d: JsValue): JsValue { if IsNullish(v) then d else v }

  /** `{ ...o, key: value }` for an object `o`. */
  function With(o: map<string, JsValue>, key: string, value: JsValue): map<string, JsValue>
  {
    o[key := value]
  }

  /** Boolean(v) */
  function Truthy(v: JsValue): bool
  {
    match v
    case Undefined => false
    case Null => false
    case Bool(b) => b
    case Num(x) => x != 0.0
    case NaN => false
    case Str(s) => s != ""
    case Arr(_) => true
    case Obj(_) => true
  }

  /** Math.round: the nearest integer, halves rounded towards +infinity. */
  function Round(x: real): (r: int)
    ensures x - 0.5 < r as real <= x + 0.5
  {
    (x + 0.5).Floor
  }

  /** Math.ceil */
  function Ceil(x: real): (r: int)
    ensures x <= r as real < x + 1.0
  {
    -((-x).Floor)
  }

  /** Number.isInteger(v): no coercion. */
  predicate IsInteger(v: JsValue) { v.Num? && v.x == v.x.Floor as real }

  /** Number.isFinite(v): no coercion. */
  predicate IsFiniteNumber(v: JsValue) { v.Num? }

  /** typeof v === "number" */
  predicate IsNumber(v: JsValue) { v.Num? || v.NaN? }

  /** The characters String.prototype.trim, parseInt and Number() strip: the
      ECMAScript WhiteSpace and LineTerminator characters, the Unicode space
      separators (Zs) included. */
  predicate IsJsSpace(c: char)
  {
    c == ' ' || c == '\t' || c == '\n' || c == '\r' || c == '\U{0B}' || c == '\U{0C}'
    || c == '\U{A0}' || c == '\U{1680}' || '\U{2000}' <= c <= '\U{200A}'
    || c == '\U{2028}' || c == '\U{2029}' || c == '\U{202F}' || c == '\U{205F}'
    || c == '\U{3000}' || c == '\U{FEFF}'
  }

  /** s.trimStart() */
  function TrimStart(s: string): string
    decreases |s|
  {
    if s != [] && IsJsSpace(s[0]) then TrimStart(s[1..]) else s
  }

  /** s.trimEnd() */
  function TrimEnd(s: string): string
    decreases |s|
  {
    if s != [] && IsJsSpace(s[|s| - 1]) then TrimEnd(s[..|s| - 1]) else s
  }

  /** s.trim() */
  function Trim(s: string): string { TrimEnd(TrimStart(s)) }

  /** trimStart removes a prefix of white space: what is left is a suffix of
      s that is empty or starts with a non-space. */
  lemma {:induction false} TrimStartShape(s: string)
    ensures |TrimStart(s)| <= |s| && TrimStart(s) == s[|s| - |TrimStart(s)|..]
    ensures TrimStart(s) == "" || !IsJsSpace(TrimStart(s)[0])
    ensures forall i :: 0 <= i < |s| - |TrimStart(s)| ==> IsJsSpace(s[i])
    decreases |s|
  {
    if s != [] && IsJsSpace(s[0]) {
      TrimStartShape(s[1..]);
    }
  }

  /** trimEnd removes a suffix of white space: what is left is a prefix of
      s that is empty or ends with a non-space. */
  lemma {:induction false} TrimEndShape(s: string)
    ensures |TrimEnd(s)| <= |s| && TrimEnd(s) == s[..|TrimEnd(s)|]
    ensures TrimEnd(s) == "" || !IsJsSpace(TrimEnd(s)[|TrimEnd(s)| - 1])
    ensures forall i :: |TrimEnd(s)| <= i < |s| ==> IsJsSpace(s[i])
    decreases |s|
  {
    if s != [] && IsJsSpace(s[|s| - 1]) {
      TrimEndShape(s[..|s| - 1]);
    }
  }

  predicate IsDigit(c: char) { '0' <= c <= '9' }

  predicate AllDigits(s: string) { forall i :: 0 <= i < |s| ==> IsDigit(s[i]) }

  /** The value of a string of decimal digits. */
  function DigitsValue(s: string): (r: nat)
    requires AllDigits(s)
    decreases |s|
  {
    if s == [] then 0 else DigitsValue(s[..|s| - 1]) * 10 + (s[|s| - 1] as int - '0' as int)
  }

  function Pow10(k: nat): (r: nat)
    ensures r >= 1
  {
    if k == 0 then 1 else 10 * Pow10(k - 1)
  }

  /** The first index of `c` in `s`, or |s|. */
  function IndexOfChar(s: string, c: char): (r: nat)
    ensures r <= |s| && (r < |s| ==> s[r] == c)
    ensures forall i :: 0 <= i < r ==> s[i] != c
    decreases |s|
  {
    if s == [] then 0 else if s[0] == c then 0 else 1 + IndexOfChar(s[1..], c)
  }

  /** An unsigned decimal literal: digits, optionally a point and more digits, at least one digit. */
  function UnsignedDecimal(s: string): Option<real>
  {
    var p := IndexOfChar(s, '.');
    var whole := s[..p];
    var frac := if p < |s| then s[p + 1..] else "";
    if (whole == "" && frac == "") || !AllDigits(whole) || !AllDigits(frac) then None
    else Some(DigitsValue(whole) as real + DigitsValue(frac) as real / Pow10(|frac|) as real)
  }

  /** Number(s) for a string: empty (after trimming) is 0; otherwise an optionally
      signed decimal literal; anything else is not a finite number. */
  function StringToNumber(s: string): Option<real>
  {
    var t := Trim(s);
    if t == "" then Some(0.0)
    else if t[0] == '-' then
      match UnsignedDecimal(t[1..])
      case Some(x) => Some(-x)
      case None => None
    else if t[0] == '+' then UnsignedDecimal(t[1..])
    else UnsignedDecimal(t)
  }

  /** Number(v); None stands for NaN. */
  function ToNumber(v: JsValue): Option<real>
  {
    match v
    case Undefined => None
    case Null => Some(0.0)
    case Bool(b) => Some(if b then 1.0 else 0.0)
    case Num(x) => Some(x)
    case NaN => None
    case Str(s) => StringToNumber(s)
    case Arr(items) =>
      // an array converts through its comma-joined string form
      if |items| == 0 then Some(0.0)
      else if |items| > 1 then None
      else (match items[0]
        case Undefined => Some(0.0)
        case Null => Some(0.0)
        case Num(x) => Some(x)
        case Str(s) => StringToNumber(s)
        case Arr(_) => ToNumber(items[0])
        case _ => None)
    case Obj(_) => None
  }

  /** The JsValue Number(v) produces. */
  function NumberValue(v: JsValue): JsValue
  {
    match ToNumber(v)
    case Some(x) => Num(x)
    case None => NaN
  }

  lemma {:induction false} DigitsRoundTrip(n: nat)
    ensures AllDigits(NatToDecimal(n)) && NatToDecimal(n) != ""
    ensures DigitsValue(NatToDecimal(n)) == n
  {
    if n >= 10 {
      DigitsRoundTrip(n / 10);
      var s := NatToDecimal(n / 10);
      var t := NatToDecimal(n);
      assert t[..|t| - 1] == s;
    }
  }

  /** String(n) for a non-negative integer. */
  function NatToDecimal(n: nat): (r: string)
    decreases n
  {
    (if n < 10 then "" else NatToDecimal(n / 10)) + [('0' as int + n % 10) as char]
  }

  lemma TrimDigits(s: string)
    requires AllDigits(s) && s != ""
    ensures Trim(s) == s
  {
    assert IsDigit(s[0]) && IsDigit(s[|s| - 1]);
    assert TrimStart(s) == s;
  }

  lemma UnsignedDigits(s: string)
    requires AllDigits(s) && s != ""
    ensures UnsignedDecimal(s) == Some(DigitsValue(s) as real)
  {
    var p := IndexOfChar(s, '.');
    assert p == |s|;
    assert s[..p] == s;
  }

  /** Number(s) for a plain string of decimal digits is their value. */
  lemma DigitStringToNumber(s: string)
    requires AllDigits(s) && s != ""
    ensures StringToNumber(s) == Some(DigitsValue(s) as real)
  {
    TrimDigits(s);
    UnsignedDigits(s);
    assert IsDigit(s[0]);
  }

  /** Number(String(n)) == n for every non-negative integer: a decimal index
      written as an object key reads back as the same number. */
  lemma DecimalKeyRoundTrip(n: nat)
    ensures StringToNumber(NatToDecimal(n)) == Some(n as real)
  {
    DigitsRoundTrip(n);
    DigitStringToNumber(NatToDecimal(n));
  }
}
