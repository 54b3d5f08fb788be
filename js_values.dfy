/** JavaScript values as they arrive in a parsed JSON request body, and the
    coercions of the language the source relies on (truthiness, `Number()`,
    `parseInt`). Numbers are exact reals: IEEE-754 rounding and overflow to
    infinity are not modelled. */
module JsValues {
  import opened Wrappers
  import opened Strings

  /** A nullable string column or optional string field is truthy when it is
      present and not the empty string. */
  predicate Truthy(o: Option<string>) {
    o.Some? && o.value != ""
  }

  /** `o || fallback` on an optional string. */
  function OrElse(o: Option<string>, fallback: string): (r: string)
    ensures Truthy(o) ==> r == o.value
    ensures !Truthy(o) ==> r == fallback
  {
    if Truthy(o) then o.value else fallback
  }

  /** A value of a JSON request body; `JUndefined` is a field that is absent. */
  datatype Json =
    | JUndefined
    | JNull
    | JBool(b: bool)
    | JNumber(n: real)
    | JString(s: string)
    | JArray(elems: seq<Json>)
    | JObject(fields: map<string, Json>)

  /** JavaScript truthiness of a body value: undefined, null, false, 0 and
      the empty string are falsy; arrays and objects are truthy. */
  predicate JsonTruthy(v: Json) {
    match v
    case JUndefined => false
    case JNull => false
    case JBool(b) => b
    case JNumber(n) => n != 0.0
    case JString(s) => s != ""
    case JArray(_) => true
    case JObject(_) => true
  }

  /** `body[field]`: an absent field reads as undefined. */
  function Field(body: map<string, Json>, field: string): (v: Json)
    ensures field in body ==> v == body[field]
    ensures field !in body ==> v == JUndefined
  {
    if field in body then body[field] else JUndefined
  }

  /** The result of `Number(...)` or `parseInt(...)`. */
  datatype JsNumber = Finite(value: real) | NaN | PosInfinity | NegInfinity

  /** The value of a digit in radixes up to 36, or 36 for a non-digit. */
  function DigitValue(c: char): (d: nat)
    ensures d <= 36
    ensures d < 10 <==> IsAsciiDigit(c)
  {
    if '0' <= c <= '9' then c as int - '0' as int
    else if 'a' <= c <= 'z' then c as int - 'a' as int + 10
    else if 'A' <= c <= 'Z' then c as int - 'A' as int + 10
    else 36
  }

  predicate IsRadixDigit(c: char, radix: nat) { DigitValue(c) < radix }

  /** The length of the longest prefix made of digits of `radix`. */
  function RadixRun(s: string, radix: nat): (n: nat)
    ensures n <= |s|
    ensures forall k :: 0 <= k < n ==> IsRadixDigit(s[k], radix)
    ensures n == |s| || !IsRadixDigit(s[n], radix)
  {
    if s == [] || !IsRadixDigit(s[0], radix) then 0 else 1 + RadixRun(s[1..], radix)
  }

  /** The value of a digit string, most significant digit first. */
  function RadixValue(s: string, radix: nat): (v: nat)
  {
    if s == [] then 0
    else RadixValue(s[..|s| - 1], radix) * radix + (if DigitValue(s[|s| - 1]) < radix then DigitValue(s[|s| - 1]) else 0)
  }

  function Pow10(e: nat): (p: nat)
    ensures p >= 1
  {
    if e == 0 then 1 else 10 * Pow10(e - 1)
  }

  /** `10 ** e` for any integer exponent. */
  function Scale(e: int): (r: real)
    ensures r > 0.0
  {
    if e >= 0 then Pow10(e) as real else 1.0 / (Pow10(-e) as real)
  }

  /** The optional exponent part `(e|E)[+-]digits` that ends a decimal literal. */
  function ExponentPart(s: string): (r: Option<int>)
    ensures s == [] ==> r == Some(0)
    ensures s != [] && s[0] != 'e' && s[0] != 'E' ==> r.None?
  {
    if s == [] then Some(0)
    else if s[0] != 'e' && s[0] != 'E' then None
    else
      var rest := s[1..];
      var negative := rest != [] && rest[0] == '-';
      var digits := if rest != [] && (rest[0] == '-' || rest[0] == '+') then rest[1..] else rest;
      if digits != [] && RadixRun(digits, 10) == |digits| then
        Some(if negative then -(RadixValue(digits, 10) as int) else RadixValue(digits, 10) as int)
      else None
  }

  /** An unsigned decimal literal: `digits[.digits][exp]` or `.digits[exp]`. */
  function UnsignedDecimal(b: string): (r: Option<real>)
    ensures r.Some? ==> r.value >= 0.0
    ensures b == [] ==> r.None?
  {
    var i := RadixRun(b, 10);
    var intPart := b[..i];
    var rest := b[i..];
    var hasDot := rest != [] && rest[0] == '.';
    var j := if hasDot then RadixRun(rest[1..], 10) else 0;
    var frac := if hasDot then rest[1..][..j] else [];
    var tail := if hasDot then rest[1..][j..] else rest;
    if |intPart| + |frac| == 0 then None
    else match ExponentPart(tail)
      case None => None
      case Some(e) => Some(Scaled(intPart + frac, e - |frac|))
  }

  /** The value of a decimal digit string times `10 ** shift`. */
  function Scaled(digits: string, shift: int): (v: real)
    ensures v >= 0.0
    ensures shift == 0 ==> v == RadixValue(digits, 10) as real
  {
    var d := RadixValue(digits, 10) as real;
    var f := Scale(shift);
    assert d * f >= 0.0 by { assert d >= 0.0 && f > 0.0; }
    d * f
  }

  /** `0x`, `0o` or `0b` (either case) followed by at least one character. */
  predicate HasRadixPrefix(t: string) {
    |t| > 2 && t[0] == '0' && IsRadixLetter(t[1])
  }

  predicate IsRadixLetter(c: char) {
    c == 'x' || c == 'X' || c == 'o' || c == 'O' || c == 'b' || c == 'B'
  }

  /** A `0x`/`0o`/`0b` literal: all remaining characters must be digits of that radix. */
  function PrefixedNumber(t: string): (r: JsNumber)
    requires HasRadixPrefix(t)
    ensures r.Finite? || r.NaN?
  {
    var radix := if t[1] == 'x' || t[1] == 'X' then 16 else if t[1] == 'o' || t[1] == 'O' then 8 else 2;
    var digits := t[2..];
    if RadixRun(digits, radix) == |digits| then Finite(RadixValue(digits, radix) as real) else NaN
  }

  /** A decimal literal with an optional sign, or a signed 'Infinity'. */
  function SignedDecimal(t: string): (r: JsNumber)
    requires t != []
  {
    var negative := t[0] == '-';
    var body := if t[0] == '-' || t[0] == '+' then t[1..] else t;
    if body == "Infinity" then (if negative then NegInfinity else PosInfinity)
    else match UnsignedDecimal(body)
      case None => NaN
      case Some(v) => Finite(if negative then -v else v)
  }

  /** `Number(s)` for a string: surrounding whitespace is ignored, the empty
      string is 0, and anything outside the numeric-literal grammar is NaN. */
  function StringToNumber(s: string): (r: JsNumber)
    ensures Trim(s) == [] ==> r == Finite(0.0)
  {
    TrimmedToNumber(Trim(s))
  }

  function TrimmedToNumber(t: string): (r: JsNumber)
    ensures t == [] ==> r == Finite(0.0)
  {
    if t == [] then Finite(0.0)
    else if HasRadixPrefix(t) then PrefixedNumber(t)
    else SignedDecimal(t)
  }

  /** `Number(v)` for a body value. An array converts through its string
      form: `[]` is 0, `[x]` is `Number(String(x))`, and two or more elements
      join with ',' and are never numeric. */
  function ToNumber(v: Json): (r: JsNumber)
    decreases v, 0
  {
    match v
    case JUndefined => NaN
    case JNull => Finite(0.0)
    case JBool(b) => Finite(if b then 1.0 else 0.0)
    case JNumber(n) => Finite(n)
    case JString(s) => StringToNumber(s)
    case JArray(xs) =>
      if |xs| == 0 then Finite(0.0)
      else if |xs| == 1 then ElementToNumber(xs[0])
      else NaN
    case JObject(_) => NaN
  }

  /** `Number(String(x))` for the single element of an array: null reads as
      the empty string, a boolean as 'true'/'false'. */
  function ElementToNumber(x: Json): (r: JsNumber)
    decreases x, 1
  {
    match x
    case JUndefined => Finite(0.0)
    case JNull => Finite(0.0)
    case JBool(_) => NaN
    case JNumber(n) => Finite(n)
    case JString(s) => StringToNumber(s)
    case JArray(_) => ToNumber(x)
    case JObject(_) => NaN
  }

  /** `parseInt(s)` with no radix: leading whitespace and a sign are skipped,
      '0x' selects hexadecimal, and the longest digit prefix is read; no
      digit at all gives NaN (`None`). */
  function ParseInt(s: string): (r: Option<int>)
  {
    var t := TrimStart(s);
    var negative := t != [] && t[0] == '-';
    var unsigned := if t != [] && (t[0] == '-' || t[0] == '+') then t[1..] else t;
    match UnsignedPrefix(unsigned)
    case None => None
    case Some(v) => Some(if negative then -(v as int) else v as int)
  }

  /** The digits `parseInt` reads after the sign: '0x' selects hexadecimal,
      then the longest digit prefix is taken. */
  function UnsignedPrefix(u: string): (r: Option<nat>)
  {
    var hex := |u| >= 2 && u[0] == '0' && (u[1] == 'x' || u[1] == 'X');
    var radix := if hex then 16 else 10;
    var digits := if hex then u[2..] else u;
    var n := RadixRun(digits, radix);
    if n == 0 then None else Some(RadixValue(digits[..n], radix))
  }

  /** `parseInt(field?.value) || fallback`: an absent field, NaN and 0 all
      give the fallback. */
  function ParseIntOr(field: Option<string>, fallback: int): (r: int)
    ensures field.None? ==> r == fallback
    ensures field.Some? && ParseInt(field.value).Some? && ParseInt(field.value).value != 0 ==>
              r == ParseInt(field.value).value
    ensures field.Some? && (ParseInt(field.value).None? || ParseInt(field.value) == Some(0)) ==> r == fallback
  {
    if field.None? then fallback
    else match ParseInt(field.value)
      case Some(n) => if n != 0 then n else fallback
      case None => fallback
  }

  lemma {:induction false} RadixValueOfDecimal(n: nat)
    ensures RadixRun(NatToString(n), 10) == |NatToString(n)|
    ensures RadixValue(NatToString(n), 10) == n
  {
    var s := NatToString(n);
    assert forall k :: 0 <= k < |s| ==> IsRadixDigit(s[k], 10);
    RunOfDigits(s);
    if n >= 10 {
      RadixValueOfDecimal(n / 10);
      assert s[..|s| - 1] == NatToString(n / 10);
    }
  }

  lemma {:induction false} RunOfDigits(s: string)
    requires forall k :: 0 <= k < |s| ==> IsRadixDigit(s[k], 10)
    ensures RadixRun(s, 10) == |s|
  {
    if s != [] {
      RunOfDigits(s[1..]);
    }
  }

  /** `parseInt` reads back the decimal rendering of every natural number. */
  lemma ParseIntOfDecimal(n: nat)
    ensures ParseInt(NatToString(n)) == Some(n)
  {
    RadixValueOfDecimal(n);
    ParseIntOfDigits(NatToString(n));
  }

  lemma ParseIntOfDigits(s: string)
    requires s != [] && forall k :: 0 <= k < |s| ==> IsAsciiDigit(s[k])
    ensures ParseInt(s) == Some(RadixValue(s, 10) as int)
  {
    Unblank(s);
    assert IsAsciiDigit(s[0]);
    UnsignedPrefixOfDigits(s);
    ParseIntUnsigned(s, RadixValue(s, 10));
  }

  /** A string that starts with neither whitespace nor a sign is read by
      `parseInt` as its digit prefix. */
  lemma ParseIntUnsigned(s: string, v: nat)
    requires s != [] && TrimStart(s) == s && s[0] != '-' && s[0] != '+'
    requires UnsignedPrefix(s) == Some(v)
    ensures ParseInt(s) == Some(v as int)
  {
  }

  lemma UnsignedPrefixOfDigits(s: string)
    requires s != [] && forall k :: 0 <= k < |s| ==> IsAsciiDigit(s[k])
    ensures UnsignedPrefix(s) == Some(RadixValue(s, 10))
  {
    RunOfDigits(s);
    assert !(|s| >= 2 && s[0] == '0' && (s[1] == 'x' || s[1] == 'X')) by {
      if |s| >= 2 { assert IsAsciiDigit(s[1]); }
    }
    assert s[..|s|] == s;
  }

  /** `Number` reads back the decimal rendering of every natural number. */
  lemma NumberOfDecimal(n: nat)
    ensures StringToNumber(NatToString(n)) == Finite(n as real)
  {
    RadixValueOfDecimal(n);
    NumberOfDigits(NatToString(n));
  }

  lemma NumberOfDigits(s: string)
    requires s != [] && forall k :: 0 <= k < |s| ==> IsAsciiDigit(s[k])
    ensures StringToNumber(s) == Finite(RadixValue(s, 10) as real)
  {
    Unblank(s);
    TrimmedOfDigits(s);
  }

  lemma TrimmedOfDigits(s: string)
    requires s != [] && forall k :: 0 <= k < |s| ==> IsAsciiDigit(s[k])
    ensures TrimmedToNumber(s) == Finite(RadixValue(s, 10) as real)
  {
    assert !HasRadixPrefix(s) by { assert |s| > 2 ==> IsAsciiDigit(s[1]); }
    SignedDecimalOfDigits(s);
  }

  lemma SignedDecimalOfDigits(s: string)
    requires s != [] && forall k :: 0 <= k < |s| ==> IsAsciiDigit(s[k])
    ensures SignedDecimal(s) == Finite(RadixValue(s, 10) as real)
  {
    UnsignedDecimalOfDigits(s);
    assert IsAsciiDigit(s[0]);
    assert s != "Infinity";
  }

  lemma UnsignedDecimalOfDigits(s: string)
    requires s != [] && forall k :: 0 <= k < |s| ==> IsAsciiDigit(s[k])
    ensures UnsignedDecimal(s) == Some(RadixValue(s, 10) as real)
  {
    RunOfDigits(s);
    assert s[..|s|] == s && s[|s|..] == [] && s + [] == s;
    assert ExponentPart([]) == Some(0);
  }

  /** A string of digits is left alone by trimming. */
  lemma Unblank(s: string)
    requires forall k :: 0 <= k < |s| ==> IsAsciiDigit(s[k])
    ensures TrimStart(s) == s && Trim(s) == s
  {
    if s != [] {
      assert !IsWhitespace(s[0]) && !IsWhitespace(s[|s| - 1]);
      assert TrimStart(s) == s;
      assert TrimEnd(s) == s;
    }
  }
}
