/** The fragment of JavaScript value semantics the page script relies on:
    values and truthiness, property lookup, `Number.parseInt`, comparison of
    a string with a number, `String.prototype.includes` and the rendering of
    an integer inside a template literal.

    Objects carry an identity `id`. The model allocates every object with a
    fresh id, so two object values are the same reference exactly when they
    are equal as Dafny values, and JavaScript's `!==` is Dafny's `!=`. */
module Js {

  datatype Option<T> = None | Some(value: T)

  /** A JavaScript value as it occurs in the state snapshots. Numbers never
      occur there, so they have no variant. */
  datatype Value =
    | Undefined
    | Null
    | Bool(b: bool)
    | Str(s: string)
    | Obj(id: nat, props: map<string, Value>)

  /** `Boolean(v)`: what an `if`, `!` or `&&` makes of a value. */
  predicate Truthy(v: Value) {
    match v
    case Undefined => false
    case Null => false
    case Bool(b) => b
    case Str(s) => s != ""
    case Obj(_, _) => true
  }

  /** `o[key]` for an own property of an object; every other read gives
      `undefined`. Inherited properties of `Object.prototype` and the
      `length`/index properties of strings are not part of the model. */
  function Get(o: Value, key: string): Value {
    if o.Obj? && key in o.props then o.props[key] else Undefined
  }

  /** `typeof o === "object" && o !== null && key in o` */
  predicate HasProperty(o: Value, key: string) {
    o.Obj? && key in o.props
  }

  /** `${v}` inside a template literal. */
  function TemplateString(v: Value): string {
    match v
    case Undefined => "undefined"
    case Null => "null"
    case Bool(b) => if b then "true" else "false"
    case Str(s) => s
    case Obj(_, _) => "[object Object]"
  }

  // ---------------------------------------------------------------------
  // Numbers

  /** A JavaScript number. Finite values are kept exact: the model does not
      round to binary64. */
  datatype JsNumber = Finite(r: real) | PosInfinity | NegInfinity | NaN

  /** `Boolean(n)`: `0`, `-0` and `NaN` are falsy. */
  predicate NumberTruthy(n: JsNumber) {
    match n
    case Finite(r) => r != 0.0
    case NaN => false
    case _ => true
  }

  /** `x >= n`; every comparison with `NaN` is false. */
  predicate AtLeast(x: JsNumber, n: int) {
    match x
    case Finite(r) => r >= n as real
    case PosInfinity => true
    case NegInfinity => false
    case NaN => false
  }

  /** `x <= n` */
  predicate AtMost(x: JsNumber, n: int) {
    match x
    case Finite(r) => r <= n as real
    case PosInfinity => false
    case NegInfinity => true
    case NaN => false
  }

  /** `x > n` */
  predicate Above(x: JsNumber, n: int) {
    match x
    case Finite(r) => r > n as real
    case PosInfinity => true
    case NegInfinity => false
    case NaN => false
  }

  // ---------------------------------------------------------------------
  // Digits

  predicate IsDigit(c: char) {
    '0' <= c <= '9'
  }

  predicate IsDigits(s: string) {
    forall i :: 0 <= i < |s| ==> IsDigit(s[i])
  }

  /** The value of `c` as a digit of radix up to 36 (letters of either case
      count from 10); 36 for a character that is no digit at all. */
  function CharDigit(c: char): nat {
    if '0' <= c <= '9' then (c as int - '0' as int) as nat
    else if 'a' <= c <= 'z' then (c as int - 'a' as int) as nat + 10
    else if 'A' <= c <= 'Z' then (c as int - 'A' as int) as nat + 10
    else 36
  }

  function DigitChar(d: nat): (c: char)
    requires d < 10
    ensures IsDigit(c) && CharDigit(c) == d
  {
    ('0' as int + d) as char
  }

  /** The value of `ds` read in base `radix`, most significant digit first. */
  function DigitsValue(ds: string, radix: nat): nat {
    if |ds| == 0 then 0
    else DigitsValue(ds[..|ds| - 1], radix) * radix + CharDigit(ds[|ds| - 1])
  }

  function Pow10(n: nat): (p: nat)
    ensures p >= 1
  {
    if n == 0 then 1 else 10 * Pow10(n - 1)
  }

  /** The decimal digits of `n` as `${n}` renders them: no leading zero. */
  function NatToString(n: nat): (s: string)
    ensures |s| > 0 && IsDigits(s)
    ensures s[0] != '0' || n == 0
    ensures DigitsValue(s, 10) == n
    decreases n
  {
    if n < 10 then [DigitChar(n)]
    else
      var front := NatToString(n / 10);
      var s := front + [DigitChar(n % 10)];
      assert s[..|s| - 1] == front;
      s
  }

  /** `${n}` for an integer `n`. */
  function IntToString(n: int): string {
    if n < 0 then "-" + NatToString(-n) else NatToString(n)
  }

  // ---------------------------------------------------------------------
  // Number.parseInt

  /** WhiteSpace and LineTerminator code points of ECMA-262 (sections 12.2
      and 12.3), the characters `parseInt` skips at the start. */
  predicate IsWhiteSpace(c: char) {
    || c == '\U{0009}' || c == '\U{000B}' || c == '\U{000C}' || c == '\U{0020}'
    || c == '\U{00A0}' || c == '\U{FEFF}' || c == '\U{1680}'
    || ('\U{2000}' <= c <= '\U{200A}')
    || c == '\U{202F}' || c == '\U{205F}' || c == '\U{3000}'
    || c == '\U{000A}' || c == '\U{000D}' || c == '\U{2028}' || c == '\U{2029}'
  }

  /** The string with its leading white space removed. */
  function TrimStart(s: string): (t: string)
    ensures |t| <= |s| && t == s[|s| - |t|..]
    ensures forall i :: 0 <= i < |s| - |t| ==> IsWhiteSpace(s[i])
    ensures |t| == 0 || !IsWhiteSpace(t[0])
  {
    if |s| > 0 && IsWhiteSpace(s[0]) then TrimStart(s[1..]) else s
  }

  /** The longest prefix of `s` made of digits of the given radix. */
  function DigitPrefix(s: string, radix: nat): (p: string)
    ensures |p| <= |s| && p == s[..|p|]
    ensures forall i :: 0 <= i < |p| ==> CharDigit(p[i]) < radix
    ensures |p| < |s| ==> CharDigit(s[|p|]) >= radix
  {
    if |s| > 0 && CharDigit(s[0]) < radix then [s[0]] + DigitPrefix(s[1..], radix) else []
  }

  /** `Number.parseInt(s)` with no radix (ECMA-262 section 19.2.5): skip
      leading white space, take one sign, switch to radix 16 after `0x` or
      `0X`, read the longest digit prefix, `NaN` when it is empty. The value
      is the exact integer; binary64 rounding of long digit strings never
      turns a non-zero value into zero, so truthiness is unaffected. */
  function ParseInt(s: string): (r: JsNumber)
    ensures r.NaN? || r.Finite?
    ensures r.Finite? ==> IntegralMagnitude(r.r)
  {
    ParseSigned(TrimStart(s))
  }

  /** `|x|` is a whole number. */
  predicate IntegralMagnitude(x: real) {
    var m := if x < 0.0 then -x else x;
    m == m.Floor as real
  }

  /** Steps 2-8 of `parseInt`, once the white space is gone. */
  function ParseSigned(t: string): (r: JsNumber)
    ensures r.NaN? || r.Finite?
    ensures r.Finite? ==> IntegralMagnitude(r.r)
  {
    if |t| > 0 && t[0] == '-' then Negate(ParseUnsigned(t[1..]))
    else if |t| > 0 && t[0] == '+' then ParseUnsigned(t[1..])
    else ParseUnsigned(t)
  }

  function Negate(n: JsNumber): JsNumber {
    match n
    case Finite(r) => Finite(-r)
    case PosInfinity => NegInfinity
    case NegInfinity => PosInfinity
    case NaN => NaN
  }

  predicate HasHexPrefix(u: string) {
    |u| >= 2 && u[0] == '0' && (u[1] == 'x' || u[1] == 'X')
  }

  function ParseUnsigned(u: string): (r: JsNumber)
    ensures r.NaN? || r.Finite?
    ensures r.Finite? ==> r.r >= 0.0 && r.r == r.r.Floor as real
  {
    var radix := if HasHexPrefix(u) then 16 else 10;
    var z := DigitPrefix(if HasHexPrefix(u) then u[2..] else u, radix);
    if |z| == 0 then NaN else Finite(DigitsValue(z, radix) as real)
  }

  // ---------------------------------------------------------------------
  // Integer literals: the strings on which the model fixes ToNumber

  function UnsignedPart(s: string): string {
    if |s| > 0 && (s[0] == '+' || s[0] == '-') then s[1..] else s
  }

  /** An optional sign followed by one or more ASCII digits. */
  predicate IsIntegerLiteral(s: string) {
    |UnsignedPart(s)| > 0 && IsDigits(UnsignedPart(s))
  }

  function IntegerLiteralValue(s: string): int
    requires IsIntegerLiteral(s)
  {
    var magnitude: int := DigitsValue(UnsignedPart(s), 10);
    if s[0] == '-' then -magnitude else magnitude
  }

  /** A model of the string-to-number coercion that `v >= n`, `v <= n` and
      `v > 0` apply to a string `v` (ECMA-262 section 7.1.4.1.1): exact on
      integer literals. Fractions, exponents, hexadecimal, `Infinity` and
      padding white space are left to the coercion function. */
  ghost predicate CoercesIntegers(toNumber: string -> JsNumber) {
    forall s :: IsIntegerLiteral(s) ==> toNumber(s) == Finite(IntegerLiteralValue(s) as real)
  }

  /** One coercion that meets `CoercesIntegers`: every string that is no
      integer literal becomes `NaN`. */
  function IntegerCoercion(s: string): JsNumber {
    if IsIntegerLiteral(s) then Finite(IntegerLiteralValue(s) as real) else NaN
  }

  lemma IntegerCoercionCoercesIntegers()
    ensures CoercesIntegers(IntegerCoercion)
  {
  }

  // ---------------------------------------------------------------------
  // String.prototype.includes

  /** `s.includes(sub)`: `sub` occurs in `s` at some position. */
  predicate Includes(s: string, sub: string)
    decreases |s|
  {
    |sub| <= |s| && (s[..|sub|] == sub || Includes(s[1..], sub))
  }

  // ---------------------------------------------------------------------
  // Lemmas

  lemma {:induction false} IncludesChar(s: string, c: char)
    ensures Includes(s, [c]) <==> c in s
    decreases |s|
  {
    if |s| > 0 {
      IncludesChar(s[1..], c);
      assert s == [s[0]] + s[1..];
      assert s[..1] == [s[0]];
    }
  }

  lemma {:induction false} DigitPrefixOfDigits(ds: string, rest: string)
    requires IsDigits(ds)
    requires |rest| == 0 || CharDigit(rest[0]) >= 10
    ensures DigitPrefix(ds + rest, 10) == ds
    decreases |ds|
  {
    if |ds| > 0 {
      assert (ds + rest)[1..] == ds[1..] + rest;
      DigitPrefixOfDigits(ds[1..], rest);
      assert ds == [ds[0]] + ds[1..];
    } else {
      assert ds + rest == rest;
    }
  }

  /** `parseInt` reads an integer literal as its exact value and ignores
      whatever follows it once a character is no digit. The one exception
      is an `x` or `X` right after the digits "0", which makes a `0x`
      prefix. */
  lemma ParseIntIntegerLiteral(s: string, rest: string)
    requires IsIntegerLiteral(s)
    requires |rest| == 0 || !IsDigit(rest[0])
    requires UnsignedPart(s) == "0" && |rest| > 0 ==> rest[0] != 'x' && rest[0] != 'X'
    ensures ParseInt(s + rest) == Finite(IntegerLiteralValue(s) as real)
  {
    var ds := UnsignedPart(s);
    var full := s + rest;
    assert !IsWhiteSpace(full[0]) by {
      assert full[0] == s[0];
      assert s[0] == '+' || s[0] == '-' || IsDigit(s[0]);
    }
    assert TrimStart(full) == full;
    assert |rest| == 0 || CharDigit(rest[0]) >= 10;
    var unsigned := ds + rest;
    assert !HasHexPrefix(unsigned) by {
      if |unsigned| >= 2 {
        if |ds| >= 2 {
          assert unsigned[1] == ds[1];
        } else {
          assert unsigned[1] == rest[0];
        }
      }
    }
    DigitPrefixOfDigits(ds, rest);
    assert ParseUnsigned(unsigned) == Finite(DigitsValue(ds, 10) as real);
    if s[0] == '-' || s[0] == '+' {
      assert full[1..] == unsigned;
    } else {
      assert full == unsigned;
    }
  }

  lemma ParseIntIntegerLiteralAlone(s: string)
    requires IsIntegerLiteral(s)
    ensures ParseInt(s) == Finite(IntegerLiteralValue(s) as real)
  {
    ParseIntIntegerLiteral(s, "");
    assert s + "" == s;
  }

  /** Leading white space never changes what `parseInt` reads. */
  lemma {:induction false} ParseIntSkipsWhiteSpace(w: string, s: string)
    requires forall i :: 0 <= i < |w| ==> IsWhiteSpace(w[i])
    ensures ParseInt(w + s) == ParseInt(s)
  {
    TrimStartSkips(w, s);
  }

  lemma {:induction false} TrimStartSkips(w: string, s: string)
    requires forall i :: 0 <= i < |w| ==> IsWhiteSpace(w[i])
    ensures TrimStart(w + s) == TrimStart(s)
    decreases |w|
  {
    if |w| > 0 {
      assert (w + s)[0] == w[0];
      assert (w + s)[1..] == w[1..] + s;
      TrimStartSkips(w[1..], s);
    } else {
      assert w + s == s;
    }
  }

  /** A digit string without a leading zero has exactly |ds| digits' worth
      of magnitude: 10^(|ds|-1) <= value < 10^|ds|. */
  lemma {:induction false} DigitsValueBounds(ds: string)
    requires IsDigits(ds)
    ensures DigitsValue(ds, 10) < Pow10(|ds|)
    ensures |ds| > 0 && ds[0] != '0' ==> Pow10(|ds| - 1) <= DigitsValue(ds, 10)
    decreases |ds|
  {
    if |ds| > 0 {
      var front := ds[..|ds| - 1];
      assert IsDigits(front) by {
        forall i | 0 <= i < |front| ensures IsDigit(front[i]) {
          assert front[i] == ds[i];
        }
      }
      DigitsValueBounds(front);
      assert CharDigit(ds[|ds| - 1]) <= 9 by { assert IsDigit(ds[|ds| - 1]); }
      if |front| > 0 {
        assert front[0] == ds[0];
      } else {
        assert DigitsValue(front, 10) == 0;
      }
    }
  }

  /** The decimal value of a non-empty digit string is zero exactly when
      all its digits are '0'. */
  lemma {:induction false} DigitsValueZero(ds: string)
    requires IsDigits(ds)
    ensures DigitsValue(ds, 10) == 0 <==> forall i :: 0 <= i < |ds| ==> ds[i] == '0'
    decreases |ds|
  {
    if |ds| > 0 {
      var front := ds[..|ds| - 1];
      assert IsDigits(front) by {
        forall i | 0 <= i < |front| ensures IsDigit(front[i]) {
          assert front[i] == ds[i];
        }
      }
      DigitsValueZero(front);
      assert forall i :: 0 <= i < |front| ==> front[i] == ds[i];
    }
  }

  predicate NoDigit(s: string) {
    forall i :: 0 <= i < |s| ==> !IsDigit(s[i])
  }

  lemma ParseUnsignedWithoutDigits(u: string)
    requires NoDigit(u)
    ensures ParseUnsigned(u) == NaN
  {
    assert !HasHexPrefix(u);
    if |u| > 0 {
      assert !IsDigit(u[0]);
    }
  }

  /** `parseInt` of a string without any ASCII digit is `NaN`. */
  lemma ParseIntWithoutDigits(s: string)
    requires NoDigit(s)
    ensures ParseInt(s) == NaN
  {
    var t := TrimStart(s);
    assert NoDigit(t) by {
      forall i | 0 <= i < |t| ensures !IsDigit(t[i]) {
        assert t[i] == s[|s| - |t| + i];
      }
    }
    if |t| > 0 && (t[0] == '-' || t[0] == '+') {
      assert NoDigit(t[1..]) by {
        forall i | 0 <= i < |t| - 1 ensures !IsDigit(t[1..][i]) {
          assert t[1..][i] == t[i + 1];
        }
      }
      ParseUnsignedWithoutDigits(t[1..]);
    } else {
      ParseUnsignedWithoutDigits(t);
    }
  }
}
