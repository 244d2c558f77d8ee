/** The slice of JavaScript's value semantics that the trading bot's decisions depend on:
    truthiness, numeric coercion of strings, `parseInt`, `Number.prototype.toFixed` on exact
    reals, and plain objects used as insertion-ordered dictionaries. */
module Js {

  datatype Option<T> = None | Some(value: T)

  /** A JavaScript value as it appears in configuration bodies and UI state.
      `NaN` is the one non-finite number the bot meets; objects and arrays never reach the
      places where a `Val` is used. */
  datatype Val = Undefined | Null | Bool(b: bool) | Num(n: real) | NaN | Str(s: string)

  /** JavaScript's ToBoolean: `undefined`, `null`, `false`, `0`, `NaN` and `""` are falsy. */
  predicate Truthy(v: Val)
  {
    match v
    case Undefined => false
    case Null => false
    case Bool(b) => b
    case Num(n) => n != 0.0
    case NaN => false
    case Str(s) => s != ""
  }

  // ---------------------------------------------------------------------------------------
  // Decimal digits
  // ---------------------------------------------------------------------------------------

  predicate IsDigit(c: char) { '0' <= c <= '9' }

  predicate AllDigits(s: string) { forall i :: 0 <= i < |s| ==> IsDigit(s[i]) }

  function DigitValue(c: char): (d: nat)
    requires IsDigit(c)
    ensures d < 10
  {
    (c as int) - ('0' as int)
  }

  function DigitChar(d: nat): (c: char)
    requires d < 10
    ensures IsDigit(c) && DigitValue(c) == d
  {
    (('0' as int) + d) as char
  }

  /** The number a string of decimal digits denotes (most significant digit first). */
  function DigitsValue(s: string): nat
    requires AllDigits(s)
  {
    if s == [] then 0 else 10 * DigitsValue(s[..|s| - 1]) + DigitValue(s[|s| - 1])
  }

  /** The canonical decimal spelling of a natural number, as `String(n)` writes it. */
  function NatToString(n: nat): (s: string)
    ensures |s| > 0 && AllDigits(s)
    ensures |s| > 1 ==> s[0] != '0'
    decreases n
  {
    if n < 10 then [DigitChar(n)] else NatToString(n / 10) + [DigitChar(n % 10)]
  }

  lemma {:induction false} NatToStringValue(n: nat)
    ensures DigitsValue(NatToString(n)) == n
    decreases n
  {
    var s := NatToString(n);
    if n >= 10 {
      NatToStringValue(n / 10);
      assert s[..|s| - 1] == NatToString(n / 10);
    }
  }

  /** A number below 10^k (k >= 1) is spelled with at most k digits. */
  lemma {:induction false} NatToStringLength(n: nat, k: nat)
    requires k >= 1 && n < Pow10(k)
    ensures |NatToString(n)| <= k
    decreases k
  {
    if n >= 10 {
      assert k != 1;
      assert n / 10 < Pow10(k - 1);
      NatToStringLength(n / 10, k - 1);
    }
  }

  /** A digit string without superfluous leading zeros is the spelling of its value. */
  lemma {:induction false} CanonicalDigits(s: string)
    requires |s| > 0 && AllDigits(s) && (|s| > 1 ==> s[0] != '0')
    ensures NatToString(DigitsValue(s)) == s
    decreases |s|
  {
    if |s| == 1 {
      assert DigitsValue(s) == DigitValue(s[0]);
    } else {
      var p := s[..|s| - 1];
      assert p[0] == s[0];
      CanonicalDigits(p);
      LeadingDigitPositive(p);
      var n := DigitsValue(s);
      assert n / 10 == DigitsValue(p) && n % 10 == DigitValue(s[|s| - 1]);
      assert DigitChar(n % 10) == s[|s| - 1];
    }
  }

  lemma {:induction false} LeadingDigitPositive(s: string)
    requires |s| > 0 && AllDigits(s) && s[0] != '0'
    ensures DigitsValue(s) > 0
    decreases |s|
  {
    if |s| > 1 {
      var p := s[..|s| - 1];
      assert p[0] == s[0];
      LeadingDigitPositive(p);
    }
  }

  // ---------------------------------------------------------------------------------------
  // String to number coercion
  // ---------------------------------------------------------------------------------------

  /** The characters JavaScript skips around a numeral and before `parseInt`'s digits: the
      white-space and line-terminator characters of sections 12.2 and 12.3 of ECMA-262. */
  predicate IsSpace(c: char)
  {
    c == '\t' || c == '\n' || c == '\U{000B}' || c == '\U{000C}' || c == '\r' || c == ' '
    || c == '\U{00A0}' || c == '\U{1680}' || '\U{2000}' <= c <= '\U{200A}'
    || c == '\U{2028}' || c == '\U{2029}' || c == '\U{202F}' || c == '\U{205F}'
    || c == '\U{3000}' || c == '\U{FEFF}'
  }

  function SkipSpaces(s: string): (r: string)
  {
    if s != [] && IsSpace(s[0]) then SkipSpaces(s[1..]) else s
  }

  function TrimEnd(s: string): (r: string)
  {
    if s != [] && IsSpace(s[|s| - 1]) then TrimEnd(s[..|s| - 1]) else s
  }

  /** `String.prototype.trim`: white space removed at both ends. */
  function Trim(s: string): string
  {
    TrimEnd(SkipSpaces(s))
  }

  lemma TrimNoSpaces(s: string)
    requires s != [] && !IsSpace(s[0]) && !IsSpace(s[|s| - 1])
    ensures Trim(s) == s
  {
  }

  /** Index of the first occurrence of `c` in `s`, or `|s|` when there is none. */
  function IndexOf(s: string, c: char): (i: nat)
    ensures i <= |s|
    ensures i < |s| ==> s[i] == c
    ensures forall j :: 0 <= j < i ==> s[j] != c
  {
    if s == [] then 0 else if s[0] == c then 0 else 1 + IndexOf(s[1..], c)
  }

  function Pow10(d: nat): (p: nat)
    ensures p >= 1
  {
    if d == 0 then 1 else 10 * Pow10(d - 1)
  }

  /** The value of the digits after a decimal point: "25" is 0.25. */
  function FractionValue(s: string): (r: real)
    requires AllDigits(s)
    ensures 0.0 <= r <= 1.0
  {
    if s == [] then 0.0 else (DigitValue(s[0]) as real + FractionValue(s[1..])) / 10.0
  }

  /** Value of an unsigned decimal literal: digits, optionally a '.', optionally more digits,
      with at least one digit in all ("5", "0.25", ".5", "5." are numerals). */
  function UnsignedDecimal(s: string): Option<real>
  {
    var dot := IndexOf(s, '.');
    var whole := s[..dot];
    var frac := if dot < |s| then s[dot + 1..] else "";
    if AllDigits(whole) && AllDigits(frac) && |whole| + |frac| > 0 then
      Some(DigitsValue(whole) as real + FractionValue(frac))
    else None
  }

  /** JavaScript's ToNumber applied to a string: surrounding white space is ignored, then the
      empty string is 0, a signed decimal numeral is its value, anything else is NaN. */
  function StringToNumber(s: string): (r: Val)
    ensures r.Num? || r.NaN?
  {
    var t := Trim(s);
    if t == "" then Num(0.0)
    else
      var neg := t[0] == '-';
      var body := if t[0] == '-' || t[0] == '+' then t[1..] else t;
      match UnsignedDecimal(body)
      case Some(x) => Num(if neg then -x else x)
      case None => NaN
  }

  /** JavaScript's ToNumber (unary `+`). */
  function ToNumber(v: Val): (r: Val)
    ensures r.Num? || r.NaN?
    ensures v.Num? ==> r == v
  {
    match v
    case Undefined => NaN
    case Null => Num(0.0)
    case Bool(b) => Num(if b then 1.0 else 0.0)
    case Num(n) => v
    case NaN => NaN
    case Str(s) => StringToNumber(s)
  }

  /** Unary `+` on a string of digits gives the number they spell. */
  lemma DigitStringNumber(g: string)
    requires |g| > 0 && AllDigits(g)
    ensures ToNumber(Str(g)) == Num(DigitsValue(g) as real)
  {
    assert IsDigit(g[0]) && IsDigit(g[|g| - 1]);
    TrimNoSpaces(g);
    var dot := IndexOf(g, '.');
    assert dot == |g|;
    assert g[..dot] == g;
  }

  /** White space around a numeral does not change its value. */
  lemma PaddedNumber(pad: string, g: string, pad': string)
    requires |g| > 0 && AllDigits(g)
    requires forall i :: 0 <= i < |pad| ==> IsSpace(pad[i])
    requires forall i :: 0 <= i < |pad'| ==> IsSpace(pad'[i])
    ensures ToNumber(Str(pad + g + pad')) == Num(DigitsValue(g) as real)
  {
    assert IsDigit(g[0]) && IsDigit(g[|g| - 1]);
    SkipLeading(pad, g + pad');
    assert pad + g + pad' == pad + (g + pad');
    TrimTrailing(g, pad');
    DigitStringNumber(g);
    TrimNoSpaces(g);
  }

  lemma {:induction false} SkipLeading(pad: string, s: string)
    requires forall i :: 0 <= i < |pad| ==> IsSpace(pad[i])
    requires s != [] && !IsSpace(s[0])
    ensures SkipSpaces(pad + s) == s
    decreases |pad|
  {
    if pad != [] {
      assert (pad + s)[1..] == pad[1..] + s;
      SkipLeading(pad[1..], s);
    } else {
      assert pad + s == s;
    }
  }

  lemma {:induction false} TrimTrailing(s: string, pad: string)
    requires forall i :: 0 <= i < |pad| ==> IsSpace(pad[i])
    requires s != [] && !IsSpace(s[|s| - 1])
    ensures TrimEnd(s + pad) == s
    decreases |pad|
  {
    if pad != [] {
      var q := pad[..|pad| - 1];
      assert (s + pad)[..|s + pad| - 1] == s + q;
      TrimTrailing(s, q);
    } else {
      assert s + pad == s;
    }
  }

  /** JavaScript's global `isNaN`, which coerces its argument first. */
  predicate IsNaN(v: Val)
  {
    ToNumber(v).NaN?
  }

  lemma NumeralsAreNumbers()
    ensures ToNumber(Str("12")) == Num(12.0)
    ensures ToNumber(Str("-0.5")) == Num(-0.5)
    ensures ToNumber(Str("")) == Num(0.0)
    ensures ToNumber(Str(" 5 ")) == Num(5.0)
  {
    TwelveIsNumber();
    NegativeHalfIsNumber();
    PaddedFive();
  }

  lemma TwelveIsNumber()
    ensures ToNumber(Str("12")) == Num(12.0)
  {
    DigitStringNumber("12");
    assert "12"[..1] == "1";
  }

  lemma NegativeHalfIsNumber()
    ensures ToNumber(Str("-0.5")) == Num(-0.5)
  {
    var s := "-0.5";
    assert !IsSpace(s[0]) && !IsSpace(s[|s| - 1]);
    TrimNoSpaces(s);
    var body := s[1..];
    assert body == "0.5";
    assert IndexOf(body, '.') == 1;
    assert body[..1] == "0" && body[2..] == "5";
    assert DigitsValue("0") == 0;
    assert FractionValue("5") == 0.5 by {
      assert "5"[1..] == "";
    }
    assert UnsignedDecimal(body) == Some(0.5);
  }

  lemma PaddedFive()
    ensures ToNumber(Str(" 5 ")) == Num(5.0)
  {
    PaddedNumber(" ", "5", " ");
    assert " " + "5" + " " == " 5 ";
  }

  lemma OtherValuesAreNaN()
    ensures IsNaN(Str("abc")) && IsNaN(Undefined) && !IsNaN(Null)
  {
    TrimNoSpaces("abc");
    assert UnsignedDecimal("abc").None? by {
      assert IndexOf("abc", '.') == 3;
      assert !IsDigit("abc"[0]);
    }
  }

  // Comparisons of a number with an arbitrary value: the value is coerced with ToNumber and a
  // comparison against NaN is false.

  predicate NumLe(x: real, v: Val) { var t := ToNumber(v); t.Num? && x <= t.n }
  predicate NumLt(x: real, v: Val) { var t := ToNumber(v); t.Num? && x < t.n }
  predicate NumGe(x: real, v: Val) { var t := ToNumber(v); t.Num? && x >= t.n }
  predicate NumGt(x: real, v: Val) { var t := ToNumber(v); t.Num? && x > t.n }

  /** `x <= v` where `x` may be `undefined` (a missing record field). */
  predicate OptLe(x: Option<real>, v: Val) { x.Some? && NumLe(x.value, v) }

  // ---------------------------------------------------------------------------------------
  // parseInt
  // ---------------------------------------------------------------------------------------

  /** Length of the run of decimal digits at the start of `s`. */
  function DigitPrefix(s: string): (n: nat)
    ensures n <= |s| && AllDigits(s[..n])
    ensures n < |s| ==> !IsDigit(s[n])
  {
    if s != [] && IsDigit(s[0]) then
      var n := 1 + DigitPrefix(s[1..]);
      assert s[..n] == [s[0]] + s[1..][..n - 1];
      n
    else 0
  }

  predicate IsHexDigit(c: char) { IsDigit(c) || 'a' <= c <= 'f' || 'A' <= c <= 'F' }

  predicate AllHexDigits(s: string) { forall i :: 0 <= i < |s| ==> IsHexDigit(s[i]) }

  function HexDigitValue(c: char): (d: nat)
    requires IsHexDigit(c)
    ensures d < 16
  {
    if IsDigit(c) then DigitValue(c)
    else if 'a' <= c <= 'f' then 10 + ((c as int) - ('a' as int))
    else assert 'A' <= c; 10 + ((c as int) - ('A' as int))
  }

  /** The number a string of hexadecimal digits denotes. */
  function HexValue(s: string): nat
    requires AllHexDigits(s)
  {
    if s == [] then 0 else 16 * HexValue(s[..|s| - 1]) + HexDigitValue(s[|s| - 1])
  }

  /** Length of the run of hexadecimal digits at the start of `s`. */
  function HexPrefix(s: string): (n: nat)
    ensures n <= |s| && AllHexDigits(s[..n])
  {
    if s != [] && IsHexDigit(s[0]) then
      var n := 1 + HexPrefix(s[1..]);
      assert s[..n] == [s[0]] + s[1..][..n - 1];
      n
    else 0
  }

  /** `parseInt` switches to radix 16 after a "0x" or "0X". */
  predicate HasHexPrefix(u: string)
  {
    |u| >= 2 && u[0] == '0' && (u[1] == 'x' || u[1] == 'X')
  }

  /** The value of the leading run of digits in the radix `parseInt` chose, or NaN (`None`)
      when the run is empty. */
  function LeadingRun(u: string): Option<nat>
  {
    if HasHexPrefix(u) then
      var n := HexPrefix(u[2..]);
      if n == 0 then None else Some(HexValue(u[2..][..n]))
    else
      var n := DigitPrefix(u);
      if n == 0 then None else Some(DigitsValue(u[..n]))
  }

  /** `parseInt(s)` with the default radix: leading white space is skipped, an optional sign is
      read, then a "0x" prefix selects hexadecimal, and the longest run of digits in that
      radix is read; no digits at all gives NaN (`None`). */
  function ParseInt(s: string): (r: Option<int>)
  {
    var t := SkipSpaces(s);
    var neg := t != [] && t[0] == '-';
    var u := if t != [] && (t[0] == '-' || t[0] == '+') then t[1..] else t;
    match LeadingRun(u)
    case None => None
    case Some(m) => var k: int := m; Some(if neg then -k else k)
  }

  /** Digits followed by text that does not extend them are read as their decimal value;
      "0" followed by an "x" is the one exception, a hexadecimal prefix. */
  lemma ParseIntOfDigits(s: string, rest: string)
    requires |s| > 0 && AllDigits(s) && (rest == [] || !IsDigit(rest[0]))
    requires !(s == "0" && rest != [] && (rest[0] == 'x' || rest[0] == 'X'))
    ensures ParseInt(s + rest) == Some(DigitsValue(s))
  {
    var u := s + rest;
    assert u[0] == s[0] && IsDigit(s[0]);
    assert !HasHexPrefix(u) by {
      if |s| >= 2 {
        assert u[1] == s[1] && IsDigit(s[1]);
      } else if rest != [] {
        assert s == [s[0]] && u[1] == rest[0];
      }
    }
    ParseIntUnsigned(u);
    DigitPrefixOf(s, rest);
    assert u[..|s|] == s;
  }

  /** Without leading space or sign, `parseInt` reads the leading run of digits. */
  lemma ParseIntUnsigned(u: string)
    requires u != [] && !IsSpace(u[0]) && u[0] != '-' && u[0] != '+'
    ensures ParseInt(u) == match LeadingRun(u) case None => None case Some(m) => Some(m as int)
  {
  }

  /** A "0x" prefix reads the digits after it in radix 16: "0x10" is 16. */
  lemma ParseIntHex()
    ensures ParseInt("0x10") == Some(16)
  {
    var u := "0x10";
    assert !IsSpace(u[0]);
    ParseIntUnsigned(u);
    assert HasHexPrefix(u);
    assert u[2..] == "10";
    assert HexPrefix("10") == 2 by {
      assert "10"[1..] == "0" && "0"[1..] == "";
    }
    assert "10"[..2] == "10" && "10"[..1] == "1";
    assert HexValue("10") == 16;
  }

  lemma {:induction false} DigitPrefixOf(s: string, rest: string)
    requires AllDigits(s) && (rest == [] || !IsDigit(rest[0]))
    ensures DigitPrefix(s + rest) == |s|
    decreases |s|
  {
    if s != [] {
      assert (s + rest)[1..] == s[1..] + rest;
      DigitPrefixOf(s[1..], rest);
    } else {
      assert s + rest == rest;
    }
  }

  // ---------------------------------------------------------------------------------------
  // toFixed
  // ---------------------------------------------------------------------------------------

  function Abs(x: real): real { if x < 0.0 then -x else x }

  /** `+x.toFixed(d)` on an exact real: the magnitude is rounded to `d` decimals with ties going
      up, and the sign is put back. */
  function ToFixed(x: real, d: nat): (r: real)
  {
    RoundTo(x, Pow10(d) as real)
  }

  /** Rounds the magnitude of `x` to the nearest multiple of `1/p`, ties away from zero. */
  function RoundTo(x: real, p: real): (r: real)
    requires p > 0.0
  {
    if x < 0.0 then -RoundMagnitude(x, p) else RoundMagnitude(x, p)
  }

  function RoundMagnitude(x: real, p: real): real
    requires p > 0.0
  {
    ((Abs(x) * p + 0.5).Floor as real) / p
  }

  /** Rounding moves a value by at most half a unit in the last kept place, and keeps its sign. */
  lemma ToFixedClose(x: real, d: nat)
    ensures Abs(ToFixed(x, d) - x) <= HalfUnit(d)
    ensures x >= 0.0 ==> ToFixed(x, d) >= 0.0
    ensures x <= 0.0 ==> ToFixed(x, d) <= 0.0
  {
    HalfUnitScaled(d);
    RoundToClose(x, Pow10(d) as real, HalfUnit(d));
  }

  /** Half a unit in the `d`-th decimal place: 0.5, 0.05, 0.005, ... */
  function HalfUnit(d: nat): (h: real)
    ensures h > 0.0
  {
    if d == 0 then 0.5 else HalfUnit(d - 1) / 10.0
  }

  lemma {:induction false} HalfUnitScaled(d: nat)
    ensures HalfUnit(d) * Pow10(d) as real == 0.5
  {
    if d > 0 {
      HalfUnitScaled(d - 1);
      assert Pow10(d) as real == 10.0 * Pow10(d - 1) as real;
      TenthTimesTen(HalfUnit(d - 1), Pow10(d - 1) as real);
    }
  }

  lemma TenthTimesTen(h: real, q: real)
    ensures (h / 10.0) * (10.0 * q) == h * q
  {
  }

  lemma ScaledBound(a: real, h: real, p: real)
    requires p > 0.0 && a * p <= h * p
    ensures a <= h
  {
  }

  /** A value worth at least half a unit in the last kept place does not round to zero. */
  lemma ToFixedPositive(x: real, d: nat)
    requires x >= HalfUnit(d)
    ensures ToFixed(x, d) > 0.0
  {
    var p := Pow10(d) as real;
    HalfUnitScaled(d);
    ScaledMono(HalfUnit(d), x, p);
    RoundToPositive(x, p);
  }

  lemma ScaledMono(h: real, x: real, p: real)
    requires p > 0.0 && h <= x
    ensures h * p <= x * p
  {
  }

  lemma RoundToPositive(x: real, p: real)
    requires p > 0.0 && x * p >= 0.5
    ensures RoundTo(x, p) > 0.0
  {
    FactorPositive(x, p);
    assert Abs(x) == x;
    var a := Abs(x) * p + 0.5;
    assert a >= 1.0;
    var f := a.Floor as real;
    assert f >= 1.0;
    assert RoundTo(x, p) == f / p;
    PositiveDiv(f, p);
  }

  lemma FactorPositive(x: real, p: real)
    requires p > 0.0 && x * p > 0.0
    ensures x > 0.0
  {
  }

  lemma PositiveDiv(f: real, p: real)
    requires f > 0.0 && p > 0.0
    ensures f / p > 0.0
  {
  }

  lemma RoundToClose(x: real, p: real, h: real)
    requires p > 0.0 && h * p == 0.5
    ensures Abs(RoundTo(x, p) - x) <= h
    ensures x >= 0.0 ==> RoundTo(x, p) >= 0.0
    ensures x <= 0.0 ==> RoundTo(x, p) <= 0.0
  {
    RoundToScaledClose(x, p);
    ScaledBound(Abs(RoundTo(x, p) - x), h, p);
  }

  lemma RoundToScaledClose(x: real, p: real)
    requires p > 0.0
    ensures Abs(RoundTo(x, p) - x) * p <= 0.5
    ensures x >= 0.0 ==> RoundTo(x, p) >= 0.0
    ensures x <= 0.0 ==> RoundTo(x, p) <= 0.0
  {
    var a := Abs(x) * p + 0.5;
    var f := a.Floor as real;
    assert a - 1.0 < f <= a;
    var m := f / p;
    DivMul(f, p);
    assert (m - Abs(x)) * p == f - Abs(x) * p;
    assert -0.5 < (m - Abs(x)) * p <= 0.5;
    assert RoundMagnitude(x, p) == m;
    assert Abs(RoundTo(x, p) - x) == Abs(m - Abs(x));
    AbsMul(m - Abs(x), p);
    assert f >= 0.0;
    NonNegDiv(f, p);
  }

  lemma DivMul(f: real, p: real)
    requires p > 0.0
    ensures (f / p) * p == f
  {
  }

  lemma AbsMul(e: real, p: real)
    requires p > 0.0
    ensures Abs(e) * p == Abs(e * p)
  {
  }

  lemma NegDiv(f: real, p: real)
    requires p > 0.0
    ensures -((-f) / p) == f / p
  {
  }

  lemma NonNegDiv(f: real, p: real)
    requires f >= 0.0 && p > 0.0
    ensures f / p >= 0.0
  {
  }

  /** A value that already has at most `d` decimals is left alone. */
  lemma ToFixedExact(k: int, d: nat)
    ensures ToFixed(k as real / Pow10(d) as real, d) == k as real / Pow10(d) as real
  {
    RoundToExact(k, Pow10(d) as real);
  }

  /** `toFixed(d)` lands on a multiple of 10^-d, so rounding its result again changes nothing. */
  lemma ToFixedIdempotent(x: real, d: nat)
    ensures ToFixed(ToFixed(x, d), d) == ToFixed(x, d)
  {
    var p := Pow10(d) as real;
    var j := (Abs(x) * p + 0.5).Floor;
    var k := if x < 0.0 then -j else j;
    RoundMagnitudeOf(x, p, j);
    if x < 0.0 {
      NegDiv(k as real, p);
    }
    assert ToFixed(x, d) == k as real / p;
    ToFixedExact(k, d);
  }

  lemma RoundToExact(k: int, p: real)
    requires p > 0.0
    ensures RoundTo(k as real / p, p) == k as real / p
  {
    var x := k as real / p;
    var j := if k < 0 then -k else k;
    AbsDiv(k, p);
    assert Abs(x) == j as real / p;
    DivMul(j as real, p);
    FloorOfHalfUp(j);
    assert (Abs(x) * p + 0.5).Floor == j;
    RoundMagnitudeOf(x, p, j);
    SignDiv(k, p);
    if k < 0 {
      NegDiv(k as real, p);
      assert -(j as real / p) == k as real / p;
    }
  }

  lemma RoundMagnitudeOf(x: real, p: real, j: int)
    requires p > 0.0 && (Abs(x) * p + 0.5).Floor == j
    ensures RoundMagnitude(x, p) == j as real / p
  {
  }

  lemma SignDiv(k: int, p: real)
    requires p > 0.0
    ensures (k as real / p < 0.0) == (k < 0)
  {
    DivMul(k as real, p);
  }

  lemma FloorOfHalfUp(j: int)
    ensures (j as real + 0.5).Floor == j
  {
  }

  lemma AbsDiv(k: int, p: real)
    requires p > 0.0
    ensures Abs(k as real / p) == (if k < 0 then -k else k) as real / p
  {
    if k < 0 {
      NegDiv(k as real, p);
    }
  }

  // ---------------------------------------------------------------------------------------
  // Objects as insertion-ordered dictionaries
  // ---------------------------------------------------------------------------------------

  /** A plain JavaScript object: its entries in insertion order. */
  type Dict<V> = seq<(string, V)>

  ghost predicate UniqueKeys<V>(d: Dict<V>)
  {
    forall i, j :: 0 <= i < j < |d| ==> d[i].0 != d[j].0
  }

  function Keys<V>(d: Dict<V>): (ks: set<string>)
    ensures forall i :: 0 <= i < |d| ==> d[i].0 in ks
    ensures forall k :: k in ks ==> exists i :: 0 <= i < |d| && d[i].0 == k
  {
    if d == [] then {} else {d[0].0} + Keys(d[1..])
  }

  /** `obj[k]`: the value stored under `k`, `undefined` when there is none. */
  function Get<V>(d: Dict<V>, k: string): (r: Option<V>)
    ensures r.None? <==> k !in Keys(d)
    ensures r.Some? ==> exists i :: 0 <= i < |d| && d[i] == (k, r.value)
  {
    if d == [] then None
    else if d[0].0 == k then Some(d[0].1)
    else
      var r := Get(d[1..], k);
      assert r.Some? ==> exists i :: 0 <= i < |d| && d[i] == (k, r.value) by {
        if r.Some? {
          var i :| 0 <= i < |d[1..]| && d[1..][i] == (k, r.value);
          assert d[i + 1] == (k, r.value);
        }
      }
      r
  }

  /** With unique keys, the entry at any position is what its key looks up. */
  lemma {:induction false} GetAt<V>(d: Dict<V>, i: nat)
    requires UniqueKeys(d) && i < |d|
    ensures Get(d, d[i].0) == Some(d[i].1)
    decreases i
  {
    if i > 0 {
      assert d[0].0 != d[i].0;
      assert d[1..][i - 1] == d[i];
      GetAt(d[1..], i - 1);
    }
  }

  /** `obj[k] = v`: an existing key keeps its place, a new key goes last. */
  function Put<V>(d: Dict<V>, k: string, v: V): (r: Dict<V>)
  {
    if d == [] then [(k, v)]
    else if d[0].0 == k then [(k, v)] + d[1..]
    else [d[0]] + Put(d[1..], k, v)
  }

  /** Assigning a key the object does not have appends one entry at the end. */
  lemma {:induction false} PutNewKey<V>(d: Dict<V>, k: string, v: V)
    requires k !in Keys(d)
    ensures Put(d, k, v) == d + [(k, v)]
  {
    if d != [] {
      assert d[0].0 in Keys(d);
      PutNewKey(d[1..], k, v);
      assert d == [d[0]] + d[1..];
    }
  }

  lemma {:induction false} PutSpec<V>(d: Dict<V>, k: string, v: V)
    ensures Get(Put(d, k, v), k) == Some(v)
    ensures forall k' :: k' != k ==> Get(Put(d, k, v), k') == Get(d, k')
    ensures Keys(Put(d, k, v)) == Keys(d) + {k}
    ensures |Put(d, k, v)| == if k in Keys(d) then |d| else |d| + 1
  {
    if d != [] && d[0].0 != k {
      PutSpec(d[1..], k, v);
      assert Put(d, k, v)[1..] == Put(d[1..], k, v);
    } else if d != [] {
      assert Put(d, k, v)[1..] == d[1..];
    }
  }

  lemma {:induction false} PutKeepsUnique<V>(d: Dict<V>, k: string, v: V)
    requires UniqueKeys(d)
    ensures UniqueKeys(Put(d, k, v))
  {
    if d != [] && d[0].0 != k {
      PutKeepsUnique(d[1..], k, v);
      PutSpec(d[1..], k, v);
      var r := Put(d, k, v);
      assert r == [d[0]] + Put(d[1..], k, v);
      forall j | 0 < j < |r| ensures r[0].0 != r[j].0 {
        assert r[j].0 in Keys(Put(d[1..], k, v));
        assert d[0].0 !in Keys(d[1..]) by {
          forall i | 0 <= i < |d[1..]| ensures d[1..][i].0 != d[0].0 {
            assert d[1..][i] == d[i + 1];
          }
        }
      }
    }
  }

  /** An entry of `obj` after `obj[k] = v` is the new entry or was already there. */
  lemma {:induction false} PutMembers<V>(d: Dict<V>, k: string, v: V)
    ensures forall e :: e in Put(d, k, v) ==> e in d || e == (k, v)
  {
    if d != [] && d[0].0 != k {
      PutMembers(d[1..], k, v);
      assert Put(d, k, v) == [d[0]] + Put(d[1..], k, v);
      assert forall e :: e in d[1..] ==> e in d;
    } else if d != [] {
      assert forall e :: e in d[1..] ==> e in d;
    }
  }

  // ---------------------------------------------------------------------------------------
  // Operators and regular expressions
  // ---------------------------------------------------------------------------------------

  /** `a || b`: the first operand when it is truthy, the second otherwise. */
  function Or(a: Val, b: Val): Val
  {
    if Truthy(a) then a else b
  }

  predicate StartsWith(s: string, prefix: string)
  {
    |s| >= |prefix| && s[..|prefix|] == prefix
  }

  /** Length of the run of class characters at the start of `s`. */
  function RunLength(s: string, inClass: char -> bool): (n: nat)
    ensures n <= |s|
    ensures forall i :: 0 <= i < n ==> inClass(s[i])
    ensures n < |s| ==> !inClass(s[n])
  {
    if s != [] && inClass(s[0]) then 1 + RunLength(s[1..], inClass) else 0
  }

  /** The first capture of `s.match(/(C+)F/)`, for a character class `C` and a test `F` on
      the text after the run that fails on text starting with a class character. A greedy
      run can only give back class characters, which `F` rejects, so the leftmost match
      starts a maximal run: the capture is the first maximal run whose remainder passes `F`. */
  function FirstRunBefore(s: string, inClass: char -> bool, follows: string -> bool): (r: Option<string>)
    ensures r.Some? ==> |r.value| > 0 && forall i :: 0 <= i < |r.value| ==> inClass(r.value[i])
    decreases |s|
  {
    if s == [] then None
    else
      var n := RunLength(s, inClass);
      if n == 0 then FirstRunBefore(s[1..], inClass, follows)
      else if follows(s[n..]) then
        assert forall i :: 0 <= i < n ==> s[..n][i] == s[i];
        Some(s[..n])
      else FirstRunBefore(s[n..], inClass, follows)
  }

  /** A run followed by text the test accepts is what the match captures. */
  lemma FirstRunOf(run: string, rest: string, inClass: char -> bool, follows: string -> bool)
    requires |run| > 0 && forall i :: 0 <= i < |run| ==> inClass(run[i])
    requires rest == [] || !inClass(rest[0])
    requires follows(rest)
    ensures FirstRunBefore(run + rest, inClass, follows) == Some(run)
  {
    RunLengthOf(run, rest, inClass);
    assert (run + rest)[|run|..] == rest;
    assert (run + rest)[..|run|] == run;
  }

  lemma {:induction false} RunLengthOf(run: string, rest: string, inClass: char -> bool)
    requires forall i :: 0 <= i < |run| ==> inClass(run[i])
    requires rest == [] || !inClass(rest[0])
    ensures RunLength(run + rest, inClass) == |run|
    decreases |run|
  {
    if run != [] {
      assert (run + rest)[1..] == run[1..] + rest;
      RunLengthOf(run[1..], rest, inClass);
    } else {
      assert run + rest == rest;
    }
  }
}
