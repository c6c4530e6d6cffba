/**
 * JavaScript numbers as the services use them: `Number(string)` conversion,
 * `Number.isFinite`, `Number.isInteger` and `parseInt(s, 16)`. Values are exact
 * reals; binary floating-point rounding is not modelled.
 */
module JsNumber {
  import opened JsText

  datatype JsNum = NaN | PosInf | NegInf | Finite(v: real)

  /** `Number.isFinite(n)`. */
  predicate IsFinite(n: JsNum) { n.Finite? }

  /** `Number.isInteger(n)`. */
  predicate IsInteger(n: JsNum) { n.Finite? && n.v == n.v.Floor as real }

  function Negate(n: JsNum): JsNum
  {
    match n
    case NaN => NaN
    case PosInf => NegInf
    case NegInf => PosInf
    case Finite(v) => Finite(-v)
  }

  /** The real `m * 10^e`. */
  function Scale(m: nat, e: int): real
  {
    if e >= 0 then (m * Pow10(e)) as real else m as real / Pow10(-e) as real
  }

  /** Length of the run of decimal digits at the start of `s`. */
  function DigitRun(s: string): (n: nat)
    ensures n <= |s| && AllDigits(s[..n])
    ensures n == |s| || !IsDigit(s[n])
  {
    if s == [] || !IsDigit(s[0]) then 0
    else
      var k := DigitRun(s[1..]);
      assert s[..k + 1] == [s[0]] + s[1..][..k];
      k + 1
  }

  /** The value of `c` as a digit in base `radix`, or -1. */
  function RadixDigit(c: char, radix: nat): (d: int)
    ensures -1 <= d < radix
  {
    var v :=
      if '0' <= c <= '9' then c as int - '0' as int
      else if 'a' <= c <= 'z' then c as int - 'a' as int + 10
      else if 'A' <= c <= 'Z' then c as int - 'A' as int + 10
      else -1;
    if 0 <= v < radix then v else -1
  }

  /** Length of the run of base-`radix` digits at the start of `s`. */
  function RadixRun(s: string, radix: nat): (n: nat)
    ensures n <= |s|
    ensures forall i :: 0 <= i < n ==> RadixDigit(s[i], radix) >= 0
    ensures n == |s| || RadixDigit(s[n], radix) == -1
  {
    if s == [] || RadixDigit(s[0], radix) == -1 then 0 else RadixRun(s[1..], radix) + 1
  }

  /** The value of a string of base-`radix` digits (most significant first). */
  function RadixValue(s: string, radix: nat): nat
    requires forall i :: 0 <= i < |s| ==> RadixDigit(s[i], radix) >= 0
  {
    if s == [] then 0
    else radix * RadixValue(s[..|s| - 1], radix) + RadixDigit(s[|s| - 1], radix)
  }

  /** `0x`/`0o`/`0b` literal bodies: all digits of the radix, at least one. */
  function NonDecimal(body: string, radix: nat): JsNum
  {
    if body != [] && RadixRun(body, radix) == |body| then Finite(RadixValue(body, radix) as real)
    else NaN
  }

  /** The exponent part `e[+-]digits` at the end of a decimal literal (empty means 0). */
  function Exponent(tail: string): Option<int>
  {
    if tail == [] then Some(0)
    else if tail[0] != 'e' && tail[0] != 'E' then None
    else
      var t := tail[1..];
      var neg := t != [] && t[0] == '-';
      var ds := if t != [] && (t[0] == '-' || t[0] == '+') then t[1..] else t;
      if ds == [] || !AllDigits(ds) then None
      else if neg then Some(-(DigitsValue(ds) as int)) else Some(DigitsValue(ds))
  }

  /** An unsigned decimal literal: `Infinity`, or digits, an optional fraction and exponent. */
  function UnsignedDecimal(t: string): JsNum
  {
    if t == "Infinity" then PosInf
    else
      var i := DigitRun(t);
      var rest := t[i..];
      var hasDot := rest != [] && rest[0] == '.';
      var afterDot := if hasDot then rest[1..] else rest;
      var f := if hasDot then DigitRun(afterDot) else 0;
      if i + f == 0 then NaN
      else
        match Exponent(afterDot[f..])
        case None => NaN
        case Some(e) => Finite(Scale(DigitsValue(t[..i] + afterDot[..f]), e - f))
  }

  /** The radix a `0x`, `0o` or `0b` prefix selects, or 10 when there is none. */
  function PrefixRadix(t: string): nat
  {
    if |t| < 2 || t[0] != '0' then 10
    else if t[1] == 'x' || t[1] == 'X' then 16
    else if t[1] == 'o' || t[1] == 'O' then 8
    else if t[1] == 'b' || t[1] == 'B' then 2
    else 10
  }

  /** `Number(s)` for a string `s`. */
  function StrToNumber(s: string): JsNum
  {
    var t := Trim(s);
    if t == [] then Finite(0.0)
    else if PrefixRadix(t) != 10 then NonDecimal(t[2..], PrefixRadix(t))
    else if t[0] == '-' then Negate(UnsignedDecimal(t[1..]))
    else UnsignedDecimal(if t[0] == '+' then t[1..] else t)
  }

  /** A non-empty string of decimal digits converts to its value. */
  lemma DigitsToNumber(s: string)
    requires s != [] && AllDigits(s)
    ensures StrToNumber(s) == Finite(DigitsValue(s) as real)
  {
    TrimUnspaced(s);
    DecimalLead(s);
    UnsignedDigits(s);
  }

  /** Digits carry no sign and no radix prefix. */
  lemma DecimalLead(s: string)
    requires s != [] && AllDigits(s)
    ensures PrefixRadix(s) == 10 && s[0] != '-' && s[0] != '+'
  {
    assert IsDigit(s[0]);
    if |s| >= 2 {
      assert IsDigit(s[1]);
    }
  }

  /** An unsigned literal of digits only, with no fraction and no exponent. */
  lemma UnsignedDigits(s: string)
    requires s != [] && AllDigits(s)
    ensures UnsignedDecimal(s) == Finite(DigitsValue(s) as real)
  {
    assert s != "Infinity" by { assert IsDigit(s[0]); }
    var i := DigitRun(s);
    assert i == |s|;
    assert s[i..] == [];
    assert Exponent([]) == Some(0);
    assert s[..i] + s[i..][..0] == s;
    assert Scale(DigitsValue(s), 0) == DigitsValue(s) as real;
  }

  lemma TrimUnspaced(s: string)
    requires s != [] && !IsJsSpace(s[0]) && !IsJsSpace(s[|s| - 1])
    ensures Trim(s) == s
  {
    assert TrimEnd(s) == s;
  }

  /**
   * `parseInt(s, 16)`: leading white space and one sign are skipped, then an optional
   * `0x`/`0X`, then the longest run of hexadecimal digits is read; no digit gives NaN (None).
   */
  function ParseIntHex(s: string): (r: Option<int>)
  {
    var t := TrimStart(s);
    var body := StripHexPrefix(SignBody(t));
    var n := RadixRun(body, 16);
    if n == 0 then None
    else
      var v := RadixValue(body[..n], 16);
      Some(if t != [] && t[0] == '-' then -(v as int) else v)
  }

  /** A character `parseInt(·, 16)` reads as a digit. */
  predicate IsHexDigit(c: char) { RadixDigit(c, 16) >= 0 }

  /** The value of two hexadecimal digits, the first one the more significant. */
  function PairValue(a: char, b: char): int
  {
    16 * RadixDigit(a, 16) + RadixDigit(b, 16)
  }

  /** Two hexadecimal digits parse to their value. */
  lemma HexPairValue(s: string)
    requires |s| == 2 && IsHexDigit(s[0]) && IsHexDigit(s[1])
    ensures ParseIntHex(s) == Some(PairValue(s[0], s[1]))
  {
    assert !IsJsSpace(s[0]);
    assert TrimStart(s) == s;
    assert SignBody(s) == s && StripHexPrefix(s) == s;
    assert RadixRun(s, 16) == 2;
    assert s[..2] == s && s[..1] == [s[0]] && [s[0]][..0] == [];
    assert RadixValue([s[0]], 16) == RadixDigit(s[0], 16);
    assert RadixValue(s, 16) == 16 * RadixValue([s[0]], 16) + RadixDigit(s[1], 16);
  }

  /** A string starting with a character that is no hex digit, space, or sign is NaN. */
  lemma HexNaN(s: string)
    requires s != [] && RadixDigit(s[0], 16) == -1 && !IsJsSpace(s[0]) && s[0] != '-' && s[0] != '+'
    ensures ParseIntHex(s) == None
  {
    assert TrimStart(s) == s;
    assert SignBody(s) == s;
  }

  function SignBody(t: string): string
  {
    if t != [] && (t[0] == '-' || t[0] == '+') then t[1..] else t
  }

  function StripHexPrefix(t: string): string
  {
    if |t| >= 2 && t[0] == '0' && (t[1] == 'x' || t[1] == 'X') then t[2..] else t
  }
}
