/**
 * Text helpers with the semantics of the JavaScript built-ins the services and the
 * web client rely on: `trim`/`trimEnd`, `toUpperCase`/`toLowerCase`, `startsWith`,
 * `endsWith`, `indexOf`, `split` on one character, `join`, `String(n)`,
 * `padStart(2, "0")` and the `<` / `<=` ordering of strings.
 */
module JsText {

  datatype Option<+T> = None | Some(value: T)

  /** JavaScript truthiness of an optional string: present and non-empty. */
  predicate Truthy(o: Option<string>) { o.Some? && o.value != [] }

  predicate IsDigit(c: char) { '0' <= c <= '9' }

  predicate AllDigits(s: string) { forall i :: 0 <= i < |s| ==> IsDigit(s[i]) }

  /** ECMAScript WhiteSpace and LineTerminator code points: what `trim` removes. */
  predicate IsJsSpace(c: char) {
    c == '\t' || c == '\n' || c == '\U{000B}' || c == '\U{000C}' || c == '\r' || c == ' '
    || c == '\U{00A0}' || c == '\U{1680}' || ('\U{2000}' <= c <= '\U{200A}')
    || c == '\U{2028}' || c == '\U{2029}' || c == '\U{202F}' || c == '\U{205F}'
    || c == '\U{3000}' || c == '\U{FEFF}'
  }

  /** `s.trimEnd()`: the longest prefix of `s` that does not end in white space. */
  function TrimEnd(s: string): (r: string)
    ensures r <= s
    ensures r == [] || !IsJsSpace(r[|r| - 1])
    ensures forall i :: |r| <= i < |s| ==> IsJsSpace(s[i])
  {
    if s == [] || !IsJsSpace(s[|s| - 1]) then s else TrimEnd(s[..|s| - 1])
  }

  /** Trailing white space after a text that does not end in white space is all that goes. */
  lemma {:induction false} TrimEndAfter(a: string, b: string)
    requires a != [] && !IsJsSpace(a[|a| - 1])
    ensures TrimEnd(a + b) == a + TrimEnd(b)
    decreases |b|
  {
    if b == [] {
      assert a + b == a;
    } else if IsJsSpace(b[|b| - 1]) {
      assert (a + b)[..|a + b| - 1] == a + b[..|b| - 1];
      TrimEndAfter(a, b[..|b| - 1]);
    }
  }

  /** `s.trimStart()`: the longest suffix of `s` that does not start with white space. */
  function TrimStart(s: string): (r: string)
    ensures |r| <= |s| && r == s[|s| - |r|..]
    ensures r == [] || !IsJsSpace(r[0])
    ensures forall i :: 0 <= i < |s| - |r| ==> IsJsSpace(s[i])
  {
    if s == [] || !IsJsSpace(s[0]) then s
    else
      var r := TrimStart(s[1..]);
      assert s[1..][|s| - 1 - |r|..] == s[|s| - |r|..];
      r
  }

  /** `s.trim()`. */
  function Trim(s: string): (r: string)
    ensures r == [] || (!IsJsSpace(r[0]) && !IsJsSpace(r[|r| - 1]))
    ensures r == [] <==> forall i :: 0 <= i < |s| ==> IsJsSpace(s[i])
  {
    TrimBothEnds(s);
    TrimStart(TrimEnd(s))
  }

  lemma TrimBothEnds(s: string)
    ensures var r := TrimStart(TrimEnd(s));
      (r == [] || (!IsJsSpace(r[0]) && !IsJsSpace(r[|r| - 1])))
      && (r == [] <==> forall i :: 0 <= i < |s| ==> IsJsSpace(s[i]))
  {
    var e := TrimEnd(s);
    var r := TrimStart(e);
    if r == [] {
      assert e == [];
    } else {
      assert r[|r| - 1] == e[|e| - 1];
      assert s[|e| - |r|] == r[0];
    }
  }

  /**
   * The upper-case form of one character as far as `toUpperCase` can turn it into
   * ASCII: the ASCII letters and the ten non-ASCII characters whose full upper-case
   * mapping is pure ASCII. Every other character is kept as is.
   */
  function UpperChar(c: char): (r: string)
    ensures 1 <= |r| <= 3
    ensures c < '\U{0080}' ==> |r| == 1 && ('a' <= c <= 'z' ==> r[0] == (c as int - 32) as char)
                                        && (!('a' <= c <= 'z') ==> r[0] == c)
  {
    if 'a' <= c <= 'z' then [(c as int - 32) as char]
    else if c == '\U{00DF}' then "SS"
    else if c == '\U{0131}' then "I"
    else if c == '\U{017F}' then "S"
    else if c == '\U{FB00}' then "FF"
    else if c == '\U{FB01}' then "FI"
    else if c == '\U{FB02}' then "FL"
    else if c == '\U{FB03}' then "FFI"
    else if c == '\U{FB04}' then "FFL"
    else if c == '\U{FB05}' || c == '\U{FB06}' then "ST"
    else [c]
  }

  /** `s.toUpperCase()`, exact whenever the result is compared with an ASCII string. */
  function Upper(s: string): (r: string)
    ensures |r| >= |s|
  {
    if s == [] then [] else UpperChar(s[0]) + Upper(s[1..])
  }

  /** ASCII text without lower-case letters is its own upper-case form. */
  lemma {:induction false} UpperOfUpperAscii(s: string)
    requires forall i :: 0 <= i < |s| ==> s[i] < '\U{0080}' && !('a' <= s[i] <= 'z')
    ensures Upper(s) == s
  {
    if s != [] {
      UpperOfUpperAscii(s[1..]);
      assert s == [s[0]] + s[1..];
    }
  }

  /** One character of `toLowerCase`: ASCII letters and the Kelvin sign become ASCII. */
  function LowerChar(c: char): (r: char)
    ensures 'A' <= c <= 'Z' ==> r == (c as int + 32) as char
    ensures !('A' <= c <= 'Z') && c != '\U{212A}' ==> r == c
  {
    if 'A' <= c <= 'Z' then (c as int + 32) as char
    else if c == '\U{212A}' then 'k'
    else c
  }

  /** `s.toLowerCase()`, exact whenever the result is compared with an ASCII string. */
  function Lower(s: string): (r: string)
    ensures |r| == |s|
    ensures forall i :: 0 <= i < |s| ==> r[i] == LowerChar(s[i])
  {
    if s == [] then [] else [LowerChar(s[0])] + Lower(s[1..])
  }

  predicate StartsWith(s: string, p: string) { p <= s }

  predicate EndsWith(s: string, p: string) { |p| <= |s| && s[|s| - |p|..] == p }

  /** `s.indexOf(c)`: the first position of `c`, or -1. */
  function IndexOf(s: string, c: char): (r: int)
    ensures r >= -1
    ensures r == -1 <==> c !in s
    ensures r >= 0 ==> r < |s| && s[r] == c && c !in s[..r]
  {
    if s == [] then -1
    else if s[0] == c then 0
    else
      var k := IndexOf(s[1..], c);
      if k == -1 then -1
      else
        assert s[..k + 1] == [s[0]] + s[1..][..k];
        k + 1
  }

  /** `parts.join(sep)`. */
  function Join(parts: seq<string>, sep: string): string
  {
    if parts == [] then ""
    else if |parts| == 1 then parts[0]
    else parts[0] + sep + Join(parts[1..], sep)
  }

  lemma IndexOfAt(s: string, c: char, k: nat)
    requires k < |s| && s[k] == c && c !in s[..k]
    ensures IndexOf(s, c) == k
  {
    var r := IndexOf(s, c);
    assert r != -1 by { assert c in s; }
    assert forall j :: 0 <= j < k ==> s[..k][j] == s[j];
    assert r >= k;
    assert forall j :: 0 <= j < r ==> s[..r][j] == s[j];
    assert r <= k;
  }

  lemma JoinCons(head: string, rest: seq<string>, sep: string)
    requires rest != []
    ensures Join([head] + rest, sep) == head + sep + Join(rest, sep)
  {
    assert ([head] + rest)[1..] == rest;
  }

  lemma SliceAround(s: string, k: nat)
    requires k < |s|
    ensures s[..k] + [s[k]] + s[k + 1..] == s
  {
  }

  /** `s.split(sep)` for a one-character separator. */
  function Split(s: string, sep: char): (r: seq<string>)
    ensures |r| >= 1
    ensures forall i :: 0 <= i < |r| ==> sep !in r[i]
    ensures Join(r, [sep]) == s
  {
    var k := IndexOf(s, sep);
    if k == -1 then [s]
    else
      var rest := Split(s[k + 1..], sep);
      JoinCons(s[..k], rest, [sep]);
      SliceAround(s, k);
      [s[..k]] + rest
  }

  /** Splitting at a first separator at `k`. */
  lemma SplitAt(s: string, sep: char, k: nat)
    requires k < |s| && s[k] == sep && sep !in s[..k]
    ensures Split(s, sep) == [s[..k]] + Split(s[k + 1..], sep)
  {
    IndexOfAt(s, sep, k);
  }

  /** A text without the separator splits into itself alone. */
  lemma SplitNone(s: string, sep: char)
    requires sep !in s
    ensures Split(s, sep) == [s]
  {
  }

  /** Splitting `a + [sep] + b` when `a` has no separator. */
  lemma SplitConcat(a: string, sep: char, b: string)
    requires sep !in a
    ensures Split(a + [sep] + b, sep) == [a] + Split(b, sep)
  {
    var s := a + [sep] + b;
    assert s[..|a|] == a && s[|a| + 1..] == b;
    SplitAt(s, sep, |a|);
  }

  /** The value of a string of decimal digits (most significant first). */
  function DigitsValue(s: string): nat
    requires AllDigits(s)
  {
    if s == [] then 0 else 10 * DigitsValue(s[..|s| - 1]) + (s[|s| - 1] as int - '0' as int)
  }

  function DigitChar(d: nat): (c: char)
    requires d < 10
    ensures IsDigit(c) && c as int - '0' as int == d
  {
    ('0' as int + d) as char
  }

  /** `String(n)` for a non-negative integer: decimal digits without leading zeros. */
  function NatToString(n: nat): (r: string)
    ensures |r| >= 1 && AllDigits(r)
    ensures DigitsValue(r) == n
    ensures r[0] == '0' <==> n == 0
  {
    if n < 10 then [DigitChar(n)]
    else
      var p := NatToString(n / 10);
      var r := p + [DigitChar(n % 10)];
      assert r[..|r| - 1] == p;
      r
  }

  /** `String(i)` for an integer. */
  function IntToString(i: int): (r: string)
    ensures i >= 0 ==> r == NatToString(i)
    ensures i < 0 ==> r == "-" + NatToString(-i)
  {
    if i < 0 then "-" + NatToString(-i) else NatToString(i)
  }

  /** `String(n).padStart(2, "0")`. */
  function Pad2(n: nat): (r: string)
    ensures n < 100 ==> |r| == 2 && AllDigits(r) && DigitsValue(r) == n
    ensures n >= 10 ==> r == NatToString(n)
  {
    if n < 10 then "0" + NatToString(n)
    else
      assert n < 100 ==> NatToString(n) == NatToString(n / 10) + [DigitChar(n % 10)];
      NatToString(n)
  }

  /** JavaScript's `a < b` on strings: lexicographic order of the characters. */
  predicate LexLess(a: string, b: string)
  {
    if b == [] then false
    else if a == [] then true
    else if a[0] != b[0] then a[0] < b[0]
    else LexLess(a[1..], b[1..])
  }

  /** JavaScript's `a <= b` on strings. */
  predicate LexLessEq(a: string, b: string) { a == b || LexLess(a, b) }

  /** `<` on strings is a strict total order: exactly one of a < b, a == b, b < a. */
  lemma {:induction false} LexTrichotomy(a: string, b: string)
    ensures LexLess(a, b) || a == b || LexLess(b, a)
    ensures !(LexLess(a, b) && LexLess(b, a))
    ensures !LexLess(a, a)
  {
    if a != [] && b != [] && a[0] == b[0] {
      LexTrichotomy(a[1..], b[1..]);
      if a[1..] == b[1..] { assert a == [a[0]] + a[1..] && b == [b[0]] + b[1..]; }
    }
    if a != [] { LexTrichotomy(a[1..], a[1..]); }
  }

  lemma {:induction false} LexTransitive(a: string, b: string, c: string)
    requires LexLess(a, b) && LexLess(b, c)
    ensures LexLess(a, c)
  {
    if a != [] && a[0] == b[0] && b[0] == c[0] {
      LexTransitive(a[1..], b[1..], c[1..]);
    }
  }

  /** Two strings of equal length that agree up to `i` and differ at `i` compare by that character. */
  lemma {:induction false} LexLessAt(a: string, b: string, i: nat)
    requires i < |a| && i < |b| && a[..i] == b[..i] && a[i] < b[i]
    ensures LexLess(a, b)
  {
    if i > 0 {
      assert a[0] == a[..i][0] == b[..i][0] == b[0];
      assert a[1..][..i - 1] == a[..i][1..] == b[..i][1..] == b[1..][..i - 1];
      LexLessAt(a[1..], b[1..], i - 1);
    }
  }

  /** A proper prefix is smaller. */
  lemma {:induction false} LexPrefix(a: string, b: string)
    requires a < b
    ensures LexLess(a, b)
  {
    if a != [] {
      assert a[1..] < b[1..];
      LexPrefix(a[1..], b[1..]);
    }
  }


  /** Decimal formatting and digit evaluation are inverse on canonical digit strings. */
  lemma {:induction false} NatToStringOfDigits(s: string)
    requires AllDigits(s) && |s| >= 1 && (s[0] != '0' || |s| == 1)
    ensures NatToString(DigitsValue(s)) == s
  {
    var n := DigitsValue(s);
    if |s| == 1 {
      assert s[..0] == [];
    } else {
      var p := s[..|s| - 1];
      assert p[0] == s[0];
      assert DigitsValue(p) >= 1 by { LeadingDigitPositive(p); }
      NatToStringOfDigits(p);
      assert n / 10 == DigitsValue(p) && n % 10 == s[|s| - 1] as int - '0' as int;
      assert s == p + [s[|s| - 1]];
    }
  }

  lemma {:induction false} LeadingDigitPositive(s: string)
    requires AllDigits(s) && |s| >= 1 && s[0] != '0'
    ensures DigitsValue(s) >= 1
  {
    if |s| > 1 {
      assert s[..|s| - 1][0] == s[0];
      LeadingDigitPositive(s[..|s| - 1]);
    }
  }

  function Pow10(k: nat): (r: nat)
    ensures r >= 1
  {
    if k == 0 then 1 else 10 * Pow10(k - 1)
  }

  /** A leading digit weighs `10^(number of digits after it)`. */
  lemma {:induction false} DigitsValueCons(c: char, s: string)
    requires IsDigit(c) && AllDigits(s)
    ensures AllDigits([c] + s)
    ensures DigitsValue([c] + s) == (c as int - '0' as int) * Pow10(|s|) + DigitsValue(s)
  {
    var cs := [c] + s;
    assert AllDigits(cs);
    if s != [] {
      var p := s[..|s| - 1];
      var d, l := c as int - '0' as int, s[|s| - 1] as int - '0' as int;
      assert cs[..|cs| - 1] == [c] + p;
      DigitsValueCons(c, p);
      assert Pow10(|s|) == 10 * Pow10(|p|);
      ShiftDigit(d, Pow10(|p|), DigitsValue(p), l);
    } else {
      assert cs[..0] == [];
    }
  }

  lemma ShiftDigit(d: int, p: int, v: int, l: int)
    ensures 10 * (d * p + v) + l == d * (10 * p) + (10 * v + l)
  {
  }

  lemma {:induction false} DigitsValueBound(s: string)
    requires AllDigits(s)
    ensures DigitsValue(s) < Pow10(|s|)
  {
    if s != [] { DigitsValueBound(s[..|s| - 1]); }
  }

  /** For digit strings of one length, numeric order is string order. */
  lemma {:induction false} DigitsLexOrder(a: string, b: string)
    requires AllDigits(a) && AllDigits(b) && |a| == |b|
    requires DigitsValue(a) < DigitsValue(b)
    ensures LexLess(a, b)
  {
    assert a != [];
    var n := |a| - 1;
    assert a == [a[0]] + a[1..] && b == [b[0]] + b[1..];
    DigitsValueCons(a[0], a[1..]);
    DigitsValueCons(b[0], b[1..]);
    DigitsValueBound(b[1..]);
    var da := a[0] as int - '0' as int;
    var db := b[0] as int - '0' as int;
    var p := Pow10(n);
    MulMonotone(db + 1, da, p);
    assert (db + 1) * p == db * p + p;
    assert da <= db;
    if da == db {
      DigitsLexOrder(a[1..], b[1..]);
    }
  }

  lemma MulMonotone(x: int, y: int, p: nat)
    ensures x <= y ==> x * p <= y * p
  {
  }

  /** A difference inside equal-length heads decides the order of the whole strings. */
  lemma {:induction false} LexLessAppend(a: string, b: string, u: string, v: string)
    requires |a| == |b| && LexLess(a, b)
    ensures LexLess(a + u, b + v)
  {
    assert (a + u)[0] == a[0] && (b + v)[0] == b[0];
    if a[0] == b[0] {
      assert (a + u)[1..] == a[1..] + u && (b + v)[1..] == b[1..] + v;
      LexLessAppend(a[1..], b[1..], u, v);
    }
  }

  /** A common head does not change the order. */
  lemma {:induction false} LexLessCommonPrefix(p: string, u: string, v: string)
    requires LexLess(u, v)
    ensures LexLess(p + u, p + v)
  {
    if p != [] {
      assert (p + u)[1..] == p[1..] + u && (p + v)[1..] == p[1..] + v;
      LexLessCommonPrefix(p[1..], u, v);
    } else {
      assert p + u == u && p + v == v;
    }
  }

  /** A slice of an all-digit slice is all digits. */
  lemma AllDigitsSlice(s: string, lo: nat, hi: nat, i: nat, j: nat)
    requires lo <= i <= j <= hi <= |s| && AllDigits(s[lo..hi])
    ensures AllDigits(s[i..j])
  {
    forall k | 0 <= k < j - i
      ensures IsDigit(s[i..j][k])
    {
      assert s[i..j][k] == s[lo..hi][k + i - lo];
    }
  }

  lemma AllDigitsConcat(a: string, b: string)
    requires AllDigits(a) && AllDigits(b)
    ensures AllDigits(a + b)
  {
    assert forall i :: 0 <= i < |a + b| ==> (a + b)[i] == if i < |a| then a[i] else b[i - |a|];
  }

  lemma NatToStringLength4(n: int)
    ensures 1000 <= n <= 9999 ==> |NatToString(n)| == 4
  {
    if 1000 <= n <= 9999 {
      var a := n / 10;
      var b := a / 10;
      assert 100 <= a <= 999 && 10 <= b <= 99 && 1 <= b / 10 <= 9;
      NatToStringSnoc(n);
      NatToStringSnoc(a);
      NatToStringSnoc(b);
    }
  }

  lemma NatToStringSnoc(n: nat)
    requires n >= 10
    ensures |NatToString(n)| == |NatToString(n / 10)| + 1
  {
  }

  /** Two digits read back through `padStart(2, "0")` give the same two digits. */
  lemma Pad2OfDigits(s: string)
    requires |s| == 2 && AllDigits(s)
    ensures Pad2(DigitsValue(s)) == s
  {
    assert s[..1] == [s[0]] && [s[0]][..0] == [];
    if s[0] != '0' {
      NatToStringOfDigits(s);
    } else {
      assert DigitsValue(s[..1]) == 0;
      assert DigitsValue(s) == s[1] as int - '0' as int;
      assert Pad2(DigitsValue(s)) == "0" + [DigitChar(DigitsValue(s))];
    }
  }
}
