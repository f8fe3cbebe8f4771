/**
 * The parts of Python's string behaviour the program relies on: `str.find`,
 * slicing with a negative bound, `str(n)`, `int(text)` and `float(text)`.
 */
module Text {
  import opened Wrappers

  /** An ASCII decimal digit. */
  predicate IsDigit(c: char) { '0' <= c <= '9' }

  predicate IsLetter(c: char) { 'a' <= c <= 'z' || 'A' <= c <= 'Z' }

  predicate AllDigits(s: string) { forall i :: 0 <= i < |s| ==> IsDigit(s[i]) }

  function DigitChar(d: nat): (c: char)
    requires d < 10
    ensures IsDigit(c) && c as int - '0' as int == d
  {
    ('0' as int + d) as char
  }

  function DigitValue(c: char): nat
    requires IsDigit(c)
  {
    c as int - '0' as int
  }

  /** The number a run of decimal digits denotes. */
  function DigitsValue(s: string): nat
    requires AllDigits(s)
  {
    if s == [] then 0 else DigitsValue(s[..|s| - 1]) * 10 + DigitValue(s[|s| - 1])
  }

  /** `str(n)` for a non-negative integer: its decimal digits. */
  function NatToString(n: nat): (s: string)
    ensures |s| > 0 && AllDigits(s)
    ensures DigitsValue(s) == n
    decreases n
  {
    if n < 10 then [DigitChar(n)]
    else
      var s := NatToString(n / 10) + [DigitChar(n % 10)];
      assert s[..|s| - 1] == NatToString(n / 10);
      s
  }

  /** `str(i)` for any integer. */
  function IntToString(i: int): (s: string)
    ensures |s| > 0
  {
    if i < 0 then "-" + NatToString(-i) else NatToString(i)
  }

  /** Different numbers print differently, so numbered names never collide. */
  lemma NatToStringInjective(a: nat, b: nat)
    requires NatToString(a) == NatToString(b)
    ensures a == b
  {
    assert a == DigitsValue(NatToString(a));
  }

  predicate OccursAt(s: string, sub: string, k: int) {
    0 <= k && k + |sub| <= |s| && s[k..k + |sub|] == sub
  }

  /** `s.find(sub)`: the first index at which `sub` occurs in `s`, or -1. */
  function Find(s: string, sub: string): (r: int)
    ensures -1 <= r <= |s|
    ensures r == -1 <==> forall k :: 0 <= k <= |s| ==> !OccursAt(s, sub, k)
    ensures r != -1 ==> OccursAt(s, sub, r) && forall k :: 0 <= k < r ==> !OccursAt(s, sub, k)
  {
    FindFrom(s, sub, 0)
  }

  function FindFrom(s: string, sub: string, start: nat): (r: int)
    requires start <= |s| + 1
    ensures r == -1 || start <= r <= |s|
    ensures r == -1 <==> forall k :: start <= k <= |s| ==> !OccursAt(s, sub, k)
    ensures r != -1 ==> OccursAt(s, sub, r) && forall k :: start <= k < r ==> !OccursAt(s, sub, k)
    decreases |s| + 1 - start
  {
    if start > |s| then -1
    else if OccursAt(s, sub, start) then start
    else FindFrom(s, sub, start + 1)
  }

  /** `sub in s`, written in the program as `s.find(sub) != -1`. */
  predicate Contains(s: string, sub: string) { Find(s, sub) != -1 }

  /** `s[:k]`, where a negative `k` counts from the end of `s`. */
  function SliceTo(s: string, k: int): (r: string)
    ensures |r| <= |s| && r == s[..|r|]
    ensures 0 <= k <= |s| ==> |r| == k
    ensures k > |s| ==> r == s
    ensures -|s| <= k < 0 ==> |r| == |s| + k
    ensures k < -|s| ==> r == []
  {
    if k >= 0 then s[..if k <= |s| then k else |s|]
    else s[..if -k <= |s| then |s| + k else 0]
  }

  /** `s[k:]` for a non-negative `k`. */
  function SliceFrom(s: string, k: nat): (r: string)
    ensures k <= |s| ==> s == s[..k] + r
    ensures k > |s| ==> r == []
  {
    s[if k <= |s| then k else |s|..]
  }

  /** The characters Python's `str.isspace` accepts, which `str.strip`, `int()` and `float()` remove. */
  predicate IsSpace(c: char) {
    var n := c as int;
    || n == 0x20 || 0x09 <= n <= 0x0D || 0x1C <= n <= 0x1F || n == 0x85 || n == 0xA0 || n == 0x1680
    || 0x2000 <= n <= 0x200A || n == 0x2028 || n == 0x2029 || n == 0x202F || n == 0x205F || n == 0x3000
  }

  function StripLeft(s: string): (r: string)
    ensures r == [] || !IsSpace(r[0])
    ensures |r| <= |s| && r == s[|s| - |r|..]
  {
    if |s| > 0 && IsSpace(s[0]) then StripLeft(s[1..]) else s
  }

  function StripRight(s: string): (r: string)
    ensures r == [] || !IsSpace(r[|r| - 1])
    ensures |r| <= |s| && r == s[..|r|]
  {
    if |s| > 0 && IsSpace(s[|s| - 1]) then StripRight(s[..|s| - 1]) else s
  }

  /** `s.strip()` with no argument: leading and trailing whitespace removed. */
  function Strip(s: string): string {
    StripRight(StripLeft(s))
  }

  /**
   * Python's digit-part grammar for numbers: one or more digits, with
   * single underscores allowed between two digits.
   */
  predicate DigitPart(s: string)
    decreases |s|
  {
    && |s| > 0
    && IsDigit(s[0])
    && (|s| == 1 || DigitPart(s[1..]) || (s[1] == '_' && DigitPart(s[2..])))
  }

  /** The digits of `s`, underscores dropped. */
  function Digits(s: string): (r: string)
    ensures AllDigits(r)
  {
    if s == [] then []
    else Digits(s[..|s| - 1]) + (if IsDigit(s[|s| - 1]) then [s[|s| - 1]] else [])
  }

  /** The number a digit part denotes. */
  function GroupValue(s: string): nat {
    DigitsValue(Digits(s))
  }

  /** An optional leading sign: whether it is a minus, and the rest of the text. */
  function SplitSign(s: string): (bool, string) {
    if |s| > 0 && s[0] == '-' then (true, s[1..])
    else if |s| > 0 && s[0] == '+' then (false, s[1..])
    else (false, s)
  }

  /** `v` with the sign a leading minus gives it. */
  function Signed(minus: bool, v: nat): int {
    if minus then -(v as int) else v
  }

  /** An optional sign followed by a digit part, as `int` reads its stripped text. */
  function ParseSigned(s: string): Option<int> {
    var (minus, body) := SplitSign(s);
    if DigitPart(body) then Some(Signed(minus, GroupValue(body))) else None
  }

  /**
   * `int(text)`: surrounding whitespace, an optional sign and a decimal
   * digit part; anything else raises ValueError, modelled as None.
   */
  function ParseInt(t: string): Option<int> {
    ParseSigned(Strip(t))
  }

  function Pow10(n: nat): (p: nat)
    ensures p >= 1
  {
    if n == 0 then 1 else 10 * Pow10(n - 1)
  }

  /** `m` times ten to the power `e`. */
  function Scale(m: real, e: int): real {
    if e >= 0 then m * Pow10(e) as real else m / Pow10(-e) as real
  }

  /** The index of the first exponent mark `e` or `E` at or after `start`, or -1. */
  function ExponentMark(s: string, start: nat): (r: int)
    requires start <= |s|
    ensures r == -1 || start <= r < |s|
    ensures r == -1 ==> forall k :: start <= k < |s| ==> s[k] != 'e' && s[k] != 'E'
    decreases |s| - start
  {
    if start == |s| then -1
    else if s[start] == 'e' || s[start] == 'E' then start
    else ExponentMark(s, start + 1)
  }

  /** A decimal mantissa: digits, digits with a point, or a point followed by digits. */
  function ParseMantissa(m: string): Option<real> {
    var d := Find(m, ".");
    if d == -1 then
      if DigitPart(m) then Some(GroupValue(m) as real) else None
    else
      var ip, fp := m[..d], m[d + 1..];
      if (ip == [] || DigitPart(ip)) && (fp == [] || DigitPart(fp)) && (ip != [] || fp != []) then
        Some(GroupValue(ip) as real + GroupValue(fp) as real / Pow10(|Digits(fp)|) as real)
      else None
  }

  /**
   * `float(text)` for finite decimal text: whitespace, sign, mantissa and an
   * optional exponent. Anything else raises ValueError, modelled as None.
   */
  function ParseFloat(t: string): Option<real> {
    ParseSignedReal(Strip(t))
  }

  /** An optional sign followed by an unsigned decimal number. */
  function ParseSignedReal(s: string): Option<real> {
    var (minus, body) := SplitSign(s);
    match ParseUnsigned(body)
    case Some(v) => Some(if minus then -v else v)
    case None => None
  }

  /** An unsigned mantissa followed by an optional exponent. */
  function ParseUnsigned(body: string): Option<real> {
    var e := ExponentMark(body, 0);
    var mantissa := if e == -1 then body else body[..e];
    var exponent := if e == -1 then Some(0) else ParseSigned(body[e + 1..]);
    match (ParseMantissa(mantissa), exponent)
    case (Some(m), Some(x)) => Some(Scale(m, x))
    case _ => None
  }

  lemma {:induction false} DigitsOfAllDigits(s: string)
    requires AllDigits(s)
    ensures Digits(s) == s
  {
    if s != [] {
      DigitsOfAllDigits(s[..|s| - 1]);
      assert s == s[..|s| - 1] + [s[|s| - 1]];
    }
  }

  lemma {:induction false} DigitPartOfDigits(s: string)
    requires |s| > 0 && AllDigits(s)
    ensures DigitPart(s)
    decreases |s|
  {
    if |s| > 1 {
      DigitPartOfDigits(s[1..]);
    }
  }

  /** Text that neither starts nor ends with whitespace is left alone by `strip`. */
  lemma StripOfUnspaced(s: string)
    requires s == [] || (!IsSpace(s[0]) && !IsSpace(s[|s| - 1]))
    ensures Strip(s) == s
  {
    assert StripLeft(s) == s;
  }

  /** A run of digits is left alone by `strip`. */
  lemma DigitStrip(d: string)
    requires |d| > 0 && AllDigits(d)
    ensures Strip(d) == d
  {
    assert IsDigit(d[0]) && IsDigit(d[|d| - 1]);
    StripOfUnspaced(d);
  }

  /** A run of digits is a digit part denoting its value. */
  lemma DigitGroup(d: string)
    requires |d| > 0 && AllDigits(d)
    ensures DigitPart(d) && GroupValue(d) == DigitsValue(d)
  {
    DigitPartOfDigits(d);
    DigitsOfAllDigits(d);
  }

  /** A minus sign followed by digits is left alone by `strip`. */
  lemma NegativeStrip(s: string)
    requires |s| > 1 && s[0] == '-' && AllDigits(s[1..])
    ensures Strip(s) == s
  {
    assert s[|s| - 1] == s[1..][|s| - 2];
    StripOfUnspaced(s);
  }

  lemma SignedOfDigits(d: string)
    requires |d| > 0 && AllDigits(d)
    ensures ParseSigned(d) == Some(DigitsValue(d))
  {
    assert SplitSign(d) == (false, d);
    DigitGroup(d);
  }

  lemma SignedOfNegativeDigits(s: string)
    requires |s| > 1 && s[0] == '-' && AllDigits(s[1..])
    ensures ParseSigned(s) == Some(-(DigitsValue(s[1..]) as int))
  {
    assert SplitSign(s) == (true, s[1..]);
    DigitGroup(s[1..]);
  }

  lemma ParseIntOfDigits(d: string)
    requires |d| > 0 && AllDigits(d)
    ensures ParseInt(d) == Some(DigitsValue(d))
  {
    DigitStrip(d);
    SignedOfDigits(d);
  }

  lemma ParseIntOfNegativeDigits(s: string)
    requires |s| > 1 && s[0] == '-' && AllDigits(s[1..])
    ensures ParseInt(s) == Some(-(DigitsValue(s[1..]) as int))
  {
    NegativeStrip(s);
    SignedOfNegativeDigits(s);
  }

  lemma {:induction false} NoExponentMark(d: string, start: nat)
    requires AllDigits(d) && start <= |d|
    ensures ExponentMark(d, start) == -1
    decreases |d| - start
  {
    if start < |d| {
      assert IsDigit(d[start]);
      NoExponentMark(d, start + 1);
    }
  }

  lemma NoPoint(d: string)
    requires AllDigits(d)
    ensures Find(d, ".") == -1
  {
    forall k | 0 <= k <= |d| ensures !OccursAt(d, ".", k) {
      if k < |d| {
        assert d[k..k + 1][0] == d[k] != '.';
      }
    }
  }

  lemma ParseMantissaOfDigits(d: string)
    requires |d| > 0 && AllDigits(d)
    ensures ParseMantissa(d) == Some(DigitsValue(d) as real)
  {
    NoPoint(d);
    DigitPartOfDigits(d);
    DigitsOfAllDigits(d);
  }

  lemma UnsignedOfDigits(d: string)
    requires |d| > 0 && AllDigits(d)
    ensures ParseUnsigned(d) == Some(DigitsValue(d) as real)
  {
    assert Pow10(0) == 1;
    assert Scale(DigitsValue(d) as real, 0) == DigitsValue(d) as real;
    NoExponentMark(d, 0);
    ParseMantissaOfDigits(d);
  }

  lemma SignedRealOfDigits(d: string)
    requires |d| > 0 && AllDigits(d)
    ensures ParseSignedReal(d) == Some(DigitsValue(d) as real)
  {
    assert SplitSign(d) == (false, d);
    UnsignedOfDigits(d);
  }

  lemma SignedRealOfNegativeDigits(s: string)
    requires |s| > 1 && s[0] == '-' && AllDigits(s[1..])
    ensures ParseSignedReal(s) == Some(-(DigitsValue(s[1..]) as real))
  {
    assert SplitSign(s) == (true, s[1..]);
    UnsignedOfDigits(s[1..]);
  }

  lemma ParseFloatOfDigits(d: string)
    requires |d| > 0 && AllDigits(d)
    ensures ParseFloat(d) == Some(DigitsValue(d) as real)
  {
    DigitStrip(d);
    SignedRealOfDigits(d);
  }

  lemma ParseFloatOfNegativeDigits(s: string)
    requires |s| > 1 && s[0] == '-' && AllDigits(s[1..])
    ensures ParseFloat(s) == Some(-(DigitsValue(s[1..]) as real))
  {
    NegativeStrip(s);
    SignedRealOfNegativeDigits(s);
  }

  /** `int(str(i)) == i`. */
  lemma ParseIntOfIntToString(i: int)
    ensures ParseInt(IntToString(i)) == Some(i)
  {
    if i < 0 {
      var s := IntToString(i);
      assert s[1..] == NatToString(-i);
      ParseIntOfNegativeDigits(s);
    } else {
      var d := NatToString(i);
      assert IntToString(i) == d;
      ParseIntOfDigits(d);
    }
  }

  /** `float(str(i)) == i`: an integer typed into an entry parses to itself. */
  lemma ParseFloatOfIntToString(i: int)
    ensures ParseFloat(IntToString(i)) == Some(i as real)
  {
    if i < 0 {
      var s := IntToString(i);
      assert s[1..] == NatToString(-i);
      ParseFloatOfNegativeDigits(s);
    } else {
      var d := NatToString(i);
      assert IntToString(i) == d;
      ParseFloatOfDigits(d);
    }
  }

  /**
   * When `u` does not contain `c`, the first `c` in `u + [c] + t` is the one
   * right after `u`, whatever `t` holds.
   */
  lemma FindAfterFree(u: string, c: char, t: string)
    requires c !in u
    ensures Find(u + [c] + t, [c]) == |u|
  {
    var s := u + [c] + t;
    assert OccursAt(s, [c], |u|) by {
      assert s[|u|..|u| + 1] == [c];
    }
    forall k | 0 <= k < |u| ensures !OccursAt(s, [c], k) {
      assert s[k..k + 1][0] == s[k] == u[k];
    }
  }

  /** An empty entry is not a number. */
  lemma ParseFloatOfEmpty()
    ensures ParseFloat("") == None
  {
    assert Strip("") == "";
    assert ParseSignedReal("") == None by {
      assert ExponentMark("", 0) == -1;
      assert Find("", ".") == -1;
      assert ParseUnsigned("") == None;
    }
  }
}
