/**
  String operations the screens rely on, with the JavaScript semantics they
  inherit: `toLowerCase` (ASCII letters), `includes`, `trim`, the decimal
  `toString` of an integer and the `Number(...)` coercion of a string.
*/
module Text {
  import opened Wrappers

  // ---------------------------------------------------------------- case

  predicate IsUpper(c: char) { 'A' <= c <= 'Z' }
  predicate IsLower(c: char) { 'a' <= c <= 'z' }

  function LowerChar(c: char): char {
    if IsUpper(c) then (c as int + 32) as char else c
  }

  function UpperChar(c: char): char {
    if IsLower(c) then (c as int - 32) as char else c
  }

  /** `s.toLowerCase()`, restricted to ASCII letters. */
  function ToLower(s: string): (r: string)
    ensures |r| == |s|
    ensures forall i :: 0 <= i < |s| ==> r[i] == LowerChar(s[i])
    ensures forall i :: 0 <= i < |r| ==> !IsUpper(r[i])
  {
    if s == [] then [] else [LowerChar(s[0])] + ToLower(s[1..])
  }

  /** `s.toUpperCase()`, restricted to ASCII letters; used to state case-insensitivity. */
  function ToUpper(s: string): (r: string)
    ensures |r| == |s|
    ensures forall i :: 0 <= i < |s| ==> r[i] == UpperChar(s[i])
    ensures forall i :: 0 <= i < |r| ==> !IsLower(r[i])
  {
    if s == [] then [] else [UpperChar(s[0])] + ToUpper(s[1..])
  }

  /** Lower-casing forgets the casing: upper-casing first changes nothing. */
  lemma ToLowerIgnoresCasing(s: string)
    ensures ToLower(ToUpper(s)) == ToLower(s)
    ensures ToLower(ToLower(s)) == ToLower(s)
  {
    assert forall i :: 0 <= i < |s| ==> ToLower(ToUpper(s))[i] == ToLower(s)[i];
    assert forall i :: 0 <= i < |s| ==> ToLower(ToLower(s))[i] == ToLower(s)[i];
  }

  /** `a` and `b` are the same text up to the casing of each letter. */
  predicate SameIgnoringCase(a: string, b: string) {
    |a| == |b| && forall i :: 0 <= i < |a| ==> LowerChar(a[i]) == LowerChar(b[i])
  }

  /** Two texts agree up to casing exactly when their lower-case forms are equal. */
  lemma SameIgnoringCaseIffSameLower(a: string, b: string)
    ensures SameIgnoringCase(a, b) <==> ToLower(a) == ToLower(b)
  {
    if ToLower(a) == ToLower(b) {
      assert forall i :: 0 <= i < |a| ==> LowerChar(a[i]) == ToLower(a)[i];
    }
  }

  // ---------------------------------------------------------------- substring

  /** `s.includes(needle)`: `needle` occurs in `s` at some offset. */
  predicate Contains(s: string, needle: string)
    decreases |s|
  {
    needle <= s || (s != [] && Contains(s[1..], needle))
  }

  /** `needle` occurs in `s` starting at offset `k`. */
  predicate OccursAt(s: string, needle: string, k: int) {
    0 <= k && k + |needle| <= |s| && s[k..k + |needle|] == needle
  }

  /** Reference definition of `includes` by an explicit offset, both directions. */
  lemma {:induction false} ContainsIffOffset(s: string, needle: string)
    ensures Contains(s, needle) <==> exists k :: OccursAt(s, needle, k)
    decreases |s|
  {
    if needle <= s {
      assert s[0..|needle|] == needle;
      assert OccursAt(s, needle, 0);
    } else if s == [] {
    } else {
      ContainsIffOffset(s[1..], needle);
      if Contains(s, needle) {
        var k :| OccursAt(s[1..], needle, k);
        assert s[k + 1..k + 1 + |needle|] == s[1..][k..k + |needle|];
        assert OccursAt(s, needle, k + 1);
      } else {
        forall k | 0 <= k && k + |needle| <= |s| ensures !OccursAt(s, needle, k) {
          if k == 0 {
            assert s[0..|needle|] == s[..|needle|];
          } else {
            assert s[k..k + |needle|] == s[1..][k - 1..k - 1 + |needle|];
            assert !OccursAt(s[1..], needle, k - 1);
          }
        }
      }
    }
  }

  /** The empty string is contained in every string. */
  lemma ContainsEmpty(s: string)
    ensures Contains(s, "")
  {
  }

  // ---------------------------------------------------------------- trim

  /** The characters `String.prototype.trim` removes (white space and line terminators). */
  predicate IsSpace(c: char) {
    c == ' ' || c == '\t' || c == '\n' || c == '\r' || c == '\U{000B}' || c == '\U{000C}'
    || c == '\U{00A0}' || c == '\U{1680}' || ('\U{2000}' <= c <= '\U{200A}')
    || c == '\U{2028}' || c == '\U{2029}' || c == '\U{202F}' || c == '\U{205F}'
    || c == '\U{3000}' || c == '\U{FEFF}'
  }

  predicate IsBlank(s: string) {
    forall i :: 0 <= i < |s| ==> IsSpace(s[i])
  }

  /** `s` without its leading white space: what is dropped is blank, what is kept starts solid. */
  function TrimStart(s: string): (r: string)
    ensures |r| <= |s| && r == s[|s| - |r|..]
    ensures IsBlank(s[..|s| - |r|])
    ensures r == [] || !IsSpace(r[0])
  {
    if s != [] && IsSpace(s[0]) then
      var r := TrimStart(s[1..]);
      assert s[..|s| - |r|] == [s[0]] + s[1..][..|s| - 1 - |r|];
      r
    else s
  }

  /** `s` without its trailing white space: what is dropped is blank, what is kept ends solid. */
  function TrimEnd(s: string): (r: string)
    ensures |r| <= |s| && r == s[..|r|]
    ensures IsBlank(s[|r|..])
    ensures r == [] || !IsSpace(r[|r| - 1])
  {
    if s != [] && IsSpace(s[|s| - 1]) then
      var r := TrimEnd(s[..|s| - 1]);
      assert forall i :: |r| <= i < |s| - 1 ==> s[i] == s[..|s| - 1][|r|..][i - |r|];
      r
    else s
  }

  /** `r` is the part `s[a..b]` of `s`, and everything around it is white space. */
  ghost predicate TrimmedAt(s: string, r: string, a: int, b: int) {
    0 <= a <= b <= |s| && r == s[a..b] && IsBlank(s[..a]) && IsBlank(s[b..])
  }

  /** `s.trim()`: `s` without its leading and trailing white space. */
  function Trim(s: string): (r: string)
    ensures |r| <= |s|
    ensures exists a, b :: TrimmedAt(s, r, a, b)
    ensures r == [] || (!IsSpace(r[0]) && !IsSpace(r[|r| - 1]))
  {
    var t := TrimStart(s);
    var r := TrimEnd(t);
    var a := |s| - |t|;
    assert r == s[a..a + |r|] by {
      assert t == s[a..];
      assert r == t[..|r|];
    }
    assert IsBlank(s[a + |r|..]) by {
      assert s[a + |r|..] == t[|r|..];
    }
    assert IsBlank(s[..a]);
    assert TrimmedAt(s, r, a, a + |r|);
    r
  }

  lemma {:induction false} TrimStartEmptyIffBlank(s: string)
    ensures TrimStart(s) == [] <==> IsBlank(s)
  {
    if s != [] {
      TrimStartEmptyIffBlank(s[1..]);
      if IsSpace(s[0]) {
        assert IsBlank(s) <==> IsBlank(s[1..]) by {
          assert forall i :: 0 < i < |s| ==> s[i] == s[1..][i - 1];
        }
      }
    }
  }

  lemma {:induction false} TrimEndKeepsSolidHead(t: string)
    requires t != [] && !IsSpace(t[0])
    ensures TrimEnd(t) != []
  {
    if |t| > 1 && IsSpace(t[|t| - 1]) {
      TrimEndKeepsSolidHead(t[..|t| - 1]);
    }
  }

  /** A string trims to `''` exactly when it consists of white space only. */
  lemma TrimEmptyIffBlank(s: string)
    ensures Trim(s) == "" <==> IsBlank(s)
  {
    TrimStartEmptyIffBlank(s);
    var t := TrimStart(s);
    if t != [] {
      TrimEndKeepsSolidHead(t);
    }
  }

  // ---------------------------------------------------------------- integers

  predicate IsDigit(c: char) { '0' <= c <= '9' }

  predicate AllDigits(s: string) {
    forall i :: 0 <= i < |s| ==> IsDigit(s[i])
  }

  function DigitChar(d: nat): (c: char)
    requires d < 10
    ensures IsDigit(c)
  {
    ('0' as int + d) as char
  }

  function DigitValue(c: char): (d: nat)
    requires IsDigit(c)
    ensures d < 10 && DigitChar(d) == c
  {
    c as int - '0' as int
  }

  /** Decimal digits of a natural number, most significant first, no leading zero. */
  function NatDigits(n: nat): (r: string)
    ensures |r| > 0 && AllDigits(r)
    ensures |r| > 1 ==> r[0] != '0'
    ensures r[0] == '0' <==> n == 0
    decreases n
  {
    if n < 10 then [DigitChar(n)] else NatDigits(n / 10) + [DigitChar(n % 10)]
  }

  /** The value of a string of decimal digits. */
  function DigitsValue(s: string): nat
    requires AllDigits(s)
  {
    if s == [] then 0 else DigitsValue(s[..|s| - 1]) * 10 + DigitValue(s[|s| - 1])
  }

  /**
    The form `toString` gives an integer: an optional `-`, then one or more
    digits without a leading zero; zero is `0`, never `-0`.
  */
  predicate IsCanonicalDecimal(s: string) {
    var d := if |s| > 0 && s[0] == '-' then s[1..] else s;
    |d| > 0 && AllDigits(d) && (d[0] == '0' ==> s == "0")
  }

  /** `n.toString()` for an integer `n`. */
  function DecimalString(n: int): (r: string)
    ensures |r| > 0
    ensures forall i :: 0 <= i < |r| ==> IsDigit(r[i]) || (i == 0 && r[i] == '-')
    ensures r[0] == '-' <==> n < 0
    ensures IsCanonicalDecimal(r)
  {
    if n < 0 then "-" + NatDigits(-n) else NatDigits(n)
  }

  /** Reads an optionally negative decimal integer; `None` for anything else. */
  function ParseDecimal(s: string): Option<int> {
    if |s| > 0 && s[0] == '-' then
      if |s| > 1 && AllDigits(s[1..]) then Some(-(DigitsValue(s[1..]) as int)) else None
    else if |s| > 0 && AllDigits(s) then Some(DigitsValue(s))
    else None
  }

  lemma {:induction false} NatDigitsRoundTrip(n: nat)
    ensures DigitsValue(NatDigits(n)) == n
    decreases n
  {
    if n >= 10 {
      var s := NatDigits(n);
      assert s[..|s| - 1] == NatDigits(n / 10);
      NatDigitsRoundTrip(n / 10);
    }
  }

  /** Reading back the decimal form of an integer gives the integer. */
  lemma DecimalRoundTrip(n: int)
    ensures ParseDecimal(DecimalString(n)) == Some(n)
  {
    if n < 0 {
      assert DecimalString(n)[1..] == NatDigits(-n);
      NatDigitsRoundTrip(-n);
    } else {
      NatDigitsRoundTrip(n);
    }
  }

  lemma {:induction false} DigitsValuePositive(d: string)
    requires |d| > 0 && AllDigits(d) && d[0] != '0'
    ensures DigitsValue(d) > 0
    decreases |d|
  {
    if |d| > 1 {
      DigitsValuePositive(d[..|d| - 1]);
    } else {
      assert DigitsValue(d) == DigitsValue([]) * 10 + DigitValue(d[0]);
    }
  }

  /** A digit string without a leading zero is the decimal form of its value. */
  lemma {:induction false} DigitsNatRoundTrip(d: string)
    requires |d| > 0 && AllDigits(d) && (d[0] == '0' ==> d == "0")
    ensures NatDigits(DigitsValue(d)) == d
    decreases |d|
  {
    var c := DigitValue(d[|d| - 1]);
    if |d| == 1 {
      assert DigitsValue(d) == c;
    } else {
      var h := d[..|d| - 1];
      DigitsValuePositive(h);
      DigitsNatRoundTrip(h);
      var n := DigitsValue(h) * 10 + c;
      assert n / 10 == DigitsValue(h) && n % 10 == c;
      assert d == h + [d[|d| - 1]];
    }
  }

  /** Every string in the form `toString` gives reads back to the integer it was made from. */
  lemma CanonicalDecimalRoundTrip(s: string)
    requires IsCanonicalDecimal(s)
    ensures ParseDecimal(s).Some? && DecimalString(ParseDecimal(s).value) == s
  {
    if s[0] == '-' {
      DigitsNatRoundTrip(s[1..]);
      DigitsValuePositive(s[1..]);
      assert s == "-" + s[1..];
    } else {
      DigitsNatRoundTrip(s);
    }
  }

  /** Distinct integers have distinct decimal forms. */
  lemma DecimalStringInjective(a: int, b: int)
    requires DecimalString(a) == DecimalString(b)
    ensures a == b
  {
    DecimalRoundTrip(a);
    DecimalRoundTrip(b);
  }

  /** The result of JavaScript's `Number(...)` on a string, restricted to integers. */
  datatype Num = Int(value: int) | NaN

  /**
    `Number(s)`: surrounding white space is ignored, a blank string is `0`,
    an optionally negative decimal integer is its value, anything else `NaN`.
  */
  function NumberOf(s: string): (r: Num)
    ensures IsBlank(s) ==> r == Int(0)
    ensures r.Int? && !IsBlank(s) ==> ParseDecimal(Trim(s)) == Some(r.value)
    ensures !IsBlank(s) ==> (r.NaN? <==> ParseDecimal(Trim(s)).None?)
  {
    TrimEmptyIffBlank(s);
    var t := Trim(s);
    if t == "" then Int(0)
    else match ParseDecimal(t)
      case Some(n) => Int(n)
      case None => NaN
  }

  /** `Number(n.toString()) === n`. */
  lemma NumberOfDecimal(n: int)
    ensures NumberOf(DecimalString(n)) == Int(n)
  {
    var s := DecimalString(n);
    assert TrimStart(s) == s by { assert !IsSpace(s[0]); }
    assert TrimEnd(s) == s by { assert !IsSpace(s[|s| - 1]); }
    assert !IsBlank(s) by { assert !IsSpace(s[0]); }
    DecimalRoundTrip(n);
  }
}
