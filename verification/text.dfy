/** The pieces of Rust's standard library that the parsers and printers of
    the dial API rely on: `str::trim`, `str::trim_end_matches`,
    `eq_ignore_ascii_case`, the decimal `Display` of an unsigned integer and
    `u8::from_str`. */
module Text {
  import opened Wrappers

  /** An unsigned 8-bit integer. */
  type U8 = x: int | 0 <= x < 256

  /** Unicode `White_Space`, the set `char::is_whitespace` tests. */
  predicate IsWhitespace(c: char) {
    ('\U{0009}' <= c <= '\U{000D}') || c == '\U{0020}' || c == '\U{0085}' || c == '\U{00A0}'
    || c == '\U{1680}' || ('\U{2000}' <= c <= '\U{200A}') || c == '\U{2028}' || c == '\U{2029}'
    || c == '\U{202F}' || c == '\U{205F}' || c == '\U{3000}'
  }

  predicate AllWhitespace(s: string) {
    forall i :: 0 <= i < |s| ==> IsWhitespace(s[i])
  }

  /** `s` neither starts nor ends with whitespace. */
  predicate Trimmed(s: string) {
    s == [] || (!IsWhitespace(s[0]) && !IsWhitespace(s[|s| - 1]))
  }

  /** Where the whitespace run of `s` that starts at `i` ends. */
  function SkipWhitespace(s: string, i: nat): (j: nat)
    requires i <= |s|
    ensures i <= j <= |s|
    ensures forall k :: i <= k < j ==> IsWhitespace(s[k])
    ensures j == |s| || !IsWhitespace(s[j])
    decreases |s| - i
  {
    if i < |s| && IsWhitespace(s[i]) then SkipWhitespace(s, i + 1) else i
  }

  /** Where the whitespace run of `s[lo..j]` that ends at `j` starts. */
  function SkipWhitespaceBack(s: string, lo: nat, j: nat): (e: nat)
    requires lo <= j <= |s|
    ensures lo <= e <= j
    ensures forall k :: e <= k < j ==> IsWhitespace(s[k])
    ensures e == lo || !IsWhitespace(s[e - 1])
    decreases j
  {
    if j > lo && IsWhitespace(s[j - 1]) then SkipWhitespaceBack(s, lo, j - 1) else j
  }

  /** `str::trim`: drops the leading whitespace (the first `i` characters)
      and the trailing whitespace, and keeps the middle. */
  function Trim(s: string): (r: string)
    ensures Trimmed(r)
    ensures var i := SkipWhitespace(s, 0);
            i + |r| <= |s| && r == s[i..i + |r|]
            && (forall k :: 0 <= k < i ==> IsWhitespace(s[k]))
            && (forall k :: i + |r| <= k < |s| ==> IsWhitespace(s[k]))
  {
    var i := SkipWhitespace(s, 0);
    s[i..SkipWhitespaceBack(s, i, |s|)]
  }

  /** Whitespace around a string that does not itself start or end with
      whitespace is exactly what `trim` removes. */
  lemma TrimPadded(w1: string, x: string, w2: string)
    requires AllWhitespace(w1) && AllWhitespace(w2) && Trimmed(x)
    ensures Trim(w1 + x + w2) == x
  {
    var s := w1 + x + w2;
    var i := SkipWhitespace(s, 0);
    var e := SkipWhitespaceBack(s, i, |s|);
    if x == [] {
      assert forall k :: 0 <= k < |s| ==> IsWhitespace(s[k]) by {
        forall k | 0 <= k < |s| ensures IsWhitespace(s[k]) {
          if k < |w1| { assert s[k] == w1[k]; } else { assert s[k] == w2[k - |w1|]; }
        }
      }
      assert i == |s|;
    } else {
      var n := |w1| + |x|;
      assert forall k :: 0 <= k < |w1| ==> s[k] == w1[k];
      assert forall k :: n <= k < |s| ==> s[k] == w2[k - n];
      assert s[|w1|] == x[0] && s[n - 1] == x[|x| - 1];
      assert i == |w1|;
      assert e == n;
      assert s[i..e] == x;
    }
  }

  /** `str::trim_end_matches(c)` for a single character: drops every trailing `c`. */
  function TrimEndMatches(s: string, c: char): (r: string)
    ensures |r| <= |s| && r == s[..|r|]
    ensures forall i :: |r| <= i < |s| ==> s[i] == c
    ensures r == [] || r[|r| - 1] != c
  {
    if |s| > 0 && s[|s| - 1] == c then TrimEndMatches(s[..|s| - 1], c) else s
  }

  lemma {:induction false} TrimEndMatchesPadded(x: string, c: char, k: nat)
    requires x == [] || x[|x| - 1] != c
    ensures TrimEndMatches(x + seq(k, _ => c), c) == x
  {
    if k > 0 {
      assert (x + seq(k, _ => c))[..|x| + k - 1] == x + seq(k - 1, _ => c);
      TrimEndMatchesPadded(x, c, k - 1);
    } else {
      assert x + seq(k, _ => c) == x;
    }
  }

  /** ASCII case folding as `u8::to_ascii_lowercase` does it. */
  function AsciiLower(c: char): (r: char)
    ensures 'A' <= c <= 'Z' ==> 'a' <= r <= 'z' && r as int - c as int == 32
    ensures !('A' <= c <= 'Z') ==> r == c
  {
    if 'A' <= c <= 'Z' then (c as int + 32) as char else c
  }

  /** `str::eq_ignore_ascii_case`. */
  predicate EqIgnoreAsciiCase(a: string, b: string) {
    |a| == |b| && forall i :: 0 <= i < |a| ==> AsciiLower(a[i]) == AsciiLower(b[i])
  }

  predicate IsDigit(c: char) {
    '0' <= c <= '9'
  }

  function DigitValue(c: char): (d: nat)
    requires IsDigit(c)
    ensures d < 10
  {
    c as int - '0' as int
  }

  function DigitChar(d: nat): (c: char)
    requires d < 10
    ensures IsDigit(c) && DigitValue(c) == d
  {
    ('0' as int + d) as char
  }

  predicate AllDigits(s: string) {
    forall i :: 0 <= i < |s| ==> IsDigit(s[i])
  }

  /** The `Display` of an unsigned integer: decimal digits, no sign, no
      leading zero except for zero itself. */
  function Decimal(n: nat): (r: string)
    ensures |r| >= 1 && AllDigits(r)
    ensures r[0] == '0' ==> n == 0
  {
    if n < 10 then [DigitChar(n)] else Decimal(n / 10) + [DigitChar(n % 10)]
  }

  /** The number a run of digits denotes, read left to right from `acc`. */
  function ValueFrom(acc: nat, s: string): nat
    requires AllDigits(s)
    decreases s
  {
    if s == [] then acc else ValueFrom(acc * 10 + DigitValue(s[0]), s[1..])
  }

  lemma {:induction false} ValueFromSnoc(acc: nat, s: string, c: char)
    requires AllDigits(s) && IsDigit(c)
    ensures AllDigits(s + [c])
    ensures ValueFrom(acc, s + [c]) == ValueFrom(acc, s) * 10 + DigitValue(c)
    decreases s
  {
    if s != [] {
      assert (s + [c])[1..] == s[1..] + [c];
      ValueFromSnoc(acc * 10 + DigitValue(s[0]), s[1..], c);
    }
  }

  lemma {:induction false} ValueFromAtLeast(acc: nat, s: string)
    requires AllDigits(s)
    ensures ValueFrom(acc, s) >= acc
    decreases s
  {
    if s != [] {
      ValueFromAtLeast(acc * 10 + DigitValue(s[0]), s[1..]);
    }
  }

  /** Reading back the digits `Decimal` prints gives the number again. */
  lemma {:induction false} DecimalValue(n: nat)
    ensures ValueFrom(0, Decimal(n)) == n
  {
    if n >= 10 {
      DecimalValue(n / 10);
      ValueFromSnoc(0, Decimal(n / 10), DigitChar(n % 10));
    }
  }

  /** Distinct numbers print differently. */
  lemma DecimalInjective(m: nat, n: nat)
    ensures Decimal(m) == Decimal(n) ==> m == n
  {
    if Decimal(m) == Decimal(n) {
      DecimalValue(m);
      DecimalValue(n);
    }
  }

  /** `core::num::IntErrorKind`, the cases `u8::from_str` can report. */
  datatype IntErrorKind = Empty | InvalidDigit | PosOverflow

  /** The digit loop of `u8::from_str`: left to right, a non-digit stops it
      with `InvalidDigit`, a running value above 255 with `PosOverflow`. */
  function ScanU8(s: string, acc: U8): (r: Result<U8, IntErrorKind>)
    ensures r != Err(Empty)
  {
    if s == [] then Ok(acc)
    else if !IsDigit(s[0]) then Err(InvalidDigit)
    else
      var a := acc * 10 + DigitValue(s[0]);
      if a > 255 then Err(PosOverflow) else ScanU8(s[1..], a)
  }

  lemma {:induction false} ScanU8Digits(s: string, acc: U8)
    requires AllDigits(s) && ValueFrom(acc, s) <= 255
    ensures ScanU8(s, acc) == Ok(ValueFrom(acc, s))
  {
    if s != [] {
      var a := acc * 10 + DigitValue(s[0]);
      ValueFromAtLeast(a, s[1..]);
      ScanU8Digits(s[1..], a);
    }
  }

  lemma {:induction false} ScanU8Sound(s: string, acc: U8)
    ensures ScanU8(s, acc).Ok? ==> AllDigits(s) && ScanU8(s, acc).value == ValueFrom(acc, s)
  {
    if s != [] && IsDigit(s[0]) && acc * 10 + DigitValue(s[0]) <= 255 {
      ScanU8Sound(s[1..], acc * 10 + DigitValue(s[0]));
    }
  }

  /** The digits `u8::from_str` reads: the input less one leading `+`. */
  function UnsignedDigits(s: string): string {
    if |s| > 0 && s[0] == '+' then s[1..] else s
  }

  /** `u8::from_str`: an optional `+`, then at least one ASCII digit, the
      value at most 255.  The empty string is `Empty`, a lone `+` is
      `InvalidDigit`. */
  function ParseU8(s: string): (r: Result<U8, IntErrorKind>)
    ensures r == Err(Empty) <==> s == []
    ensures r.Ok? ==> UnsignedDigits(s) != [] && AllDigits(UnsignedDigits(s))
                      && r.value == ValueFrom(0, UnsignedDigits(s))
  {
    if s == [] then Err(Empty)
    else if s == ['+'] then Err(InvalidDigit)
    else
      var r := ScanU8(UnsignedDigits(s), 0);
      ScanU8Sound(UnsignedDigits(s), 0);
      r
  }

  /** Every digit string of value at most 255 parses to that value. */
  lemma ParseU8Digits(s: string)
    requires s != [] && AllDigits(s) && ValueFrom(0, s) <= 255
    ensures ParseU8(s) == Ok(ValueFrom(0, s))
  {
    ScanU8Digits(s, 0);
  }

  /** `u8::from_str` reads back what `u8`'s `Display` prints. */
  lemma ParseU8Decimal(n: U8)
    ensures ParseU8(Decimal(n)) == Ok(n)
  {
    DecimalValue(n);
    ParseU8Digits(Decimal(n));
  }
}
