/** The stock Option datatype used by the recogniser for "no match". */
module Wrappers {
  datatype Option<+T> = None | Some(value: T)
}

/**
 * Character classes of the callout pattern and the conversions between
 * digit strings and numbers (Python's `int(...)` on a matched group and
 * `str(...)` inside the report's f-string keys).
 */
module Lexing {

  /** `\d`, restricted to the ASCII digits. */
  predicate IsDigit(c: char) {
    '0' <= c <= '9'
  }

  /** `\s` in a str pattern: exactly the characters for which Python's
      `str.isspace()` holds. */
  predicate IsSpace(c: char) {
    || ('\t' <= c <= '\r')
    || ('\U{1C}' <= c <= ' ')
    || c == '\U{85}' || c == '\U{A0}' || c == '\U{1680}'
    || ('\U{2000}' <= c <= '\U{200A}')
    || c == '\U{2028}' || c == '\U{2029}' || c == '\U{202F}'
    || c == '\U{205F}' || c == '\U{3000}'
  }

  /** Every character of `s[i..j]` satisfies `p`. */
  ghost predicate AllOf(p: char -> bool, s: string, i: nat, j: nat)
    requires i <= j <= |s|
  {
    forall k :: i <= k < j ==> p(s[k])
  }

  predicate IsDigits(s: string) {
    forall k :: 0 <= k < |s| ==> IsDigit(s[k])
  }

  /** The end of the longest run of `p`-characters starting at `i`: the
      greedy scan of `\d+` or `\s*`. */
  function SkipWhile(p: char -> bool, s: string, i: nat): (j: nat)
    requires i <= |s|
    ensures i <= j <= |s|
    ensures forall k :: i <= k < j ==> p(s[k])
    ensures j == |s| || !p(s[j])
    decreases |s| - i
  {
    if i < |s| && p(s[i]) then SkipWhile(p, s, i + 1) else i
  }

  /** A run of `p` that ends where `p` stops holding is the one the scan finds. */
  lemma SkipWhileAt(p: char -> bool, s: string, i: nat, j: nat)
    requires i <= j <= |s|
    requires forall k :: i <= k < j ==> p(s[k])
    requires j == |s| || !p(s[j])
    ensures SkipWhile(p, s, i) == j
  {
  }

  function DigitValue(c: char): (v: nat)
    requires IsDigit(c)
    ensures v < 10
  {
    c as int - '0' as int
  }

  function DigitChar(v: nat): (c: char)
    requires v < 10
    ensures IsDigit(c) && DigitValue(c) == v
  {
    ('0' as int + v) as char
  }

  /** Python's `int(s)` for a string of ASCII digits (leading zeros allowed). */
  function Value(s: string): nat
    requires IsDigits(s)
  {
    if s == [] then 0 else Value(s[..|s| - 1]) * 10 + DigitValue(s[|s| - 1])
  }

  /** `int` ignores leading zeros: a group such as `08` reads as 8. */
  lemma {:induction false} ValueLeadingZero(s: string)
    requires IsDigits(s)
    ensures Value("0" + s) == Value(s)
  {
    if s != [] {
      var init := s[..|s| - 1];
      assert ("0" + s)[..|"0" + s| - 1] == "0" + init;
      ValueLeadingZero(init);
    }
  }

  /** Python's `str(n)` for a natural number: its decimal digits without
      leading zeros. */
  function Decimal(n: nat): (s: string)
    ensures |s| > 0 && IsDigits(s)
    ensures s[0] == '0' ==> n == 0 && |s| == 1
  {
    if n < 10 then [DigitChar(n)] else Decimal(n / 10) + [DigitChar(n % 10)]
  }

  /** `int(str(n)) == n`. */
  lemma {:induction false} ValueOfDecimal(n: nat)
    ensures Value(Decimal(n)) == n
  {
    if n >= 10 {
      var s := Decimal(n);
      assert s[..|s| - 1] == Decimal(n / 10);
      ValueOfDecimal(n / 10);
    }
  }

  /** Different numbers print differently. */
  lemma DecimalInjective(a: nat, b: nat)
    requires Decimal(a) == Decimal(b)
    ensures a == b
  {
    ValueOfDecimal(a);
    ValueOfDecimal(b);
  }
}
