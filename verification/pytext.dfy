/** Python `str` operations the scripts rely on, over Dafny strings
    (sequences of Unicode scalar values). */
module PyText {

  /** `str.isspace()`, which is also what `str.strip()` removes and what `\s`
      matches in a `str` regular expression. */
  predicate IsSpace(c: char) {
    var n := c as int;
    || n == 0x20
    || (0x09 <= n <= 0x0D)
    || (0x1C <= n <= 0x1F)
    || n == 0x85 || n == 0xA0 || n == 0x1680
    || (0x2000 <= n <= 0x200A)
    || n == 0x2028 || n == 0x2029 || n == 0x202F || n == 0x205F || n == 0x3000
  }

  predicate AllSpace(s: string) {
    forall i | 0 <= i < |s| :: IsSpace(s[i])
  }

  /** First position at or after `i` that is not whitespace. */
  function SkipSpace(s: string, i: nat): (q: nat)
    requires i <= |s|
    ensures i <= q <= |s|
    ensures forall k | i <= k < q :: IsSpace(s[k])
    ensures q < |s| ==> !IsSpace(s[q])
    decreases |s| - i
  {
    if i < |s| && IsSpace(s[i]) then SkipSpace(s, i + 1) else i
  }

  /** Last end position at or before `j`, and not before `lo`, that follows
      a non-whitespace character (or is `lo`). */
  function TrimSpace(s: string, lo: nat, j: nat): (q: nat)
    requires lo <= j <= |s|
    ensures lo <= q <= j
    ensures forall k | q <= k < j :: IsSpace(s[k])
    ensures q > lo ==> !IsSpace(s[q - 1])
    decreases j
  {
    if j > lo && IsSpace(s[j - 1]) then TrimSpace(s, lo, j - 1) else j
  }

  /** `s.lstrip()` */
  function LStrip(s: string): string {
    s[SkipSpace(s, 0)..]
  }

  /** `s.rstrip()` */
  function RStrip(s: string): string {
    s[..TrimSpace(s, 0, |s|)]
  }

  /** Number of leading whitespace characters `s.strip()` removes. */
  function StripStart(s: string): nat {
    SkipSpace(s, 0)
  }

  /** Position just after the last character `s.strip()` keeps. */
  function StripEnd(s: string): (e: nat)
    ensures StripStart(s) <= e <= |s|
  {
    TrimSpace(s, SkipSpace(s, 0), |s|)
  }

  /** `s.strip()`: the infix of `s` left after removing leading and trailing
      whitespace. */
  function Strip(s: string): string {
    s[StripStart(s)..StripEnd(s)]
  }

  /** What `strip` removes is whitespace, and what it keeps neither starts
      nor ends with whitespace. */
  lemma StripMeaning(s: string)
    ensures AllSpace(s[..StripStart(s)]) && AllSpace(s[StripEnd(s)..])
    ensures var r := Strip(s); r == [] || (!IsSpace(r[0]) && !IsSpace(r[|r| - 1]))
  {
  }

  /** `SkipSpace` is the only position with its two defining properties. */
  lemma SkipSpaceIs(s: string, i: nat, j: nat)
    requires i <= j <= |s|
    requires forall k | i <= k < j :: IsSpace(s[k])
    requires j < |s| ==> !IsSpace(s[j])
    ensures SkipSpace(s, i) == j
  {
  }

  /** `TrimSpace` is the only position with its two defining properties. */
  lemma TrimSpaceIs(s: string, lo: nat, j: nat, q: nat)
    requires lo <= q <= j <= |s|
    requires forall k | q <= k < j :: IsSpace(s[k])
    requires q > lo ==> !IsSpace(s[q - 1])
    ensures TrimSpace(s, lo, j) == q
  {
  }

  /** Whitespace around a text whose ends are not whitespace is what
      `strip` removes. */
  lemma StripPadded(w1: string, x: string, w2: string)
    requires AllSpace(w1) && AllSpace(w2)
    requires |x| > 0 && !IsSpace(x[0]) && !IsSpace(x[|x| - 1])
    ensures Strip(w1 + x + w2) == x
  {
    var s := w1 + x + w2;
    SkipSpaceIs(s, 0, |w1|);
    TrimSpaceIs(s, |w1|, |s|, |w1| + |x|);
    assert s[|w1|..|w1| + |x|] == x;
  }

  /** `s.rstrip(c)` for a single character `c`. */
  function RStripChar(s: string, c: char): (r: string)
    ensures |r| <= |s| && r == s[..|r|]
    ensures forall i | |r| <= i < |s| :: s[i] == c
    ensures r == [] || r[|r| - 1] != c
  {
    if |s| > 0 && s[|s| - 1] == c then RStripChar(s[..|s| - 1], c) else s
  }

  predicate StartsWith(s: string, prefix: string) {
    |prefix| <= |s| && s[..|prefix|] == prefix
  }

  predicate EndsWith(s: string, suffix: string) {
    |suffix| <= |s| && s[|s| - |suffix|..] == suffix
  }

  /** `sub in s` for two strings. */
  predicate Contains(s: string, sub: string) {
    exists i | 0 <= i <= |s| - |sub| :: OccursAt(s, sub, i)
  }

  predicate OccursAt(s: string, sub: string, i: int) {
    0 <= i <= |s| - |sub| && s[i..i + |sub|] == sub
  }

  /** ASCII part of `str.upper()`. */
  function UpperChar(c: char): char {
    if 'a' <= c <= 'z' then (c as int - 'a' as int + 'A' as int) as char else c
  }

  function Upper(s: string): (r: string)
    ensures |r| == |s|
  {
    seq(|s|, i requires 0 <= i < |s| => UpperChar(s[i]))
  }

  /** ASCII part of the case folding used by a case-insensitive regex. */
  function LowerChar(c: char): char {
    if 'A' <= c <= 'Z' then (c as int - 'A' as int + 'a' as int) as char else c
  }

  function DigitChar(d: nat): char
    requires d < 10
  {
    ('0' as int + d) as char
  }

  function DigitValue(c: char): int {
    c as int - '0' as int
  }

  /** `str(n)` for a non-negative integer. */
  function NatToString(n: nat): (r: string)
    ensures |r| > 0 && (r[0] == '0' ==> r == "0")
    ensures forall i | 0 <= i < |r| :: '0' <= r[i] <= '9'
  {
    if n < 10 then [DigitChar(n)] else NatToString(n / 10) + [DigitChar(n % 10)]
  }

  /** `str(n)` for any integer. */
  function IntToString(n: int): string {
    if n < 0 then "-" + NatToString(-n) else NatToString(n)
  }

  /** Decimal value of a digit string; the inverse of `NatToString`. */
  function DecimalValue(s: string): int {
    if |s| == 0 then 0 else DecimalValue(s[..|s| - 1]) * 10 + DigitValue(s[|s| - 1])
  }

  lemma {:induction false} DecimalRoundTrip(n: nat)
    ensures DecimalValue(NatToString(n)) == n
  {
    if n >= 10 {
      var s := NatToString(n / 10) + [DigitChar(n % 10)];
      assert s[..|s| - 1] == NatToString(n / 10);
      DecimalRoundTrip(n / 10);
    }
  }

  /** The text before the first `c`, as `t.split(c)[0]`. */
  function BeforeFirst(t: string, c: char): (r: string)
    ensures |r| <= |t| && r == t[..|r|]
    ensures c !in r
    ensures |r| < |t| ==> t[|r|] == c
  {
    if |t| == 0 || t[0] == c then [] else [t[0]] + BeforeFirst(t[1..], c)
  }

  /** With no `c` before position `n`, splitting at `c` keeps at least the
      first `n` characters. */
  lemma {:induction false} NoStopBefore(t: string, c: char, n: nat)
    requires n <= |t|
    requires forall k | 0 <= k < n :: t[k] != c
    ensures n <= |BeforeFirst(t, c)|
  {
    var r := BeforeFirst(t, c);
    if |r| < n {
      assert t[|r|] == c;
    }
  }

  /** Splitting at `c` stops at the first `c`, given where that is (or at
      the end when there is none). */
  lemma PrefixBefore(t: string, c: char, n: nat)
    requires n <= |t| && (n < |t| ==> t[n] == c)
    requires forall k | 0 <= k < n :: t[k] != c
    ensures BeforeFirst(t, c) == t[..n]
  {
    var r := BeforeFirst(t, c);
    NoStopBefore(t, c, n);
  }
}
