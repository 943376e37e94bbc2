/** `_redact_secrets`: every credential-looking `keyword : value` in the
    user message is replaced before the message leaves the service. The
    pattern is
      (password|secret|token|api[_-]?key|connection[_-]?string)\s*[:=]\s*\S+
    matched case-insensitively, leftmost first, without overlaps. */
module Redaction {
  import opened Wrappers
  import PyText

  /** Whether `c` matches the pattern character `p` (an ASCII lower-case
      letter, `_` or `-`) under a case-insensitive `str` pattern. Besides the
      ASCII upper case, the regex engine folds LATIN SMALL LETTER LONG S onto
      `s`, KELVIN SIGN onto `k`, and both dotted capital and dotless small I
      onto `i`. */
  predicate SameLetter(c: char, p: char) {
    || PyText.LowerChar(c) == p
    || (p == 's' && c as int == 0x017F)
    || (p == 'k' && c as int == 0x212A)
    || (p == 'i' && (c as int == 0x0130 || c as int == 0x0131))
  }

  /** `s` starts with `word`, letter by letter case-insensitively. */
  predicate WordAt(s: string, word: string) {
    |word| <= |s| && forall i | 0 <= i < |word| :: SameLetter(s[i], word[i])
  }

  /** The spellings the keyword group accepts, in the order the regex
      engine tries them: the alternatives left to right, and within
      `api[_-]?key` and `connection[_-]?string` the greedy `[_-]?` first
      with a separator, then without. */
  const Keywords: seq<string> := [
    "password", "secret", "token",
    "api_key", "api-key", "apikey",
    "connection_string", "connection-string", "connectionstring"]

  /** Length of the first of `spellings` that `s` starts with. */
  function FirstWord(s: string, spellings: seq<string>): (r: Option<nat>)
    ensures r.Some? ==> r.value <= |s| && exists w | w in spellings :: |w| == r.value && WordAt(s, w)
  {
    if |spellings| == 0 then None
    else if WordAt(s, spellings[0]) then Some(|spellings[0]|)
    else FirstWord(s, spellings[1..])
  }

  /** Length of the keyword the alternation matches at the start of `s`. */
  function KeywordLength(s: string): (r: Option<nat>)
    ensures r.Some? ==> r.value <= |s| && KeywordAt(s, r.value)
  {
    FirstWord(s, Keywords)
  }

  /** First position at or after `i` that is whitespace, or the end. */
  function SkipNonSpace(s: string, i: nat): (q: nat)
    requires i <= |s|
    ensures i <= q <= |s|
    ensures forall k | i <= k < q :: !PyText.IsSpace(s[k])
    ensures q < |s| ==> PyText.IsSpace(s[q])
    decreases |s| - i
  {
    if i < |s| && !PyText.IsSpace(s[i]) then SkipNonSpace(s, i + 1) else i
  }

  /** A match at the start of the text: the keyword is `s[..keyword]`, the
      separator is `s[sep]`, and the value is `s[value..end]`. */
  datatype Match = Match(keyword: nat, sep: nat, value: nat, end: nat)

  /** `s` starts with one of the keyword spellings, `n` characters long. */
  predicate KeywordAt(s: string, n: nat) {
    exists w | w in Keywords :: |w| == n && WordAt(s, w)
  }

  /** What follows the keyword in a match: whitespace, `:` or `=`,
      whitespace, and the whole run of non-whitespace after that. */
  predicate TailShaped(s: string, m: Match) {
    && m.keyword <= m.sep < m.value < m.end <= |s|
    && PyText.AllSpace(s[m.keyword..m.sep])
    && (s[m.sep] == ':' || s[m.sep] == '=')
    && PyText.AllSpace(s[m.sep + 1..m.value])
    && (forall k | m.value <= k < m.end :: !PyText.IsSpace(s[k]))
    && (m.end < |s| ==> PyText.IsSpace(s[m.end]))
  }

  /** What a match looks like, stated without the matcher. */
  predicate Shaped(s: string, m: Match) {
    KeywordAt(s, m.keyword) && TailShaped(s, m)
  }

  /** `\s*[:=]\s*\S+` tried right after a keyword of length `kw`. Both
      `\s*` are greedy and the characters after them (`:`/`=` and a
      non-space) are not whitespace, so backtracking never finds another
      match; `\S+` takes the whole run. */
  function MatchAfterKeyword(s: string, kw: nat): (r: Option<Match>)
    requires kw <= |s|
    ensures r.Some? ==> r.value.keyword == kw && 0 < r.value.end <= |s|
  {
    var sep := PyText.SkipSpace(s, kw);
    if sep < |s| && (s[sep] == ':' || s[sep] == '=') then
      var value := PyText.SkipSpace(s, sep + 1);
      if value < |s| then Some(Match(kw, sep, value, SkipNonSpace(s, value)))
      else None
    else None
  }

  /** The whole pattern tried at the start of `s`. */
  function MatchAtStart(s: string): (r: Option<Match>)
    ensures r.Some? ==> 0 < r.value.end <= |s|
  {
    match KeywordLength(s)
    case None => None
    case Some(kw) => MatchAfterKeyword(s, kw)
  }


  const Redacted: string := ": [REDACTED]"

  /** The replacement the source computes from the matched text:
      `group.split(":")[0].split("=")[0] + ": [REDACTED]"`. */
  function Replacement(group: string): string {
    PyText.BeforeFirst(PyText.BeforeFirst(group, ':'), '=') + Redacted
  }

  /** `_SECRET_PATTERN.sub(...)`: scan left to right; where a match starts,
      emit its replacement and continue after it, otherwise copy one
      character. */
  function Redact(s: string): (r: string)
    ensures r == [] <==> s == []
    decreases |s|
  {
    if |s| == 0 then []
    else match MatchAtStart(s)
      case Some(m) => Replacement(s[..m.end]) + Redact(s[m.end..])
      case None => [s[0]] + Redact(s[1..])
  }

  /** Where a match starts, the output holds the keyword and the whitespace
      before its separator, then `: [REDACTED]`, and the scan resumes after
      the value. */
  lemma RedactAtMatch(s: string, m: Match)
    requires MatchAtStart(s) == Some(m)
    ensures Redact(s) == s[..m.sep] + Redacted + Redact(s[m.end..])
  {
    MatchSound(s, m);
    ReplacementKeepsKeyword(s, m);
  }

  /** A keyword, as spelled in any letter case, directly followed by `:` or
      `=` and a value without whitespace, comes out as the keyword followed
      by `: [REDACTED]`: the value is gone and `=` becomes `:`. */
  lemma KeywordValueRedacted(kw: string, sep: char, value: string)
    requires KeywordAt(kw, |kw|)
    requires sep == ':' || sep == '='
    requires |value| > 0 && forall k | 0 <= k < |value| :: !PyText.IsSpace(value[k])
    ensures Redact(kw + [sep] + value) == kw + Redacted
  {
    var s := kw + [sep] + value;
    var m := Match(|kw|, |kw|, |kw| + 1, |s|);
    KeywordValueShaped(kw, sep, value);
    MatchComplete(s, m);
    RedactWholeMatch(s, m);
    assert s[..|kw|] == kw;
  }

  /** A match that runs to the end of the text leaves only the kept part
      and the placeholder. */
  lemma RedactWholeMatch(s: string, m: Match)
    requires MatchAtStart(s) == Some(m) && m.end == |s|
    ensures Redact(s) == s[..m.sep] + Redacted
  {
    RedactAtMatch(s, m);
    assert s[m.end..] == [];
  }

  lemma KeywordValueShaped(kw: string, sep: char, value: string)
    requires KeywordAt(kw, |kw|)
    requires sep == ':' || sep == '='
    requires |value| > 0 && forall k | 0 <= k < |value| :: !PyText.IsSpace(value[k])
    ensures var s := kw + [sep] + value;
            Shaped(s, Match(|kw|, |kw|, |kw| + 1, |s|))
  {
    var s := kw + [sep] + value;
    var w :| w in Keywords && |w| == |kw| && WordAt(kw, w);
    assert WordAt(s, w);
    assert forall k | |kw| + 1 <= k < |s| :: s[k] == value[k - |kw| - 1];
  }

  /** A text in which the pattern matches nowhere is left unchanged. */
  lemma {:induction false} NoMatchUnchanged(s: string)
    requires forall i | 0 <= i < |s| :: MatchAtStart(s[i..]).None?
    ensures Redact(s) == s
  {
    if |s| > 0 {
      assert s[0..] == s;
      forall i | 0 <= i < |s[1..]|
        ensures MatchAtStart(s[1..][i..]).None?
      {
        assert s[1..][i..] == s[i + 1..];
      }
      NoMatchUnchanged(s[1..]);
      assert s == [s[0]] + s[1..];
    }
  }

  /** What the matcher finds has the shape of a match. */
  lemma MatchSound(s: string, m: Match)
    requires MatchAtStart(s) == Some(m)
    ensures Shaped(s, m)
  {
    assert KeywordLength(s) == Some(m.keyword);
    TailSound(s, m.keyword, m);
  }

  lemma TailSound(s: string, kw: nat, m: Match)
    requires kw <= |s| && MatchAfterKeyword(s, kw) == Some(m)
    ensures TailShaped(s, m)
  {
    assert forall k | m.keyword <= k < m.sep :: PyText.IsSpace(s[k]);
    assert forall k | m.sep + 1 <= k < m.value :: PyText.IsSpace(s[k]);
  }

  /** A character matches at most one pattern character. */
  lemma LetterUnique(c: char, p: char, q: char)
    requires SameLetter(c, p) && SameLetter(c, q)
    requires 'a' <= p <= 'z' || p == '_' || p == '-'
    requires 'a' <= q <= 'z' || q == '_' || q == '-'
    ensures p == q
  {
  }

  /** Two spellings that agree where the alternatives part ways have the
      same length. */
  lemma SpellingsAgree(u: string, w: string)
    requires u in Keywords && w in Keywords
    requires u[0] == w[0]
    requires u[0] == 'a' ==> (u[3] == 'k' <==> w[3] == 'k')
    requires u[0] == 'c' ==> (u[10] == 's' <==> w[10] == 's')
    ensures |u| == |w|
  {
  }

  /** Two spellings the same text starts with have the same length. */
  lemma KeywordsExclusive(s: string, u: string, w: string)
    requires u in Keywords && w in Keywords && WordAt(s, u) && WordAt(s, w)
    ensures |u| == |w|
  {
    KeywordLetters(u, 0);
    KeywordLetters(w, 0);
    LetterUnique(s[0], u[0], w[0]);
    if u[0] == 'a' {
      KeywordLetters(u, 3);
      KeywordLetters(w, 3);
      LetterUnique(s[3], u[3], w[3]);
    } else if u[0] == 'c' {
      KeywordLetters(u, 10);
      KeywordLetters(w, 10);
      LetterUnique(s[10], u[10], w[10]);
    }
    SpellingsAgree(u, w);
  }

  /** The ordered search finds a spelling's length when every spelling the
      text starts with has that length. */
  lemma {:induction false} FirstWordFinds(s: string, spellings: seq<string>, w: string)
    requires w in spellings && WordAt(s, w)
    requires forall u | u in spellings && WordAt(s, u) :: |u| == |w|
    ensures FirstWord(s, spellings) == Some(|w|)
  {
    if !WordAt(s, spellings[0]) {
      assert w in spellings[1..];
      FirstWordFinds(s, spellings[1..], w);
    }
  }

  /** The keyword group matches exactly the length of the spelling found. */
  lemma KeywordComplete(s: string, n: nat)
    requires KeywordAt(s, n)
    ensures KeywordLength(s) == Some(n)
  {
    var w :| w in Keywords && |w| == n && WordAt(s, w);
    forall u | u in Keywords && WordAt(s, u)
      ensures |u| == |w|
    {
      KeywordsExclusive(s, u, w);
    }
    FirstWordFinds(s, Keywords, w);
  }

  lemma TailComplete(s: string, m: Match)
    requires TailShaped(s, m)
    ensures MatchAfterKeyword(s, m.keyword) == Some(m)
  {
    SkipsTo(s, m.keyword, m.sep);
    SkipsTo(s, m.sep + 1, m.value);
    SkipNonSpaceIs(s, m.value, m.end);
  }

  /** Skipping the whitespace `s[i..j]` stops at `j` when `s[j]` is not
      whitespace. */
  lemma SkipsTo(s: string, i: nat, j: nat)
    requires i <= j < |s| && PyText.AllSpace(s[i..j]) && !PyText.IsSpace(s[j])
    ensures PyText.SkipSpace(s, i) == j
  {
    forall k | i <= k < j
      ensures PyText.IsSpace(s[k])
    {
      assert s[i..j][k - i] == s[k];
    }
    PyText.SkipSpaceIs(s, i, j);
  }

  lemma SkipNonSpaceIs(s: string, i: nat, j: nat)
    requires i <= j <= |s|
    requires forall k | i <= k < j :: !PyText.IsSpace(s[k])
    requires j < |s| ==> PyText.IsSpace(s[j])
    ensures SkipNonSpace(s, i) == j
  {
  }

  /** Every text of the shape of a match is matched, with exactly those
      parts: with `MatchSound`, the matcher finds a match iff the text
      starts with one, and the parts are unique. */
  lemma MatchComplete(s: string, m: Match)
    requires Shaped(s, m)
    ensures MatchAtStart(s) == Some(m)
  {
    KeywordComplete(s, m.keyword);
    TailComplete(s, m);
  }

  /** The replacement keeps exactly the keyword and the whitespace before
      the separator: neither holds a `:` or `=`, so the separator is the
      first `:` or `=` in the match. */
  lemma ReplacementKeepsKeyword(s: string, m: Match)
    requires Shaped(s, m)
    ensures Replacement(s[..m.end]) == s[..m.sep] + Redacted
  {
    SeparatorIsFirst(s, m);
    CutAtSeparator(s[..m.end], m.sep);
    assert s[..m.end][..m.sep] == s[..m.sep];
  }

  /** No `:` or `=` comes before the separator of a match. */
  lemma SeparatorIsFirst(s: string, m: Match)
    requires Shaped(s, m)
    ensures forall k | 0 <= k < m.sep :: s[k] != ':' && s[k] != '='
  {
    forall k | 0 <= k < m.sep
      ensures s[k] != ':' && s[k] != '='
    {
      if k < m.keyword {
        LetterOfKeyword(s, m, k);
      } else {
        assert s[m.keyword..m.sep][k - m.keyword] == s[k];
      }
    }
  }

  /** `g.split(":")[0].split("=")[0]` is the text before the first `:` or
      `=`. */
  lemma CutAtSeparator(g: string, sep: nat)
    requires sep < |g| && (g[sep] == ':' || g[sep] == '=')
    requires forall k | 0 <= k < sep :: g[k] != ':' && g[k] != '='
    ensures PyText.BeforeFirst(PyText.BeforeFirst(g, ':'), '=') == g[..sep]
  {
    if g[sep] == ':' {
      PyText.PrefixBefore(g, ':', sep);
      PyText.PrefixBefore(g[..sep], '=', sep);
    } else {
      var a := PyText.BeforeFirst(g, ':');
      PyText.NoStopBefore(g, ':', sep + 1);
      assert a[sep] == '=';
      PyText.PrefixBefore(a, '=', sep);
    }
  }

  /** Every character of every spelling is a lower-case letter, `_` or `-`. */
  lemma KeywordLetters(w: string, i: nat)
    requires w in Keywords && i < |w|
    ensures 'a' <= w[i] <= 'z' || w[i] == '_' || w[i] == '-'
  {
  }

  /** Every character of a matched keyword is a letter, `_` or `-`. */
  lemma LetterOfKeyword(s: string, m: Match, k: nat)
    requires Shaped(s, m) && k < m.keyword
    ensures s[k] != ':' && s[k] != '=' && !PyText.IsSpace(s[k])
  {
    var w :| w in Keywords && |w| == m.keyword && WordAt(s, w);
    KeywordLetters(w, k);
    assert SameLetter(s[k], w[k]);
  }
}
