/**
 * String primitives behind the scorers' regular expressions. Each matcher the
 * scorers use is modelled directly over `string` instead of through a regex
 * engine: literal occurrence lists (`finditer`/`findall` of a literal), the
 * leftmost lazy `open(.*?)close` search, `str.strip`, lower-casing, the `\b`
 * word boundary and `str.splitlines`.
 */
module Text {
  import opened Wrappers

  // ---------------------------------------------------------------------------
  // Character classes
  // ---------------------------------------------------------------------------

  /** The characters Python's `str.isspace` accepts, which are also what `\s` and `str.strip()` use on `str` values. */
  const SpaceChars: set<char> := {
    ' ', '\t', '\n', '\U{b}', '\U{c}', '\r', '\U{1c}', '\U{1d}', '\U{1e}', '\U{1f}', '\U{85}', '\U{a0}', '\U{1680}',
    '\U{2000}', '\U{2001}', '\U{2002}', '\U{2003}', '\U{2004}', '\U{2005}', '\U{2006}', '\U{2007}', '\U{2008}',
    '\U{2009}', '\U{200a}', '\U{2028}', '\U{2029}', '\U{202f}', '\U{205f}', '\U{3000}'
  }

  predicate IsSpace(c: char) {
    c in SpaceChars
  }

  /** The characters `str.splitlines` splits on (`\r\n` counts as one break). */
  predicate IsLineBreak(c: char) {
    c == '\n' || c == '\r' || c == '\U{b}' || c == '\U{c}' || ('\U{1c}' <= c <= '\U{1e}')
    || c == '\U{85}' || c == '\U{2028}' || c == '\U{2029}'
  }

  predicate IsAsciiLetter(c: char) {
    ('a' <= c <= 'z') || ('A' <= c <= 'Z')
  }

  /** Word characters for `\b`, restricted to ASCII. */
  predicate IsWordChar(c: char) {
    IsAsciiLetter(c) || ('0' <= c <= '9') || c == '_'
  }

  function LowerChar(c: char): (r: char)
    ensures IsWordChar(r) == IsWordChar(c)
    ensures IsSpace(r) == IsSpace(c)
    ensures !('A' <= r <= 'Z')
  {
    if 'A' <= c <= 'Z' then (c as int + 32) as char else c
  }

  /** `str.lower()` on the ASCII range; every other character is kept. */
  function Lower(s: string): (r: string)
    ensures |r| == |s|
    ensures forall k :: 0 <= k < |s| ==> r[k] == LowerChar(s[k])
  {
    seq(|s|, k requires 0 <= k < |s| => LowerChar(s[k]))
  }

  // ---------------------------------------------------------------------------
  // Literal occurrences
  // ---------------------------------------------------------------------------

  predicate OccursAt(s: string, p: string, i: int) {
    0 <= i && i + |p| <= |s| && s[i..i + |p|] == p
  }

  /** `sub in s` for Python strings. */
  predicate Contains(s: string, sub: string) {
    exists i | 0 <= i <= |s| :: OccursAt(s, sub, i)
  }

  /**
   * A literal whose first character does not occur again inside it, such as every
   * `<tag>` and `</tag>` delimiter: two of its occurrences can never overlap.
   */
  predicate NoSelfOverlap(p: string) {
    |p| > 0 && forall k :: 0 < k < |p| ==> p[k] != p[0]
  }

  /** An occurrence of `q` that starts inside an occurrence of `p` would start with a character `p` does not hold after its first. */
  predicate Disjoint(p: string, q: string) {
    |q| > 0 && forall k :: 0 < k < |p| ==> p[k] != q[0]
  }

  lemma OccurrencesApart(s: string, p: string, q: string, i: int, j: int)
    requires Disjoint(p, q) && OccursAt(s, p, i) && OccursAt(s, q, j) && i < j
    ensures i + |p| <= j
  {
    assert s[j] == s[j..j + |q|][0] == q[0];
    assert forall k :: i <= k < i + |p| ==> s[k] == s[i..i + |p|][k - i] == p[k - i];
  }

  /**
   * Start offsets of the non-overlapping matches `re.finditer(p, s)` returns for a
   * literal pattern `p`, scanning left to right from offset `i`.
   */
  function OccurrencesFrom(s: string, p: string, i: nat): (r: seq<nat>)
    requires |p| > 0
    decreases |s| - i
  {
    if i + |p| > |s| then []
    else if s[i..i + |p|] == p then [i] + OccurrencesFrom(s, p, i + |p|)
    else OccurrencesFrom(s, p, i + 1)
  }

  /** Every listed offset is an occurrence at or after `i`, and listed occurrences do not overlap. */
  lemma {:induction false} OccurrencesSound(s: string, p: string, i: nat)
    requires |p| > 0
    ensures forall k :: 0 <= k < |OccurrencesFrom(s, p, i)| ==>
              i <= OccurrencesFrom(s, p, i)[k] && OccursAt(s, p, OccurrencesFrom(s, p, i)[k])
    ensures forall k, l :: 0 <= k < l < |OccurrencesFrom(s, p, i)| ==>
              OccurrencesFrom(s, p, i)[k] + |p| <= OccurrencesFrom(s, p, i)[l]
    decreases |s| - i
  {
    if i + |p| > |s| {
    } else if s[i..i + |p|] == p {
      OccurrencesSound(s, p, i + |p|);
    } else {
      OccurrencesSound(s, p, i + 1);
    }
  }

  /** For a pattern that cannot overlap itself, every occurrence at or after `i` is listed. */
  lemma {:induction false} OccurrencesComplete(s: string, p: string, i: nat, j: int)
    requires NoSelfOverlap(p) && i <= j && OccursAt(s, p, j)
    ensures j in OccurrencesFrom(s, p, i)
    decreases |s| - i
  {
    if i + |p| > |s| {
    } else if s[i..i + |p|] == p {
      if j >= i + |p| {
        OccurrencesComplete(s, p, i + |p|, j);
      } else if j > i {
        OccurrencesApart(s, p, p, i, j);
      }
    } else {
      OccurrencesComplete(s, p, i + 1, j);
    }
  }

  /** A text without the pattern's first character holds no occurrence of it. */
  lemma {:induction false} NoFirstCharNoOccurrences(s: string, p: string, i: nat)
    requires |p| > 0 && forall k :: 0 <= k < |s| ==> s[k] != p[0]
    ensures OccurrencesFrom(s, p, i) == []
    decreases |s| - i
  {
    if i + |p| <= |s| {
      assert s[i..i + |p|][0] == s[i];
      NoFirstCharNoOccurrences(s, p, i + 1);
    }
  }

  function Occurrences(s: string, p: string): (r: seq<nat>)
    requires |p| > 0
  {
    OccurrencesFrom(s, p, 0)
  }

  /** A delimiter occurs exactly once; its single offset is then the only place it occurs. */
  lemma UniqueOccurrence(s: string, p: string, j: int)
    requires NoSelfOverlap(p) && |Occurrences(s, p)| == 1 && OccursAt(s, p, j)
    ensures j == Occurrences(s, p)[0]
  {
    OccurrencesComplete(s, p, 0, j);
  }

  /** Leftmost occurrence of `p` at or after offset `i` (`str.find`). */
  function FindFrom(s: string, p: string, i: nat): (r: Option<nat>)
    ensures r.Some? ==> i <= r.value && OccursAt(s, p, r.value)
    ensures r.Some? ==> forall j :: i <= j < r.value ==> !OccursAt(s, p, j)
    ensures r.None? ==> forall j :: i <= j ==> !OccursAt(s, p, j)
    decreases |s| - i
  {
    if i + |p| > |s| then None
    else if s[i..i + |p|] == p then Some(i)
    else FindFrom(s, p, i + 1)
  }

  /**
   * `re.search` for a pattern whose match at each offset is given by `matchAt`:
   * the match at the leftmost offset in [p, n] where there is one.
   */
  function Search<T>(matchAt: nat -> Option<T>, p: nat, n: nat): (r: Option<T>)
    requires p <= n
    ensures r.Some? ==> exists q :: p <= q <= n && matchAt(q) == r
    decreases n - p
  {
    if matchAt(p).Some? then matchAt(p)
    else if p == n then None
    else Search(matchAt, p + 1, n)
  }

  /** The match at the first offset where the pattern matches is the one returned. */
  lemma {:induction false} SearchFindsFirst<T>(matchAt: nat -> Option<T>, p: nat, n: nat, q: nat)
    requires p <= q <= n && matchAt(q).Some?
    requires forall k :: p <= k < q ==> matchAt(k).None?
    ensures Search(matchAt, p, n) == matchAt(q)
    decreases q - p
  {
    if p < q {
      SearchFindsFirst(matchAt, p + 1, n, q);
    }
  }

  /** There is no match exactly when the pattern matches at no offset. */
  lemma {:induction false} SearchNone<T>(matchAt: nat -> Option<T>, p: nat, n: nat)
    requires p <= n
    ensures Search(matchAt, p, n).None? <==> forall q :: p <= q <= n ==> matchAt(q).None?
    decreases n - p
  {
    if p < n {
      SearchNone(matchAt, p + 1, n);
    }
  }

  /**
   * The leftmost match of `open(.{gap,}?)close` with DOTALL: the first offset where
   * `open` occurs and some `close` follows at least `gap` characters after it; the
   * lazy group then ends at the first such `close`. The result is the group's
   * (start, end) span.
   */
  function LazySpanFrom(s: string, open: string, close: string, gap: nat, i: nat): (r: Option<(nat, nat)>)
    ensures r.Some? ==> |open| <= r.value.0 && r.value.0 + gap <= r.value.1 <= |s|
    ensures r.Some? ==> OccursAt(s, open, r.value.0 - |open|) && OccursAt(s, close, r.value.1)
    decreases |s| - i
  {
    if i + |open| > |s| then None
    else if OccursAt(s, open, i) && FindFrom(s, close, i + |open| + gap).Some? then
      Some((i + |open|, FindFrom(s, close, i + |open| + gap).value))
    else LazySpanFrom(s, open, close, gap, i + 1)
  }

  function LazySpan(s: string, open: string, close: string, gap: nat): (r: Option<(nat, nat)>)
  {
    LazySpanFrom(s, open, close, gap, 0)
  }

  /** Group 1 of a match found in `s`, `""` when there is no match. */
  function Group(s: string, m: Option<(nat, nat)>): string {
    if m.Some? && m.value.0 <= m.value.1 <= |s| then s[m.value.0..m.value.1] else ""
  }

  lemma {:induction false} NoOpenNoSpan(s: string, open: string, close: string, gap: nat, i: nat)
    requires forall j :: i <= j ==> !OccursAt(s, open, j)
    ensures LazySpanFrom(s, open, close, gap, i) == None
    decreases |s| - i
  {
    if i + |open| <= |s| {
      NoOpenNoSpan(s, open, close, gap, i + 1);
    }
  }

  /**
   * When `open` and `close` each occur exactly once, the lazy search finds the text
   * between them exactly when `close` starts at least `gap` characters after `open` ends.
   */
  lemma {:induction false} UniquePairSpan(s: string, open: string, close: string, gap: nat)
    requires NoSelfOverlap(open) && NoSelfOverlap(close)
    requires |Occurrences(s, open)| == 1 && |Occurrences(s, close)| == 1
    ensures var o, c := Occurrences(s, open)[0], Occurrences(s, close)[0];
      LazySpan(s, open, close, gap) == if o + |open| + gap <= c then Some((o + |open|, c)) else None
  {
    var o, c := Occurrences(s, open)[0], Occurrences(s, close)[0];
    OccurrencesSound(s, open, 0);
    OccurrencesSound(s, close, 0);
    forall j | 0 <= j && j != o ensures !OccursAt(s, open, j) {
      if OccursAt(s, open, j) { UniqueOccurrence(s, open, j); }
    }
    forall j | 0 <= j && j != c ensures !OccursAt(s, close, j) {
      if OccursAt(s, close, j) { UniqueOccurrence(s, close, j); }
    }
    SpanFromUniqueOpen(s, open, close, gap, 0, o);
    var f := FindFrom(s, close, o + |open| + gap);
    if o + |open| + gap <= c {
      assert f == Some(c);
    } else {
      assert f == None;
      NoOpenNoSpan(s, open, close, gap, o + 1);
    }
  }

  /** Before the only occurrence of `open` the lazy search just advances. */
  lemma {:induction false} SpanFromUniqueOpen(s: string, open: string, close: string, gap: nat, i: nat, o: nat)
    requires i <= o && OccursAt(s, open, o)
    requires forall j :: 0 <= j && j != o ==> !OccursAt(s, open, j)
    ensures LazySpanFrom(s, open, close, gap, i) == LazySpanFrom(s, open, close, gap, o)
    decreases o - i
  {
    if i < o {
      SpanFromUniqueOpen(s, open, close, gap, i + 1, o);
    }
  }

  // ---------------------------------------------------------------------------
  // Whitespace stripping
  // ---------------------------------------------------------------------------

  predicate AllSpace(s: string) {
    forall k :: 0 <= k < |s| ==> IsSpace(s[k])
  }

  /** `str.strip()` with no argument: leading, then trailing, whitespace removed. */
  function Strip(s: string): (r: string)
    ensures |r| <= |s|
  {
    if s != [] && IsSpace(s[0]) then Strip(s[1..])
    else if s != [] && IsSpace(s[|s| - 1]) then Strip(s[..|s| - 1])
    else s
  }

  /** Stripping leaves nothing exactly when the text is all whitespace, and otherwise leaves no whitespace at either end. */
  lemma {:induction false} StripMeaning(s: string)
    ensures Strip(s) == [] <==> AllSpace(s)
    ensures Strip(s) != [] ==> !IsSpace(Strip(s)[0]) && !IsSpace(Strip(s)[|Strip(s)| - 1])
    decreases |s|
  {
    if s != [] && IsSpace(s[0]) {
      StripMeaning(s[1..]);
      assert forall k :: 1 <= k < |s| ==> s[k] == s[1..][k - 1];
    } else if s != [] && IsSpace(s[|s| - 1]) {
      StripMeaning(s[..|s| - 1]);
      assert forall k :: 0 <= k < |s| - 1 ==> s[k] == s[..|s| - 1][k];
    }
  }

  // ---------------------------------------------------------------------------
  // Whole words (`\b`)
  // ---------------------------------------------------------------------------

  predicate WordCharAt(s: string, k: int) {
    0 <= k < |s| && IsWordChar(s[k])
  }

  /** `\b` holds at offset `k` when exactly one of the characters around it is a word character. */
  predicate Boundary(s: string, k: int) {
    WordCharAt(s, k - 1) != WordCharAt(s, k)
  }

  /** `\bw\b` matches at offset `i`. */
  predicate WholeWordAt(s: string, w: string, i: int) {
    OccursAt(s, w, i) && Boundary(s, i) && Boundary(s, i + |w|)
  }

  /** `re.search(r'\b' + re.escape(w) + r'\b', s)` succeeds. */
  predicate ContainsWord(s: string, w: string) {
    exists i | 0 <= i <= |s| :: WholeWordAt(s, w, i)
  }

  // ---------------------------------------------------------------------------
  // Lines
  // ---------------------------------------------------------------------------

  /** First offset at or after `i` holding a line break, or `|s|`. */
  function NextBreak(s: string, i: nat): (r: nat)
    requires i <= |s|
    ensures i <= r <= |s|
    ensures r < |s| ==> IsLineBreak(s[r])
    ensures forall k :: i <= k < r ==> !IsLineBreak(s[k])
    decreases |s| - i
  {
    if i == |s| || IsLineBreak(s[i]) then i else NextBreak(s, i + 1)
  }

  predicate NoLineBreak(line: string) {
    forall k :: 0 <= k < |line| ==> !IsLineBreak(line[k])
  }

  /** A line terminator of `str.splitlines`: one break character, or `\r\n`. */
  predicate IsTerminator(t: string) {
    (|t| == 1 && IsLineBreak(t[0])) || t == "\r\n"
  }

  /** Where the terminator starting at the break `s[k]` ends: `\r\n` is one terminator. */
  function TerminatorEnd(s: string, k: nat): (r: nat)
    requires k < |s| && IsLineBreak(s[k])
    ensures k < r <= |s| && IsTerminator(s[k..r])
  {
    if s[k] == '\r' && k + 1 < |s| && s[k + 1] == '\n' then
      assert s[k..k + 2] == "\r\n";
      k + 2
    else k + 1
  }

  /** `str.splitlines()`: no trailing empty line, `\r\n` is one break, `""` gives no lines. */
  function SplitLines(s: string): (r: seq<string>)
    ensures forall k :: 0 <= k < |r| ==> NoLineBreak(r[k])
    decreases |s|
  {
    if s == [] then []
    else
      var k := NextBreak(s, 0);
      if k == |s| then [s]
      else [s[..k]] + SplitLines(s[TerminatorEnd(s, k)..])
  }

  /**
   * The terminator that follows each line of `SplitLines(s)`; only a last line
   * that runs to the end of the text has none.
   */
  function LineTerminators(s: string): (r: seq<string>)
    ensures |r| == |SplitLines(s)|
    ensures forall i :: 0 <= i < |r| - 1 ==> IsTerminator(r[i])
    ensures r != [] ==> IsTerminator(r[|r| - 1]) || r[|r| - 1] == []
    decreases |s|
  {
    if s == [] then []
    else
      var k := NextBreak(s, 0);
      if k == |s| then [[]]
      else [s[k..TerminatorEnd(s, k)]] + LineTerminators(s[TerminatorEnd(s, k)..])
  }

  /** Each line followed by its terminator, in order. */
  function Rejoin(lines: seq<string>, terminators: seq<string>): string
    requires |lines| == |terminators|
  {
    if lines == [] then [] else lines[0] + terminators[0] + Rejoin(lines[1..], terminators[1..])
  }

  lemma SliceThree(s: string, a: nat, b: nat)
    requires a <= b <= |s|
    ensures s == s[..a] + s[a..b] + s[b..]
  {
  }

  /** `splitlines` loses no text: the lines and their terminators rebuild the input. */
  lemma {:induction false} SplitLinesRejoin(s: string)
    ensures Rejoin(SplitLines(s), LineTerminators(s)) == s
    decreases |s|
  {
    if s != [] {
      var k := NextBreak(s, 0);
      var lines, terminators := SplitLines(s), LineTerminators(s);
      if k == |s| {
        assert lines == [s] && terminators == [[]];
        assert Rejoin(lines, terminators) == s + [] + Rejoin([], []);
      } else {
        var next := TerminatorEnd(s, k);
        var rest := s[next..];
        assert lines == [s[..k]] + SplitLines(rest);
        assert terminators == [s[k..next]] + LineTerminators(rest);
        assert lines[1..] == SplitLines(rest) && terminators[1..] == LineTerminators(rest);
        SplitLinesRejoin(rest);
        assert Rejoin(lines, terminators) == s[..k] + s[k..next] + rest;
        SliceThree(s, k, next);
      }
    }
  }
}
