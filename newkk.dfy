/**
 * The knights-and-knaves scorer of newkk.py. On top of the four-tag stage it
 * scores the `<think>` block by length and by the puzzle's character names it
 * mentions, and the `<answer>` block by the ground-truth roles it asserts.
 * The ground truth is the puzzle's solution text, parsed one line at a time.
 */
module KnightsKnaves {
  import opened Wrappers
  import opened Text
  import opened Tags

  const RewardTagPresent: real := 0.5
  const PenaltyTagMissingOrDuplicate: real := -4.0
  const RewardOrderCorrect: real := 1.0
  const PenaltyOrderIncorrect: real := -5.0
  const PenaltyContentEmptyAnswer: real := -2.0
  const RewardForEachCorrectAssertion: int := 4
  const MinThinkReward: real := -4.0
  const MaxThinkReward: real := 4.0
  const TargetThinkLength: real := 2000.0
  const RewardForKeywordInThink: real := 1.0

  const Knight: string := "knight"
  const Knave: string := "knave"
  const SolutionKey: string := "solution_text_format"

  // ---------------------------------------------------------------------------
  // Ground-truth lines: `\b([a-zA-Z]+)\b\s+is\s+a\s+\b(knight|knave)\b`, IGNORECASE
  // ---------------------------------------------------------------------------

  /** A parsed name: lower-case ASCII letters, at least one. */
  predicate IsName(name: string) {
    |name| > 0 && forall k :: 0 <= k < |name| ==> 'a' <= name[k] <= 'z'
  }

  predicate IsRole(role: string) {
    role == Knight || role == Knave
  }

  /** A text after ASCII lower-casing: the form IGNORECASE matching is modelled on. */
  predicate LowerCased(l: string) {
    forall k :: 0 <= k < |l| ==> !('A' <= l[k] <= 'Z')
  }

  lemma LowerIsLowerCased(s: string)
    ensures LowerCased(Lower(s))
  {
  }

  /** What one solution line says: `name` is a `role`. */
  datatype RoleClaim = RoleClaim(name: string, role: string)

  function LetterRunEnd(l: string, i: nat): (r: nat)
    requires i <= |l|
    ensures i <= r <= |l|
    ensures forall k :: i <= k < r ==> IsAsciiLetter(l[k])
    ensures r == |l| || !IsAsciiLetter(l[r])
    decreases |l| - i
  {
    if i < |l| && IsAsciiLetter(l[i]) then LetterRunEnd(l, i + 1) else i
  }

  function SpaceRunEnd(l: string, i: nat): (r: nat)
    requires i <= |l|
    ensures i <= r <= |l|
    ensures forall k :: i <= k < r ==> IsSpace(l[k])
    ensures r == |l| || !IsSpace(l[r])
    decreases |l| - i
  {
    if i < |l| && IsSpace(l[i]) then SpaceRunEnd(l, i + 1) else i
  }

  /** `l[a..b]` is a non-empty run of whitespace: what one `\s+` matches. */
  predicate SpaceRun(l: string, a: nat, b: nat) {
    a < b <= |l| && forall k :: a <= k < b ==> IsSpace(l[k])
  }

  /** `l[e..j]` reads `\s+is\s+a\s+`, with "is" at `s1` and "a" at `s2`. */
  predicate Copula(l: string, e: nat, s1: nat, s2: nat, j: nat) {
    SpaceRun(l, e, s1) && OccursAt(l, "is", s1) && SpaceRun(l, s1 + 2, s2)
    && OccursAt(l, "a", s2) && SpaceRun(l, s2 + 1, j)
  }

  /** A run of whitespace that ends before a non-space character or the end ends where `SpaceRunEnd` says. */
  lemma SpaceRunEndAt(l: string, a: nat, b: nat)
    requires a <= b <= |l| && (b == |l| || !IsSpace(l[b]))
    requires forall k :: a <= k < b ==> IsSpace(l[k])
    ensures SpaceRunEnd(l, a) == b
  {
  }

  /**
   * `\s+is\s+a\s+` tried at offset `e`, giving the offset after it. Each `\s+`
   * takes its whole run of whitespace, because the character after it must be
   * a letter.
   */
  function CopulaEnd(l: string, e: nat): (r: Option<nat>)
    requires e <= |l|
    ensures r.Some? ==> e < r.value <= |l| && (r.value == |l| || !IsSpace(l[r.value]))
    ensures r.Some? ==> exists s1, s2 :: Copula(l, e, s1, s2, r.value)
  {
    var s1 := SpaceRunEnd(l, e);
    if s1 == e || !OccursAt(l, "is", s1) then None
    else
      var s2 := SpaceRunEnd(l, s1 + 2);
      if s2 == s1 + 2 || !OccursAt(l, "a", s2) then None
      else
        var s3 := SpaceRunEnd(l, s2 + 1);
        if s3 == s2 + 1 then None
        else
          assert Copula(l, e, s1, s2, s3);
          Some(s3)
  }

  /** Whitespace, "is", whitespace, "a" and whitespace up to a non-space character are matched. */
  lemma CopulaEndComplete(l: string, e: nat, s1: nat, s2: nat, j: nat)
    requires Copula(l, e, s1, s2, j)
    requires j == |l| || !IsSpace(l[j])
    ensures CopulaEnd(l, e) == Some(j)
  {
    assert l[s1..s1 + 2][0] == 'i';
    SpaceRunEndAt(l, e, s1);
    assert l[s2..s2 + 1][0] == 'a';
    SpaceRunEndAt(l, s1 + 2, s2);
    SpaceRunEndAt(l, s2 + 1, j);
  }

  /**
   * `\b([a-zA-Z]+)\b\s+is\s+a\s+` tried at offset `p` of a lower-cased line, giving
   * the offset where the role must start. The name group must be the whole
   * letter run: the `\b` after it fails inside a run and before a digit or `_`.
   */
  function RoleStart(l: string, p: nat): (r: Option<nat>)
    requires p <= |l|
    ensures r.Some? ==> p < LetterRunEnd(l, p) < r.value <= |l|
    ensures r.Some? ==> Boundary(l, p) && Boundary(l, LetterRunEnd(l, p))
    ensures r.Some? ==> exists s1, s2 :: Copula(l, LetterRunEnd(l, p), s1, s2, r.value)
    ensures r.Some? ==> r.value == |l| || !IsSpace(l[r.value])
  {
    if !(p < |l| && IsAsciiLetter(l[p]) && Boundary(l, p)) then None
    else
      var e := LetterRunEnd(l, p);
      if WordCharAt(l, e) then None else CopulaEnd(l, e)
  }

  /** A letter run at a word boundary followed by `\s+is\s+a\s+` is matched, up to the end of the last run. */
  lemma RoleStartComplete(l: string, p: nat, e: nat, s1: nat, s2: nat, j: nat)
    requires Copula(l, e, s1, s2, j)
    requires p < e && Boundary(l, p)
    requires forall k :: p <= k < e ==> IsAsciiLetter(l[k])
    requires j == |l| || !IsSpace(l[j])
    ensures LetterRunEnd(l, p) == e && RoleStart(l, p) == Some(j)
  {
    assert IsSpace(l[e]);
    assert !IsAsciiLetter(l[e]) && !WordCharAt(l, e);
    assert LetterRunEnd(l, p) == e;
    CopulaEndComplete(l, e, s1, s2, j);
  }

  /** `\b(knight|knave)\b` at offset `j`, `knight` tried first. */
  function RoleAt(l: string, j: nat): (r: Option<string>)
    ensures r.Some? ==> IsRole(r.value) && WholeWordAt(l, r.value, j)
    ensures WholeWordAt(l, Knight, j) ==> r == Some(Knight)
    ensures WholeWordAt(l, Knave, j) ==> r == Some(Knave)
  {
    if !Boundary(l, j) then None
    else if OccursAt(l, Knight, j) && Boundary(l, j + |Knight|) then Some(Knight)
    else if OccursAt(l, Knave, j) && Boundary(l, j + |Knave|) then
      Some(Knave)
    else None
  }

  /** The whole pattern tried at offset `p`; the name is the lower-cased group 1. */
  function ClaimAt(l: string, p: nat): (r: Option<RoleClaim>)
    requires p <= |l| && LowerCased(l)
    ensures r.Some? ==> IsName(r.value.name) && IsRole(r.value.role)
    ensures r.Some? ==> WholeWordAt(l, r.value.name, p)
    ensures r.Some? ==> exists j :: p + |r.value.name| <= j <= |l| && WholeWordAt(l, r.value.role, j)
  {
    match RoleStart(l, p)
    case None => None
    case Some(j) =>
      match RoleAt(l, j)
      case None => None
      case Some(role) =>
        var e := LetterRunEnd(l, p);
        LowerLetterRun(l, p, e);
        assert OccursAt(l, l[p..e], p) && Boundary(l, p) && Boundary(l, p + |l[p..e]|);
        assert p + |l[p..e]| <= j <= |l| && WholeWordAt(l, role, j);
        Some(RoleClaim(l[p..e], role))
  }

  /**
   * A match at `p` has `\s+is\s+a\s+` between the name and the role: whitespace,
   * "is", whitespace, "a" and whitespace run from the end of the name to the
   * offset where the role starts as a whole word.
   */
  lemma ClaimAtHasCopula(l: string, p: nat) returns (s1: nat, s2: nat, j: nat)
    requires p <= |l| && LowerCased(l)
    requires ClaimAt(l, p).Some?
    ensures Copula(l, p + |ClaimAt(l, p).value.name|, s1, s2, j)
    ensures WholeWordAt(l, ClaimAt(l, p).value.role, j)
  {
    j := RoleStart(l, p).value;
    var e := LetterRunEnd(l, p);
    assert ClaimAt(l, p).value.name == l[p..e];
    assert RoleAt(l, j) == Some(ClaimAt(l, p).value.role);
    s1, s2 :| Copula(l, e, s1, s2, j);
  }

  /** A role word starts with a letter, so no `\s+` runs into it. */
  lemma RoleStartsWithLetter(l: string, role: string, j: nat)
    requires IsRole(role) && OccursAt(l, role, j)
    ensures j < |l| && !IsSpace(l[j])
  {
    assert l[j] == l[j..j + |role|][0] == 'k';
  }

  /**
   * A whole letter run at `p` followed by `\s+is\s+a\s+` and a whole-word role is
   * matched there, giving that run as the name and that role.
   */
  lemma ClaimAtComplete(l: string, p: nat, e: nat, s1: nat, s2: nat, j: nat, role: string)
    requires p <= |l| && LowerCased(l)
    requires Copula(l, e, s1, s2, j)
    requires p < e && Boundary(l, p)
    requires forall k :: p <= k < e ==> IsAsciiLetter(l[k])
    requires IsRole(role) && WholeWordAt(l, role, j)
    ensures ClaimAt(l, p) == Some(RoleClaim(l[p..e], role))
  {
    RoleStartsWithLetter(l, role, j);
    RoleStartComplete(l, p, e, s1, s2, j);
    if role == Knight {
      assert RoleAt(l, j) == Some(Knight);
    } else {
      assert RoleAt(l, j) == Some(Knave);
    }
  }

  /** The pattern tried at each offset of a lower-cased line. */
  function ClaimMatcher(l: string): (r: nat -> Option<RoleClaim>)
    requires LowerCased(l)
    ensures forall q: nat :: q <= |l| ==> r(q) == ClaimAt(l, q)
  {
    (q: nat) => if q <= |l| then ClaimAt(l, q) else None
  }

  /** `pattern.search(line)` on the lower-cased line: the leftmost offset where the pattern matches. */
  function ClaimSearchFrom(l: string, p: nat): (r: Option<RoleClaim>)
    requires p <= |l| && LowerCased(l)
    ensures r.Some? ==> exists q :: p <= q <= |l| && ClaimAt(l, q) == r
  {
    Search(ClaimMatcher(l), p, |l|)
  }

  /** `search` returns the match at the leftmost offset where the pattern matches. */
  lemma ClaimSearchFindsFirst(l: string, p: nat, q: nat)
    requires p <= q <= |l| && LowerCased(l)
    requires ClaimAt(l, q).Some?
    requires forall q' :: p <= q' < q ==> ClaimAt(l, q').None?
    ensures ClaimSearchFrom(l, p) == ClaimAt(l, q)
  {
    SearchFindsFirst(ClaimMatcher(l), p, |l|, q);
  }

  /** `search` returns None exactly when the pattern matches at no offset. */
  lemma ClaimSearchNone(l: string, p: nat)
    requires p <= |l| && LowerCased(l)
    ensures ClaimSearchFrom(l, p).None? <==> forall q :: p <= q <= |l| ==> ClaimAt(l, q).None?
  {
    SearchNone(ClaimMatcher(l), p, |l|);
  }

  /** The claim a solution line makes, with name and role lower-cased, if it makes one. */
  function LineClaim(line: string): (r: Option<RoleClaim>)
    ensures r.Some? ==> IsName(r.value.name) && IsRole(r.value.role)
  {
    LowerIsLowerCased(line);
    ClaimSearchFrom(Lower(line), 0)
  }

  /** A line makes no claim exactly when the pattern matches at no offset of its lower-cased text. */
  lemma LineClaimNone(line: string)
    ensures LowerCased(Lower(line))
    ensures LineClaim(line).None? <==> forall q: nat :: q <= |Lower(line)| ==> ClaimAt(Lower(line), q).None?
  {
    LowerIsLowerCased(line);
    ClaimSearchNone(Lower(line), 0);
  }

  /**
   * A line whose lower-cased text first matches the pattern at `p` claims that
   * the letter run there is the role that follows it.
   */
  lemma LineClaimComplete(line: string, p: nat, e: nat, s1: nat, s2: nat, j: nat, role: string)
    requires Copula(Lower(line), e, s1, s2, j)
    requires p < e && Boundary(Lower(line), p)
    requires forall k :: p <= k < e ==> IsAsciiLetter(Lower(line)[k])
    requires IsRole(role) && WholeWordAt(Lower(line), role, j)
    requires forall q :: 0 <= q < p ==> ClaimAt(Lower(line), q).None?
    ensures LineClaim(line) == Some(RoleClaim(Lower(line)[p..e], role))
  {
    var l := Lower(line);
    LowerIsLowerCased(line);
    ClaimAtComplete(l, p, e, s1, s2, j, role);
    ClaimSearchFindsFirst(l, 0, p);
  }

  /** "(1) Lily is a knave", lower-cased. */
  const ExampleLine: string := "(1) lily is a knave"

  /** No match starts in "(1) ", the list number before the name. */
  lemma ExampleLineNoEarlierClaim()
    ensures LowerCased(ExampleLine)
    ensures forall q :: 0 <= q < 4 ==> ClaimAt(ExampleLine, q).None?
  {
    forall q | 0 <= q < 4 ensures ClaimAt(ExampleLine, q).None? {
      assert !IsAsciiLetter(ExampleLine[q]);
    }
  }

  lemma LowerExampleLine()
    ensures Lower("(1) Lily is a knave") == ExampleLine
  {
  }

  /** At offset 4 the pattern matches "lily is a knave". */
  lemma ExampleLineClaim()
    ensures LowerCased(ExampleLine)
    ensures ClaimAt(ExampleLine, 4) == Some(RoleClaim("lily", "knave"))
  {
    var l := ExampleLine;
    assert l[4..8] == "lily" by {
      assert l[4] == 'l' && l[5] == 'i' && l[6] == 'l' && l[7] == 'y';
    }
    assert Copula(l, 8, 9, 12, 14) by {
      assert l[9..11] == "is" && l[12..13] == "a";
    }
    assert WholeWordAt(l, Knave, 14) by { assert l[14..19] == Knave; }
    ClaimAtComplete(l, 4, 8, 9, 12, 14, Knave);
  }

  /** A solution line with a list number and a capitalised name claims that the lower-cased name is a knave. */
  lemma LineClaimExample()
    ensures LineClaim("(1) Lily is a knave") == Some(RoleClaim("lily", "knave"))
  {
    LowerExampleLine();
    ExampleLineNoEarlierClaim();
    ExampleLineClaim();
    ClaimSearchFindsFirst(ExampleLine, 0, 4);
  }

  /** Letters of a lower-cased text are lower-case. */
  lemma LowerLetterRun(l: string, p: nat, e: nat)
    requires p <= e <= |l|
    requires forall k :: p <= k < e ==> IsAsciiLetter(l[k])
    requires LowerCased(l)
    ensures forall k :: 0 <= k < e - p ==> 'a' <= l[p..e][k] <= 'z'
  {
  }

  // ---------------------------------------------------------------------------
  // `_parse_gt_to_map`
  // ---------------------------------------------------------------------------

  /** The claim of each line, in order. */
  function LineClaims(lines: seq<string>): (r: seq<Option<RoleClaim>>)
    ensures |r| == |lines|
    ensures forall i :: 0 <= i < |lines| ==> r[i] == LineClaim(lines[i])
  {
    seq(|lines|, i requires 0 <= i < |lines| => LineClaim(lines[i]))
  }

  /** Reference fold over the claims: each is entered in order, so a later one for the same name wins. */
  function ClaimsMap(claims: seq<Option<RoleClaim>>): map<string, string> {
    if claims == [] then map[]
    else
      var m := ClaimsMap(claims[..|claims| - 1]);
      match claims[|claims| - 1]
      case None => m
      case Some(c) => m[c.name := c.role]
  }

  /** Every entry of the map comes from one of the claims. */
  lemma {:induction false} ClaimsMapSound(claims: seq<Option<RoleClaim>>)
    ensures forall name :: name in ClaimsMap(claims) ==> Some(RoleClaim(name, ClaimsMap(claims)[name])) in claims
  {
    if claims != [] {
      var init := claims[..|claims| - 1];
      ClaimsMapSound(init);
      forall name | name in ClaimsMap(claims)
        ensures Some(RoleClaim(name, ClaimsMap(claims)[name])) in claims
      {
        var c := claims[|claims| - 1];
        if !(c.Some? && c.value.name == name) {
          assert name in ClaimsMap(init) && ClaimsMap(claims)[name] == ClaimsMap(init)[name];
          assert Some(RoleClaim(name, ClaimsMap(init)[name])) in init;
          var i :| 0 <= i < |init| && init[i] == Some(RoleClaim(name, ClaimsMap(init)[name]));
          assert claims[i] == init[i];
        }
      }
    }
  }

  /** The role map of a solution text: names are lower-case words, roles are `knight` or `knave`. */
  function ParsedGt(gtText: string): (m: map<string, string>)
    ensures forall name :: name in m ==> IsName(name) && IsRole(m[name])
  {
    var claims := LineClaims(SplitLines(gtText));
    ClaimsMapSound(claims);
    ClaimsMap(claims)
  }

  /** `_parse_gt_to_map`: one dictionary update per line that makes a claim. */
  method ParseGtToMap(gtText: string) returns (gtMap: map<string, string>)
    ensures gtMap == ParsedGt(gtText)
  {
    gtMap := map[];
    var lines := SplitLines(gtText);
    ghost var claims := LineClaims(lines);
    for k := 0 to |lines|
      invariant gtMap == ClaimsMap(claims[..k])
    {
      assert claims[..k + 1][..k] == claims[..k];
      var claim := LineClaim(lines[k]);
      if claim.Some? {
        gtMap := gtMap[claim.value.name := claim.value.role];
      }
    }
    assert claims[..|lines|] == claims;
  }

  /** The claim that decided `name`'s entry: the last one about `name`. */
  predicate LastClaimFor(claims: seq<Option<RoleClaim>>, name: string, i: int) {
    0 <= i < |claims| && claims[i].Some? && claims[i].value.name == name
    && forall j :: i < j < |claims| ==> !(claims[j].Some? && claims[j].value.name == name)
  }

  /** A name is in the map exactly when some claim is about it; lines without a claim contribute nothing. */
  lemma {:induction false} ClaimsMapKeys(claims: seq<Option<RoleClaim>>, name: string)
    ensures name in ClaimsMap(claims) <==>
            exists i :: 0 <= i < |claims| && claims[i].Some? && claims[i].value.name == name
  {
    if claims != [] {
      var init := claims[..|claims| - 1];
      ClaimsMapKeys(init, name);
      if name in ClaimsMap(init) {
        var i :| 0 <= i < |init| && init[i].Some? && init[i].value.name == name;
        assert claims[i] == init[i];
      }
      if exists i :: 0 <= i < |claims| && claims[i].Some? && claims[i].value.name == name {
        var i :| 0 <= i < |claims| && claims[i].Some? && claims[i].value.name == name;
        if i < |claims| - 1 {
          assert claims[i] == init[i];
        }
      }
    }
  }

  /** The role entered for a name is the one the last claim about it gives. */
  lemma {:induction false} ClaimsMapLastWins(claims: seq<Option<RoleClaim>>, name: string)
    requires name in ClaimsMap(claims)
    ensures exists i :: LastClaimFor(claims, name, i) && ClaimsMap(claims)[name] == claims[i].value.role
  {
    var init := claims[..|claims| - 1];
    var last := |claims| - 1;
    var c := claims[last];
    if c.Some? && c.value.name == name {
      assert LastClaimFor(claims, name, last);
    } else {
      assert name in ClaimsMap(init) && ClaimsMap(claims)[name] == ClaimsMap(init)[name];
      ClaimsMapLastWins(init, name);
      var i :| LastClaimFor(init, name, i) && ClaimsMap(init)[name] == init[i].value.role;
      assert claims[i] == init[i];
      assert LastClaimFor(claims, name, i);
    }
  }

  // ---------------------------------------------------------------------------
  // Answer assertions: `.*\bname\b.*\brole\b.*`, IGNORECASE, no DOTALL
  // ---------------------------------------------------------------------------

  /** `.` without DOTALL matches anything but `\n`: the span stays on one line. */
  predicate SameLine(l: string, i: int, j: int)
    requires 0 <= i <= j <= |l|
  {
    forall k :: i <= k < j ==> l[k] != '\n'
  }

  /** Some line of the lower-cased text holds `name` as a whole word and, after it, `role` as a whole word. */
  predicate AssertsRole(l: string, name: string, role: string) {
    exists i, j | 0 <= i && i + |name| <= j <= |l| ::
      WholeWordAt(l, name, i) && WholeWordAt(l, role, j) && SameLine(l, i, j)
  }

  /** A solution line asserts the very claim it is parsed into. */
  lemma ClaimAsserted(l: string, p: nat)
    requires p <= |l| && LowerCased(l) && ClaimAt(l, p).Some?
    requires forall k :: 0 <= k < |l| ==> l[k] != '\n'
    ensures AssertsRole(l, ClaimAt(l, p).value.name, ClaimAt(l, p).value.role)
  {
    var c := ClaimAt(l, p).value;
    var j :| p + |c.name| <= j <= |l| && WholeWordAt(l, c.role, j);
    assert SameLine(l, p, j);
  }

  /** The same for a whole solution line, which `splitlines` leaves without breaks. */
  lemma LineClaimAsserted(line: string)
    requires NoLineBreak(line) && LineClaim(line).Some?
    ensures AssertsRole(Lower(line), LineClaim(line).value.name, LineClaim(line).value.role)
  {
    var l := Lower(line);
    LowerIsLowerCased(line);
    var q :| 0 <= q <= |l| && ClaimAt(l, q) == LineClaim(line);
    assert forall k :: 0 <= k < |l| ==> l[k] == LowerChar(line[k]) && !IsLineBreak(line[k]);
    ClaimAsserted(l, q);
  }

  // ---------------------------------------------------------------------------
  // Think length and keyword scores, answer assertions
  // ---------------------------------------------------------------------------

  /** `min(slope * n + MIN, MAX)` with the slope that reaches MAX at the target length. */
  function LengthScore(thinkLength: nat): (r: real)
    ensures MinThinkReward <= r <= MaxThinkReward
    ensures thinkLength == 0 ==> r == MinThinkReward
    ensures thinkLength as real >= TargetThinkLength ==> r == MaxThinkReward
    ensures thinkLength as real < TargetThinkLength ==> r < MaxThinkReward
  {
    var slope := (MaxThinkReward - MinThinkReward) / TargetThinkLength;
    var raw := slope * thinkLength as real + MinThinkReward;
    if raw <= MaxThinkReward then raw else MaxThinkReward
  }

  lemma LengthScoreMonotone(m: nat, n: nat)
    requires m <= n
    ensures LengthScore(m) <= LengthScore(n)
  {
  }

  /** The ground-truth names the lower-cased think content mentions as whole words. */
  function MentionedNames(thinkLower: string, gtMap: map<string, string>): set<string> {
    set name | name in gtMap && ContainsWord(thinkLower, name)
  }

  /** The ground-truth names whose role some line of the answer asserts. */
  function AssertedNames(answerLower: string, gtMap: map<string, string>): set<string> {
    set name | name in gtMap && AssertsRole(answerLower, name, gtMap[name])
  }

  lemma {:induction false} SubsetCardinality(a: set<string>, b: set<string>)
    requires a <= b
    ensures |a| <= |b|
  {
    if a != {} {
      var x :| x in a;
      SubsetCardinality(a - {x}, b - {x});
    }
  }

  /** Moving one name out of the unvisited set adds it to the visited part of `a` exactly when it is in `a`. */
  lemma RemoveOne(a: set<string>, remaining: set<string>, name: string)
    requires name in remaining
    ensures a - (remaining - {name}) == (a - remaining) + (if name in a then {name} else {})
  {
  }

  /** Stage 3b's loop over the names: one keyword reward per name mentioned. */
  method KeywordScore(thinkContentLower: string, gtMap: map<string, string>) returns (quality: real)
    ensures quality == |MentionedNames(thinkContentLower, gtMap)| as real
  {
    quality := 0.0;
    var remaining := gtMap.Keys;
    while remaining != {}
      invariant remaining <= gtMap.Keys
      invariant quality == |MentionedNames(thinkContentLower, gtMap) - remaining| as real
      decreases |remaining|
    {
      var name :| name in remaining;
      RemoveOne(MentionedNames(thinkContentLower, gtMap), remaining, name);
      if ContainsWord(thinkContentLower, name) {
        quality := quality + RewardForKeywordInThink;
      }
      remaining := remaining - {name};
    }
  }

  /** Stage 4's loop over the entries: one count per role the answer asserts. */
  method AssertionCount(modelAnswerText: string, gtMap: map<string, string>) returns (count: nat)
    ensures count == |AssertedNames(Lower(modelAnswerText), gtMap)|
  {
    var answerLower := Lower(modelAnswerText);
    count := 0;
    var remaining := gtMap.Keys;
    while remaining != {}
      invariant remaining <= gtMap.Keys
      invariant count == |AssertedNames(answerLower, gtMap) - remaining|
      decreases |remaining|
    {
      var name :| name in remaining;
      RemoveOne(AssertedNames(answerLower, gtMap), remaining, name);
      if AssertsRole(answerLower, name, gtMap[name]) {
        count := count + 1;
      }
      remaining := remaining - {name};
    }
  }

  /** Each name counts at most once, so both scores are bounded by the size of the map. */
  lemma NameScoresBounded(thinkLower: string, answerLower: string, gtMap: map<string, string>)
    ensures |MentionedNames(thinkLower, gtMap)| <= |gtMap|
    ensures |AssertedNames(answerLower, gtMap)| <= |gtMap|
  {
    SubsetCardinality(MentionedNames(thinkLower, gtMap), gtMap.Keys);
    SubsetCardinality(AssertedNames(answerLower, gtMap), gtMap.Keys);
  }

  // ---------------------------------------------------------------------------
  // `compute_score`
  // ---------------------------------------------------------------------------

  /** `ground_truth.get("solution_text_format", "")`. */
  function SolutionText(groundTruth: map<string, string>): string {
    if SolutionKey in groundTruth then groundTruth[SolutionKey] else ""
  }

  /** Stage 3 as a reference: the length score, and one point per mentioned name when there is a ground truth. */
  function ThinkTerm(thinkContent: string, gtMap: map<string, string>): real {
    LengthScore(|thinkContent|)
    + if gtMap == map[] then 0.0 else |MentionedNames(Lower(thinkContent), gtMap)| as real
  }

  /** Stage 4 as a reference: the empty penalty, nothing (no ground truth) or four points per asserted role. */
  function AnswerTerm(answerText: string, gtMap: map<string, string>): real {
    if answerText == [] then PenaltyContentEmptyAnswer
    else if gtMap == map[] then 0.0
    else (RewardForEachCorrectAssertion * |AssertedNames(Lower(answerText), gtMap)|) as real
  }

  /** What stages 3 and 4 add to a well-formed response, from its stripped blocks. */
  function ContentTerms(think: string, answer: string, gtMap: map<string, string>): real {
    ThinkTerm(Strip(think), gtMap) + AnswerTerm(Strip(answer), gtMap)
  }

  /** Reference definition of the whole score, from the structural verdict. */
  function KkScore(s: string, groundTruth: map<string, string>): real {
    match CheckTags(s)
    case MissingOrDuplicate(k) => RewardTagPresent * k as real + PenaltyTagMissingOrDuplicate
    case WrongOrder => 4.0 * RewardTagPresent + PenaltyOrderIncorrect
    case WellFormed(think, answer) =>
      4.0 * RewardTagPresent + RewardOrderCorrect + ContentTerms(think, answer, ParsedGt(SolutionText(groundTruth)))
  }

  /** `compute_score`: the tag stage with early returns, then the content stages. */
  method ComputeScore(modelResponse: string, groundTruth: map<string, string>) returns (score: real)
    ensures score == KkScore(modelResponse, groundTruth)
  {
    score := 0.0;
    var tagPositions: map<TagName, nat> := map[];

    // Stages 1 and 2: each tag exists and is unique, then strict order.
    var k := 0;
    while k < |CriticalTags|
      invariant 0 <= k <= 4
      invariant UniqueBelow(modelResponse, k)
      invariant score == RewardTagPresent * k as real
      invariant forall j :: 0 <= j < k ==>
        CriticalTags[j].0 in tagPositions && tagPositions[CriticalTags[j].0] == Position(modelResponse, j)
    {
      var (tagName, pattern) := CriticalTags[k];
      var matches := Occurrences(modelResponse, pattern);
      if |matches| == 1 {
        score := score + RewardTagPresent;
        tagPositions := tagPositions[tagName := matches[0]];
      } else {
        RejectedAtFirstBadTag(modelResponse, k, groundTruth);
        return score + PenaltyTagMissingOrDuplicate;
      }
      k := k + 1;
    }

    assert CriticalTags[0].0 == ThinkStart && CriticalTags[1].0 == ThinkEnd;
    assert CriticalTags[2].0 == AnswerStart && CriticalTags[3].0 == AnswerEnd;
    assert tagPositions[ThinkStart] == Position(modelResponse, 0);
    assert tagPositions[ThinkEnd] == Position(modelResponse, 1);
    assert tagPositions[AnswerStart] == Position(modelResponse, 2);
    assert tagPositions[AnswerEnd] == Position(modelResponse, 3);
    if !(tagPositions[ThinkStart] < tagPositions[ThinkEnd] < tagPositions[AnswerStart] < tagPositions[AnswerEnd]) {
      WrongOrderScore(modelResponse, groundTruth);
      return score + PenaltyOrderIncorrect;
    } else {
      score := score + RewardOrderCorrect;
    }

    // Stages 3 and 4.
    var contentScore := ContentScore(modelResponse, groundTruth);
    score := score + contentScore;
  }

  /** Stages 3 and 4 of `compute_score`, from the lazy searches for the two blocks. */
  method ContentScore(modelResponse: string, groundTruth: map<string, string>) returns (score: real)
    requires UniqueBelow(modelResponse, 4) && InStrictOrder(modelResponse)
    ensures CheckTags(modelResponse).WellFormed?
    ensures score == ContentTerms(CheckTags(modelResponse).think, CheckTags(modelResponse).answer,
                                  ParsedGt(SolutionText(groundTruth)))
  {
    BlockGroups(modelResponse);

    // Stage 3: the stripped think block.
    var thinkContentMatch := LazySpan(modelResponse, ThinkOpen, ThinkClose, 0);
    var thinkContent := Strip(Group(modelResponse, thinkContentMatch));
    var gtMap := ParseGtToMap(SolutionText(groundTruth));
    score := ThinkScore(thinkContent, gtMap);

    // Stage 4: the stripped answer block.
    var answerContentMatch := LazySpan(modelResponse, AnswerOpen, AnswerClose, 0);
    var modelAnswerText := Strip(Group(modelResponse, answerContentMatch));
    var answerScore := AnswerScore(modelAnswerText, gtMap);
    score := score + answerScore;
  }

  /** Stage 3: the length score of the stripped think block, then one point per ground-truth name it mentions. */
  method ThinkScore(thinkContent: string, gtMap: map<string, string>) returns (score: real)
    ensures score == ThinkTerm(thinkContent, gtMap)
  {
    var thinkLength := |thinkContent|;
    var thinkLengthScore := LengthScore(thinkLength);
    score := thinkLengthScore;
    if gtMap != map[] {
      var thinkQualityScore := KeywordScore(Lower(thinkContent), gtMap);
      score := score + thinkQualityScore;
    }
  }

  /** Stage 4: the empty-answer penalty, or four points per ground-truth role the answer asserts. */
  method AnswerScore(modelAnswerText: string, gtMap: map<string, string>) returns (score: real)
    ensures score == AnswerTerm(modelAnswerText, gtMap)
  {
    if modelAnswerText == [] {
      return PenaltyContentEmptyAnswer;
    }
    if gtMap == map[] {
      return 0.0;
    }
    var numCorrectAssertions := AssertionCount(modelAnswerText, gtMap);
    var answerScore := numCorrectAssertions * RewardForEachCorrectAssertion;
    score := answerScore as real;
  }

  /** The first tag whose count is not 1 ends scoring at `0.5*k - 4.0`, keeping the bonuses of the `k` tags before it. */
  lemma RejectedAtFirstBadTag(s: string, k: nat, groundTruth: map<string, string>)
    requires k < 4 && UniqueBelow(s, k) && |Occurrences(s, TagText(k))| != 1
    ensures KkScore(s, groundTruth) == 0.5 * k as real - 4.0
  {
  }

  /** All four tags once but out of order: four bonuses and the order penalty. */
  lemma WrongOrderScore(s: string, groundTruth: map<string, string>)
    requires UniqueBelow(s, 4) && !InStrictOrder(s)
    ensures KkScore(s, groundTruth) == -3.0
  {
  }

  /** A well-structured response starts its content stages from 3.0. */
  lemma WellFormedScore(s: string, groundTruth: map<string, string>)
    requires UniqueBelow(s, 4) && InStrictOrder(s)
    ensures CheckTags(s).WellFormed?
    ensures KkScore(s, groundTruth)
            == 3.0 + ContentTerms(CheckTags(s).think, CheckTags(s).answer, ParsedGt(SolutionText(groundTruth)))
  {
  }

  /**
   * Bounds of the content stages: the length score lies in [-4, 4], the keyword
   * score in [0, |map|] and the answer score in {-2} or [0, 4 * |map|].
   */
  lemma ContentTermsBounds(think: string, answer: string, gtMap: map<string, string>)
    ensures -6.0 <= ContentTerms(think, answer, gtMap) <= 4.0 + 5.0 * |gtMap| as real
  {
    NameScoresBounded(Lower(Strip(think)), Lower(Strip(answer)), gtMap);
  }

  /** An empty stripped answer costs 2.0 whatever the ground truth; a non-empty one with no ground truth adds nothing. */
  lemma AnswerWithoutCredit(think: string, answer: string, gtMap: map<string, string>)
    ensures Strip(answer) == [] ==>
            ContentTerms(think, answer, gtMap)
            == LengthScore(|Strip(think)|) + (if gtMap == map[] then 0.0 else |MentionedNames(Lower(Strip(think)), gtMap)| as real) - 2.0
    ensures Strip(answer) != [] && gtMap == map[] ==> ContentTerms(think, answer, gtMap) == LengthScore(|Strip(think)|)
  {
  }

  /** A missing `solution_text_format` behaves as an empty solution: the map is empty. */
  lemma MissingSolutionIsEmpty(groundTruth: map<string, string>)
    requires SolutionKey !in groundTruth
    ensures ParsedGt(SolutionText(groundTruth)) == map[]
  {
  }

  /** The score lies in [-4, 7 + 5 * |map|]. */
  lemma KkScoreBounds(s: string, groundTruth: map<string, string>)
    ensures -4.0 <= KkScore(s, groundTruth) <= 7.0 + 5.0 * |ParsedGt(SolutionText(groundTruth))| as real
  {
    match CheckTags(s)
    case MissingOrDuplicate(k) =>
    case WrongOrder =>
    case WellFormed(think, answer) =>
      ContentTermsBounds(think, answer, ParsedGt(SolutionText(groundTruth)));
  }
}
