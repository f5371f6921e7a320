/**
 * The format scorer of rule.py. It rewards structure only: each unique tag, the
 * tag order, and a non-empty `<think>` and `<answer>` block. The ground truth is
 * accepted and ignored.
 */
module RuleScore {
  import opened Wrappers
  import opened Text
  import opened Tags

  const RewardTagPresent: real := 0.5
  const PenaltyTagMissingOrDuplicate: real := -2.0
  const RewardOrderCorrect: real := 1.0
  const PenaltyOrderIncorrect: real := -3.0
  const RewardContentNonEmptyThink: real := 0.2
  const PenaltyContentEmptyThink: real := -0.5
  const RewardContentNonEmptyAnswer: real := 0.5
  const PenaltyContentEmptyAnswer: real := -1.0

  /**
   * Reference definition of the format score, from the structural verdict:
   * a rejection keeps the bonuses of the tags already found.
   */
  function FormatScore(s: string): (r: real)
    ensures -2.0 <= r <= 3.7
  {
    match CheckTags(s)
    case MissingOrDuplicate(k) => RewardTagPresent * k as real + PenaltyTagMissingOrDuplicate
    case WrongOrder => 4.0 * RewardTagPresent + PenaltyOrderIncorrect
    case WellFormed(think, answer) =>
      4.0 * RewardTagPresent + RewardOrderCorrect
      + BlockTerm(think, RewardContentNonEmptyThink, PenaltyContentEmptyThink)
      + BlockTerm(answer, RewardContentNonEmptyAnswer, PenaltyContentEmptyAnswer)
  }

  /** A block earns its reward when it holds something besides whitespace, else its penalty. */
  function BlockTerm(content: string, reward: real, penalty: real): real {
    if Strip(content) != [] then reward else penalty
  }

  /** `compute_score`: the staged scan with early returns. */
  method ComputeScore(modelResponse: string, groundTruth: string) returns (score: real)
    ensures score == FormatScore(modelResponse)
  {
    score := 0.0;
    var tagPositions: map<TagName, nat> := map[];

    // Stage 1: each tag exists and is unique.
    var k := 0;
    while k < |CriticalTags|
      invariant 0 <= k <= 4
      invariant UniqueBelow(modelResponse, k)
      invariant score == RewardTagPresent * k as real
      invariant forall j :: 0 <= j < k ==>
        CriticalTags[j].0 in tagPositions && tagPositions[CriticalTags[j].0] == Position(modelResponse, j)
    {
      var (tagName, pattern) := CriticalTags[k];
      var matches := Occurrences(modelResponse, pattern);
      if |matches| == 1 {
        score := score + RewardTagPresent;
        tagPositions := tagPositions[tagName := matches[0]];
      } else if |matches| == 0 {
        score := score + PenaltyTagMissingOrDuplicate;
        RejectedAtFirstBadTag(modelResponse, k);
        return;
      } else {
        score := score + PenaltyTagMissingOrDuplicate;
        RejectedAtFirstBadTag(modelResponse, k);
        return;
      }
      k := k + 1;
    }

    // Stage 2: strict order of the start offsets.
    assert CriticalTags[0].0 == ThinkStart && CriticalTags[1].0 == ThinkEnd;
    assert CriticalTags[2].0 == AnswerStart && CriticalTags[3].0 == AnswerEnd;
    var tsStart, teStart := tagPositions[ThinkStart], tagPositions[ThinkEnd];
    var asStart, aeStart := tagPositions[AnswerStart], tagPositions[AnswerEnd];
    assert tsStart == Position(modelResponse, 0) && teStart == Position(modelResponse, 1);
    assert asStart == Position(modelResponse, 2) && aeStart == Position(modelResponse, 3);
    if tsStart < teStart && teStart < asStart && asStart < aeStart {
      score := score + RewardOrderCorrect;
    } else {
      score := score + PenaltyOrderIncorrect;
      WrongOrderScore(modelResponse);
      return;
    }

    // Stage 3: non-empty blocks, found by the lazy searches.
    BlockGroups(modelResponse);
    var thinkContentMatch := LazySpan(modelResponse, ThinkOpen, ThinkClose, 0);
    if Strip(Group(modelResponse, thinkContentMatch)) != [] {
      score := score + RewardContentNonEmptyThink;
    } else {
      score := score + PenaltyContentEmptyThink;
    }
    var answerContentMatch := LazySpan(modelResponse, AnswerOpen, AnswerClose, 0);
    if Strip(Group(modelResponse, answerContentMatch)) != [] {
      score := score + RewardContentNonEmptyAnswer;
    } else {
      score := score + PenaltyContentEmptyAnswer;
    }
  }

  /** The score takes one of eight values. */
  lemma FormatScoreValues(s: string)
    ensures FormatScore(s) in {-2.0, -1.5, -1.0, -0.5, 1.5, 2.2, 3.0, 3.7}
  {
  }

  /** Missing and duplicated tags are penalised alike, after the bonuses of the `k` tags before them. */
  lemma RejectedAtFirstBadTag(s: string, k: nat)
    requires k < 4 && UniqueBelow(s, k)
    requires |Occurrences(s, TagText(k))| == 0 || |Occurrences(s, TagText(k))| > 1
    ensures FormatScore(s) == 0.5 * k as real - 2.0
  {
  }

  /** With no '<' at all (plain text) no tag is found and the score is the bare penalty. */
  lemma PlainTextScore(s: string)
    requires forall i :: 0 <= i < |s| ==> s[i] != '<'
    ensures FormatScore(s) == -2.0
  {
    NoFirstCharNoOccurrences(s, TagText(0), 0);
  }

  /** The plain-text example of rule.py. */
  lemma PlainTextExample()
    ensures FormatScore("Just plain text output.") == -2.0
  {
    PlainTextScore("Just plain text output.");
  }

  /** A duplicated `<think>` stops at the first tag, whatever the rest holds. */
  lemma DuplicateThinkScore(s: string)
    requires |Occurrences(s, ThinkOpen)| >= 2
    ensures FormatScore(s) == -2.0
  {
  }

  /** `<think>` once and `</think>` missing scores -1.5: the first tag's bonus is kept. */
  lemma MissingThinkEndScore(s: string)
    requires |Occurrences(s, ThinkOpen)| == 1 && |Occurrences(s, ThinkClose)| == 0
    ensures FormatScore(s) == -1.5
  {
  }

  /** All four tags once but out of order: four bonuses and the order penalty. */
  lemma WrongOrderScore(s: string)
    requires UniqueBelow(s, 4) && !InStrictOrder(s)
    ensures FormatScore(s) == -1.0
  {
  }

  /**
   * A well-structured response scores 3.0 plus one term per block: 3.7 when both
   * blocks hold non-whitespace, 2.2 when only the answer is blank.
   */
  lemma WellFormedScore(s: string)
    requires UniqueBelow(s, 4) && InStrictOrder(s)
    ensures CheckTags(s).WellFormed?
    ensures var think, answer := CheckTags(s).think, CheckTags(s).answer;
            && (FormatScore(s) == 3.7 <==> !AllSpace(think) && !AllSpace(answer))
            && (!AllSpace(think) && AllSpace(answer) ==> FormatScore(s) == 2.2)
  {
    StripMeaning(CheckTags(s).think);
    StripMeaning(CheckTags(s).answer);
  }

  /** Only well-structured responses score above zero. */
  lemma PositiveOnlyWhenWellFormed(s: string)
    ensures FormatScore(s) > 0.0 <==> CheckTags(s).WellFormed?
  {
  }
}
