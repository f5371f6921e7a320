/**
 * The Logic-RL reward manager: it scores each sample of a batch with the `kk`
 * scorer and places the score at the sample's last valid response position.
 */
module LogicRlReward {
  import opened Wrappers
  import opened Text
  import opened Batch
  import RuleScore

  /** The scorers `_select_rm_score_fn` can return. */
  datatype ScoreFn = Gsm8k | MathFn | Countdown | Kk | Rule

  /** The scorers of the modules gsm8k, math, countdown and kk, none of which is part of this model. */
  datatype Scorers = Scorers(gsm8k: ScoreFunction, math: ScoreFunction, countdown: ScoreFunction, kk: ScoreFunction)

  /** The `compute_score` a selection stands for; `rule.compute_score` ignores its ground truth. */
  function ScorerOf(fn: ScoreFn, scorers: Scorers): ScoreFunction {
    match fn
    case Gsm8k => scorers.gsm8k
    case MathFn => scorers.math
    case Countdown => scorers.countdown
    case Kk => scorers.kk
    case Rule => (solution: string, groundTruth: GroundTruth) => RuleScore.FormatScore(solution)
  }

  /**
   * `_select_rm_score_fn` as written: the gsm8k, math and countdown modules are
   * referenced but never imported, so those three branches raise NameError.
   */
  function SelectRmScoreFnAsWritten(dataSource: string): Result<ScoreFn, PyError> {
    if dataSource == "openai/gsm8k" then Failure(NameError("gsm8k"))
    else if dataSource == "lighteval/MATH" then Failure(NameError("math"))
    else if Contains(dataSource, "countdown") then Failure(NameError("countdown"))
    else if Contains(dataSource, "kk") then Success(Kk)
    else if Contains(dataSource, "rule") then Success(Rule)
    else Failure(NotImplementedError)
  }

  /** `_select_rm_score_fn` with its three modules imported: first-match dispatch on the data source. */
  function SelectRmScoreFn(dataSource: string): Result<ScoreFn, PyError> {
    if dataSource == "openai/gsm8k" then Success(Gsm8k)
    else if dataSource == "lighteval/MATH" then Success(MathFn)
    else if Contains(dataSource, "countdown") then Success(Countdown)
    else if Contains(dataSource, "kk") then Success(Kk)
    else if Contains(dataSource, "rule") then Success(Rule)
    else Failure(NotImplementedError)
  }

  /**
   * The dispatch raises NotImplementedError exactly for a source that is neither
   * exact gsm8k nor exact MATH and names none of countdown, kk and rule; a source
   * naming kk goes to kk unless an earlier test claims it.
   */
  lemma SelectRmScoreFnCases(dataSource: string)
    ensures SelectRmScoreFn(dataSource) == Failure(NotImplementedError) <==>
              dataSource != "openai/gsm8k" && dataSource != "lighteval/MATH"
              && !Contains(dataSource, "countdown") && !Contains(dataSource, "kk") && !Contains(dataSource, "rule")
    ensures SelectRmScoreFn(dataSource).Success? <==> SelectRmScoreFn(dataSource) != Failure(NotImplementedError)
    ensures Contains(dataSource, "kk") && !Contains(dataSource, "countdown")
            && dataSource != "openai/gsm8k" && dataSource != "lighteval/MATH" ==>
              SelectRmScoreFn(dataSource) == Success(Kk)
  {
  }

  /** "newkk" contains "kk", so it is routed to the kk scorer (the newkk branch is commented out). */
  lemma NewkkRoutesToKk()
    ensures SelectRmScoreFn("newkk") == Success(Kk)
  {
    assert OccursAt("newkk", "kk", 3);
    assert !Contains("newkk", "countdown");
  }

  /** The manager's own key: "kk" selects the kk scorer, as written and corrected alike. */
  lemma KkSelected()
    ensures SelectRmScoreFn("kk") == Success(Kk)
    ensures SelectRmScoreFnAsWritten("kk") == Success(Kk)
  {
    assert OccursAt("kk", "kk", 0);
    assert !Contains("kk", "countdown");
  }

  /** The two versions differ only where the written one raises NameError. */
  lemma AsWrittenDiffersOnlyByNameError(dataSource: string)
    ensures SelectRmScoreFnAsWritten(dataSource) != SelectRmScoreFn(dataSource) <==>
              SelectRmScoreFnAsWritten(dataSource).Failure? && SelectRmScoreFnAsWritten(dataSource).error.NameError?
    ensures SelectRmScoreFnAsWritten(dataSource).Failure? && SelectRmScoreFnAsWritten(dataSource).error.NameError? <==>
              SelectRmScoreFn(dataSource) in {Success(Gsm8k), Success(MathFn), Success(Countdown)}
  {
  }

  /** The data source gsm8k is meant for ends in NameError as written. */
  lemma Gsm8kNameError()
    ensures SelectRmScoreFnAsWritten("openai/gsm8k") == Failure(NameError("gsm8k"))
    ensures SelectRmScoreFn("openai/gsm8k") == Success(Gsm8k)
  {
  }

  const ScoreKey: string := "logic_rl_score"

  class LogicRLRewardManager {
    const tokenizer: Tokenizer
    const numExamine: int
    const rewardFnKey: string

    constructor(tokenizer: Tokenizer, numExamine: int, rewardFnKey: string)
      ensures this.tokenizer == tokenizer && this.numExamine == numExamine && this.rewardFnKey == rewardFnKey
    {
      this.tokenizer := tokenizer;
      this.numExamine := numExamine;
      this.rewardFnKey := rewardFnKey;
    }

    /**
     * `__call__`: pass `rm_scores` through when present; otherwise score every row
     * with the kk scorer, whatever its data source, requiring its ground truth.
     */
    method Call(data: DataProto, returnDict: bool, scorers: Scorers) returns (r: Result<RewardOutput, PyError>)
      ensures data.rmScores.Some? ==> r == Success(PassThrough(data.rmScores.value, returnDict))
      ensures data.rmScores.None? && Collect(Rows(data, tokenizer, rewardFnKey, Required, scorers.kk)).Failure? ==>
                r == Failure(Collect(Rows(data, tokenizer, rewardFnKey, Required, scorers.kk)).error)
      ensures data.rmScores.None? && Collect(Rows(data, tokenizer, rewardFnKey, Required, scorers.kk)).Success? ==>
                var ps := Collect(Rows(data, tokenizer, rewardFnKey, Required, scorers.kk)).value;
                && r.Success? && (r.value.Dict? <==> returnDict)
                && fresh(r.value.rewardTensor)
                && r.value.rewardTensor.Length0 == |data.samples|
                && r.value.rewardTensor.Length1 == data.responseWidth
                && (forall i, j :: 0 <= i < |data.samples| && 0 <= j < data.responseWidth ==>
                      r.value.rewardTensor[i, j] == Cell(ps, i, j))
                && (returnDict ==> r.value.rewardExtraInfo == ExtraInfo(ScoreKey, Scores(ps)))
    {
      if data.rmScores.Some? {
        return Success(PassThrough(data.rmScores.value, returnDict));
      }
      KkSelected();
      var computeScoreFn := ScorerOf(SelectRmScoreFn("kk").value, scorers);
      r := ScoreBatch(data, tokenizer, numExamine, rewardFnKey, Required, computeScoreFn, ScoreKey, returnDict);
    }
  }
}
