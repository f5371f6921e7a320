/**
 * The chemistry reward manager: it scores each sample of a batch with the
 * molecule scorer and places the score at the sample's last valid response position.
 */
module ChemReward {
  import opened Wrappers
  import opened Batch
  import Chem

  const ScoreKey: string := "chem_score"

  /** `chem.compute_score`, which ignores its ground truth. */
  function MoleculeScorer(tk: Chem.Toolkit): ScoreFunction {
    (solution: string, groundTruth: GroundTruth) => Chem.ChemScore(tk, solution)
  }

  /**
   * A row that is scored holds exactly the molecule score of its decoded response,
   * whether or not it carries a ground truth.
   */
  lemma RowHoldsMoleculeScore(s: Sample, width: nat, tokenizer: Tokenizer, rewardFnKey: string, tk: Chem.Toolkit)
    ensures var row := RowResult(s, width, tokenizer, rewardFnKey, DefaultEmpty, MoleculeScorer(tk));
            (row.Success? <==> rewardFnKey in s.nonTensor && WriteColumn(s, width).Some?)
            && (row.Success? ==> row.value == Placement(Chem.ChemScore(tk, tokenizer(ValidResponseIds(s))),
                                                        WriteColumn(s, width).value))
  {
  }

  class ChemRewardManager {
    const tokenizer: Tokenizer
    const numExamine: int
    const rewardFnKey: string

    constructor(tokenizer: Tokenizer, numExamine: int, rewardFnKey: string)
      ensures this.tokenizer == tokenizer && this.numExamine == numExamine && this.rewardFnKey == rewardFnKey
    {
      this.tokenizer := tokenizer;
      this.numExamine := numExamine;
      this.rewardFnKey := rewardFnKey;
    }

    /**
     * `__call__`: pass `rm_scores` through when present; otherwise score every row
     * with the molecule scorer, a missing ground truth standing for `{}`.
     */
    method Call(data: DataProto, returnDict: bool, tk: Chem.Toolkit) returns (r: Result<RewardOutput, PyError>)
      ensures data.rmScores.Some? ==> r == Success(PassThrough(data.rmScores.value, returnDict))
      ensures data.rmScores.None? && Collect(Rows(data, tokenizer, rewardFnKey, DefaultEmpty, MoleculeScorer(tk))).Failure? ==>
                r == Failure(Collect(Rows(data, tokenizer, rewardFnKey, DefaultEmpty, MoleculeScorer(tk))).error)
      ensures data.rmScores.None? && Collect(Rows(data, tokenizer, rewardFnKey, DefaultEmpty, MoleculeScorer(tk))).Success? ==>
                var ps := Collect(Rows(data, tokenizer, rewardFnKey, DefaultEmpty, MoleculeScorer(tk))).value;
                && r.Success? && (r.value.Dict? <==> returnDict)
                && fresh(r.value.rewardTensor)
                && r.value.rewardTensor.Length0 == |data.samples|
                && r.value.rewardTensor.Length1 == data.responseWidth
                && (forall i, j :: 0 <= i < |data.samples| && 0 <= j < data.responseWidth ==>
                      r.value.rewardTensor[i, j] == Cell(ps, i, j))
                && (returnDict ==> r.value.rewardExtraInfo == ExtraInfo(ScoreKey, Scores(ps)))
    {
      if data.rmScores.Some? {
        return Success(PassThrough(data.rmScores.value, returnDict));
      }
      r := ScoreBatch(data, tokenizer, numExamine, rewardFnKey, DefaultEmpty, MoleculeScorer(tk), ScoreKey, returnDict);
    }
  }
}
