/**
 * The record conversion of scripts/generate_chem_rl_dataset.py: each SFT item
 * (an instruction/input/output dictionary) becomes an RL record whose prompt is
 * the instruction as one user message, with fixed data source, ability and
 * reward style, an empty ground truth, and the item's split and position.
 */
module ChemDataset {
  import opened Batch

  /** An SFT item: its string fields by name. */
  type SftItem = map<string, string>

  datatype Message = Message(role: string, content: string)
  datatype RewardModel = RewardModel(style: string, groundTruth: map<string, string>)
  datatype SplitInfo = SplitInfo(split: string, index: nat)
  datatype RlRecord = RlRecord(dataSource: string, prompt: seq<Message>, ability: string,
                               rewardModel: RewardModel, extraInfo: SplitInfo)

  const DataSource: string := "egfr_molecule"
  const Ability: string := "chemistry"
  const RewardStyle: string := "rule"

  /** `item.get("instruction", "")`. */
  function Instruction(item: SftItem): string {
    if "instruction" in item then item["instruction"] else ""
  }

  /** The record built for the item at position `index`. */
  function Record(item: SftItem, split: string, index: nat): RlRecord {
    RlRecord(DataSource, [Message("user", Instruction(item))], Ability,
             RewardModel(RewardStyle, map[]), SplitInfo(split, index))
  }

  /** The converted list: one record per item, in order. */
  function Converted(sftData: seq<SftItem>, split: string): (r: seq<RlRecord>)
    ensures |r| == |sftData|
  {
    seq(|sftData|, i requires 0 <= i < |sftData| => Record(sftData[i], split, i))
  }

  /**
   * `convert_sft_to_rl_format`: as many records as items, in the same order; record
   * `i` carries index `i` and the split, a single user message holding the item's
   * instruction (empty when absent), and the same constants as every other record.
   */
  method ConvertSftToRlFormat(sftData: seq<SftItem>, split: string) returns (rlData: seq<RlRecord>)
    ensures rlData == Converted(sftData, split)
    ensures |rlData| == |sftData|
    ensures forall i :: 0 <= i < |rlData| ==>
              rlData[i].extraInfo == SplitInfo(split, i)
              && rlData[i].prompt == [Message("user", Instruction(sftData[i]))]
              && rlData[i].dataSource == DataSource && rlData[i].ability == Ability
              && rlData[i].rewardModel == RewardModel(RewardStyle, map[])
  {
    rlData := [];
    for idx := 0 to |sftData|
      invariant |rlData| == idx
      invariant forall k :: 0 <= k < idx ==> rlData[k] == Record(sftData[k], split, k)
    {
      var item := sftData[idx];
      var instruction := Instruction(item);
      var rlItem := RlRecord(DataSource, [Message("user", instruction)], Ability,
                             RewardModel(RewardStyle, map[]), SplitInfo(split, idx));
      rlData := rlData + [rlItem];
    }
  }

  /**
   * The truncation in `main`: when the list is longer than `max_size`, keep
   * `sft_data[:max_size]`; a negative size drops that many items from the end.
   */
  method LimitSize(sftData: seq<SftItem>, maxSize: int) returns (limited: seq<SftItem>)
    ensures |sftData| <= maxSize ==> limited == sftData
    ensures 0 <= maxSize ==> limited == sftData[..Min(|sftData|, maxSize)]
    ensures maxSize < 0 ==> limited == sftData[..Max(|sftData| + maxSize, 0)]
  {
    limited := sftData;
    if |limited| > maxSize {
      limited := SliceTo(limited, maxSize);
    }
  }

  /**
   * Converting the first `k` items gives the first `k` records of converting all
   * of them: truncating before conversion, as `main` does, changes no record that
   * is kept.
   */
  lemma {:induction false} ConvertedPrefix(sftData: seq<SftItem>, split: string, k: nat)
    requires k <= |sftData|
    ensures Converted(sftData[..k], split) == Converted(sftData, split)[..k]
  {
    var a, b := Converted(sftData[..k], split), Converted(sftData, split)[..k];
    forall i | 0 <= i < k ensures a[i] == b[i] {
      assert sftData[..k][i] == sftData[i];
    }
  }
}
