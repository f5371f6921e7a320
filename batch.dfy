/**
 * What both reward managers read from a batch (a `DataProto`), and the
 * per-sample arithmetic they share: the valid prompt and response lengths taken
 * from the attention mask, the slices they select with Python's slice rules,
 * the column the score is written to with Python's index rules, and the
 * per-data-source counter that decides which samples are printed.
 */
module Batch {
  import opened Wrappers

  /** The ground truth a sample carries; chem ignores it, the kk scorer reads it. */
  type GroundTruth = map<string, string>

  /** The exceptions a manager call can end with. */
  datatype PyError = KeyError(key: string) | IndexError | NotImplementedError | NameError(name: string)

  /**
   * One row of the batch: its prompt and response token ids, its attention mask,
   * the `ground_truth` entry of its `reward_model` (None when the key is absent)
   * and its other non-tensor fields, such as `data_source`.
   */
  datatype Sample = Sample(
    prompt: seq<int>,
    response: seq<int>,
    attentionMask: seq<int>,
    groundTruth: Option<GroundTruth>,
    nonTensor: map<string, string>)

  /**
   * A batch: `rm_scores` when a reward model already scored it, the rows, and the
   * width of the `responses` tensor (every row's response has that many ids).
   */
  datatype DataProto = DataProto(rmScores: Option<array2<real>>, samples: seq<Sample>, responseWidth: nat)

  /** What a call returns: the reward grid, or with `return_dict` the grid and the extra info. */
  datatype RewardOutput =
    | Tensor(rewardTensor: array2<real>)
    | Dict(rewardTensor: array2<real>, rewardExtraInfo: map<string, seq<real>>)

  /** The output of the `rm_scores` pass-through. */
  function PassThrough(scores: array2<real>, returnDict: bool): RewardOutput {
    if returnDict then Dict(scores, map[]) else Tensor(scores)
  }

  /**
   * `reward_extra_info` is a `defaultdict(list)`: the key exists only once
   * something was appended to it.
   */
  function ExtraInfo(key: string, scores: seq<real>): (m: map<string, seq<real>>)
    ensures key in m <==> scores != []
    ensures key in m ==> m[key] == scores
    ensures forall k :: k in m ==> k == key
  {
    if scores == [] then map[] else map[key := scores]
  }

  // ---------------------------------------------------------------------------
  // Python slicing and indexing
  // ---------------------------------------------------------------------------

  function Min(a: int, b: int): int {
    if a <= b then a else b
  }

  function Max(a: int, b: int): int {
    if a >= b then a else b
  }

  /** A slice bound as Python resolves it: negative counts from the end, then clamped to [0, n]. */
  function ClampIndex(i: int, n: nat): (r: nat)
    ensures r <= n
  {
    if i < 0 then Max(n + i, 0) else Min(i, n)
  }

  /** `s[start:]`. */
  function SliceFrom<T>(s: seq<T>, start: int): (r: seq<T>)
    ensures |r| == if start >= 0 then Max(|s| - start, 0) else Min(-start, |s|)
    ensures r == s[|s| - |r|..]
  {
    s[ClampIndex(start, |s|)..]
  }

  /** `s[:end]`. */
  function SliceTo<T>(s: seq<T>, end: int): (r: seq<T>)
    ensures |r| == if end >= 0 then Min(end, |s|) else Max(|s| + end, 0)
    ensures r == s[..|r|]
  {
    s[..ClampIndex(end, |s|)]
  }

  /** The element `s[i]` would reach: negative indices count from the end; None is an IndexError. */
  function PyIndex(i: int, n: nat): (r: Option<nat>)
    ensures r.Some? <==> -(n as int) <= i < n
    ensures r.Some? ==> r.value < n && (r.value == i || r.value == i + n)
  {
    if 0 <= i < n then Some(i) else if -(n as int) <= i < 0 then Some(i + n) else None
  }

  // ---------------------------------------------------------------------------
  // Mask lengths
  // ---------------------------------------------------------------------------

  function Sum(xs: seq<int>): int {
    if xs == [] then 0 else Sum(xs[..|xs| - 1]) + xs[|xs| - 1]
  }

  predicate Binary(xs: seq<int>) {
    forall k :: 0 <= k < |xs| ==> xs[k] == 0 || xs[k] == 1
  }

  /** The sum of a 0/1 mask counts its ones, so it lies between 0 and the mask's length. */
  lemma {:induction false} BinarySumBounds(xs: seq<int>)
    requires Binary(xs)
    ensures 0 <= Sum(xs) <= |xs|
    ensures Sum(xs) == |xs| <==> forall k :: 0 <= k < |xs| ==> xs[k] == 1
  {
    if xs != [] {
      var init := xs[..|xs| - 1];
      assert Binary(init) by {
        forall k | 0 <= k < |init| ensures init[k] == 0 || init[k] == 1 {
          assert init[k] == xs[k];
        }
      }
      BinarySumBounds(init);
      if forall k :: 0 <= k < |xs| ==> xs[k] == 1 {
        assert forall k :: 0 <= k < |init| ==> init[k] == xs[k];
      }
    }
  }

  /** `attention_mask[:prompt_length].sum()`. */
  function ValidPromptLength(s: Sample): int {
    Sum(SliceTo(s.attentionMask, |s.prompt|))
  }

  /** `attention_mask[prompt_length:].sum()`. */
  function ValidResponseLength(s: Sample): int {
    Sum(SliceFrom(s.attentionMask, |s.prompt|))
  }

  /** `prompt_ids[-valid_prompt_length:]`. */
  function ValidPromptIds(s: Sample): seq<int> {
    SliceFrom(s.prompt, -ValidPromptLength(s))
  }

  /** `response_ids[:valid_response_length]`. */
  function ValidResponseIds(s: Sample): seq<int> {
    SliceTo(s.response, ValidResponseLength(s))
  }

  /** A 0/1 mask covering the prompt then the response. */
  predicate WellMasked(s: Sample) {
    Binary(s.attentionMask) && |s.attentionMask| == |s.prompt| + |s.response|
  }

  /**
   * With a 0/1 mask over prompt then response, the decoded response is the prefix
   * of `valid_response_length` ids, and the decoded prompt the suffix of
   * `valid_prompt_length` ids, except that a length of 0 selects the whole
   * prompt (`prompt_ids[-0:]` is `prompt_ids[0:]`).
   */
  lemma MaskedSlices(s: Sample)
    requires WellMasked(s)
    ensures 0 <= ValidPromptLength(s) <= |s.prompt|
    ensures 0 <= ValidResponseLength(s) <= |s.response|
    ensures ValidResponseIds(s) == s.response[..ValidResponseLength(s)]
    ensures ValidPromptLength(s) > 0 ==> ValidPromptIds(s) == s.prompt[|s.prompt| - ValidPromptLength(s)..]
    ensures ValidPromptLength(s) == 0 ==> ValidPromptIds(s) == s.prompt
  {
    var m := s.attentionMask;
    var p := |s.prompt|;
    assert SliceTo(m, p) == m[..p];
    assert SliceFrom(m, p) == m[p..];
    assert Binary(m[..p]) by {
      forall k | 0 <= k < p ensures m[..p][k] == 0 || m[..p][k] == 1 {
        assert m[..p][k] == m[k];
      }
    }
    assert Binary(m[p..]) by {
      forall k | 0 <= k < |m| - p ensures m[p..][k] == 0 || m[p..][k] == 1 {
        assert m[p..][k] == m[p + k];
      }
    }
    BinarySumBounds(m[..p]);
    BinarySumBounds(m[p..]);
  }

  /**
   * `reward_tensor[i, valid_response_length - 1]`: the last valid response
   * position; with an empty response the index -1 selects the last column, and
   * a grid with no columns raises IndexError.
   */
  function WriteColumn(s: Sample, width: nat): Option<nat> {
    PyIndex(ValidResponseLength(s) - 1, width)
  }

  lemma WriteColumnCases(s: Sample, width: nat)
    requires WellMasked(s) && |s.response| == width
    ensures ValidResponseLength(s) >= 1 ==> WriteColumn(s, width) == Some(ValidResponseLength(s) - 1)
    ensures ValidResponseLength(s) == 0 && width > 0 ==> WriteColumn(s, width) == Some(width - 1)
    ensures WriteColumn(s, width).None? <==> width == 0
  {
    MaskedSlices(s);
  }

  // ---------------------------------------------------------------------------
  // Rows: the first failing row's exception ends the call
  // ---------------------------------------------------------------------------

  /** A row that was scored: its score and the column it lands in. */
  datatype Placement = Placement(score: real, column: nat)

  /** The placements of all rows, or the exception of the first row that raises. */
  function Collect(rows: seq<Result<Placement, PyError>>): (r: Result<seq<Placement>, PyError>)
    ensures r.Success? <==> forall i :: 0 <= i < |rows| ==> rows[i].Success?
    ensures r.Success? ==> |r.value| == |rows| && forall i :: 0 <= i < |rows| ==> rows[i] == Success(r.value[i])
    ensures r.Failure? ==> exists i :: 0 <= i < |rows| && rows[i] == Failure(r.error)
                                      && forall j :: 0 <= j < i ==> rows[j].Success?
  {
    if rows == [] then Success([])
    else if rows[0].Failure? then
      assert rows[0] == Failure(rows[0].error);
      Failure(rows[0].error)
    else
      match Collect(rows[1..])
      case Failure(e) =>
        var i :| 0 <= i < |rows[1..]| && rows[1..][i] == Failure(e) && forall j :: 0 <= j < i ==> rows[1..][j].Success?;
        assert rows[i + 1] == Failure(e);
        Failure(e)
      case Success(ps) => Success([rows[0].value] + ps)
  }

  /** Once every row before `i` is placed and row `i` raises, the call raises what row `i` raises. */
  lemma {:induction false} CollectFirstFailure(rows: seq<Result<Placement, PyError>>, i: nat)
    requires i < |rows| && rows[i].Failure?
    requires forall k :: 0 <= k < i ==> rows[k].Success?
    ensures Collect(rows) == Failure(rows[i].error)
  {
    if i > 0 {
      CollectFirstFailure(rows[1..], i - 1);
    }
  }

  /** The reward grid a successful call leaves: each row's score in its column, zero elsewhere. */
  function Cell(ps: seq<Placement>, i: nat, j: nat): real
    requires i < |ps|
  {
    if ps[i].column == j then ps[i].score else 0.0
  }

  /** The scores of the placements, in row order. */
  function Scores(ps: seq<Placement>): (r: seq<real>)
    ensures |r| == |ps| && forall i :: 0 <= i < |ps| ==> r[i] == ps[i].score
  {
    seq(|ps|, i requires 0 <= i < |ps| => ps[i].score)
  }

  // ---------------------------------------------------------------------------
  // The examine counter
  // ---------------------------------------------------------------------------

  /**
   * `already_print_data_sources` after the given data sources: a source is entered
   * with 0 when first seen, and counted up while its count is below `num_examine`.
   */
  function ExamineCounts(sources: seq<string>, numExamine: int): map<string, int> {
    if sources == [] then map[]
    else
      var m := ExamineCounts(sources[..|sources| - 1], numExamine);
      var source := sources[|sources| - 1];
      var c := if source in m then m[source] else 0;
      if c < numExamine then m[source := c + 1] else m[source := c]
  }

  /** The data source of a sample, `non_tensor_batch[key]`; `""` where the key is missing. */
  function SourceOf(s: Sample, key: string): string {
    if key in s.nonTensor then s.nonTensor[key] else ""
  }

  /** The data sources of the first `i` samples. */
  function SourcesBefore(samples: seq<Sample>, key: string, i: nat): (r: seq<string>)
    requires i <= |samples|
    ensures |r| == i
  {
    if i == 0 then [] else SourcesBefore(samples, key, i - 1) + [SourceOf(samples[i - 1], key)]
  }

  /** The counters the loop holds after the first `i` samples, one sample at a time. */
  function CountsBefore(samples: seq<Sample>, key: string, i: nat, numExamine: int): map<string, int>
    requires i <= |samples|
  {
    if i == 0 then map[]
    else
      var m := CountsBefore(samples, key, i - 1, numExamine);
      var source := SourceOf(samples[i - 1], key);
      var c := if source in m then m[source] else 0;
      if c < numExamine then m[source := c + 1] else m[source := c]
  }

  /** One more source: it is entered with 0 if new, then counted up while below `num_examine`. */
  lemma ExamineCountsSnoc(sources: seq<string>, source: string, numExamine: int)
    ensures var m := ExamineCounts(sources, numExamine);
            var c := if source in m then m[source] else 0;
            ExamineCounts(sources + [source], numExamine) == if c < numExamine then m[source := c + 1] else m[source := c]
  {
    assert (sources + [source])[..|sources|] == sources;
  }

  /** The loop's counters after `i` samples are `already_print_data_sources` after their data sources. */
  lemma {:induction false} CountsBeforeSources(samples: seq<Sample>, key: string, i: nat, numExamine: int)
    requires i <= |samples|
    ensures CountsBefore(samples, key, i, numExamine) == ExamineCounts(SourcesBefore(samples, key, i), numExamine)
  {
    if i > 0 {
      CountsBeforeSources(samples, key, i - 1, numExamine);
      ExamineCountsSnoc(SourcesBefore(samples, key, i - 1), SourceOf(samples[i - 1], key), numExamine);
    }
  }

  /**
   * The counter update of one sample: its source is entered with 0 if new, then
   * counted up while below `num_examine`; the counters stay those of the samples
   * seen so far.
   */
  method CountExamined(counts: map<string, int>, ghost samples: seq<Sample>, ghost i: nat, key: string,
                       source: string, numExamine: int)
    returns (updated: map<string, int>)
    requires i < |samples| && source == SourceOf(samples[i], key)
    requires counts == CountsBefore(samples, key, i, numExamine)
    ensures updated == CountsBefore(samples, key, i + 1, numExamine)
  {
    updated := counts;
    if source !in updated {
      updated := updated[source := 0];
    }
    if updated[source] < numExamine {
      updated := updated[source := updated[source] + 1];
    }
  }

  /**
   * Each source seen has a counter equal to how often it occurred, capped at
   * `num_examine` (and at 0 when that is negative): the counter never exceeds
   * `num_examine` once that is non-negative.
   */
  lemma {:induction false} ExamineCountsValue(sources: seq<string>, numExamine: int)
    ensures forall source :: source in ExamineCounts(sources, numExamine) <==> source in sources
    ensures forall source :: source in ExamineCounts(sources, numExamine) ==>
              ExamineCounts(sources, numExamine)[source] == Min(multiset(sources)[source], Max(numExamine, 0))
  {
    if sources != [] {
      var init := sources[..|sources| - 1];
      var last := sources[|sources| - 1];
      ExamineCountsValue(init, numExamine);
      assert sources == init + [last];
      assert multiset(sources) == multiset(init) + multiset{last};
      forall source ensures source in sources <==> source in init || source == last {
      }
    }
  }

  /**
   * Sample `i` is printed exactly when fewer than `num_examine` earlier samples
   * share its data source: the first `num_examine` samples of each source.
   */
  lemma ExaminedIff(sources: seq<string>, numExamine: int, i: nat)
    requires i < |sources|
    ensures var m := ExamineCounts(sources[..i], numExamine);
            var c := if sources[i] in m then m[sources[i]] else 0;
            c < numExamine <==> multiset(sources[..i])[sources[i]] < numExamine
  {
    ExamineCountsValue(sources[..i], numExamine);
    if sources[i] !in sources[..i] {
      assert multiset(sources[..i])[sources[i]] == 0;
    }
  }

  // ---------------------------------------------------------------------------
  // The per-sample loop both managers run
  // ---------------------------------------------------------------------------

  /** Decoding token ids to text, special tokens skipped; the tokenizer is not part of this model. */
  type Tokenizer = seq<int> -> string

  /** A `compute_score(solution_str, ground_truth)`. */
  type ScoreFunction = (string, GroundTruth) -> real

  /**
   * How a manager reads `ground_truth`: `reward_model["ground_truth"]` raises
   * KeyError when it is absent, `reward_model.get("ground_truth", {})` does not.
   */
  datatype GroundTruthLookup = Required | DefaultEmpty

  function GroundTruthOf(s: Sample, lookup: GroundTruthLookup): (r: Result<GroundTruth, PyError>)
    ensures s.groundTruth.Some? ==> r == Success(s.groundTruth.value)
    ensures s.groundTruth.None? ==> r == if lookup == Required then Failure(KeyError("ground_truth")) else Success(map[])
  {
    match s.groundTruth
    case Some(gt) => Success(gt)
    case None => if lookup == Required then Failure(KeyError("ground_truth")) else Success(map[])
  }

  /**
   * What one sample contributes: the ground-truth lookup's KeyError, or KeyError
   * without the data-source field, else the score of the decoded response placed
   * at the write column, or IndexError when there is none. The data source does
   * not choose the scorer.
   */
  function RowResult(s: Sample, width: nat, tokenizer: Tokenizer, rewardFnKey: string,
                     lookup: GroundTruthLookup, scorer: ScoreFunction): Result<Placement, PyError>
  {
    var gt := GroundTruthOf(s, lookup);
    if gt.Failure? then Failure(gt.error)
    else if rewardFnKey !in s.nonTensor then Failure(KeyError(rewardFnKey))
    else
      var column := WriteColumn(s, width);
      if column.None? then Failure(IndexError)
      else Success(Placement(scorer(tokenizer(ValidResponseIds(s)), gt.value), column.value))
  }

  /** The outcome of each sample in turn. */
  function RowsOf(samples: seq<Sample>, width: nat, tokenizer: Tokenizer, rewardFnKey: string,
                  lookup: GroundTruthLookup, scorer: ScoreFunction): (rows: seq<Result<Placement, PyError>>)
    ensures |rows| == |samples|
  {
    if samples == [] then []
    else
      RowsOf(samples[..|samples| - 1], width, tokenizer, rewardFnKey, lookup, scorer)
      + [RowResult(samples[|samples| - 1], width, tokenizer, rewardFnKey, lookup, scorer)]
  }

  /** Row `k` of the outcomes is the outcome of sample `k`. */
  lemma {:induction false} RowsOfIndex(samples: seq<Sample>, width: nat, tokenizer: Tokenizer, rewardFnKey: string,
                                       lookup: GroundTruthLookup, scorer: ScoreFunction, k: nat)
    requires k < |samples|
    ensures RowsOf(samples, width, tokenizer, rewardFnKey, lookup, scorer)[k]
            == RowResult(samples[k], width, tokenizer, rewardFnKey, lookup, scorer)
  {
    var init := samples[..|samples| - 1];
    if k < |init| {
      RowsOfIndex(init, width, tokenizer, rewardFnKey, lookup, scorer, k);
      assert init[k] == samples[k];
    }
  }

  /** The outcomes of the samples of a batch. */
  function Rows(data: DataProto, tokenizer: Tokenizer, rewardFnKey: string,
                lookup: GroundTruthLookup, scorer: ScoreFunction): (rows: seq<Result<Placement, PyError>>)
    ensures |rows| == |data.samples|
  {
    RowsOf(data.samples, data.responseWidth, tokenizer, rewardFnKey, lookup, scorer)
  }

  /**
   * One pass of the loop body up to the write: valid prompt and response by the
   * attention mask, decoding, the ground-truth and data-source lookups, the score
   * and the column it goes to.
   */
  method ScoreSample(dataItem: Sample, width: nat, tokenizer: Tokenizer, rewardFnKey: string,
                     lookup: GroundTruthLookup, scorer: ScoreFunction)
    returns (row: Result<Placement, PyError>, dataSource: string)
    ensures row == RowResult(dataItem, width, tokenizer, rewardFnKey, lookup, scorer)
    ensures row.Success? ==> rewardFnKey in dataItem.nonTensor && dataSource == dataItem.nonTensor[rewardFnKey]
  {
    var promptIds := dataItem.prompt;
    var promptLength := |promptIds|;
    var validPromptLength := Sum(SliceTo(dataItem.attentionMask, promptLength));
    var validPromptIds := SliceFrom(promptIds, -validPromptLength);

    var responseIds := dataItem.response;
    var validResponseLength := Sum(SliceFrom(dataItem.attentionMask, promptLength));
    var validResponseIds := SliceTo(responseIds, validResponseLength);

    var promptStr := tokenizer(validPromptIds);
    var responseStr := tokenizer(validResponseIds);

    var groundTruth := GroundTruthOf(dataItem, lookup);
    if groundTruth.Failure? {
      return Failure(groundTruth.error), "";
    }
    if rewardFnKey !in dataItem.nonTensor {
      return Failure(KeyError(rewardFnKey)), "";
    }
    dataSource := dataItem.nonTensor[rewardFnKey];

    var score := scorer(responseStr, groundTruth.value);
    var column := PyIndex(validResponseLength - 1, width);
    if column.None? {
      return Failure(IndexError), dataSource;
    }
    row := Success(Placement(score, column.value));
  }

  /** The grid once the rows with the given placements are written: each one's cell holds its score, all else 0. */
  ghost predicate GridAfter(grid: array2<real>, placed: seq<Placement>)
    reads grid
  {
    |placed| <= grid.Length0
    && forall a, b :: 0 <= a < grid.Length0 && 0 <= b < grid.Length1 ==>
         grid[a, b] == (if a < |placed| && placed[a].column == b then placed[a].score else 0.0)
  }

  /** `reward_tensor[i, valid_response_length - 1] = score` for the next row. */
  method PlaceScore(grid: array2<real>, ghost placed: seq<Placement>, row: nat, p: Placement)
    requires row == |placed| < grid.Length0 && p.column < grid.Length1
    requires GridAfter(grid, placed)
    modifies grid
    ensures GridAfter(grid, placed + [p])
  {
    grid[row, p.column] := p.score;
  }

  /** Once every row is placed, the grid holds the cells of the collected placements. */
  lemma AllPlaced(rows: seq<Result<Placement, PyError>>, placed: seq<Placement>, grid: array2<real>)
    requires |placed| == |rows| == grid.Length0
    requires forall k :: 0 <= k < |rows| ==> rows[k] == Success(placed[k])
    requires GridAfter(grid, placed)
    ensures Collect(rows) == Success(placed)
    ensures forall i, j :: 0 <= i < grid.Length0 && 0 <= j < grid.Length1 ==> grid[i, j] == Cell(placed, i, j)
  {
    assert Collect(rows).value == placed;
  }

  /**
   * The loop of `__call__`: a fresh zero grid of the responses' shape with one
   * score per row at its write column, and the scores in row order; the first
   * row that raises ends the call.
   */
  method ScoreRows(data: DataProto, tokenizer: Tokenizer, numExamine: int, rewardFnKey: string,
                   lookup: GroundTruthLookup, scorer: ScoreFunction)
    returns (r: Result<(array2<real>, seq<real>), PyError>)
    ensures Collect(Rows(data, tokenizer, rewardFnKey, lookup, scorer)).Failure? ==>
              r == Failure(Collect(Rows(data, tokenizer, rewardFnKey, lookup, scorer)).error)
    ensures Collect(Rows(data, tokenizer, rewardFnKey, lookup, scorer)).Success? ==>
              var ps := Collect(Rows(data, tokenizer, rewardFnKey, lookup, scorer)).value;
              && r.Success?
              && fresh(r.value.0)
              && r.value.0.Length0 == |data.samples|
              && r.value.0.Length1 == data.responseWidth
              && (forall i, j :: 0 <= i < |data.samples| && 0 <= j < data.responseWidth ==>
                    r.value.0[i, j] == Cell(ps, i, j))
              && r.value.1 == Scores(ps)
  {
    var n := |data.samples|;
    var width := data.responseWidth;
    var rewardTensor := new real[n, width]((_, _) => 0.0);
    var scores: seq<real> := [];
    var alreadyPrintDataSources: map<string, int> := map[];
    ghost var rows := Rows(data, tokenizer, rewardFnKey, lookup, scorer);
    ghost var placed: seq<Placement> := [];

    for i := 0 to n
      invariant |scores| == i && |placed| == i
      invariant forall k :: 0 <= k < i ==> rows[k] == Success(placed[k]) && scores[k] == placed[k].score
      invariant GridAfter(rewardTensor, placed)
      invariant alreadyPrintDataSources == CountsBefore(data.samples, rewardFnKey, i, numExamine)
    {
      var dataItem := data.samples[i];
      var row, dataSource := ScoreSample(dataItem, width, tokenizer, rewardFnKey, lookup, scorer);
      RowsOfIndex(data.samples, width, tokenizer, rewardFnKey, lookup, scorer, i);
      if row.Failure? {
        CollectFirstFailure(rows, i);
        return Failure(row.error);
      }
      var score := row.value.score;
      scores := scores + [score];
      PlaceScore(rewardTensor, placed, i, row.value);
      placed := placed + [row.value];

      alreadyPrintDataSources := CountExamined(alreadyPrintDataSources, data.samples, i, rewardFnKey,
                                               dataSource, numExamine);
    }

    AllPlaced(rows, placed, rewardTensor);
    return Success((rewardTensor, scores));
  }

  /**
   * The body of `__call__` after the `rm_scores` test: the grid of `ScoreRows`,
   * alone or with the scores in row order under `scoreKey`.
   */
  method ScoreBatch(data: DataProto, tokenizer: Tokenizer, numExamine: int, rewardFnKey: string,
                    lookup: GroundTruthLookup, scorer: ScoreFunction, scoreKey: string, returnDict: bool)
    returns (r: Result<RewardOutput, PyError>)
    ensures Collect(Rows(data, tokenizer, rewardFnKey, lookup, scorer)).Failure? ==>
              r == Failure(Collect(Rows(data, tokenizer, rewardFnKey, lookup, scorer)).error)
    ensures Collect(Rows(data, tokenizer, rewardFnKey, lookup, scorer)).Success? ==>
              var ps := Collect(Rows(data, tokenizer, rewardFnKey, lookup, scorer)).value;
              && r.Success? && (r.value.Dict? <==> returnDict)
              && fresh(r.value.rewardTensor)
              && r.value.rewardTensor.Length0 == |data.samples|
              && r.value.rewardTensor.Length1 == data.responseWidth
              && (forall i, j :: 0 <= i < |data.samples| && 0 <= j < data.responseWidth ==>
                    r.value.rewardTensor[i, j] == Cell(ps, i, j))
              && (returnDict ==> r.value.rewardExtraInfo == ExtraInfo(scoreKey, Scores(ps)))
  {
    var filled := ScoreRows(data, tokenizer, numExamine, rewardFnKey, lookup, scorer);
    if filled.Failure? {
      return Failure(filled.error);
    }
    var (rewardTensor, scores) := filled.value;
    if returnDict {
      return Success(Dict(rewardTensor, ExtraInfo(scoreKey, scores)));
    } else {
      return Success(Tensor(rewardTensor));
    }
  }
}
