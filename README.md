# Reward scoring for RL fine-tuning, modelled in Dafny

This project models the reward-scoring engine that the repository uses during
RL fine-tuning of a language model, and proves properties of it. It has three layers.

- **Tag-structure scorers.**
  - `rule.py` and `newkk.py` each count the four tags `<think>`, `</think>`,
    `<answer>` and `</answer>`, case-sensitively.
  - The first tag that does not occur exactly once ends scoring with a penalty.
    The bonuses of the tags counted before it are kept.
  - If all four tags occur once, their start offsets must be in strict order.
    Only then are the two blocks extracted and stripped.
  - `rule.py` rewards non-empty blocks.
  - `newkk.py` also parses the knights-and-knaves solution text into a
    name → role map. It then scores the think block by length and by the
    names it mentions, and the answer block by the roles it asserts.
- **Molecule scorer (`chem.py`).**
  - A `<SMILES>…</SMILES>` format gate comes first, then a validity gate.
  - Seven property rewards follow, each a piecewise-linear or step curve over a
    descriptor.
  - RDKit and SA_Score are an oracle: `Chem.Toolkit` says whether each library
    imported and maps a SMILES string to the descriptor values of the molecule
    it parses to. SA_Score is only imported once RDKit has been, so a toolkit
    with SA_Score and without RDKit does not exist.
- **Reward managers (`logic_rl_reward.py` and `chem_reward.py`).**
  - When the batch already holds `rm_scores`, they are passed through.
  - Otherwise a zero grid the shape of the responses is allocated. For each row,
    one cell at the last valid response position receives the row's score.
  - The scores are also listed under a key.
  - A per-data-source counter limits how many rows are printed.
  - Both managers run the same loop. It is modelled once (`Batch.ScoreRows`)
    and takes the scorer and the ground-truth lookup as parameters.

The dataset script's record conversion and truncation are modelled as well
(`ChemDataset`).

Files:
- `wrappers.dfy`: Option and Result.
- `text.dfy`: literal occurrence counting, lazy first-match spans, `str.strip`,
  ASCII lower-casing, `\b`, `splitlines`.
- `tags.dfy`: the shared four-tag stage.
- `rule.dfy`, `newkk.dfy` and `chem.dfy`: the three scorers.
- `batch.dfy`: the batch, Python slicing and indexing, mask lengths, the print
  counter and the shared loop.
- `logic_rl_reward.dfy` and `chem_reward.dfy`: the two managers.
- `chem_dataset.dfy`: the dataset script.

Where the code and its comments disagree, the model follows the code.
- In `rule.py`, `<think>` present and `</think>` missing scores -1.5, because
  the first tag's 0.5 is kept. The comment at `rule.py:146` expects -2.0.
- The print counter is local to each call, not kept across calls.

## Model

| member | source | states |
|---|---|---|
| Text.UniquePairSpan | verl/utils/reward_score/rule.py:15-16 | With the open and close delimiters each occurring once, the lazy search `open(.*?)close` spans exactly the text between them when the close delimiter starts after the open one ends, and finds nothing otherwise |
| Text.StripMeaning | verl/utils/reward_score/rule.py:98 | `strip()` leaves nothing exactly when the text is all whitespace; otherwise the result has no whitespace at either end |
| Text.OccurrencesSound | verl/utils/reward_score/rule.py:57 | Every match `finditer` lists is an occurrence of the literal, and the listed matches do not overlap |
| Text.OccurrencesComplete | verl/utils/reward_score/rule.py:57 | For a literal that cannot overlap itself, every occurrence at or after the start offset is listed |
| Text.SplitLinesRejoin | verl/utils/reward_score/newkk.py:28 | `splitlines()` loses no text: each line followed by its terminator (one break character or `\r\n`; none only after a last line that runs to the end) rebuilds the input |
| Text.Search | verl/utils/reward_score/newkk.py:29 | A search from offset p returns a match found at some offset between p and the end |
| Text.SearchFindsFirst | verl/utils/reward_score/newkk.py:29 | A search returns the match at the leftmost offset where the pattern matches |
| Text.SearchNone | verl/utils/reward_score/newkk.py:29 | A search finds nothing exactly when the pattern matches at no offset from p to the end |
| Tags.FirstNonUnique | verl/utils/reward_score/rule.py:56-69 | The first tag in checking order whose count is not 1; none exactly when all four tags occur once, and every tag before it occurs once |
| Tags.Position | verl/utils/reward_score/rule.py:61 | `matches[0].start()` of a unique tag is an offset where the tag occurs |
| Tags.CheckTags | verl/utils/reward_score/rule.py:56-88 | A rejection names a tag index below 4; the two blocks of a well-formed response, plus the 32 tag characters, fit in the response |
| Tags.OrderedTagsApart | verl/utils/reward_score/rule.py:83 | Strictly ordered start offsets of unique tags mean that each tag ends before the next one starts |
| Tags.WellFormedExtraction | verl/utils/reward_score/rule.py:96-105 | For unique, ordered tags, `<think>(.*?)</think>` and `<answer>(.*?)</answer>` find exactly the text between each pair of tags |
| Tags.WellFormedBlocks | verl/utils/reward_score/rule.py:83-105 | For unique, ordered tags, the verdict is well-formed and its blocks are the text between each pair of tags |
| Tags.BlockGroups | verl/utils/reward_score/rule.py:96-105 | The groups of the two lazy searches are the verdict's blocks |
| RuleScore.ComputeScore | verl/utils/reward_score/rule.py:18-110 | The staged scan with early returns computes the format score, which does not depend on the ground truth |
| RuleScore.FormatScore | verl/utils/reward_score/rule.py:29-110 | The score lies in [-2.0, 3.7] |
| RuleScore.FormatScoreValues | verl/utils/reward_score/rule.py:29-110 | The score is one of eight values |
| RuleScore.RejectedAtFirstBadTag | verl/utils/reward_score/rule.py:56-69 | A missing or duplicated tag at index k, with the tags before it unique, scores `0.5*k - 2.0` |
| RuleScore.PlainTextScore | verl/utils/reward_score/rule.py:56-65 | A text without '<' scores -2.0 |
| RuleScore.PlainTextExample | verl/utils/reward_score/rule.py:178-182 | "Just plain text output." scores -2.0 |
| RuleScore.DuplicateThinkScore | verl/utils/reward_score/rule.py:184-198 | A duplicated `<think>` scores -2.0, whatever follows |
| RuleScore.MissingThinkEndScore | verl/utils/reward_score/rule.py:59-65 | `<think>` once and `</think>` missing scores -1.5 |
| RuleScore.WrongOrderScore | verl/utils/reward_score/rule.py:83-88 | Four unique tags out of order score -1.0 |
| RuleScore.WellFormedScore | verl/utils/reward_score/rule.py:96-110 | A well-formed response scores 3.7 exactly when both blocks hold non-whitespace, and 2.2 when only the answer is blank |
| RuleScore.PositiveOnlyWhenWellFormed | verl/utils/reward_score/rule.py:29-110 | The score is positive exactly for well-formed responses |
| KnightsKnaves.RoleStart | verl/utils/reward_score/newkk.py:27 | `\b([a-zA-Z]+)\b\s+is\s+a\s+` matched at p takes a whole letter run between word boundaries, then whitespace, "is", whitespace, "a" and whitespace up to a non-space character, where the role starts |
| KnightsKnaves.CopulaEnd | verl/utils/reward_score/newkk.py:27 | `\s+is\s+a\s+` after the name ends at a non-space character or the end of the line, after whitespace, "is", whitespace, "a" and whitespace |
| KnightsKnaves.CopulaEndComplete | verl/utils/reward_score/newkk.py:27 | Whitespace, "is", whitespace, "a" and whitespace up to a non-space character are always matched, up to that character |
| KnightsKnaves.RoleStartComplete | verl/utils/reward_score/newkk.py:27 | A letter run at a word boundary followed by `\s+is\s+a\s+` is always matched, and the role starts after the last whitespace run |
| KnightsKnaves.RoleAt | verl/utils/reward_score/newkk.py:27 | `\b(knight\|knave)\b` gives a role only where it occurs as a whole word, and gives knight, or knave, wherever that word occurs there as a whole word |
| KnightsKnaves.ClaimAt | verl/utils/reward_score/newkk.py:27-32 | A match at p gives the lower-case letter run at p as the name and the role knight or knave; both occur as whole words, the role after the name (the copula between them is stated by ClaimAtHasCopula) |
| KnightsKnaves.ClaimAtComplete | verl/utils/reward_score/newkk.py:27-32 | A whole letter run at p followed by `\s+is\s+a\s+` and a whole-word role is matched at p, giving that run and that role |
| KnightsKnaves.ClaimAtHasCopula | verl/utils/reward_score/newkk.py:27 | A match at p has `\s+is\s+a\s+` from the end of the name to the offset where the role starts as a whole word |
| KnightsKnaves.ClaimSearchFrom | verl/utils/reward_score/newkk.py:29 | `search` returns the match at some offset at or after the start |
| KnightsKnaves.ClaimSearchFindsFirst | verl/utils/reward_score/newkk.py:29 | `search` returns the match at the leftmost offset where the pattern matches |
| KnightsKnaves.ClaimSearchNone | verl/utils/reward_score/newkk.py:29 | `search` returns None exactly when the pattern matches at no offset |
| KnightsKnaves.LineClaim | verl/utils/reward_score/newkk.py:29-32 | A line's claim has a lower-case letter name and the role knight or knave |
| KnightsKnaves.LineClaimNone | verl/utils/reward_score/newkk.py:29-31 | A line makes no claim exactly when the pattern matches nowhere in it, ignoring case |
| KnightsKnaves.LineClaimComplete | verl/utils/reward_score/newkk.py:29-32 | A line whose first match, ignoring case, is a letter run, `is a` and a role claims that the lower-cased run has that role |
| KnightsKnaves.LineClaimExample | verl/utils/reward_score/newkk.py:29-32 | "(1) Lily is a knave" claims that "lily" is a knave |
| KnightsKnaves.LineClaims | verl/utils/reward_score/newkk.py:28-29 | One claim per line of `splitlines()`, in order |
| KnightsKnaves.ClaimsMapSound | verl/utils/reward_score/newkk.py:26-34 | Every entry of the map comes from a claim of some line |
| KnightsKnaves.ClaimsMapKeys | verl/utils/reward_score/newkk.py:28-33 | A name is a key exactly when some line claims it; lines without a match add nothing |
| KnightsKnaves.ClaimsMapLastWins | verl/utils/reward_score/newkk.py:33 | A name's role is the one its last claiming line gives |
| KnightsKnaves.ParsedGt | verl/utils/reward_score/newkk.py:15-34 | The map's keys are lower-case names and its values are `knight` or `knave` |
| KnightsKnaves.ParseGtToMap | verl/utils/reward_score/newkk.py:15-34 | The line-by-line dictionary update builds the parsed map |
| KnightsKnaves.ClaimAsserted | verl/utils/reward_score/newkk.py:127-134 | A solution line asserts, in the answer-pattern sense, the claim it is parsed into |
| KnightsKnaves.LineClaimAsserted | verl/utils/reward_score/newkk.py:127-134 | The same for a whole line from `splitlines()` |
| KnightsKnaves.LengthScore | verl/utils/reward_score/newkk.py:99-101 | The length score lies in [-4, 4]; it is -4 at length 0, 4 from length 2000 on, and below 4 before that |
| KnightsKnaves.LengthScoreMonotone | verl/utils/reward_score/newkk.py:99-101 | The length score never decreases with the length |
| KnightsKnaves.KeywordScore | verl/utils/reward_score/newkk.py:107-116 | The loop over names adds one point per ground-truth name the lowered think block mentions as a whole word |
| KnightsKnaves.AssertionCount | verl/utils/reward_score/newkk.py:127-134 | The loop over entries counts the names whose role some single line of the answer asserts, name first, both as whole words, ignoring case |
| KnightsKnaves.NameScoresBounded | verl/utils/reward_score/newkk.py:107-137 | Mentioned and asserted names each number at most the size of the map |
| KnightsKnaves.ThinkScore | verl/utils/reward_score/newkk.py:94-116 | Stage 3 is the length score plus, for a non-empty map, the mention count |
| KnightsKnaves.AnswerScore | verl/utils/reward_score/newkk.py:121-137 | Stage 4 is -2.0 for an empty stripped answer, 0 without a map, and otherwise 4 per asserted role |
| KnightsKnaves.ContentScore | verl/utils/reward_score/newkk.py:94-137 | Stages 3 and 4 score the stripped blocks of the verdict against the parsed ground truth |
| KnightsKnaves.ComputeScore | verl/utils/reward_score/newkk.py:37-139 | The staged scan computes the reference score built from the structural verdict |
| KnightsKnaves.RejectedAtFirstBadTag | verl/utils/reward_score/newkk.py:77-83 | The first tag whose count is not 1, at index k, ends scoring at `0.5*k - 4.0` |
| KnightsKnaves.WrongOrderScore | verl/utils/reward_score/newkk.py:85-87 | Four unique tags out of order score -3.0 |
| KnightsKnaves.WellFormedScore | verl/utils/reward_score/newkk.py:85-89 | A well-formed response scores 3.0 plus the content stages |
| KnightsKnaves.ContentTermsBounds | verl/utils/reward_score/newkk.py:94-137 | The content stages add between -6 and `4 + 5*|map|` |
| KnightsKnaves.AnswerWithoutCredit | verl/utils/reward_score/newkk.py:124-125 | An empty stripped answer costs 2.0 whatever the map; a non-empty answer with an empty map adds nothing |
| KnightsKnaves.MissingSolutionIsEmpty | verl/utils/reward_score/newkk.py:105 | A missing `solution_text_format` gives an empty map |
| KnightsKnaves.KkScoreBounds | verl/utils/reward_score/newkk.py:37-139 | The score lies in [-4, `7 + 5*|map|`] |
| Chem.CheckFormat | verl/utils/reward_score/chem.py:49-72 | The format reward is 1.0 exactly when a SMILES string is returned, and -5.0 otherwise |
| Chem.SmilesBlock | verl/utils/reward_score/chem.py:61-66 | The block between the only `<SMILES>` and the only `</SMILES>` holds at least one character |
| Chem.SmilesSpan | verl/utils/reward_score/chem.py:61-66 | With one tag of each kind, ignoring case, `<SMILES>\s*(.+?)\s*</SMILES>` matches exactly when the close tag starts at least one character after the open tag ends, and spans the text between them |
| Chem.CheckFormatStripsBlock | verl/utils/reward_score/chem.py:61-72 | The returned SMILES string is the stripped block, unless the strip leaves nothing |
| Chem.CheckFormatMeaning | verl/utils/reward_score/chem.py:61-72 | The format check passes exactly when the block holds non-whitespace; the SMILES string is then non-empty and unpadded |
| Chem.EmptySmilesExample | verl/utils/reward_score/chem.py:412 | `<SMILES></SMILES>` fails the format check with -5.0 |
| Chem.CheckValidity | verl/utils/reward_score/chem.py:75-95 | The result is 0.5 and the molecule exactly when RDKit is available and parses the string; otherwise -3.0 |
| Chem.QedCurve | verl/utils/reward_score/chem.py:115-117 | QED below 0.5 gives 0; QED up to 1 gives at most 2, and exactly 2 at 1 |
| Chem.QedCurveMonotone | verl/utils/reward_score/chem.py:115-117 | The QED reward never decreases with QED |
| Chem.QedReward | verl/utils/reward_score/chem.py:98-119 | 0.0 without RDKit or when QED raises; otherwise at least 0, 0 below QED 0.5, and at most 2 for a QED up to 1 |
| Chem.SaCurve | verl/utils/reward_score/chem.py:141-146 | For SA ≥ 1 the reward lies in [0, 2]: it is 2 at SA 1, 0 above 7, and positive up to 7 |
| Chem.SaCurveNonIncreasing | verl/utils/reward_score/chem.py:141-146 | A higher SA score never earns more |
| Chem.SaReward | verl/utils/reward_score/chem.py:122-148 | 1.0 without SA_Score, 0.0 when the score raises, and otherwise the SA curve; the reward lies in [0, 2] for a score of at least 1 |
| Chem.LogPReward | verl/utils/reward_score/chem.py:151-179 | 0.0 without RDKit or when logP raises; otherwise the logP curve, in [0, 1.5] |
| Chem.MwReward | verl/utils/reward_score/chem.py:182-209 | 0.0 without RDKit or when the weight raises; otherwise the weight curve, in [0, 1] |
| Chem.TpsaReward | verl/utils/reward_score/chem.py:212-239 | 0.0 without RDKit or when TPSA raises; otherwise the TPSA curve, in [0, 1] |
| Chem.LogPCurve | verl/utils/reward_score/chem.py:169-177 | The reward lies in [0, 1.5]; it is 1.5 exactly at logP 2.5, and 0 below 0 or above 5 |
| Chem.MwCurve | verl/utils/reward_score/chem.py:200-207 | The reward lies in [0, 1]; it is 1 exactly on [200, 500], below 0.5 on the ramp, and 0 outside [150, 600] |
| Chem.TpsaCurve | verl/utils/reward_score/chem.py:230-237 | The same shape with 20/40/120/140 |
| Chem.RuleOfFiveViolations | verl/utils/reward_score/chem.py:262-270 | At most 4 violations; none exactly when all four limits hold |
| Chem.LipinskiCurve | verl/utils/reward_score/chem.py:272-280 | The reward lies in [0, 1.5]; it is 1.5 exactly with no violation, and 0 from 3 violations on |
| Chem.LipinskiCurveNonIncreasing | verl/utils/reward_score/chem.py:272-280 | More violations never earn more |
| Chem.LipinskiSpec | verl/utils/reward_score/chem.py:242-282 | The Lipinski reward lies in [0, 1.5] |
| Chem.LipinskiReward | verl/utils/reward_score/chem.py:242-282 | Counting the violations one test at a time gives the reference reward |
| Chem.RingPart | verl/utils/reward_score/chem.py:310-313 | 0.6 exactly for 2-4 rings, 0.3 exactly for 1 or 5, and 0 otherwise |
| Chem.RotorPart | verl/utils/reward_score/chem.py:316-319 | 0.4 exactly for 5-10 bonds, 0.2 exactly for 3-4 or 11-12, and 0 otherwise |
| Chem.EgfrSpec | verl/utils/reward_score/chem.py:285-323 | The EGFR reward lies in [0, 1] |
| Chem.EgfrFullReward | verl/utils/reward_score/chem.py:307-321 | The full 1.0 is earned exactly by 2-4 aromatic rings and 5-10 rotatable bonds |
| Chem.EgfrReward | verl/utils/reward_score/chem.py:285-323 | The accumulated score gives the reference reward |
| Chem.ComputeScore | verl/utils/reward_score/chem.py:326-398 | Gates, then the sum of the seven rewards; the ground truth is ignored |
| Chem.GateScores | verl/utils/reward_score/chem.py:350-366 | Without RDKit the score is -5.0; with it, a format failure scores -5.0 and a SMILES string that does not parse scores -2.0 |
| Chem.PropertyRewardsBounds | verl/utils/reward_score/chem.py:369-388 | The property rewards sum to at least 0, and to at most 10 for plausible descriptors |
| Chem.ChemScoreBounds | verl/utils/reward_score/chem.py:341 | The score is at least -5.0. It reaches 1.5 exactly when RDKit is available, the format passes and the string parses. It is at most 11.5 for plausible descriptors |
| Batch.ExtraInfo | verl/workers/reward_manager/logic_rl_reward.py:90 | The defaultdict holds the key exactly when something was appended, with the scores in order, and no other key |
| Batch.SliceFrom | verl/workers/reward_manager/logic_rl_reward.py:72-75 | `s[start:]` with Python's rules for negative and out-of-range starts is a suffix of the computed length |
| Batch.SliceTo | verl/workers/reward_manager/logic_rl_reward.py:71-76 | `s[:end]` with Python's rules is a prefix of the computed length |
| Batch.PyIndex | verl/workers/reward_manager/logic_rl_reward.py:91 | An index is valid exactly in [-n, n); a negative one counts from the end |
| Batch.BinarySumBounds | verl/workers/reward_manager/logic_rl_reward.py:71-75 | The sum of a 0/1 mask lies between 0 and its length, and equals the length exactly when the mask is all ones |
| Batch.MaskedSlices | verl/workers/reward_manager/logic_rl_reward.py:69-76 | For a 0/1 mask, the decoded response is the prefix of `valid_response_length` ids, and the decoded prompt is the suffix of `valid_prompt_length` ids, or the whole prompt when that length is 0 |
| Batch.WriteColumnCases | verl/workers/reward_manager/logic_rl_reward.py:91 | The score goes to column `valid_response_length - 1`, to the last column for an empty response, and raises IndexError only for a grid with no columns |
| Batch.Collect | verl/workers/reward_manager/logic_rl_reward.py:66-103 | All rows are placed exactly when none raises; otherwise the call ends with the first raising row's exception |
| Batch.CollectFirstFailure | verl/workers/reward_manager/logic_rl_reward.py:66-103 | A raising row after rows that were all placed decides the exception |
| Batch.ExamineCountsValue | verl/workers/reward_manager/logic_rl_reward.py:95-99 | Each data source seen has a counter equal to its number of occurrences capped at `num_examine`, so the counter never exceeds `num_examine` |
| Batch.ExaminedIff | verl/workers/reward_manager/logic_rl_reward.py:95-103 | A row is printed exactly when fewer than `num_examine` earlier rows share its data source |
| Batch.CountExamined | verl/workers/reward_manager/logic_rl_reward.py:95-99 | One counter update turns the counters of the samples before i into those of the samples up to i |
| Batch.CountsBeforeSources | verl/workers/reward_manager/logic_rl_reward.py:95-99 | The loop's counters after i samples are the counters after the data sources of those samples, in order |
| Batch.GroundTruthOf | verl/workers/reward_manager/chem_reward.py:66 | A present ground truth is used; a missing one raises KeyError under `["ground_truth"]` and gives `{}` under `.get` |
| Batch.ScoreSample | verl/workers/reward_manager/logic_rl_reward.py:67-91 | One row's body gives the row's outcome and, when the row is placed, its data source |
| Batch.ScoreRows | verl/workers/reward_manager/logic_rl_reward.py:60-103 | A fresh zero grid of the responses' shape, changed only at each row's write column, which holds the row's score; the scores in row order; or the first row's exception |
| Batch.ScoreBatch | verl/workers/reward_manager/logic_rl_reward.py:60-111 | The grid of the loop, with the scores under the key exactly when `return_dict` is set |
| LogicRlReward.SelectRmScoreFnCases | verl/workers/reward_manager/logic_rl_reward.py:23-39 | NotImplementedError is raised exactly for a key that matches none of the five tests; a key containing "kk" goes to kk unless an earlier test claims it |
| LogicRlReward.NewkkRoutesToKk | verl/workers/reward_manager/logic_rl_reward.py:31-37 | "newkk" selects the kk scorer |
| LogicRlReward.KkSelected | verl/workers/reward_manager/logic_rl_reward.py:85 | The literal "kk" selects kk, as written and corrected |
| LogicRlReward.AsWrittenDiffersOnlyByNameError | verl/workers/reward_manager/logic_rl_reward.py:20-39 | The written dispatch differs from the corrected one exactly where it raises NameError, which is where the corrected one picks gsm8k, math or countdown |
| LogicRlReward.Gsm8kNameError | verl/workers/reward_manager/logic_rl_reward.py:20-26 | "openai/gsm8k" raises NameError as written |
| LogicRlReward.LogicRLRewardManager.constructor | verl/workers/reward_manager/logic_rl_reward.py:48-51 | Keeps the tokenizer, `num_examine` and the data-source key |
| LogicRlReward.LogicRLRewardManager.Call | verl/workers/reward_manager/logic_rl_reward.py:53-111 | `rm_scores` is passed through. Otherwise every row is scored by kk, whatever its data source, and a missing ground truth raises KeyError. Cell and extra-info contents are as in `Batch.ScoreBatch` |
| ChemReward.RowHoldsMoleculeScore | verl/workers/reward_manager/chem_reward.py:66-72 | A row is placed exactly when its data-source key exists and the grid has a column, and it then holds `chem.compute_score` of the decoded response, with or without a ground truth |
| ChemReward.ChemRewardManager.constructor | verl/workers/reward_manager/chem_reward.py:31-34 | Keeps the tokenizer, `num_examine` and the data-source key |
| ChemReward.ChemRewardManager.Call | verl/workers/reward_manager/chem_reward.py:36-91 | `rm_scores` is passed through. Otherwise every row is scored by the molecule scorer, and a missing ground truth stands for `{}`. Cell and extra-info contents are as in `Batch.ScoreBatch` |
| ChemDataset.ConvertSftToRlFormat | scripts/generate_chem_rl_dataset.py:39-72 | One record per item, in order. Record i has index i, the split, one user message with the instruction (or "" when absent), and the same constants as every other record |
| ChemDataset.LimitSize | scripts/generate_chem_rl_dataset.py:147-149 | The data is unchanged unless longer than `max_size`. It is otherwise cut to its first `max_size` items, or for a negative size loses that many from its end |
| ChemDataset.ConvertedPrefix | scripts/generate_chem_rl_dataset.py:147-152 | Converting the first k items gives the first k records of converting all of them |

## Left out

- RDKit and SA_Score are not modelled: `Chem.Toolkit` gives the import outcomes and a parser to descriptor values. An exception in a descriptor is a missing value.
- Tokenizer `decode` is an uninterpreted function of the token ids.
- The kk, gsm8k, math and countdown scorers are uninterpreted functions. The kk module is not part of this model.
- Regular expressions are modelled by the specific matchers only.
  - IGNORECASE is ASCII lower-casing.
  - `\b` uses ASCII letters, digits and `_` as word characters.
  - `\s` and `strip()` use Python's whitespace set.
  - Non-ASCII case folding and Unicode word characters are not modelled.
- Printing and logging are not modelled. This includes the min/max/mean diagnostics of `chem_reward.py:85-86`, which raise on an empty grid; that exception is not modelled.
- Scores are Dafny reals. The grid's float32 rounding is not modelled.
- `reward_model` itself is assumed present in every row, and the ground truth is a string-to-string map.
- An SFT item is a string-to-string map: an `instruction` that is not a string is not modelled.
- The `__main__` blocks of `rule.py`, `newkk.py` and `chem.py` are not modelled. Only their expected values that agree with the code appear as lemmas.
- `test_plic_p.py` (policy-loss tests) is not part of this model.
- The argparse, JSON and parquet I/O of the dataset script's `main` is not modelled.
- The `rl_data[0]` preview of `main` is not modelled.
- `Batch.ScoreBatch`: the grid is modelled by its cells, not as a torch tensor, and `DataProto` by its rows and the response width.

## Findings

| source | as written | input that shows it | evidently intended | confidence | as-written member | corrected member |
|---|---|---|---|---|---|---|
| verl/workers/reward_manager/logic_rl_reward.py:20-30 | `_select_rm_score_fn` returns `gsm8k.compute_score`, `math.compute_score` and `countdown.compute_score`, but only `kk`, `rule` and `newkk` are imported | data source "openai/gsm8k" raises NameError | dispatch to the gsm8k, math and countdown scorers | high; not executed | LogicRlReward.SelectRmScoreFnAsWritten, LogicRlReward.Gsm8kNameError | LogicRlReward.SelectRmScoreFn |
