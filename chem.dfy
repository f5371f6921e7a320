/**
 * The molecule scorer of chem.py. A response must carry one `<SMILES>...</SMILES>`
 * block; the SMILES string must parse; then seven property rewards are added.
 *
 * RDKit and SA_Score are not modelled: a `Toolkit` says whether each library
 * imported, and maps a SMILES string to the molecule it parses to (`None` when
 * `MolFromSmiles` returns None or raises). A molecule is the list of descriptor
 * values the rewards read, each `None` when computing it raises.
 */
module Chem {
  import opened Wrappers
  import opened Text

  datatype Molecule = Molecule(
    qed: Option<real>,            // QED.qed
    sa: Option<real>,             // sascorer.calculateScore
    logP: Option<real>,           // Crippen MolLogP
    molWt: Option<real>,          // Descriptors.MolWt
    tpsa: Option<real>,           // Descriptors.TPSA
    hDonors: Option<int>,         // Descriptors.NumHDonors
    hAcceptors: Option<int>,      // Descriptors.NumHAcceptors
    aromaticRings: Option<int>,   // Descriptors.NumAromaticRings
    rotatableBonds: Option<int>)  // Descriptors.NumRotatableBonds

  /** The outcome of the optional imports, and the SMILES parser. */
  datatype Imports = Imports(rdkitAvailable: bool, saAvailable: bool, parse: string -> Option<Molecule>)

  /** SA_Score is only imported once RDKit has been. */
  type Toolkit = tk: Imports | tk.saAvailable ==> tk.rdkitAvailable
    witness Imports(false, false, _ => None)

  const SmilesOpen: string := "<smiles>"
  const SmilesClose: string := "</smiles>"

  const FormatReward: real := 1.0
  const FormatPenalty: real := -5.0
  const ValidityReward: real := 0.5
  const ValidityPenalty: real := -3.0

  // ---------------------------------------------------------------------------
  // check_format
  // ---------------------------------------------------------------------------

  lemma SmilesTagsDelimited()
    ensures NoSelfOverlap(SmilesOpen) && NoSelfOverlap(SmilesClose) && Disjoint(SmilesOpen, SmilesClose)
  {
  }

  /**
   * `check_format`: both tags are counted case-insensitively; with exactly one of
   * each, `<SMILES>\s*(.+?)\s*</SMILES>` (IGNORECASE, DOTALL) is searched and its
   * group stripped. The `\s*` around the group only move whitespace that the strip
   * removes anyway, so the stripped group is the stripped text between the tags.
   */
  function CheckFormat(response: string): (r: (real, Option<string>))
    ensures r.0 == (if r.1.Some? then FormatReward else FormatPenalty)
  {
    var low := Lower(response);
    if |Occurrences(low, SmilesOpen)| == 1 && |Occurrences(low, SmilesClose)| == 1 then
      var m := LazySpan(low, SmilesOpen, SmilesClose, 1);
      if m.Some? then
        var smiles := Strip(Group(response, m));
        if smiles != [] then (FormatReward, Some(smiles)) else (FormatPenalty, None)
      else (FormatPenalty, None)
    else (FormatPenalty, None)
  }

  /**
   * Reference definition of the block `check_format` looks at, from tag positions:
   * the text strictly between the only `<SMILES>` and the only `</SMILES>`, when
   * the close tag starts at least one character after the open tag ends.
   */
  function SmilesBlock(response: string): (r: Option<string>)
    ensures r.Some? ==> |r.value| >= 1
  {
    var low := Lower(response);
    if |Occurrences(low, SmilesOpen)| == 1 && |Occurrences(low, SmilesClose)| == 1 then
      OccurrencesSound(low, SmilesOpen, 0);
      OccurrencesSound(low, SmilesClose, 0);
      var o, c := Occurrences(low, SmilesOpen)[0], Occurrences(low, SmilesClose)[0];
      if o + |SmilesOpen| < c then Some(response[o + |SmilesOpen|..c]) else None
    else None
  }

  /** With one tag of each kind, the regex search spans exactly the text strictly between them, if any. */
  lemma SmilesSpan(low: string)
    requires |Occurrences(low, SmilesOpen)| == 1 && |Occurrences(low, SmilesClose)| == 1
    ensures var o, c := Occurrences(low, SmilesOpen)[0], Occurrences(low, SmilesClose)[0];
      && c <= |low|
      && LazySpan(low, SmilesOpen, SmilesClose, 1) == if o + |SmilesOpen| < c then Some((o + |SmilesOpen|, c)) else None
  {
    SmilesTagsDelimited();
    UniquePairSpan(low, SmilesOpen, SmilesClose, 1);
    OccurrencesSound(low, SmilesClose, 0);
  }

  /** The format check keeps the block `SmilesBlock` finds, stripped, unless the strip leaves nothing. */
  lemma CheckFormatStripsBlock(response: string)
    ensures CheckFormat(response).1 ==
              if SmilesBlock(response).Some? && Strip(SmilesBlock(response).value) != []
              then Some(Strip(SmilesBlock(response).value)) else None
  {
    var low := Lower(response);
    if |Occurrences(low, SmilesOpen)| == 1 && |Occurrences(low, SmilesClose)| == 1 {
      var o, c := Occurrences(low, SmilesOpen)[0], Occurrences(low, SmilesClose)[0];
      var m := LazySpan(low, SmilesOpen, SmilesClose, 1);
      SmilesSpan(low);
      if o + |SmilesOpen| < c {
        var block := response[o + |SmilesOpen|..c];
        assert Group(response, m) == block;
        assert SmilesBlock(response) == Some(block);
      } else {
        assert SmilesBlock(response) == None;
      }
    }
  }

  /**
   * The format check accepts exactly the responses whose block holds something
   * besides whitespace, and hands on that block stripped: non-empty, with no
   * whitespace at either end.
   */
  lemma CheckFormatMeaning(response: string)
    ensures CheckFormat(response).1.Some? <==> SmilesBlock(response).Some? && !AllSpace(SmilesBlock(response).value)
    ensures CheckFormat(response).1.Some? ==>
              var smiles := CheckFormat(response).1.value;
              smiles == Strip(SmilesBlock(response).value) && smiles != []
              && !IsSpace(smiles[0]) && !IsSpace(smiles[|smiles| - 1])
  {
    var smiles, block := CheckFormat(response).1, SmilesBlock(response);
    CheckFormatStripsBlock(response);
    if block.Some? {
      StripMeaning(block.value);
      if Strip(block.value) != [] {
        assert smiles == Some(Strip(block.value));
      } else {
        assert smiles == None;
      }
    } else {
      assert smiles == None;
    }
  }

  const EmptySmiles: string := "<SMILES></SMILES>"

  /**
   * `<SMILES></SMILES>` has nothing between its tags: the format penalty. Its 17
   * characters leave no room for a close tag more than one character after an
   * open tag.
   */
  lemma EmptySmilesExample()
    ensures CheckFormat(EmptySmiles) == (FormatPenalty, None)
  {
    var low := Lower(EmptySmiles);
    if |Occurrences(low, SmilesOpen)| == 1 && |Occurrences(low, SmilesClose)| == 1 {
      OccurrencesSound(low, SmilesClose, 0);
    }
    assert SmilesBlock(EmptySmiles) == None;
    CheckFormatMeaning(EmptySmiles);
  }

  // ---------------------------------------------------------------------------
  // check_validity
  // ---------------------------------------------------------------------------

  /** `check_validity`: 0.5 and the molecule when RDKit is there and parses the string, else -3.0. */
  function CheckValidity(tk: Toolkit, smiles: string): (r: (real, Option<Molecule>))
    ensures r.1.Some? <==> tk.rdkitAvailable && tk.parse(smiles).Some?
    ensures r.1.Some? ==> r.1 == tk.parse(smiles)
    ensures r.0 == (if r.1.Some? then ValidityReward else ValidityPenalty)
  {
    if !tk.rdkitAvailable then (ValidityPenalty, None)
    else
      match tk.parse(smiles)
      case None => (ValidityPenalty, None)
      case Some(mol) => (ValidityReward, Some(mol))
  }

  // ---------------------------------------------------------------------------
  // Property curves
  // ---------------------------------------------------------------------------

  /** QED 0.5..1.0 mapped linearly to 0..2; nothing below 0.5. */
  function QedCurve(q: real): (r: real)
    ensures q < 0.5 ==> r == 0.0
    ensures 0.0 <= r
    ensures q <= 1.0 ==> r <= 2.0
    ensures q == 1.0 ==> r == 2.0
  {
    if q < 0.5 then 0.0 else (q - 0.5) * 4.0
  }

  lemma QedCurveMonotone(a: real, b: real)
    requires a <= b
    ensures QedCurve(a) <= QedCurve(b)
  {
  }

  /** SA score 1..4 mapped to 2.0..0.5, 4..7 to 0.5..0.05, and nothing above 7 (lower SA is better). */
  function SaCurve(s: real): (r: real)
    ensures 1.0 <= s ==> 0.0 <= r <= 2.0
    ensures s == 1.0 ==> r == 2.0
    ensures 7.0 < s ==> r == 0.0
    ensures s <= 7.0 ==> r > 0.0
  {
    if s <= 4.0 then 2.0 - (s - 1.0) * 0.5
    else if s <= 7.0 then Max(0.0, 0.5 - (s - 4.0) * 0.15)
    else 0.0
  }

  function Max(a: real, b: real): real {
    if a >= b then a else b
  }

  function Abs(x: real): real {
    if x < 0.0 then -x else x
  }

  /** An easier synthesis never scores lower. */
  lemma SaCurveNonIncreasing(a: real, b: real)
    requires a <= b
    ensures SaCurve(b) <= SaCurve(a)
  {
  }

  /** LogP rewarded on [0, 5], peaking at 1.5 for logP = 2.5. */
  function LogPCurve(x: real): (r: real)
    ensures 0.0 <= r <= 1.5
    ensures r == 1.5 <==> x == 2.5
    ensures x < 0.0 || x > 5.0 ==> r == 0.0
  {
    if 1.0 <= x <= 4.0 then 1.5 - Abs(x - 2.5) * 0.3
    else if 0.0 <= x < 1.0 then x * 0.8
    else if 4.0 < x <= 5.0 then Max(0.0, 0.5 - (x - 4.0) * 0.3)
    else 0.0
  }

  /** Molecular weight: full reward on [200, 500], a ramp up on [150, 200), a decay on (500, 600]. */
  function MwCurve(mw: real): (r: real)
    ensures 0.0 <= r <= 1.0
    ensures r == 1.0 <==> 200.0 <= mw <= 500.0
    ensures mw < 150.0 || mw > 600.0 ==> r == 0.0
    ensures 150.0 <= mw < 200.0 ==> r < 0.5
  {
    if 200.0 <= mw <= 500.0 then 1.0
    else if 150.0 <= mw < 200.0 then (mw - 150.0) / 50.0 * 0.5
    else if 500.0 < mw <= 600.0 then Max(0.0, 1.0 - (mw - 500.0) / 100.0)
    else 0.0
  }

  /** TPSA: full reward on [40, 120], a ramp up on [20, 40), a decay on (120, 140]. */
  function TpsaCurve(tpsa: real): (r: real)
    ensures 0.0 <= r <= 1.0
    ensures r == 1.0 <==> 40.0 <= tpsa <= 120.0
    ensures tpsa < 20.0 || tpsa > 140.0 ==> r == 0.0
    ensures 20.0 <= tpsa < 40.0 ==> r < 0.5
  {
    if 40.0 <= tpsa <= 120.0 then 1.0
    else if 20.0 <= tpsa < 40.0 then (tpsa - 20.0) / 20.0 * 0.5
    else if 120.0 < tpsa <= 140.0 then Max(0.0, 1.0 - (tpsa - 120.0) / 20.0)
    else 0.0
  }

  // ---------------------------------------------------------------------------
  // The reward functions: RDKit missing or a descriptor raising gives 0.0
  // ---------------------------------------------------------------------------

  function Guarded(tk: Toolkit, v: Option<real>, curve: real -> real): real {
    if !tk.rdkitAvailable then 0.0
    else match v
      case None => 0.0
      case Some(x) => curve(x)
  }

  /** `qed_reward`: 0.0 without RDKit or when QED raises; otherwise in [0, 2] for a QED up to 1. */
  function QedReward(tk: Toolkit, mol: Molecule): (r: real)
    ensures !tk.rdkitAvailable || mol.qed.None? ==> r == 0.0
    ensures 0.0 <= r
    ensures mol.qed.Some? && mol.qed.value <= 1.0 ==> r <= 2.0
    ensures tk.rdkitAvailable && mol.qed.Some? && mol.qed.value < 0.5 ==> r == 0.0
  {
    Guarded(tk, mol.qed, QedCurve)
  }

  /**
   * `sa_reward`: a neutral 1.0 without SA_Score, 0.0 when the score raises, and
   * otherwise the SA curve, in [0, 2] for a score of at least 1; the RDKit check
   * is not repeated here.
   */
  function SaReward(tk: Toolkit, mol: Molecule): (r: real)
    ensures !tk.saAvailable ==> r == 1.0
    ensures tk.saAvailable && mol.sa.None? ==> r == 0.0
    ensures tk.saAvailable && mol.sa.Some? ==> r == SaCurve(mol.sa.value)
    ensures mol.sa.Some? && 1.0 <= mol.sa.value ==> 0.0 <= r <= 2.0
  {
    if !tk.saAvailable then 1.0
    else match mol.sa
      case None => 0.0
      case Some(s) => SaCurve(s)
  }

  /** `logp_reward`: 0.0 without RDKit or when the descriptor raises; otherwise in [0, 1.5]. */
  function LogPReward(tk: Toolkit, mol: Molecule): (r: real)
    ensures !tk.rdkitAvailable || mol.logP.None? ==> r == 0.0
    ensures 0.0 <= r <= 1.5
    ensures tk.rdkitAvailable && mol.logP.Some? ==> r == LogPCurve(mol.logP.value)
  {
    Guarded(tk, mol.logP, LogPCurve)
  }

  /** `mw_reward`: 0.0 without RDKit or when the descriptor raises; otherwise in [0, 1.0]. */
  function MwReward(tk: Toolkit, mol: Molecule): (r: real)
    ensures !tk.rdkitAvailable || mol.molWt.None? ==> r == 0.0
    ensures 0.0 <= r <= 1.0
    ensures tk.rdkitAvailable && mol.molWt.Some? ==> r == MwCurve(mol.molWt.value)
  {
    Guarded(tk, mol.molWt, MwCurve)
  }

  /** `tpsa_reward`: 0.0 without RDKit or when the descriptor raises; otherwise in [0, 1.0]. */
  function TpsaReward(tk: Toolkit, mol: Molecule): (r: real)
    ensures !tk.rdkitAvailable || mol.tpsa.None? ==> r == 0.0
    ensures 0.0 <= r <= 1.0
    ensures tk.rdkitAvailable && mol.tpsa.Some? ==> r == TpsaCurve(mol.tpsa.value)
  {
    Guarded(tk, mol.tpsa, TpsaCurve)
  }

  // ---------------------------------------------------------------------------
  // lipinski_reward
  // ---------------------------------------------------------------------------

  function CountTrue(bs: seq<bool>): (n: nat)
    ensures n <= |bs|
    ensures n == 0 <==> forall k :: 0 <= k < |bs| ==> !bs[k]
  {
    if bs == [] then 0 else (if bs[0] then 1 else 0) + CountTrue(bs[1..])
  }

  function Indicator(b: bool): nat {
    if b then 1 else 0
  }

  lemma CountFour(a: bool, b: bool, c: bool, d: bool)
    ensures CountTrue([a, b, c, d]) == Indicator(a) + Indicator(b) + Indicator(c) + Indicator(d)
  {
    assert [d][1..] == [];
    assert CountTrue([d]) == Indicator(d);
    assert [c, d][1..] == [d];
    assert CountTrue([c, d]) == Indicator(c) + Indicator(d);
    assert [b, c, d][1..] == [c, d];
    assert CountTrue([b, c, d]) == Indicator(b) + Indicator(c) + Indicator(d);
    assert [a, b, c, d][1..] == [b, c, d];
  }

  /** The number of Lipinski rule-of-five limits a molecule exceeds. */
  function RuleOfFiveViolations(mw: real, logP: real, donors: int, acceptors: int): (n: nat)
    ensures n <= 4
    ensures n == 0 <==> mw <= 500.0 && logP <= 5.0 && donors <= 5 && acceptors <= 10
  {
    var rules := [mw > 500.0, logP > 5.0, donors > 5, acceptors > 10];
    assert !rules[0] && !rules[1] && !rules[2] && !rules[3] <==> forall k :: 0 <= k < |rules| ==> !rules[k];
    CountFour(rules[0], rules[1], rules[2], rules[3]);
    CountTrue(rules)
  }

  /** 0, 1, 2 and 3 or more violations earn 1.5, 1.0, 0.5 and 0. */
  function LipinskiCurve(violations: nat): (r: real)
    ensures 0.0 <= r <= 1.5
    ensures r == 1.5 <==> violations == 0
    ensures violations >= 3 ==> r == 0.0
  {
    if violations == 0 then 1.5
    else if violations == 1 then 1.0
    else if violations == 2 then 0.5
    else 0.0
  }

  lemma LipinskiCurveNonIncreasing(a: nat, b: nat)
    requires a <= b
    ensures LipinskiCurve(b) <= LipinskiCurve(a)
  {
  }

  /** Reference definition of `lipinski_reward`. */
  function LipinskiSpec(tk: Toolkit, mol: Molecule): (r: real)
    ensures 0.0 <= r <= 1.5
  {
    if !tk.rdkitAvailable then 0.0
    else if mol.molWt.Some? && mol.logP.Some? && mol.hDonors.Some? && mol.hAcceptors.Some? then
      LipinskiCurve(RuleOfFiveViolations(mol.molWt.value, mol.logP.value, mol.hDonors.value, mol.hAcceptors.value))
    else 0.0
  }

  /** `lipinski_reward`: the violations are counted one test at a time. */
  method LipinskiReward(tk: Toolkit, mol: Molecule) returns (reward: real)
    ensures reward == LipinskiSpec(tk, mol)
  {
    if !tk.rdkitAvailable {
      return 0.0;
    }
    if mol.molWt.None? || mol.logP.None? || mol.hDonors.None? || mol.hAcceptors.None? {
      return 0.0;
    }
    var mw, logp := mol.molWt.value, mol.logP.value;
    var hbd, hba := mol.hDonors.value, mol.hAcceptors.value;

    var violations := 0;
    if mw > 500.0 {
      violations := violations + 1;
    }
    if logp > 5.0 {
      violations := violations + 1;
    }
    if hbd > 5 {
      violations := violations + 1;
    }
    if hba > 10 {
      violations := violations + 1;
    }
    CountFour(mw > 500.0, logp > 5.0, hbd > 5, hba > 10);
    assert violations == RuleOfFiveViolations(mw, logp, hbd, hba);

    if violations == 0 {
      reward := 1.5;
    } else if violations == 1 {
      reward := 1.0;
    } else if violations == 2 {
      reward := 0.5;
    } else {
      reward := 0.0;
    }
  }

  // ---------------------------------------------------------------------------
  // egfr_specific_reward
  // ---------------------------------------------------------------------------

  /** Aromatic rings: 2 to 4 earn 0.6, exactly 1 or 5 earn 0.3. */
  function RingPart(rings: int): (r: real)
    ensures r == 0.6 <==> 2 <= rings <= 4
    ensures r == 0.3 <==> rings == 1 || rings == 5
    ensures r == 0.0 <==> rings < 1 || rings > 5
  {
    if 2 <= rings <= 4 then 0.6 else if rings == 1 || rings == 5 then 0.3 else 0.0
  }

  /** Rotatable bonds: 5 to 10 earn 0.4, 3 to 4 and 11 to 12 earn 0.2. */
  function RotorPart(bonds: int): (r: real)
    ensures r == 0.4 <==> 5 <= bonds <= 10
    ensures r == 0.2 <==> 3 <= bonds < 5 || 10 < bonds <= 12
    ensures r == 0.0 <==> bonds < 3 || bonds > 12
  {
    if 5 <= bonds <= 10 then 0.4 else if 3 <= bonds < 5 || 10 < bonds <= 12 then 0.2 else 0.0
  }

  /** Reference definition of `egfr_specific_reward`: a ring part plus a rotatable-bond part. */
  function EgfrSpec(tk: Toolkit, mol: Molecule): (r: real)
    ensures 0.0 <= r <= 1.0
  {
    if !tk.rdkitAvailable then 0.0
    else if mol.aromaticRings.Some? && mol.rotatableBonds.Some? then
      RingPart(mol.aromaticRings.value) + RotorPart(mol.rotatableBonds.value)
    else 0.0
  }

  /** The full 1.0 is earned exactly by 2 to 4 aromatic rings and 5 to 10 rotatable bonds. */
  lemma EgfrFullReward(tk: Toolkit, mol: Molecule)
    ensures EgfrSpec(tk, mol) == 1.0 <==>
              tk.rdkitAvailable && mol.aromaticRings.Some? && mol.rotatableBonds.Some?
              && 2 <= mol.aromaticRings.value <= 4 && 5 <= mol.rotatableBonds.value <= 10
  {
    if tk.rdkitAvailable && mol.aromaticRings.Some? && mol.rotatableBonds.Some? {
      var a, b := RingPart(mol.aromaticRings.value), RotorPart(mol.rotatableBonds.value);
      assert a == 0.6 || a == 0.3 || a == 0.0;
      assert b == 0.4 || b == 0.2 || b == 0.0;
    }
  }

  /** `egfr_specific_reward`: a score accumulated from the two structural features. */
  method EgfrReward(tk: Toolkit, mol: Molecule) returns (reward: real)
    ensures reward == EgfrSpec(tk, mol)
  {
    if !tk.rdkitAvailable {
      return 0.0;
    }
    if mol.aromaticRings.None? || mol.rotatableBonds.None? {
      return 0.0;
    }
    var aromaticRings, rotatableBonds := mol.aromaticRings.value, mol.rotatableBonds.value;

    var score := 0.0;
    if 2 <= aromaticRings <= 4 {
      score := score + 0.6;
    } else if aromaticRings == 1 || aromaticRings == 5 {
      score := score + 0.3;
    }
    assert score == RingPart(aromaticRings);
    if 5 <= rotatableBonds <= 10 {
      score := score + 0.4;
    } else if 3 <= rotatableBonds < 5 || 10 < rotatableBonds <= 12 {
      score := score + 0.2;
    }
    reward := score;
  }

  // ---------------------------------------------------------------------------
  // compute_score
  // ---------------------------------------------------------------------------

  /** The sum of the seven property rewards of a parsed molecule. */
  function PropertyRewards(tk: Toolkit, mol: Molecule): real {
    QedReward(tk, mol) + SaReward(tk, mol) + LogPReward(tk, mol) + MwReward(tk, mol)
    + TpsaReward(tk, mol) + LipinskiSpec(tk, mol) + EgfrSpec(tk, mol)
  }

  /** Reference definition of `compute_score`: the gates, then the sum. The ground truth is ignored. */
  function ChemScore(tk: Toolkit, response: string): real {
    if !tk.rdkitAvailable then FormatPenalty
    else
      var (formatReward, smiles) := CheckFormat(response);
      if smiles.None? then formatReward
      else
        var (validityReward, mol) := CheckValidity(tk, smiles.value);
        if mol.None? then formatReward + validityReward
        else formatReward + validityReward + PropertyRewards(tk, mol.value)
  }

  /** `compute_score`, calling the two accumulating rewards. */
  method ComputeScore(tk: Toolkit, solution: string, groundTruth: map<string, string>) returns (score: real)
    ensures score == ChemScore(tk, solution)
  {
    if !tk.rdkitAvailable {
      return FormatPenalty;
    }
    var (formatReward, smiles) := CheckFormat(solution);
    if smiles.None? {
      return formatReward;
    }
    var (validityReward, mol) := CheckValidity(tk, smiles.value);
    if mol.None? {
      return formatReward + validityReward;
    }
    var m := mol.value;
    var lipinskiScore := LipinskiReward(tk, m);
    var egfrScore := EgfrReward(tk, m);
    score := formatReward + validityReward + QedReward(tk, m) + SaReward(tk, m) + LogPReward(tk, m)
             + MwReward(tk, m) + TpsaReward(tk, m) + lipinskiScore + egfrScore;
  }

  /**
   * Without RDKit every response scores -5.0; with it, a response that fails the
   * format check scores -5.0 and one whose SMILES does not parse scores -2.0.
   */
  lemma GateScores(tk: Toolkit, response: string)
    ensures !tk.rdkitAvailable ==> ChemScore(tk, response) == -5.0
    ensures tk.rdkitAvailable && CheckFormat(response).1.None? ==> ChemScore(tk, response) == -5.0
    ensures tk.rdkitAvailable && CheckFormat(response).1.Some? && tk.parse(CheckFormat(response).1.value).None? ==>
              ChemScore(tk, response) == -2.0
  {
  }

  /** Descriptor values in the ranges RDKit and SA_Score produce: QED in [0, 1], SA at least 1. */
  predicate PlausibleDescriptors(mol: Molecule) {
    (mol.qed.Some? ==> 0.0 <= mol.qed.value <= 1.0) && (mol.sa.Some? ==> 1.0 <= mol.sa.value)
  }

  /** Every property reward is non-negative, and bounded when the descriptors are plausible. */
  lemma PropertyRewardsBounds(tk: Toolkit, mol: Molecule)
    ensures 0.0 <= PropertyRewards(tk, mol)
    ensures PlausibleDescriptors(mol) ==> PropertyRewards(tk, mol) <= 10.0
  {
  }

  /**
   * The score lies in [-5, 11.5] when the descriptors are plausible, and a molecule
   * that parses totals at least 1.5.
   */
  lemma ChemScoreBounds(tk: Toolkit, response: string)
    ensures -5.0 <= ChemScore(tk, response)
    ensures ChemScore(tk, response) >= 1.5 <==>
              tk.rdkitAvailable && CheckFormat(response).1.Some? && tk.parse(CheckFormat(response).1.value).Some?
    ensures (forall smiles :: tk.parse(smiles).Some? ==> PlausibleDescriptors(tk.parse(smiles).value)) ==>
              ChemScore(tk, response) <= 11.5
  {
    var smiles := CheckFormat(response).1;
    if tk.rdkitAvailable && smiles.Some? && tk.parse(smiles.value).Some? {
      PropertyRewardsBounds(tk, tk.parse(smiles.value).value);
    }
  }
}
