/**
 * The structural stage shared by the two tag scorers (rule.py and newkk.py):
 * count each of `<think>`, `</think>`, `<answer>`, `</answer>` case-sensitively,
 * stop at the first one that does not occur exactly once, then check strict
 * order of the start offsets, then take the text between each pair.
 */
module Tags {
  import opened Wrappers
  import opened Text

  datatype TagName = ThinkStart | ThinkEnd | AnswerStart | AnswerEnd

  const ThinkOpen: string := "<think>"
  const ThinkClose: string := "</think>"
  const AnswerOpen: string := "<answer>"
  const AnswerClose: string := "</answer>"

  /** The four critical tags, in the order both scorers check them. */
  const CriticalTags: seq<(TagName, string)> :=
    [(ThinkStart, ThinkOpen), (ThinkEnd, ThinkClose), (AnswerStart, AnswerOpen), (AnswerEnd, AnswerClose)]

  function TagText(k: nat): string
    requires k < 4
  {
    CriticalTags[k].1
  }

  /** Every tag starts with '<' and holds no other '<', so no two tag occurrences overlap. */
  lemma TagsDelimited(k: nat, l: nat)
    requires k < 4 && l < 4
    ensures NoSelfOverlap(TagText(k)) && Disjoint(TagText(k), TagText(l))
  {
  }

  /** Tag `k` occurs exactly once in `s`. */
  predicate Unique(s: string, k: nat)
    requires k < 4
  {
    |Occurrences(s, TagText(k))| == 1
  }

  predicate UniqueBelow(s: string, k: nat)
    requires k <= 4
  {
    forall j :: 0 <= j < k ==> Unique(s, j)
  }

  /** The index of the first tag, in checking order, that is missing or duplicated. */
  function FirstNonUnique(s: string): (r: Option<nat>)
    ensures r.Some? <==> !UniqueBelow(s, 4)
    ensures r.Some? ==> r.value < 4 && UniqueBelow(s, r.value) && !Unique(s, r.value)
  {
    if !Unique(s, 0) then Some(0)
    else if !Unique(s, 1) then Some(1)
    else if !Unique(s, 2) then Some(2)
    else if !Unique(s, 3) then Some(3)
    else None
  }

  /** Start offset of a tag that occurs once (`matches[0].start()`). */
  function Position(s: string, k: nat): (r: nat)
    requires k < 4 && Unique(s, k)
    ensures OccursAt(s, TagText(k), r)
  {
    OccurrencesSound(s, TagText(k), 0);
    Occurrences(s, TagText(k))[0]
  }

  predicate InStrictOrder(s: string)
    requires UniqueBelow(s, 4)
  {
    Position(s, 0) < Position(s, 1) < Position(s, 2) < Position(s, 3)
  }

  /** Ordered start offsets are in fact ordered whole tags: each tag ends before the next starts. */
  lemma OrderedTagsApart(s: string)
    requires UniqueBelow(s, 4) && InStrictOrder(s)
    ensures Position(s, 0) + 7 <= Position(s, 1)
    ensures Position(s, 1) + 8 <= Position(s, 2)
    ensures Position(s, 2) + 8 <= Position(s, 3)
    ensures Position(s, 3) + 9 <= |s|
  {
    TagsDelimited(0, 1);
    TagsDelimited(1, 2);
    TagsDelimited(2, 3);
    OccurrencesApart(s, TagText(0), TagText(1), Position(s, 0), Position(s, 1));
    OccurrencesApart(s, TagText(1), TagText(2), Position(s, 1), Position(s, 2));
    OccurrencesApart(s, TagText(2), TagText(3), Position(s, 2), Position(s, 3));
  }

  /** The structural verdict on a response. */
  datatype TagCheck =
    | MissingOrDuplicate(passed: nat)   // tags 0..passed-1 occur once, tag `passed` does not
    | WrongOrder                        // all four occur once, start offsets not strictly increasing
    | WellFormed(think: string, answer: string)  // raw text between each pair of tags

  /**
   * Reference definition of the structural stage: the verdict is reached from
   * counts and start offsets alone, with each block the text strictly between
   * the end of its opening tag and the start of its closing tag.
   */
  function CheckTags(s: string): (r: TagCheck)
    ensures r.MissingOrDuplicate? ==> r.passed < 4
    ensures r.WellFormed? ==> |r.think| + |r.answer| + 32 <= |s|
  {
    match FirstNonUnique(s)
    case Some(k) => MissingOrDuplicate(k)
    case None =>
      if !InStrictOrder(s) then WrongOrder
      else
        OrderedTagsApart(s);
        WellFormed(s[Position(s, 0) + 7..Position(s, 1)], s[Position(s, 2) + 8..Position(s, 3)])
  }

  /**
   * The lazy searches `<think>(.*?)</think>` and `<answer>(.*?)</answer>` (DOTALL)
   * find exactly the blocks `CheckTags` names once the tags are unique and ordered.
   */
  lemma {:induction false} WellFormedExtraction(s: string)
    requires UniqueBelow(s, 4) && InStrictOrder(s)
    ensures LazySpan(s, ThinkOpen, ThinkClose, 0) == Some((Position(s, 0) + 7, Position(s, 1)))
    ensures LazySpan(s, AnswerOpen, AnswerClose, 0) == Some((Position(s, 2) + 8, Position(s, 3)))
  {
    assert Unique(s, 0) && Unique(s, 1) && Unique(s, 2) && Unique(s, 3);
    OrderedTagsApart(s);
    TagsDelimited(0, 0);
    TagsDelimited(1, 1);
    TagsDelimited(2, 2);
    TagsDelimited(3, 3);
    UniquePairSpan(s, TagText(0), TagText(1), 0);
    UniquePairSpan(s, TagText(2), TagText(3), 0);
  }

  /** Once the tags are unique and ordered, the verdict's blocks are the text between each pair of tags. */
  lemma WellFormedBlocks(s: string)
    requires UniqueBelow(s, 4) && InStrictOrder(s)
    ensures Position(s, 0) + 7 <= Position(s, 1) && Position(s, 2) + 8 <= Position(s, 3) <= |s|
    ensures CheckTags(s) == WellFormed(s[Position(s, 0) + 7..Position(s, 1)], s[Position(s, 2) + 8..Position(s, 3)])
  {
    OrderedTagsApart(s);
  }

  /** Once the tags are unique and ordered, the lazy searches' groups are the blocks of the verdict. */
  lemma BlockGroups(s: string)
    requires UniqueBelow(s, 4) && InStrictOrder(s)
    ensures CheckTags(s).WellFormed?
    ensures Group(s, LazySpan(s, ThinkOpen, ThinkClose, 0)) == CheckTags(s).think
    ensures Group(s, LazySpan(s, AnswerOpen, AnswerClose, 0)) == CheckTags(s).answer
  {
    WellFormedExtraction(s);
    WellFormedBlocks(s);
  }
}
