/**
  One dataset item of `evaluate_all`: its ground truth, padded to three slots, the predictor's
  answer, and what the item contributes to the run's counters. Everything here is per item; the
  run that folds items together is in module `Tally`.
*/
module Scoring {
  import opened Wrappers
  import opened Seqs
  import opened StableSort

  /** A ground-truth entry: the normalized tag, its `Underkategori` column number and the raw cell text. */
  datatype GroundTruthTag = GroundTruthTag(tag: string, priority: int, originalValue: string)

  /** The arrangement fields the loader keeps (all stripped strings). */
  datatype Arrangement = Arrangement(
    arrangementNummer: string,
    arrangementTitel: string,
    arrangoer: string,
    ncTeaser: string,
    ncBeskrivelse: string,
    arrangementUndertype: string)

  datatype Item = Item(arrangement: Arrangement, groundTruthTags: seq<GroundTruthTag>)

  /** The `tag_triple` of a processor response. */
  datatype TagTriple = TagTriple(tag1: string, tag2: Option<string>, tag3: Option<string>, confidence: real)

  /**
    What the predictor gives for one item: an exception, or a response whose `tag_triple` may be
    missing (the processor's error responses carry none).
  */
  datatype Answer = Raised(message: string) | Responded(tagTriple: Option<TagTriple>)

  /** `str(e)` of the `AttributeError` raised by reading `tag1` of a missing tag triple. */
  const NoTripleMessage := "'NoneType' object has no attribute 'tag1'"

  /** The separator of a confusion key, U+2192 RIGHTWARDS ARROW between blanks. */
  const Arrow := " \U{2192} "

  datatype EvaluationResult = EvaluationResult(
    arrangementId: string,
    arrangementTitle: string,
    predictedTag1: Option<string>,
    predictedTag2: Option<string>,
    predictedTag3: Option<string>,
    predictedConfidence: real,
    groundTruthTags: seq<string>,
    isCorrect: bool,
    matchPriority: Option<nat>,
    errorMessage: Option<string>)

  // ------------------------------------------------------- ground truth

  function PriorityKey(g: GroundTruthTag): real {
    -(g.priority as real)
  }

  /** `sorted(gt_list, key=priority)`: the descending stable sort on the negated priority. */
  function SortByPriority(gts: seq<GroundTruthTag>): seq<GroundTruthTag> {
    Sort(gts, PriorityKey)
  }

  /** Ground-truth entries ordered by priority, equal priorities in their original order. */
  lemma SortByPriorityFacts(gts: seq<GroundTruthTag>)
    ensures var s := SortByPriority(gts);
      (forall i, j :: 0 <= i < j < |s| ==> s[i].priority <= s[j].priority)
      && multiset(s) == multiset(gts)
      && forall v :: WithKey(s, PriorityKey, v) == WithKey(gts, PriorityKey, v)
  {
    SortFacts(gts, PriorityKey);
  }

  function TagsOf(gts: seq<GroundTruthTag>): (tags: seq<string>)
    ensures |tags| == |gts| && forall i :: 0 <= i < |gts| ==> tags[i] == gts[i].tag
  {
    seq(|gts|, i requires 0 <= i < |gts| => gts[i].tag)
  }

  /** The tags followed by `None` slots up to a length of three; a longer list is left as it is. */
  function Padded(tags: seq<string>): (slots: seq<Option<string>>)
    ensures |slots| == if |tags| < 3 then 3 else |tags|
    ensures forall i :: 0 <= i < |tags| ==> slots[i] == Some(tags[i])
    ensures forall i :: |tags| <= i < |slots| ==> slots[i].None?
  {
    seq(|tags|, i requires 0 <= i < |tags| => Some(tags[i]))
      + seq(if |tags| < 3 then 3 - |tags| else 0, _ => None)
  }

  /** The padded ground-truth slots of an item. */
  function Slots(gts: seq<GroundTruthTag>): seq<Option<string>> {
    Padded(TagsOf(SortByPriority(gts)))
  }

  // ---------------------------------------------------------- the answer

  /** `x or None` on a string. */
  function OrNone(s: string): (r: Option<string>)
    ensures r.Some? <==> s != ""
    ensures r.Some? ==> r.value == s
  {
    if s != "" then Some(s) else None
  }

  /** `x or None` on an optional string. */
  function OptOrNone(o: Option<string>): (r: Option<string>)
    ensures r.Some? <==> Truthy(o)
    ensures r.Some? ==> r == o
  {
    if Truthy(o) then o else None
  }

  /** The tag triple when the answer has one; its absence takes the `except` branch. */
  function Prediction(a: Answer): Option<TagTriple> {
    if a.Responded? then a.tagTriple else None
  }

  /** `str(e)` of the exception on the failure path, `None` on success. */
  function ErrorOf(a: Answer): (r: Option<string>)
    ensures r.None? <==> Prediction(a).Some?
  {
    match a
    case Raised(m) => Some(m)
    case Responded(t) => if t.None? then Some(NoTripleMessage) else None
  }

  /** `predicted_tag1`: `tri.tag1 or None` on success, `None` on failure. */
  function Predicted1(a: Answer): Option<string> {
    match Prediction(a)
    case Some(t) => OrNone(t.tag1)
    case None => None
  }

  function Predicted2(a: Answer): Option<string> {
    match Prediction(a)
    case Some(t) => OptOrNone(t.tag2)
    case None => None
  }

  function Predicted3(a: Answer): Option<string> {
    match Prediction(a)
    case Some(t) => OptOrNone(t.tag3)
    case None => None
  }

  /** `tri.confidence or 0.0` on success (the same real), 0.0 on failure. */
  function ConfidenceOf(a: Answer): real {
    match Prediction(a)
    case Some(t) => t.confidence
    case None => 0.0
  }

  // -------------------------------------------------------------- matching

  /**
    `match_priority`: the 1-based position of the first non-`None` slot equal to the predicted
    first tag, if any.
  */
  function MatchRank(slots: seq<Option<string>>, p1: Option<string>): (r: Option<nat>)
    ensures r.Some? ==> 1 <= r.value <= |slots| && p1.Some? && slots[r.value - 1] == p1
                        && forall j :: 0 <= j < r.value - 1 ==> slots[j] != p1
    ensures r.None? <==> p1.None? || p1 !in slots
    decreases |slots|
  {
    if slots == [] then None
    else if slots[0].Some? && p1 == slots[0] then Some(1)
    else
      match MatchRank(slots[1..], p1)
      case None => None
      case Some(k) => Some(k + 1)
  }

  /** The present tags among the slots, in slot order. */
  function TruthyTags(slots: seq<Option<string>>): (r: seq<string>)
    ensures forall x :: x in r <==> x != "" && Some(x) in slots
    ensures forall i :: 0 <= i < |r| ==> r[i] != ""
    ensures |r| <= |slots|
    decreases |slots|
  {
    if slots == [] then []
    else
      var init, last := slots[..|slots| - 1], slots[|slots| - 1];
      assert slots == init + [last];
      TruthyTags(init) + (if Truthy(last) then [last.value] else [])
  }

  /** The first present slot: the highest-priority present tag. */
  function FirstTruthy(slots: seq<Option<string>>): Option<string>
    decreases |slots|
  {
    if slots == [] then None
    else if Truthy(slots[0]) then slots[0]
    else FirstTruthy(slots[1..])
  }

  lemma {:induction false} TruthyTagsCons(x: Option<string>, rest: seq<Option<string>>)
    ensures TruthyTags([x] + rest) == (if Truthy(x) then [x.value] else []) + TruthyTags(rest)
    decreases |rest|
  {
    if rest != [] {
      var init, last := rest[..|rest| - 1], rest[|rest| - 1];
      assert ([x] + rest)[..|rest|] == [x] + init;
      TruthyTagsCons(x, init);
    } else {
      assert [x] + rest == [x];
      assert ([x] + rest)[..0] == [];
    }
  }

  /** The highest-priority present tag is the first tag of the result's ground-truth list. */
  lemma {:induction false} FirstTruthyHead(slots: seq<Option<string>>)
    ensures FirstTruthy(slots) == if TruthyTags(slots) == [] then None else Some(TruthyTags(slots)[0])
    decreases |slots|
  {
    if slots != [] {
      assert slots == [slots[0]] + slots[1..];
      TruthyTagsCons(slots[0], slots[1..]);
      FirstTruthyHead(slots[1..]);
    }
  }

  // ---------------------------------------------- precision/recall counts

  datatype Kind = TruePositive | FalsePositive | FalseNegative | Neither

  /** How a candidate tag is counted: predicted and/or among the ground-truth slots. */
  function Classify(t: string, slots: seq<Option<string>>, p1: Option<string>): Kind {
    var inTrue := Some(t) in slots;
    var isPred := Some(t) == p1;
    if isPred && inTrue then TruePositive
    else if isPred then FalsePositive
    else if inTrue then FalseNegative
    else Neither
  }

  /** The candidates of kind `k`, in order. */
  function KeysOfKind(cands: seq<string>, slots: seq<Option<string>>, p1: Option<string>, k: Kind): (r: seq<string>)
    ensures forall x :: x in r <==> x in cands && Classify(x, slots, p1) == k
    decreases |cands|
  {
    if cands == [] then []
    else
      var init, last := cands[..|cands| - 1], cands[|cands| - 1];
      assert cands == init + [last];
      KeysOfKind(init, slots, p1, k) + (if Classify(last, slots, p1) == k then [last] else [])
  }

  lemma {:induction false} KeysOfKindDistinct(cands: seq<string>, slots: seq<Option<string>>, p1: Option<string>, k: Kind)
    requires Distinct(cands)
    ensures Distinct(KeysOfKind(cands, slots, p1, k))
    decreases |cands|
  {
    if cands != [] {
      var init, last := cands[..|cands| - 1], cands[|cands| - 1];
      assert forall i :: 0 <= i < |init| ==> init[i] == cands[i];
      assert Distinct(init);
      KeysOfKindDistinct(init, slots, p1, k);
      if Classify(last, slots, p1) == k {
        assert last !in init by {
          forall i | 0 <= i < |init| ensures init[i] != last {
            assert cands[i] != cands[|cands| - 1];
          }
        }
        DistinctAppend(KeysOfKind(init, slots, p1, k), last);
      }
    }
  }

  /** `[predicted_tag1]` when it is present. */
  function PredList(p1: Option<string>): seq<string> {
    if Truthy(p1) then [p1.value] else []
  }

  /** `all_tags_in_dataset`: the present ground-truth tags and the predicted tag, each once. */
  function Candidates(slots: seq<Option<string>>, p1: Option<string>): (c: seq<string>)
    ensures Distinct(c)
    ensures forall x :: x in c <==> x in TruthyTags(slots) || x in PredList(p1)
  {
    Dedup(TruthyTags(slots) + PredList(p1))
  }

  lemma SizeOfKind(slots: seq<Option<string>>, p1: Option<string>, k: Kind)
    ensures var ks := KeysOfKind(Candidates(slots, p1), slots, p1, k);
      Distinct(ks) && |ks| == |ToSet(ks)|
  {
    KeysOfKindDistinct(Candidates(slots, p1), slots, p1, k);
    DistinctIffSetSize(KeysOfKind(Candidates(slots, p1), slots, p1, k));
  }

  /** With a predicted tag, a true positive exactly when it is among the ground-truth slots. */
  lemma TruePositives(slots: seq<Option<string>>, p1: Option<string>)
    ensures |KeysOfKind(Candidates(slots, p1), slots, p1, TruePositive)| == (if Truthy(p1) && p1 in slots then 1 else 0)
  {
    var tp := KeysOfKind(Candidates(slots, p1), slots, p1, TruePositive);
    SizeOfKind(slots, p1, TruePositive);
    assert ToSet(tp) == if Truthy(p1) && p1 in slots then {p1.value} else {};
  }

  /** With a predicted tag, a false positive exactly when it is not among the ground-truth slots. */
  lemma FalsePositives(slots: seq<Option<string>>, p1: Option<string>)
    ensures |KeysOfKind(Candidates(slots, p1), slots, p1, FalsePositive)| == (if Truthy(p1) && p1 !in slots then 1 else 0)
  {
    SizeOfKind(slots, p1, FalsePositive);
    FalsePositiveSet(slots, p1);
  }

  lemma FalsePositiveSet(slots: seq<Option<string>>, p1: Option<string>)
    ensures ToSet(KeysOfKind(Candidates(slots, p1), slots, p1, FalsePositive))
            == if Truthy(p1) && p1 !in slots then {p1.value} else {}
  {
    FalsePositiveMembers(slots, p1);
    if Truthy(p1) && p1 !in slots {
      assert p1.value in PredList(p1);
      assert Classify(p1.value, slots, p1) == FalsePositive;
    }
  }

  lemma FalsePositiveMembers(slots: seq<Option<string>>, p1: Option<string>)
    ensures forall x :: x in KeysOfKind(Candidates(slots, p1), slots, p1, FalsePositive) ==>
                          Truthy(p1) && p1 !in slots && x == p1.value
  {
    var fp := KeysOfKind(Candidates(slots, p1), slots, p1, FalsePositive);
    forall x | x in fp ensures Truthy(p1) && p1 !in slots && x == p1.value {
      assert Some(x) == p1 && Some(x) !in slots;
    }
  }

  /** Every distinct present ground-truth tag other than the predicted one is a false negative. */
  lemma FalseNegatives(slots: seq<Option<string>>, p1: Option<string>)
    ensures |KeysOfKind(Candidates(slots, p1), slots, p1, FalseNegative)| == |ToSet(TruthyTags(slots)) - ToSet(PredList(p1))|
  {
    var fn := KeysOfKind(Candidates(slots, p1), slots, p1, FalseNegative);
    SizeOfKind(slots, p1, FalseNegative);
    forall x ensures x in ToSet(fn) <==> x in ToSet(TruthyTags(slots)) - ToSet(PredList(p1)) {
      if x in TruthyTags(slots) && x !in PredList(p1) {
        assert Some(x) != p1;
      }
    }
    assert ToSet(fn) == ToSet(TruthyTags(slots)) - ToSet(PredList(p1));
  }

  /**
    One item's precision/recall contribution: with a predicted tag, exactly one of TP and FP, TP
    iff the tag is in the ground truth; FN is every distinct present ground-truth tag other than
    the predicted one (all of them when there is no prediction).
  */
  lemma Contributions(slots: seq<Option<string>>, p1: Option<string>)
    ensures var c := Candidates(slots, p1);
      |KeysOfKind(c, slots, p1, TruePositive)| == (if Truthy(p1) && p1 in slots then 1 else 0)
      && |KeysOfKind(c, slots, p1, FalsePositive)| == (if Truthy(p1) && p1 !in slots then 1 else 0)
      && |KeysOfKind(c, slots, p1, FalseNegative)| == |ToSet(TruthyTags(slots)) - ToSet(PredList(p1))|
    ensures var c := Candidates(slots, p1);
      Truthy(p1) ==> |KeysOfKind(c, slots, p1, TruePositive)| + |KeysOfKind(c, slots, p1, FalsePositive)| == 1
  {
    TruePositives(slots, p1);
    FalsePositives(slots, p1);
    FalseNegatives(slots, p1);
  }

  // ------------------------------------------------------- the item result

  /** The confusion key recorded for an incorrect item with a prediction, if it has a present ground-truth tag. */
  function ConfusionKeys(slots: seq<Option<string>>, p1: Option<string>, isCorrect: bool): seq<string> {
    if Truthy(p1) && !isCorrect then
      var trueNonNull := FirstTruthy(slots);
      if Truthy(trueNonNull) then [trueNonNull.value + Arrow + p1.value] else []
    else []
  }

  /** `per_tag_correct[predicted_tag1] += 1` when the item is correct. */
  function CorrectKeys(p1: Option<string>, isCorrect: bool): seq<string> {
    if isCorrect && Truthy(p1) then [p1.value] else []
  }

  /** The `EvaluationResult` of one item. */
  function ItemResult(item: Item, a: Answer): EvaluationResult {
    var slots := Slots(item.groundTruthTags);
    var arr := item.arrangement;
    match Prediction(a)
    case Some(_) =>
      var rank := MatchRank(slots, Predicted1(a));
      EvaluationResult(arr.arrangementNummer, arr.arrangementTitel, Predicted1(a), Predicted2(a), Predicted3(a),
                       ConfidenceOf(a), TruthyTags(slots), rank.Some?, rank, None)
    case None =>
      EvaluationResult(arr.arrangementNummer, arr.arrangementTitel, None, None, None,
                       0.0, TruthyTags(slots), false, None, ErrorOf(a))
  }

  /**
    What a result records: correct exactly when a rank was found, the rank is a slot position
    holding the predicted tag and no earlier slot does, the ground-truth list is the present
    tags in slot order, and a failure carries its message and no prediction.
  */
  lemma ItemResultFacts(item: Item, a: Answer)
    ensures var r, slots := ItemResult(item, a), Slots(item.groundTruthTags);
      (r.isCorrect <==> r.matchPriority.Some?)
      && r.matchPriority == MatchRank(slots, r.predictedTag1)
      && (r.isCorrect <==> Truthy(r.predictedTag1) && r.predictedTag1 in slots)
      && r.groundTruthTags == TruthyTags(slots)
      && (r.errorMessage.None? <==> Prediction(a).Some?)
      && (r.errorMessage.Some? ==>
            r.predictedTag1.None? && r.predictedTag2.None? && r.predictedTag3.None? && r.predictedConfidence == 0.0)
  {
  }

  /**
    The rank depends on the predicted first tag only: two successful answers that agree on `tag1`
    give the same rank and correctness, whatever their other tags.
  */
  lemma RankIgnoresOtherTags(item: Item, t: TagTriple, u: TagTriple)
    requires t.tag1 == u.tag1
    ensures ItemResult(item, Responded(Some(t))).matchPriority == ItemResult(item, Responded(Some(u))).matchPriority
    ensures ItemResult(item, Responded(Some(t))).isCorrect == ItemResult(item, Responded(Some(u))).isCorrect
  {
  }

  /** A padding slot never matches: the rank of a found tag is at most the number of ground-truth entries. */
  lemma RankWithinTags(gts: seq<GroundTruthTag>, p1: Option<string>)
    ensures var r := MatchRank(Slots(gts), p1); r.Some? ==> r.value <= |gts|
  {
    SortFacts(gts, PriorityKey);
  }

  // ------------------------------------------------------------ exact match

  /** Slot `i` of the tag list, `None` past its end. */
  function Slot(gt: seq<string>, i: nat): Option<string> {
    if i < |gt| then Some(gt[i]) else None
  }

  /** EXACT@2 of a result; `gt_list[0]` must exist. */
  predicate Exact2(r: EvaluationResult)
    requires r.groundTruthTags != []
  {
    var gt := r.groundTruthTags;
    var gt2 := Slot(gt, 1);
    r.predictedTag1 == Some(gt[0])
    && ((gt2.None? && r.predictedTag2.None?) || (gt2.Some? && r.predictedTag2 == gt2))
  }

  /** EXACT@3 of a result; `gt_list[0]` must exist. */
  predicate Exact3(r: EvaluationResult)
    requires r.groundTruthTags != []
  {
    var gt := r.groundTruthTags;
    var gt2, gt3 := Slot(gt, 1), Slot(gt, 2);
    r.predictedTag1 == Some(gt[0])
    && ((gt2.None? && r.predictedTag2.None?) || (gt2.Some? && r.predictedTag2 == gt2))
    && ((gt3.None? && r.predictedTag3.None?) || (gt3.Some? && r.predictedTag3 == gt3))
  }

  /**
    Exact@2 is agreement on the first two slots, exact@3 on the first three, so exact@3 implies
    exact@2; a missing ground-truth slot needs a missing prediction; a result without a first
    prediction (every failure) is never an exact match.
  */
  lemma ExactFacts(r: EvaluationResult)
    requires r.groundTruthTags != []
    ensures Exact2(r) <==> r.predictedTag1 == Slot(r.groundTruthTags, 0) && r.predictedTag2 == Slot(r.groundTruthTags, 1)
    ensures Exact3(r) <==> Exact2(r) && r.predictedTag3 == Slot(r.groundTruthTags, 2)
    ensures Exact3(r) ==> Exact2(r)
    ensures Exact2(r) && |r.groundTruthTags| < 2 ==> r.predictedTag2.None?
    ensures Exact3(r) && |r.groundTruthTags| < 3 ==> r.predictedTag3.None?
    ensures r.predictedTag1.None? ==> !Exact2(r) && !Exact3(r)
  {
  }
}
