/**
  The run state of `evaluate_all` as a value: the result list, the running confidence sum, the
  overall correct count and the six `defaultdict(int)` counters. `ScoreStep` is what the loop body
  does to that state for one item, `Fold` the whole loop, and `Consistent` the invariant that ties
  every counter to the results recorded so far.
*/
module Tally {
  import opened Wrappers
  import opened Seqs
  import opened Counters
  import opened Scoring

  datatype RunState = RunState(
    results: seq<EvaluationResult>,
    totalConfidence: real,
    correctPredictionsOverall: nat,
    confusionCounter: Counter,
    tpCounts: Counter,
    fpCounts: Counter,
    fnCounts: Counter,
    perTagTotal: Counter,
    perTagCorrect: Counter)

  /** The state before the first item. */
  const Initial := RunState([], 0.0, 0, [], [], [], [], [], [])

  function TpKeys(slots: seq<Option<string>>, p1: Option<string>): seq<string> {
    KeysOfKind(Candidates(slots, p1), slots, p1, TruePositive)
  }

  function FpKeys(slots: seq<Option<string>>, p1: Option<string>): seq<string> {
    KeysOfKind(Candidates(slots, p1), slots, p1, FalsePositive)
  }

  function FnKeys(slots: seq<Option<string>>, p1: Option<string>): seq<string> {
    KeysOfKind(Candidates(slots, p1), slots, p1, FalseNegative)
  }

  /** The counter updates of a successful item with predicted tag `p1`. */
  function Counted(s: RunState, slots: seq<Option<string>>, p1: Option<string>, isCorrect: bool): RunState {
    s.(correctPredictionsOverall := s.correctPredictionsOverall + (if isCorrect then 1 else 0),
       confusionCounter := IncAll(s.confusionCounter, ConfusionKeys(slots, p1, isCorrect)),
       tpCounts := IncAll(s.tpCounts, TpKeys(slots, p1)),
       fpCounts := IncAll(s.fpCounts, FpKeys(slots, p1)),
       fnCounts := IncAll(s.fnCounts, FnKeys(slots, p1)),
       perTagTotal := IncAll(s.perTagTotal, TruthyTags(slots)),
       perTagCorrect := IncAll(s.perTagCorrect, CorrectKeys(p1, isCorrect)))
  }

  /** A successful item: every counter receives the item's contribution, then the result is recorded. */
  function Scored(s: RunState, slots: seq<Option<string>>, r: EvaluationResult): RunState {
    Counted(s, slots, r.predictedTag1, r.isCorrect).(
      results := s.results + [r],
      totalConfidence := s.totalConfidence + r.predictedConfidence)
  }

  /** A failed item: only the result list, the confidence sum (by 0.0) and `per_tag_total` change. */
  function Failed(s: RunState, slots: seq<Option<string>>, r: EvaluationResult): RunState {
    s.(results := s.results + [r],
       totalConfidence := s.totalConfidence + r.predictedConfidence,
       perTagTotal := IncAll(s.perTagTotal, TruthyTags(slots)))
  }

  /** One pass of the loop body. */
  function ScoreStep(s: RunState, item: Item, a: Answer): RunState {
    if Prediction(a).None? then Failed(s, Slots(item.groundTruthTags), ItemResult(item, a))
    else Scored(s, Slots(item.groundTruthTags), ItemResult(item, a))
  }

  /** The state after the loop has scored every item, in order. */
  function Fold(items: seq<Item>, answers: seq<Answer>): RunState
    requires |items| == |answers|
    decreases |items|
  {
    if items == [] then Initial
    else ScoreStep(Fold(items[..|items| - 1], answers[..|answers| - 1]), items[|items| - 1], answers[|answers| - 1])
  }

  // ------------------------------------------------ counts over results

  function CountCorrect(rs: seq<EvaluationResult>): nat
    decreases |rs|
  {
    if rs == [] then 0 else CountCorrect(rs[..|rs| - 1]) + (if rs[|rs| - 1].isCorrect then 1 else 0)
  }

  /** Results with a predicted first tag. */
  function CountPredicted(rs: seq<EvaluationResult>): nat
    decreases |rs|
  {
    if rs == [] then 0 else CountPredicted(rs[..|rs| - 1]) + (if Truthy(rs[|rs| - 1].predictedTag1) then 1 else 0)
  }

  /** An item that records a confusion entry: predicted, incorrect, with a present ground-truth tag. */
  predicate Confused(r: EvaluationResult) {
    Truthy(r.predictedTag1) && !r.isCorrect && r.groundTruthTags != []
  }

  function CountConfused(rs: seq<EvaluationResult>): nat
    decreases |rs|
  {
    if rs == [] then 0 else CountConfused(rs[..|rs| - 1]) + (if Confused(rs[|rs| - 1]) then 1 else 0)
  }

  /** The false negatives of a scored item: its distinct ground-truth tags other than the prediction. */
  function Missed(r: EvaluationResult): nat {
    if r.errorMessage.None? then |ToSet(r.groundTruthTags) - ToSet(PredList(r.predictedTag1))| else 0
  }

  function SumMissed(rs: seq<EvaluationResult>): nat
    decreases |rs|
  {
    if rs == [] then 0 else SumMissed(rs[..|rs| - 1]) + Missed(rs[|rs| - 1])
  }

  function SumConfidence(rs: seq<EvaluationResult>): real
    decreases |rs|
  {
    if rs == [] then 0.0 else SumConfidence(rs[..|rs| - 1]) + rs[|rs| - 1].predictedConfidence
  }

  /** How often tag `k` is among the results' ground-truth tags, failed results included. */
  function TruthCount(rs: seq<EvaluationResult>, k: string): nat
    decreases |rs|
  {
    if rs == [] then 0 else TruthCount(rs[..|rs| - 1], k) + Count(rs[|rs| - 1].groundTruthTags, k)
  }

  /** A correct result whose predicted first tag is `k`. */
  predicate CorrectFor(r: EvaluationResult, k: string) {
    r.isCorrect && Truthy(r.predictedTag1) && r.predictedTag1.value == k
  }

  function CorrectCount(rs: seq<EvaluationResult>, k: string): nat
    decreases |rs|
  {
    if rs == [] then 0 else CorrectCount(rs[..|rs| - 1], k) + (if CorrectFor(rs[|rs| - 1], k) then 1 else 0)
  }

  /**
    What the counters mean: each counter keeps a key once, the correct count and the TP total are
    the correct results, TP plus FP are the predicted results, FN is the missed tags, the
    confusion total is the confused results, the confidence sum is the results' confidences,
    `per_tag_total[k]` is how often `k` is a ground-truth tag, `per_tag_correct[k]` is the correct
    results predicting `k`, and no tag is correct more often than it occurs.
  */
  ghost predicate Consistent(s: RunState) {
    Valid(s.confusionCounter) && Valid(s.tpCounts) && Valid(s.fpCounts) && Valid(s.fnCounts)
    && Valid(s.perTagTotal) && Valid(s.perTagCorrect)
    && s.correctPredictionsOverall == CountCorrect(s.results)
    && Total(s.tpCounts) == CountCorrect(s.results)
    && Total(s.tpCounts) + Total(s.fpCounts) == CountPredicted(s.results)
    && Total(s.fnCounts) == SumMissed(s.results)
    && Total(s.confusionCounter) == CountConfused(s.results)
    && s.totalConfidence == SumConfidence(s.results)
    && (forall k :: Get(s.perTagTotal, k) == TruthCount(s.results, k))
    && (forall k :: Get(s.perTagCorrect, k) == CorrectCount(s.results, k))
    && forall k :: Get(s.perTagCorrect, k) <= Get(s.perTagTotal, k)
  }

  // ------------------------------------------------------- step lemmas

  /** What a successful item adds to TP and FP, in terms of its result. */
  lemma SuccessTpFp(slots: seq<Option<string>>, r: EvaluationResult)
    requires r.isCorrect <==> Truthy(r.predictedTag1) && r.predictedTag1 in slots
    ensures |TpKeys(slots, r.predictedTag1)| == (if r.isCorrect then 1 else 0)
    ensures |TpKeys(slots, r.predictedTag1)| + |FpKeys(slots, r.predictedTag1)| == (if Truthy(r.predictedTag1) then 1 else 0)
  {
    TruePositives(slots, r.predictedTag1);
    FalsePositives(slots, r.predictedTag1);
  }

  /** What a successful item adds to FN: its missed tags. */
  lemma SuccessFn(slots: seq<Option<string>>, r: EvaluationResult)
    requires r.errorMessage.None? && r.groundTruthTags == TruthyTags(slots)
    ensures |FnKeys(slots, r.predictedTag1)| == Missed(r)
  {
    FalseNegatives(slots, r.predictedTag1);
  }

  /** A successful item adds one confusion entry exactly when it is confused. */
  lemma SuccessConfusion(slots: seq<Option<string>>, r: EvaluationResult)
    requires r.groundTruthTags == TruthyTags(slots)
    ensures |ConfusionKeys(slots, r.predictedTag1, r.isCorrect)| == (if Confused(r) then 1 else 0)
  {
    FirstTruthyHead(slots);
  }

  /** A correct item's tag is one of its present ground-truth tags, so `per_tag_total` grows at least as much. */
  lemma CorrectWithinTotal(item: Item, a: Answer, k: string)
    ensures var slots, r := Slots(item.groundTruthTags), ItemResult(item, a);
      Count(CorrectKeys(r.predictedTag1, r.isCorrect), k) <= Count(TruthyTags(slots), k)
  {
    var slots, r := Slots(item.groundTruthTags), ItemResult(item, a);
    ItemResultFacts(item, a);
    var ck := CorrectKeys(r.predictedTag1, r.isCorrect);
    if ck != [] {
      assert ck == [r.predictedTag1.value];
      assert ck[..0] == [];
      if k == r.predictedTag1.value {
        assert k in TruthyTags(slots);
        CountPositive(TruthyTags(slots), k);
      }
    }
  }

  /**
    Every item, scored or failed, adds its ground-truth tags to `per_tag_total`; a correct item
    adds its predicted tag to `per_tag_correct`, and nothing else does.
  */
  lemma StepPerTag(s: RunState, item: Item, a: Answer)
    ensures var t, r := ScoreStep(s, item, a), ItemResult(item, a);
      (forall k :: Get(t.perTagTotal, k) == Get(s.perTagTotal, k) + Count(r.groundTruthTags, k))
      && (forall k :: Get(t.perTagCorrect, k) == Get(s.perTagCorrect, k) + (if CorrectFor(r, k) then 1 else 0))
  {
    var r := ItemResult(item, a);
    ItemResultFacts(item, a);
    var ck := CorrectKeys(r.predictedTag1, r.isCorrect);
    if ck != [] {
      assert ck == [r.predictedTag1.value];
      assert ck[..0] == [];
    }
  }

  lemma CountsSnoc(rs: seq<EvaluationResult>, r: EvaluationResult)
    ensures CountCorrect(rs + [r]) == CountCorrect(rs) + (if r.isCorrect then 1 else 0)
    ensures CountPredicted(rs + [r]) == CountPredicted(rs) + (if Truthy(r.predictedTag1) then 1 else 0)
    ensures CountConfused(rs + [r]) == CountConfused(rs) + (if Confused(r) then 1 else 0)
    ensures SumMissed(rs + [r]) == SumMissed(rs) + Missed(r)
    ensures SumConfidence(rs + [r]) == SumConfidence(rs) + r.predictedConfidence
    ensures forall k :: TruthCount(rs + [r], k) == TruthCount(rs, k) + Count(r.groundTruthTags, k)
    ensures forall k :: CorrectCount(rs + [r], k) == CorrectCount(rs, k) + (if CorrectFor(r, k) then 1 else 0)
  {
    assert (rs + [r])[..|rs|] == rs;
  }

  /** A failed item raises no count but `per_tag_total`. */
  lemma FailureContribution(item: Item, a: Answer)
    requires Prediction(a).None?
    ensures var r := ItemResult(item, a);
      !r.isCorrect && !Truthy(r.predictedTag1) && !Confused(r) && Missed(r) == 0 && r.predictedConfidence == 0.0
      && r.matchPriority.None? && r.errorMessage == ErrorOf(a)
  {
  }

  /** The next state is consistent when each counter grew by what the new result accounts for. */
  lemma ConsistentAfter(s: RunState, t: RunState, r: EvaluationResult)
    requires Consistent(s)
    requires t.results == s.results + [r]
    requires t.totalConfidence == s.totalConfidence + r.predictedConfidence
    requires t.correctPredictionsOverall == s.correctPredictionsOverall + (if r.isCorrect then 1 else 0)
    requires Valid(t.confusionCounter) && Valid(t.tpCounts) && Valid(t.fpCounts) && Valid(t.fnCounts)
    requires Valid(t.perTagTotal) && Valid(t.perTagCorrect)
    requires Total(t.tpCounts) == Total(s.tpCounts) + (if r.isCorrect then 1 else 0)
    requires Total(t.tpCounts) + Total(t.fpCounts)
             == Total(s.tpCounts) + Total(s.fpCounts) + (if Truthy(r.predictedTag1) then 1 else 0)
    requires Total(t.fnCounts) == Total(s.fnCounts) + Missed(r)
    requires Total(t.confusionCounter) == Total(s.confusionCounter) + (if Confused(r) then 1 else 0)
    requires forall k :: Get(t.perTagTotal, k) == Get(s.perTagTotal, k) + Count(r.groundTruthTags, k)
    requires forall k :: Get(t.perTagCorrect, k) == Get(s.perTagCorrect, k) + (if CorrectFor(r, k) then 1 else 0)
    requires forall k :: Get(t.perTagCorrect, k) <= Get(t.perTagTotal, k)
    ensures Consistent(t)
  {
    CountsSnoc(s.results, r);
  }

  /** After a successful item no tag is correct more often than it occurs. */
  lemma SuccessPerTag(s: RunState, item: Item, a: Answer)
    requires forall k :: Get(s.perTagCorrect, k) <= Get(s.perTagTotal, k)
    ensures var t := Scored(s, Slots(item.groundTruthTags), ItemResult(item, a));
      forall k :: Get(t.perTagCorrect, k) <= Get(t.perTagTotal, k)
  {
    var t := Scored(s, Slots(item.groundTruthTags), ItemResult(item, a));
    forall k ensures Get(t.perTagCorrect, k) <= Get(t.perTagTotal, k) {
      CorrectWithinTotal(item, a, k);
    }
  }

  /** A successful item keeps the counters consistent with the results. */
  lemma StepSuccess(s: RunState, item: Item, a: Answer)
    requires Consistent(s) && Prediction(a).Some?
    ensures Consistent(ScoreStep(s, item, a))
  {
    var slots, r := Slots(item.groundTruthTags), ItemResult(item, a);
    ItemResultFacts(item, a);
    SuccessTpFp(slots, r);
    SuccessFn(slots, r);
    SuccessConfusion(slots, r);
    SuccessPerTag(s, item, a);
    StepPerTag(s, item, a);
    ScoredTotals(s, slots, r);
    ConsistentAfter(s, Scored(s, slots, r), r);
  }

  /** Each counter of a scored state is valid and grew by the number of keys it received. */
  lemma ScoredTotals(s: RunState, slots: seq<Option<string>>, r: EvaluationResult)
    requires Consistent(s)
    ensures var t, p1 := Scored(s, slots, r), r.predictedTag1;
      Valid(t.confusionCounter) && Valid(t.tpCounts) && Valid(t.fpCounts) && Valid(t.fnCounts)
      && Valid(t.perTagTotal) && Valid(t.perTagCorrect)
      && Total(t.tpCounts) == Total(s.tpCounts) + |TpKeys(slots, p1)|
      && Total(t.fpCounts) == Total(s.fpCounts) + |FpKeys(slots, p1)|
      && Total(t.fnCounts) == Total(s.fnCounts) + |FnKeys(slots, p1)|
      && Total(t.confusionCounter) == Total(s.confusionCounter) + |ConfusionKeys(slots, p1, r.isCorrect)|
  {
  }

  /** A failed item keeps the counters consistent with the results. */
  lemma StepFailure(s: RunState, item: Item, a: Answer)
    requires Consistent(s) && Prediction(a).None?
    ensures Consistent(ScoreStep(s, item, a))
  {
    var r := ItemResult(item, a);
    CountsSnoc(s.results, r);
    FailureContribution(item, a);
    StepPerTag(s, item, a);
  }

  /** The loop body keeps the counters consistent with the results. */
  lemma StepConsistent(s: RunState, item: Item, a: Answer)
    requires Consistent(s)
    ensures Consistent(ScoreStep(s, item, a))
  {
    if Prediction(a).Some? {
      StepSuccess(s, item, a);
    } else {
      StepFailure(s, item, a);
    }
  }

  /** Every item, scored or failed, appends its result. */
  lemma StepResults(s: RunState, item: Item, a: Answer)
    ensures ScoreStep(s, item, a).results == s.results + [ItemResult(item, a)]
  {
  }

  /** After every item the counters are consistent with the results. */
  lemma {:induction false} FoldConsistent(items: seq<Item>, answers: seq<Answer>)
    requires |items| == |answers|
    ensures Consistent(Fold(items, answers))
    decreases |items|
  {
    if items != [] {
      var n := |items| - 1;
      FoldConsistent(items[..n], answers[..n]);
      StepConsistent(Fold(items[..n], answers[..n]), items[n], answers[n]);
    }
  }

  /** One result per item, in input order. */
  lemma {:induction false} FoldResults(items: seq<Item>, answers: seq<Answer>)
    requires |items| == |answers|
    ensures var rs := Fold(items, answers).results;
      |rs| == |items| && forall i :: 0 <= i < |items| ==> rs[i] == ItemResult(items[i], answers[i])
    decreases |items|
  {
    if items != [] {
      var n := |items| - 1;
      var s := Fold(items[..n], answers[..n]);
      FoldResults(items[..n], answers[..n]);
      StepResults(s, items[n], answers[n]);
      ResultsSnoc(s.results, ItemResult(items[n], answers[n]), items, answers);
    }
  }

  /** The pointwise step of `FoldResults`: the results of a prefix, then the last item's result. */
  lemma ResultsSnoc(rs0: seq<EvaluationResult>, r: EvaluationResult, items: seq<Item>, answers: seq<Answer>)
    requires |items| == |answers| == |rs0| + 1
    requires forall i :: 0 <= i < |rs0| ==> rs0[i] == ItemResult(items[..|rs0|][i], answers[..|rs0|][i])
    requires r == ItemResult(items[|rs0|], answers[|rs0|])
    ensures forall i :: 0 <= i < |items| ==> (rs0 + [r])[i] == ItemResult(items[i], answers[i])
  {
    var n := |rs0|;
    forall i | 0 <= i < |items| ensures (rs0 + [r])[i] == ItemResult(items[i], answers[i]) {
      if i < n {
        assert items[..n][i] == items[i] && answers[..n][i] == answers[i];
      }
    }
  }

  /** After every item the results are one per item, in input order, and the counters are consistent with them. */
  lemma FoldFacts(items: seq<Item>, answers: seq<Answer>)
    requires |items| == |answers|
    ensures var s := Fold(items, answers);
      Consistent(s) && |s.results| == |items|
      && forall i :: 0 <= i < |items| ==> s.results[i] == ItemResult(items[i], answers[i])
  {
    FoldConsistent(items, answers);
    FoldResults(items, answers);
  }

  /** The result of one item does not depend on the other items. */
  lemma FoldSnoc(items: seq<Item>, answers: seq<Answer>, item: Item, a: Answer)
    requires |items| == |answers|
    ensures Fold(items + [item], answers + [a]) == ScoreStep(Fold(items, answers), item, a)
  {
    assert (items + [item])[..|items|] == items;
    assert (answers + [a])[..|answers|] == answers;
  }
}
