/**
  The summary `evaluate_all` computes after its loop: the accuracy, exact-match, weighted,
  precision/recall/F1 and confidence metrics over the run state, the per-tag accuracies, and the
  three rankings of its additional insights.
*/
module Metrics {
  import opened Wrappers
  import opened Seqs
  import opened Counters
  import opened StableSort
  import opened Scoring
  import opened Tally

  datatype EvaluationMetrics = EvaluationMetrics(
    accuracyAt1: real,
    accuracyAt2: real,
    accuracyAt3: real,
    weightedAccuracy: real,
    exactMatchAt2: real,
    exactMatchAt3: real,
    precision: real,
    recall: real,
    f1Score: real,
    averageConfidence: real,
    totalPredictions: nat,
    correctPredictions: nat)

  /** `str(e)` of the `IndexError` of `gt_list[0]` on an empty list. */
  const IndexErrorMessage := "list index out of range"

  /** A ratio that is 0 when the denominator is 0. */
  function Ratio(x: real, n: nat): real {
    if n > 0 then x / n as real else 0.0
  }

  /** The result matched at a rank in 1..k. */
  predicate RankWithin(r: EvaluationResult, k: nat) {
    r.matchPriority.Some? && 1 <= r.matchPriority.value <= k
  }

  /** `correct_at_k` */
  function CountRankWithin(rs: seq<EvaluationResult>, k: nat): nat
    decreases |rs|
  {
    if rs == [] then 0 else CountRankWithin(rs[..|rs| - 1], k) + (if RankWithin(rs[|rs| - 1], k) then 1 else 0)
  }

  /** `1.0 / r.match_priority` when the rank is truthy, else nothing. */
  function Weight(r: EvaluationResult): real {
    if r.matchPriority.Some? && r.matchPriority.value != 0 then 1.0 / (r.matchPriority.value as real) else 0.0
  }

  /** `total_weight` */
  function TotalWeight(rs: seq<EvaluationResult>): real
    decreases |rs|
  {
    if rs == [] then 0.0 else TotalWeight(rs[..|rs| - 1]) + Weight(rs[|rs| - 1])
  }

  /** Every result has a first ground-truth tag, so `gt_list[0]` does not raise. */
  predicate AllHaveTruth(rs: seq<EvaluationResult>) {
    forall i :: 0 <= i < |rs| ==> rs[i].groundTruthTags != []
  }

  /** `exact2_count` */
  function CountExact2(rs: seq<EvaluationResult>): nat
    requires AllHaveTruth(rs)
    decreases |rs|
  {
    if rs == [] then 0 else CountExact2(rs[..|rs| - 1]) + (if Exact2(rs[|rs| - 1]) then 1 else 0)
  }

  /** `exact3_count` */
  function CountExact3(rs: seq<EvaluationResult>): nat
    requires AllHaveTruth(rs)
    decreases |rs|
  {
    if rs == [] then 0 else CountExact3(rs[..|rs| - 1]) + (if Exact3(rs[|rs| - 1]) then 1 else 0)
  }

  /** `2 * precision * recall / (precision + recall)` when the sum is positive. */
  function F1(p: real, r: real): real {
    if p + r > 0.0 then 2.0 * p * r / (p + r) else 0.0
  }

  /** Step 4 of `evaluate_all`: the metrics of a finished run, or the `IndexError` of the exact-match loop. */
  function MetricsOf(s: RunState): Result<EvaluationMetrics> {
    var rs := s.results;
    var n := |rs|;
    if !AllHaveTruth(rs) then Err(IndexErrorMessage)
    else
      var tp, fp, fn := Total(s.tpCounts), Total(s.fpCounts), Total(s.fnCounts);
      var precision := Ratio(tp as real, tp + fp);
      var recall := Ratio(tp as real, tp + fn);
      Ok(EvaluationMetrics(
        Ratio(CountRankWithin(rs, 1) as real, n),
        Ratio(CountRankWithin(rs, 2) as real, n),
        Ratio(CountRankWithin(rs, 3) as real, n),
        Ratio(TotalWeight(rs), n),
        Ratio(CountExact2(rs) as real, n),
        Ratio(CountExact3(rs) as real, n),
        precision,
        recall,
        F1(precision, recall),
        Ratio(s.totalConfidence, n),
        n,
        s.correctPredictionsOverall))
  }

  // ------------------------------------------------------------ arithmetic

  lemma RatioBounds(x: real, y: real, n: nat)
    requires 0.0 <= x <= y <= n as real
    ensures 0.0 <= Ratio(x, n) <= Ratio(y, n) <= 1.0
  {
    if n > 0 {
      var d := n as real;
      assert x / d <= y / d by {
        assert y / d - x / d == (y - x) / d;
      }
      assert y / d <= 1.0 by {
        assert y / d <= d / d;
      }
    }
  }

  lemma F1Bounds(p: real, r: real)
    requires 0.0 <= p <= 1.0 && 0.0 <= r <= 1.0
    ensures 0.0 <= F1(p, r) <= 1.0
  {
    if p + r > 0.0 {
      assert p * r <= p by {
        assert p * (1.0 - r) >= 0.0;
      }
      assert p * r <= r by {
        assert r * (1.0 - p) >= 0.0;
      }
      assert 0.0 <= p * r;
      assert 2.0 * p * r <= p + r;
    }
  }

  // ----------------------------------------------------------- count lemmas

  /** Accuracy at a smaller k counts no more results than at a larger one, and never more than all. */
  lemma {:induction false} RankWithinMonotone(rs: seq<EvaluationResult>, j: nat, k: nat)
    requires j <= k
    ensures CountRankWithin(rs, j) <= CountRankWithin(rs, k) <= |rs|
    decreases |rs|
  {
    if rs != [] {
      RankWithinMonotone(rs[..|rs| - 1], j, k);
    }
  }

  /** An exact match on three slots is one on two. */
  lemma {:induction false} ExactOrder(rs: seq<EvaluationResult>)
    requires AllHaveTruth(rs)
    ensures CountExact3(rs) <= CountExact2(rs) <= |rs|
    decreases |rs|
  {
    if rs != [] {
      ExactOrder(rs[..|rs| - 1]);
      ExactFacts(rs[|rs| - 1]);
    }
  }

  /** A result's rank is a 1-based position, present exactly when the result is correct. */
  predicate WellFormed(r: EvaluationResult) {
    (r.isCorrect <==> r.matchPriority.Some?) && (r.matchPriority.Some? ==> r.matchPriority.value >= 1)
  }

  /** Every rank is at most 3, as when no item has more than three ground-truth tags. */
  predicate RanksWithinThree(rs: seq<EvaluationResult>) {
    forall i :: 0 <= i < |rs| ==> WellFormed(rs[i]) && (rs[i].matchPriority.Some? ==> rs[i].matchPriority.value <= 3)
  }

  /**
    With ranks of at most 3 the weight of a result lies between its accuracy@1 and accuracy@3
    contributions, and accuracy@3 counts exactly the correct results.
  */
  lemma {:induction false} WeightBetween(rs: seq<EvaluationResult>)
    requires RanksWithinThree(rs)
    ensures CountRankWithin(rs, 1) as real <= TotalWeight(rs) <= CountRankWithin(rs, 3) as real
    ensures CountRankWithin(rs, 3) == CountCorrect(rs)
    decreases |rs|
  {
    if rs != [] {
      var init, r := rs[..|rs| - 1], rs[|rs| - 1];
      assert RanksWithinThree(init) by {
        forall i | 0 <= i < |init| ensures WellFormed(init[i]) && (init[i].matchPriority.Some? ==> init[i].matchPriority.value <= 3) {
          assert init[i] == rs[i];
        }
      }
      WeightBetween(init);
      assert WellFormed(r);
      if r.matchPriority.Some? {
        var p := r.matchPriority.value as real;
        assert 1.0 <= p <= 3.0;
        assert 1.0 / p <= 1.0 by {
          assert 1.0 / p <= p / p;
        }
        assert 0.0 < 1.0 / p;
      }
    }
  }

  // --------------------------------------------------------- metric lemmas

  /** A run with no results has only zero ratios. */
  lemma EmptyRunMetrics(s: RunState)
    requires Consistent(s) && s.results == []
    ensures MetricsOf(s) == Ok(EvaluationMetrics(0.0, 0.0, 0.0, 0.0, 0.0, 0.0, 0.0, 0.0, 0.0, 0.0, 0, 0))
  {
  }

  /** The metrics fail exactly when some result has no ground-truth tag. */
  lemma MetricsErrIff(s: RunState)
    ensures MetricsOf(s).Err? <==> exists i :: 0 <= i < |s.results| && s.results[i].groundTruthTags == []
    ensures MetricsOf(s).Err? ==> MetricsOf(s).error == IndexErrorMessage
  {
  }

  /**
    On a consistent run: the ratios lie in [0, 1], accuracy grows with k, exact@3 is at most
    exact@2, precision is the correct share of the predicted results, recall the share of the
    correct ones among the correct plus missed tags, and the totals are the result count and
    the correct count.
  */
  lemma MetricsFacts(s: RunState)
    requires Consistent(s) && MetricsOf(s).Ok?
    ensures var m, rs := MetricsOf(s).value, s.results;
      0.0 <= m.accuracyAt1 <= m.accuracyAt2 <= m.accuracyAt3 <= 1.0
      && 0.0 <= m.exactMatchAt3 <= m.exactMatchAt2 <= 1.0
      && 0.0 <= m.precision <= 1.0 && 0.0 <= m.recall <= 1.0 && 0.0 <= m.f1Score <= 1.0
      && m.precision == Ratio(CountCorrect(rs) as real, CountPredicted(rs))
      && m.recall == Ratio(CountCorrect(rs) as real, CountCorrect(rs) + SumMissed(rs))
      && m.totalPredictions == |rs| && m.correctPredictions == CountCorrect(rs)
  {
    var m, rs := MetricsOf(s).value, s.results;
    var n := |rs|;
    RankWithinMonotone(rs, 1, 2);
    RankWithinMonotone(rs, 2, 3);
    RatioBounds(CountRankWithin(rs, 1) as real, CountRankWithin(rs, 2) as real, n);
    RatioBounds(CountRankWithin(rs, 2) as real, CountRankWithin(rs, 3) as real, n);
    ExactOrder(rs);
    RatioBounds(CountExact3(rs) as real, CountExact2(rs) as real, n);
    var tp, fp, fn := Total(s.tpCounts), Total(s.fpCounts), Total(s.fnCounts);
    RatioBounds(tp as real, tp as real, tp + fp);
    RatioBounds(tp as real, tp as real, tp + fn);
    F1Bounds(m.precision, m.recall);
  }

  /**
    The pooled ratios are guarded: precision is 0.0 without predicted tags, recall is 0.0 without
    correct or missed tags, F1 is 0.0 when precision and recall are both 0.0, and a run without
    results has every per-result ratio 0.0.
  */
  lemma ZeroGuards(s: RunState)
    requires Consistent(s) && MetricsOf(s).Ok?
    ensures var m, rs := MetricsOf(s).value, s.results;
      (CountPredicted(rs) == 0 ==> m.precision == 0.0)
      && (CountCorrect(rs) + SumMissed(rs) == 0 ==> m.recall == 0.0)
      && (m.precision + m.recall == 0.0 ==> m.f1Score == 0.0)
      && (rs == [] ==> m.accuracyAt1 == m.accuracyAt2 == m.accuracyAt3 == m.weightedAccuracy == 0.0
                       && m.exactMatchAt2 == m.exactMatchAt3 == m.averageConfidence == 0.0)
  {
    MetricsFacts(s);
  }

  /**
    When every rank is at most 3: accuracy@1 <= weighted accuracy <= accuracy@3, and
    accuracy@3 is the correct share of all results.
  */
  lemma WeightedBetween(s: RunState)
    requires Consistent(s) && MetricsOf(s).Ok? && RanksWithinThree(s.results)
    ensures var m := MetricsOf(s).value;
      m.accuracyAt1 <= m.weightedAccuracy <= m.accuracyAt3
      && m.accuracyAt3 == Ratio(m.correctPredictions as real, m.totalPredictions)
  {
    var rs := s.results;
    WeightBetween(rs);
    RankWithinMonotone(rs, 3, 3);
    RatioBounds(CountRankWithin(rs, 1) as real, TotalWeight(rs), |rs|);
    RatioBounds(TotalWeight(rs), CountRankWithin(rs, 3) as real, |rs|);
  }

  // --------------------------------------------------------- tag accuracy

  datatype TagAccuracy = TagAccuracy(tag: string, accuracy: real)

  /** The accuracy of one `per_tag_total` entry: correct over total, 0 for a zero total. */
  function AccuracyEntry(e: Entry, corrects: Counter): TagAccuracy {
    TagAccuracy(e.key, Ratio(Get(corrects, e.key) as real, e.count))
  }

  /** `tag_accuracy`, in the key order of `per_tag_total`. */
  function TagAccuracies(totals: Counter, corrects: Counter): (accs: seq<TagAccuracy>)
    ensures |accs| == |totals|
    ensures forall i :: 0 <= i < |accs| ==> accs[i].tag == totals[i].key
  {
    seq(|totals|, i requires 0 <= i < |totals| => AccuracyEntry(totals[i], corrects))
  }

  /** On a consistent run every tag of `per_tag_total` appears once, with an accuracy in [0, 1]. */
  lemma AccuracyBounds(s: RunState)
    requires Consistent(s)
    ensures var accs := TagAccuracies(s.perTagTotal, s.perTagCorrect);
      forall i :: 0 <= i < |accs| ==>
        accs[i].tag == s.perTagTotal[i].key && 0.0 <= accs[i].accuracy <= 1.0
  {
    var accs := TagAccuracies(s.perTagTotal, s.perTagCorrect);
    forall i | 0 <= i < |accs| ensures accs[i].tag == s.perTagTotal[i].key && 0.0 <= accs[i].accuracy <= 1.0 {
      var e := s.perTagTotal[i];
      GetAt(s.perTagTotal, i);
      assert Get(s.perTagCorrect, e.key) <= e.count;
      RatioBounds(Get(s.perTagCorrect, e.key) as real, Get(s.perTagCorrect, e.key) as real, e.count);
    }
  }

  /**
    On a consistent run the accuracy of tag `k` is the number of correct results predicting `k`
    over the number of times `k` is a ground-truth tag, failed items included.
  */
  lemma AccuracyMeaning(s: RunState)
    requires Consistent(s)
    ensures var accs := TagAccuracies(s.perTagTotal, s.perTagCorrect);
      forall i :: 0 <= i < |accs| ==>
        accs[i].accuracy == Ratio(CorrectCount(s.results, accs[i].tag) as real, TruthCount(s.results, accs[i].tag))
  {
    var accs := TagAccuracies(s.perTagTotal, s.perTagCorrect);
    forall i | 0 <= i < |accs|
      ensures accs[i].accuracy == Ratio(CorrectCount(s.results, accs[i].tag) as real, TruthCount(s.results, accs[i].tag))
    {
      GetAt(s.perTagTotal, i);
    }
  }

  // ---------------------------------------------------------------- rankings

  function CountKey(e: Entry): real {
    e.count as real
  }

  function AccKey(t: TagAccuracy): real {
    t.accuracy
  }

  /** The ascending sort is the stable descending sort on the negated accuracy. */
  function NegAccKey(t: TagAccuracy): real {
    -t.accuracy
  }

  /** `most_confused`: the confusion counter by descending count, ties in insertion order. */
  function MostConfused(c: Counter): Counter {
    Sort(c, CountKey)
  }

  /** The first three entries, or all of them when there are fewer. */
  function Top3(s: seq<TagAccuracy>): (r: seq<TagAccuracy>)
    ensures |r| == if |s| < 3 then |s| else 3
    ensures r <= s
  {
    if |s| <= 3 then s else s[..3]
  }

  function TagNames(s: seq<TagAccuracy>): (names: seq<string>)
    ensures |names| == |s| && forall i :: 0 <= i < |s| ==> names[i] == s[i].tag
  {
    seq(|s|, i requires 0 <= i < |s| => s[i].tag)
  }

  /** `best_performing_categories` */
  function Best(accs: seq<TagAccuracy>): seq<string> {
    TagNames(Top3(Sort(accs, AccKey)))
  }

  /** `worst_performing_categories` */
  function Worst(accs: seq<TagAccuracy>): seq<string> {
    TagNames(Top3(Sort(accs, NegAccKey)))
  }

  /** The confusion ranking is a stable descending permutation of the counter. */
  lemma MostConfusedFacts(c: Counter)
    ensures SortedDesc(MostConfused(c), CountKey)
    ensures multiset(MostConfused(c)) == multiset(c)
    ensures forall v :: WithKey(MostConfused(c), CountKey, v) == WithKey(c, CountKey, v)
  {
    SortFacts(c, CountKey);
  }

  /**
    The best categories are at most three tags, each with an accuracy no lower than that of any
    entry left out; the worst ones are at most three tags with accuracies no higher.
  */
  lemma RankingFacts(accs: seq<TagAccuracy>, e: TagAccuracy, i: nat)
    requires e in accs
    ensures var m := if |accs| < 3 then |accs| else 3;
      |Best(accs)| == m && |Worst(accs)| == m
    ensures var top := Top3(Sort(accs, AccKey));
      i < |top| && e !in top ==> top[i].accuracy >= e.accuracy && Best(accs)[i] == top[i].tag
    ensures var bottom := Top3(Sort(accs, NegAccKey));
      i < |bottom| && e !in bottom ==> bottom[i].accuracy <= e.accuracy && Worst(accs)[i] == bottom[i].tag
  {
    SortFacts(accs, AccKey);
    SortFacts(accs, NegAccKey);
    TopDominates(Sort(accs, AccKey), AccKey, e, i);
    TopDominates(Sort(accs, NegAccKey), NegAccKey, e, i);
    assert e in multiset(Sort(accs, NegAccKey));
    var bottom := Top3(Sort(accs, NegAccKey));
    if i < |bottom| && e !in bottom {
      assert NegAccKey(bottom[i]) >= NegAccKey(e);
    }
  }

  /**
    The best categories come by non-increasing accuracy and the worst by non-decreasing accuracy;
    among equal accuracies both sorts keep the order of `per_tag_total`.
  */
  lemma RankingOrder(accs: seq<TagAccuracy>)
    ensures var top := Top3(Sort(accs, AccKey));
      forall i, j :: 0 <= i < j < |top| ==> top[i].accuracy >= top[j].accuracy
    ensures var bottom := Top3(Sort(accs, NegAccKey));
      forall i, j :: 0 <= i < j < |bottom| ==> bottom[i].accuracy <= bottom[j].accuracy
    ensures forall v :: WithKey(Sort(accs, AccKey), AccKey, v) == WithKey(accs, AccKey, v)
    ensures forall v :: WithKey(Sort(accs, NegAccKey), NegAccKey, v) == WithKey(accs, NegAccKey, v)
  {
    SortFacts(accs, AccKey);
    SortFacts(accs, NegAccKey);
    var sorted, sortedAsc := Sort(accs, AccKey), Sort(accs, NegAccKey);
    var top, bottom := Top3(sorted), Top3(sortedAsc);
    forall i, j | 0 <= i < j < |top| ensures top[i].accuracy >= top[j].accuracy {
      assert top[i] == sorted[i] && top[j] == sorted[j];
      assert AccKey(sorted[i]) >= AccKey(sorted[j]);
    }
    forall i, j | 0 <= i < j < |bottom| ensures bottom[i].accuracy <= bottom[j].accuracy {
      assert bottom[i] == sortedAsc[i] && bottom[j] == sortedAsc[j];
      assert NegAccKey(sortedAsc[i]) >= NegAccKey(sortedAsc[j]);
    }
  }

  /** An entry of a descending sequence that is not among its first three ranks below each of them. */
  lemma TopDominates(sorted: seq<TagAccuracy>, key: TagAccuracy -> real, e: TagAccuracy, i: nat)
    requires SortedDesc(sorted, key)
    ensures var top := Top3(sorted);
      e in sorted && i < |top| && e !in top ==> key(top[i]) >= key(e)
  {
    var top := Top3(sorted);
    if e in sorted && i < |top| && e !in top {
      var j :| 0 <= j < |sorted| && sorted[j] == e;
      assert j >= |top|;
      assert top[i] == sorted[i];
    }
  }

  /** Every ranked tag names an entry of the accuracies. */
  lemma RankedTagsExist(accs: seq<TagAccuracy>, i: nat)
    ensures i < |Best(accs)| ==> exists e :: e in accs && e.tag == Best(accs)[i]
    ensures i < |Worst(accs)| ==> exists e :: e in accs && e.tag == Worst(accs)[i]
  {
    SortFacts(accs, AccKey);
    SortFacts(accs, NegAccKey);
    if i < |Best(accs)| {
      var x := Top3(Sort(accs, AccKey))[i];
      assert x in multiset(Sort(accs, AccKey));
    }
    if i < |Worst(accs)| {
      var x := Top3(Sort(accs, NegAccKey))[i];
      assert x in multiset(Sort(accs, NegAccKey));
    }
  }
}
