/**
  `evaluate_all`: score each dataset item against the predictor's answer, updating the run's
  local counters step by step, then build the metrics and insights of the response. The
  function's local variables are gathered in one `RunState` value that the loop reassigns. The
  predictor (`process_single_event`) is a parameter: the answer it gives for each item, in order.
*/
module Evaluation {
  import opened Wrappers
  import opened Seqs
  import opened Counters
  import opened StableSort
  import opened Requests
  import opened Scoring
  import opened Tally
  import opened Metrics

  datatype EvaluationResponse = EvaluationResponse(
    metrics: EvaluationMetrics,
    results: seq<EvaluationResult>,
    mostConfusedTags: Counter,
    bestPerformingCategories: seq<string>,
    worstPerformingCategories: seq<string>)

  /** The `RuntimeError` raised when the dataset is empty. */
  const NoDataMessage := "No evaluation data available after load_evaluation_data()"

  // ---------------------------------------------------- list helpers

  /** The present tags of a prefix of the slots grow by the next slot when it is present. */
  lemma TruthyTagsPrefix(slots: seq<Option<string>>, i: nat)
    requires i < |slots|
    ensures TruthyTags(slots[..i + 1]) == TruthyTags(slots[..i]) + (if Truthy(slots[i]) then [slots[i].value] else [])
  {
    assert slots[..i + 1][..i] == slots[..i];
  }

  lemma KeysOfKindPrefix(cands: seq<string>, slots: seq<Option<string>>, p1: Option<string>, k: Kind, i: nat)
    requires i < |cands|
    ensures KeysOfKind(cands[..i + 1], slots, p1, k)
            == KeysOfKind(cands[..i], slots, p1, k) + (if Classify(cands[i], slots, p1) == k then [cands[i]] else [])
  {
    assert cands[..i + 1][..i] == cands[..i];
  }

  lemma IncAllEmpty(c: Counter)
    ensures IncAll(c, []) == c
  {
  }

  lemma IncAllOne(c: Counter, k: string)
    ensures IncAll(c, [k]) == Inc(c, k)
  {
    assert [k][..0] == [];
  }

  /** `tp_counts`, `fp_counts` and `fn_counts` together. */
  datatype PrCounts = PrCounts(tp: Counter, fp: Counter, fn: Counter)

  /** The three counters after the candidates `cands` were counted. */
  function ClassifyAll(start: PrCounts, cands: seq<string>, slots: seq<Option<string>>, p1: Option<string>): PrCounts {
    PrCounts(IncAll(start.tp, KeysOfKind(cands, slots, p1, TruePositive)),
             IncAll(start.fp, KeysOfKind(cands, slots, p1, FalsePositive)),
             IncAll(start.fn, KeysOfKind(cands, slots, p1, FalseNegative)))
  }

  /** One candidate: `in_true`, `is_pred`, and the counter it goes to. */
  method ClassifyStep(start: PrCounts, counts: PrCounts, cands: seq<string>, slots: seq<Option<string>>,
                      p1: Option<string>, i: nat)
    returns (next: PrCounts)
    requires i < |cands| && counts == ClassifyAll(start, cands[..i], slots, p1)
    ensures next == ClassifyAll(start, cands[..i + 1], slots, p1)
  {
    var t := cands[i];
    ghost var tp, fp, fn := KeysOfKind(cands[..i], slots, p1, TruePositive),
                            KeysOfKind(cands[..i], slots, p1, FalsePositive),
                            KeysOfKind(cands[..i], slots, p1, FalseNegative);
    KeysOfKindPrefix(cands, slots, p1, TruePositive, i);
    KeysOfKindPrefix(cands, slots, p1, FalsePositive, i);
    KeysOfKindPrefix(cands, slots, p1, FalseNegative, i);
    var inTrue := Some(t) in slots;
    var isPred := Some(t) == p1;
    if isPred && inTrue {
      IncAllSnoc(start.tp, tp, t);
      assert fp + [] == fp && fn + [] == fn;
      next := counts.(tp := Inc(counts.tp, t));
    } else if isPred && !inTrue {
      IncAllSnoc(start.fp, fp, t);
      assert tp + [] == tp && fn + [] == fn;
      next := counts.(fp := Inc(counts.fp, t));
    } else if !isPred && inTrue {
      IncAllSnoc(start.fn, fn, t);
      assert tp + [] == tp && fp + [] == fp;
      next := counts.(fn := Inc(counts.fn, t));
    } else {
      assert tp + [] == tp && fp + [] == fp && fn + [] == fn;
      next := counts;
    }
  }

  /** The tags in priority order, then `while len(ground_truth_tags) < 3: append(None)`. */
  method PadSlots(tags: seq<string>) returns (slots: seq<Option<string>>)
    ensures slots == Padded(tags)
  {
    slots := seq(|tags|, i requires 0 <= i < |tags| => Some(tags[i]));
    while |slots| < 3
      invariant |tags| <= |slots| <= if |tags| < 3 then 3 else |tags|
      invariant forall i :: 0 <= i < |tags| ==> slots[i] == Some(tags[i])
      invariant forall i :: |tags| <= i < |slots| ==> slots[i].None?
      decreases 3 - |slots|
    {
      slots := slots + [None];
    }
  }

  /** The `enumerate(ground_truth_tags, start=1)` loop that stops at the first slot equal to the predicted tag. */
  method FindMatch(slots: seq<Option<string>>, p1: Option<string>) returns (rank: Option<nat>)
    ensures rank == MatchRank(slots, p1)
  {
    var idx := 0;
    while idx < |slots|
      invariant 0 <= idx <= |slots|
      invariant forall j :: 0 <= j < idx ==> slots[j].None? || p1 != slots[j]
    {
      if slots[idx].Some? && p1 == slots[idx] {
        return Some(idx + 1);
      }
      idx := idx + 1;
    }
    return None;
  }

  /**
    The loop over the slots: `per_tag_total[t] += 1` for every present tag, and the set of
    present tags (each once, in first-seen order).
  */
  method CountTruth(start: Counter, slots: seq<Option<string>>) returns (total: Counter, present: seq<string>)
    ensures total == IncAll(start, TruthyTags(slots))
    ensures present == Dedup(TruthyTags(slots))
  {
    total := start;
    present := [];
    var i := 0;
    while i < |slots|
      invariant 0 <= i <= |slots|
      invariant present == Dedup(TruthyTags(slots[..i]))
      invariant total == IncAll(start, TruthyTags(slots[..i]))
    {
      total, present := TruthStep(start, total, present, slots, i);
      i := i + 1;
    }
    assert slots[..|slots|] == slots;
  }

  /** One slot: a present tag is counted in `per_tag_total` and added to `all_tags_in_dataset`. */
  method TruthStep(start: Counter, total: Counter, present: seq<string>, slots: seq<Option<string>>, i: nat)
    returns (total': Counter, present': seq<string>)
    requires i < |slots|
    requires present == Dedup(TruthyTags(slots[..i])) && total == IncAll(start, TruthyTags(slots[..i]))
    ensures present' == Dedup(TruthyTags(slots[..i + 1])) && total' == IncAll(start, TruthyTags(slots[..i + 1]))
  {
    ghost var seen := TruthyTags(slots[..i]);
    TruthyTagsPrefix(slots, i);
    total', present' := total, present;
    var t := slots[i];
    if Truthy(t) {
      IncAllSnoc(start, seen, t.value);
      DedupSnoc(seen, t.value);
      total' := Inc(total, t.value);
      if t.value !in present {
        present' := present + [t.value];
      }
    } else {
      assert seen + [] == seen;
    }
  }

  /** The loop over the candidate tags: one of `tp_counts`, `fp_counts`, `fn_counts` per tag, or none. */
  method CountCandidates(start: PrCounts, cands: seq<string>, slots: seq<Option<string>>, p1: Option<string>)
    returns (counts: PrCounts)
    ensures counts == ClassifyAll(start, cands, slots, p1)
  {
    counts := start;
    var i := 0;
    while i < |cands|
      invariant 0 <= i <= |cands|
      invariant counts == ClassifyAll(start, cands[..i], slots, p1)
    {
      counts := ClassifyStep(start, counts, cands, slots, p1, i);
      i := i + 1;
    }
    assert cands[..|cands|] == cands;
  }

  /** The candidate set: the present tags, then `all_tags_in_dataset.add(predicted_tag1)` when it is truthy. */
  method AddPrediction(present: seq<string>, slots: seq<Option<string>>, p1: Option<string>) returns (cands: seq<string>)
    requires present == Dedup(TruthyTags(slots))
    ensures cands == Candidates(slots, p1)
  {
    cands := present;
    if Truthy(p1) {
      DedupSnoc(TruthyTags(slots), p1.value);
      if p1.value !in cands {
        cands := cands + [p1.value];
      }
    } else {
      assert TruthyTags(slots) + PredList(p1) == TruthyTags(slots);
    }
  }

  /** `confusion_counter[key] += 1` for an incorrect prediction, keyed by the highest-priority present tag. */
  method CountConfusion(start: Counter, slots: seq<Option<string>>, p1: Option<string>, isCorrect: bool)
    returns (confusion: Counter)
    ensures confusion == IncAll(start, ConfusionKeys(slots, p1, isCorrect))
  {
    confusion := start;
    if Truthy(p1) && !isCorrect {
      var trueNonNull := FirstTruthy(slots);
      if Truthy(trueNonNull) {
        IncAllOne(start, trueNonNull.value + Arrow + p1.value);
        confusion := Inc(confusion, trueNonNull.value + Arrow + p1.value);
      }
    }
  }

  /** The counter updates of the `try` block once a tag triple was obtained. */
  method ScoreSuccess(s: RunState, slots: seq<Option<string>>, p1: Option<string>, isCorrect: bool)
    returns (t: RunState)
    ensures t == Counted(s, slots, p1, isCorrect)
  {
    var correct := s.correctPredictionsOverall;
    if isCorrect {
      correct := correct + 1;
    }
    var confusion := CountConfusion(s.confusionCounter, slots, p1, isCorrect);
    var total, counts := CountTags(s, slots, p1);
    var perCorrect := CountCorrectTag(s.perTagCorrect, p1, isCorrect);
    ghost var c := Counted(s, slots, p1, isCorrect);
    assert c.correctPredictionsOverall == correct && c.confusionCounter == confusion;
    assert c.tpCounts == counts.tp && c.fpCounts == counts.fp && c.fnCounts == counts.fn;
    assert c.perTagTotal == total && c.perTagCorrect == perCorrect;
    t := s.(correctPredictionsOverall := correct, confusionCounter := confusion,
            tpCounts := counts.tp, fpCounts := counts.fp, fnCounts := counts.fn,
            perTagTotal := total, perTagCorrect := perCorrect);
  }

  /** A correct, present first prediction is counted in `per_tag_correct`. */
  method CountCorrectTag(start: Counter, p1: Option<string>, isCorrect: bool) returns (c: Counter)
    ensures c == IncAll(start, CorrectKeys(p1, isCorrect))
  {
    c := start;
    if isCorrect && Truthy(p1) {
      IncAllOne(start, p1.value);
      c := Inc(c, p1.value);
    }
  }

  /** The ground-truth tally and the precision/recall loop of a successful item. */
  method CountTags(s: RunState, slots: seq<Option<string>>, p1: Option<string>)
    returns (total: Counter, counts: PrCounts)
    ensures total == IncAll(s.perTagTotal, TruthyTags(slots))
    ensures counts.tp == IncAll(s.tpCounts, TpKeys(slots, p1))
    ensures counts.fp == IncAll(s.fpCounts, FpKeys(slots, p1))
    ensures counts.fn == IncAll(s.fnCounts, FnKeys(slots, p1))
  {
    var present;
    total, present := CountTruth(s.perTagTotal, slots);
    var cands := AddPrediction(present, slots, p1);
    counts := CountCandidates(PrCounts(s.tpCounts, s.fpCounts, s.fnCounts), cands, slots, p1);
  }

  /** One pass of the loop of `evaluate_all` over a dataset item and the predictor's answer for it. */
  method ScoreItem(s: RunState, item: Item, a: Answer) returns (t: RunState)
    ensures t == ScoreStep(s, item, a)
  {
    var slots := PadSlots(TagsOf(SortByPriority(item.groundTruthTags)));
    var arr := item.arrangement;
    var p1, p2, p3: Option<string> := None, None, None;
    var confidence := 0.0;
    var rank: Option<nat> := None;
    var errorMsg: Option<string> := None;
    match Prediction(a) {
      case Some(tri) =>
        p1, p2, p3 := OrNone(tri.tag1), OptOrNone(tri.tag2), OptOrNone(tri.tag3);
        confidence := tri.confidence;
        rank := FindMatch(slots, p1);
        t := ScoreSuccess(s, slots, p1, rank.Some?);
      case None =>
        errorMsg := ErrorOf(a);
        var total, present := CountTruth(s.perTagTotal, slots);
        t := s.(perTagTotal := total);
    }
    var r := EvaluationResult(arr.arrangementNummer, arr.arrangementTitel, p1, p2, p3, confidence,
                              TruthyTags(slots), rank.Some?, rank, errorMsg);
    assert r == ItemResult(item, a);
    t := t.(results := s.results + [r], totalConfidence := s.totalConfidence + confidence);
  }

  /** Step 4 of `evaluate_all`: the metrics over the results and counters. */
  method ComputeMetrics(s: RunState) returns (m: Result<EvaluationMetrics>)
    ensures m == MetricsOf(s)
  {
    var results := s.results;
    var n := |results|;
    var ok, exact2, exact3 := ExactCounts(results);
    if !ok {
      return Err(IndexErrorMessage);
    }
    var totalWeight := SumWeights(results);
    var sumTp, sumFp, sumFn := Total(s.tpCounts), Total(s.fpCounts), Total(s.fnCounts);
    var precision := if sumTp + sumFp > 0 then sumTp as real / (sumTp + sumFp) as real else 0.0;
    var recall := if sumTp + sumFn > 0 then sumTp as real / (sumTp + sumFn) as real else 0.0;
    var f1 := if precision + recall > 0.0 then 2.0 * precision * recall / (precision + recall) else 0.0;
    assert precision == Ratio(sumTp as real, sumTp + sumFp);
    assert recall == Ratio(sumTp as real, sumTp + sumFn);
    assert f1 == F1(precision, recall);
    m := Ok(EvaluationMetrics(
      Ratio(CountRankWithin(results, 1) as real, n),
      Ratio(CountRankWithin(results, 2) as real, n),
      Ratio(CountRankWithin(results, 3) as real, n),
      Ratio(totalWeight, n),
      Ratio(exact2 as real, n),
      Ratio(exact3 as real, n),
      precision, recall, f1,
      Ratio(s.totalConfidence, n),
      n, s.correctPredictionsOverall));
  }

  /**
    * The exact-match loop: `ok` is false exactly when some result has an empty ground-truth
    * list, where `ground_truth_tags[0]` raises.
    */
  method ExactCounts(results: seq<EvaluationResult>) returns (ok: bool, exact2: nat, exact3: nat)
    ensures ok == AllHaveTruth(results)
    ensures ok ==> exact2 == CountExact2(results) && exact3 == CountExact3(results)
  {
    exact2, exact3 := 0, 0;
    var i := 0;
    while i < |results|
      invariant 0 <= i <= |results|
      invariant AllHaveTruth(results[..i])
      invariant exact2 == CountExact2(results[..i]) && exact3 == CountExact3(results[..i])
    {
      var r := results[i];
      if r.groundTruthTags == [] {
        assert !AllHaveTruth(results);
        return false, exact2, exact3;
      }
      assert results[..i + 1][..i] == results[..i];
      if Exact2(r) {
        exact2 := exact2 + 1;
      }
      if Exact3(r) {
        exact3 := exact3 + 1;
      }
      i := i + 1;
    }
    assert results[..i] == results;
    ok := true;
  }

  /** The weighted-accuracy loop: `1 / match_priority` summed over the matched results. */
  method SumWeights(results: seq<EvaluationResult>) returns (totalWeight: real)
    ensures totalWeight == TotalWeight(results)
  {
    totalWeight := 0.0;
    var i := 0;
    while i < |results|
      invariant 0 <= i <= |results|
      invariant totalWeight == TotalWeight(results[..i])
    {
      var r := results[i];
      assert results[..i + 1][..i] == results[..i];
      if r.matchPriority.Some? && r.matchPriority.value != 0 {
        totalWeight := totalWeight + 1.0 / (r.matchPriority.value as real);
      }
      i := i + 1;
    }
    assert results[..i] == results;
  }

  /** The `tag_accuracy` loop over `per_tag_total`. */
  method PerTagAccuracy(totals: Counter, corrects: Counter) returns (accs: seq<TagAccuracy>)
    ensures accs == TagAccuracies(totals, corrects)
  {
    accs := [];
    var i := 0;
    while i < |totals|
      invariant 0 <= i <= |totals|
      invariant accs == TagAccuracies(totals[..i], corrects)
    {
      var e := totals[i];
      var correctCnt := Get(corrects, e.key);
      accs := accs + [TagAccuracy(e.key, if e.count > 0 then correctCnt as real / e.count as real else 0.0)];
      i := i + 1;
    }
    assert totals[..i] == totals;
  }

  // ---------------------------------------------------------- the whole run

  /** The request `evaluate_all` builds for an item: `beskrivelse_html_fri` is absent from the item and reads as `""`. */
  function RequestOf(arr: Arrangement): RequestFields {
    RequestFields(Some(arr.arrangementNummer), arr.arrangementTitel, Some(arr.arrangoer), None, None,
                  Some(arr.ncTeaser), Some(arr.ncBeskrivelse), Some(""), true, true)
  }

  /** The request's title passes its length constraint. */
  predicate TitleAccepted(item: Item) {
    TitleMinLength <= |item.arrangement.arrangementTitel| <= TitleMaxLength
  }

  /**
    What `evaluate_all` returns: an empty dataset and a request that fails validation raise, so
    does a result without ground-truth tags in the exact-match loop; otherwise the metrics,
    results and insights of the fold over all items.
  */
  function EvaluateSpec(data: seq<Item>, answers: seq<Answer>): Result<EvaluationResponse>
    requires |answers| == |data|
  {
    if data == [] then Err(NoDataMessage)
    else if !TitlesAccepted(data) then Err(TitleConstraintMessage)
    else
      var s := Fold(data, answers);
      match MetricsOf(s)
      case Err(e) => Err(e)
      case Ok(m) =>
        var accs := TagAccuracies(s.perTagTotal, s.perTagCorrect);
        Ok(EvaluationResponse(m, s.results, MostConfused(s.confusionCounter), Best(accs), Worst(accs)))
  }

  /** Every request title passes its length constraint. */
  predicate TitlesAccepted(data: seq<Item>) {
    forall j :: 0 <= j < |data| ==> TitleAccepted(data[j])
  }

  lemma TitlesAcceptedSnoc(data: seq<Item>, i: nat)
    requires i < |data| && TitlesAccepted(data[..i]) && TitleAccepted(data[i])
    ensures TitlesAccepted(data[..i + 1])
  {
    assert forall j :: 0 <= j < i ==> data[..i][j] == data[j];
  }

  /** The loop state after one more item. */
  lemma FoldPrefix(data: seq<Item>, answers: seq<Answer>, i: nat)
    requires |answers| == |data| && i < |data|
    ensures Fold(data[..i + 1], answers[..i + 1]) == ScoreStep(Fold(data[..i], answers[..i]), data[i], answers[i])
  {
    assert data[..i + 1][..i] == data[..i];
    assert answers[..i + 1][..i] == answers[..i];
  }

  /** `evaluate_all` over the dataset, with `answers[i]` the predictor's answer for `data[i]`. */
  method EvaluateAll(data: seq<Item>, answers: seq<Answer>) returns (r: Result<EvaluationResponse>)
    requires |answers| == |data|
    ensures r == EvaluateSpec(data, answers)
  {
    if data == [] {
      return Err(NoDataMessage);
    }
    var s := Initial;
    var i := 0;
    while i < |data|
      invariant 0 <= i <= |data|
      invariant s == Fold(data[..i], answers[..i])
      invariant TitlesAccepted(data[..i])
    {
      var req := EventTagRequest.Create(RequestOf(data[i].arrangement));
      if req.Err? {
        assert !TitleAccepted(data[i]);
        return Err(req.error);
      }
      assert TitleAccepted(data[i]);
      TitlesAcceptedSnoc(data, i);
      FoldPrefix(data, answers, i);
      s := ScoreItem(s, data[i], answers[i]);
      i := i + 1;
    }
    assert data[..i] == data && answers[..i] == answers;
    assert TitlesAccepted(data);
    var m := ComputeMetrics(s);
    if m.Err? {
      return Err(m.error);
    }
    var accs := PerTagAccuracy(s.perTagTotal, s.perTagCorrect);
    r := Ok(EvaluationResponse(m.value, s.results, MostConfused(s.confusionCounter), Best(accs), Worst(accs)));
  }

  // ------------------------------------------------------ what a run promises

  /** The item has a present ground-truth tag once padded, so `gt_list[0]` of its result exists. */
  predicate HasTruth(item: Item) {
    TruthyTags(Slots(item.groundTruthTags)) != []
  }

  predicate AllItemsHaveTruth(data: seq<Item>) {
    forall i :: 0 <= i < |data| ==> HasTruth(data[i])
  }

  /** No item carries more than three ground-truth tags, as every loaded item does. */
  predicate AtMostThreeTags(data: seq<Item>) {
    forall i :: 0 <= i < |data| ==> |data[i].groundTruthTags| <= 3
  }

  /** A result has a first ground-truth tag exactly when its item has a present one. */
  lemma ResultsHaveTruth(data: seq<Item>, answers: seq<Answer>)
    requires |answers| == |data|
    ensures AllHaveTruth(Fold(data, answers).results) <==> AllItemsHaveTruth(data)
  {
    FoldResults(data, answers);
    var rs := Fold(data, answers).results;
    forall i | 0 <= i < |data| ensures rs[i].groundTruthTags == TruthyTags(Slots(data[i].groundTruthTags)) {
      ItemResultFacts(data[i], answers[i]);
    }
  }

  /**
    `evaluate_all` raises exactly when the dataset is empty (before any scoring), when an item's
    request fails the title constraint, or when an item has no present ground-truth tag.
  */
  lemma EvaluateErrIff(data: seq<Item>, answers: seq<Answer>)
    requires |answers| == |data|
    ensures EvaluateSpec(data, answers).Err? <==> data == [] || !TitlesAccepted(data) || !AllItemsHaveTruth(data)
    ensures data == [] ==> EvaluateSpec(data, answers) == Err(NoDataMessage)
    ensures data != [] && !TitlesAccepted(data) ==> EvaluateSpec(data, answers) == Err(TitleConstraintMessage)
    ensures data != [] && TitlesAccepted(data) && !AllItemsHaveTruth(data) ==> EvaluateSpec(data, answers) == Err(IndexErrorMessage)
  {
    if data != [] && TitlesAccepted(data) {
      ResultsHaveTruth(data, answers);
    }
  }

  /**
    A successful run returns one result per item in input order, ratios in [0, 1] with accuracy
    growing with k and exact@3 at most exact@2, and totals that count the results.
  */
  lemma EvaluateOkFacts(data: seq<Item>, answers: seq<Answer>)
    requires |answers| == |data| && EvaluateSpec(data, answers).Ok?
    ensures var resp := EvaluateSpec(data, answers).value;
      var m, rs := resp.metrics, resp.results;
      |rs| == |data| && (forall i :: 0 <= i < |data| ==> rs[i] == ItemResult(data[i], answers[i]))
      && 0.0 <= m.accuracyAt1 <= m.accuracyAt2 <= m.accuracyAt3 <= 1.0
      && 0.0 <= m.exactMatchAt3 <= m.exactMatchAt2 <= 1.0
      && 0.0 <= m.precision <= 1.0 && 0.0 <= m.recall <= 1.0 && 0.0 <= m.f1Score <= 1.0
      && m.precision == Ratio(CountCorrect(rs) as real, CountPredicted(rs))
      && m.totalPredictions == |data| && m.correctPredictions == CountCorrect(rs)
  {
    FoldFacts(data, answers);
    MetricsFacts(Fold(data, answers));
  }

  /**
    With at most three ground-truth tags per item every rank is at most 3, so
    accuracy@1 <= weighted accuracy <= accuracy@3 and accuracy@3 is the correct share.
  */
  lemma EvaluateWeighted(data: seq<Item>, answers: seq<Answer>)
    requires |answers| == |data| && EvaluateSpec(data, answers).Ok? && AtMostThreeTags(data)
    ensures var m := EvaluateSpec(data, answers).value.metrics;
      m.accuracyAt1 <= m.weightedAccuracy <= m.accuracyAt3
      && m.accuracyAt3 == Ratio(m.correctPredictions as real, m.totalPredictions)
  {
    var s := Fold(data, answers);
    FoldFacts(data, answers);
    forall i | 0 <= i < |s.results|
      ensures WellFormed(s.results[i]) && (s.results[i].matchPriority.Some? ==> s.results[i].matchPriority.value <= 3)
    {
      ItemResultFacts(data[i], answers[i]);
      RankWithinTags(data[i].groundTruthTags, s.results[i].predictedTag1);
    }
    WeightedBetween(s);
  }

  /**
    The insights of a successful run: the confusion listing is a stable descending permutation
    of the confusion counter, whose counts sum to the confused results; every tag accuracy is in
    [0, 1]; best and worst name tags of `per_tag_total`.
  */
  lemma EvaluateInsights(data: seq<Item>, answers: seq<Answer>)
    requires |answers| == |data| && EvaluateSpec(data, answers).Ok?
    ensures var resp, s := EvaluateSpec(data, answers).value, Fold(data, answers);
      var accs := TagAccuracies(s.perTagTotal, s.perTagCorrect);
      SortedDesc(resp.mostConfusedTags, CountKey)
      && multiset(resp.mostConfusedTags) == multiset(s.confusionCounter)
      && Total(s.confusionCounter) == CountConfused(resp.results)
      && (forall i :: 0 <= i < |accs| ==> 0.0 <= accs[i].accuracy <= 1.0)
      && (forall i :: 0 <= i < |resp.bestPerformingCategories| ==> resp.bestPerformingCategories[i] in Keys(s.perTagTotal))
      && (forall i :: 0 <= i < |resp.worstPerformingCategories| ==> resp.worstPerformingCategories[i] in Keys(s.perTagTotal))
  {
    var s := Fold(data, answers);
    FoldFacts(data, answers);
    MostConfusedFacts(s.confusionCounter);
    AccuracyBounds(s);
    RankedAreKeys(s.perTagTotal, s.perTagCorrect);
  }

  /** Best and worst categories name keys of `per_tag_total`. */
  lemma RankedAreKeys(totals: Counter, corrects: Counter)
    ensures var accs := TagAccuracies(totals, corrects);
      (forall i :: 0 <= i < |Best(accs)| ==> Best(accs)[i] in Keys(totals))
      && (forall i :: 0 <= i < |Worst(accs)| ==> Worst(accs)[i] in Keys(totals))
  {
    var accs := TagAccuracies(totals, corrects);
    forall i | 0 <= i < |Best(accs)| ensures Best(accs)[i] in Keys(totals) {
      RankedTagsExist(accs, i);
      var e :| e in accs && e.tag == Best(accs)[i];
      var j :| 0 <= j < |accs| && accs[j] == e;
      assert Keys(totals)[j] == e.tag;
    }
    forall i | 0 <= i < |Worst(accs)| ensures Worst(accs)[i] in Keys(totals) {
      RankedTagsExist(accs, i);
      var e :| e in accs && e.tag == Worst(accs)[i];
      var j :| 0 <= j < |accs| && accs[j] == e;
      assert Keys(totals)[j] == e.tag;
    }
  }
}
