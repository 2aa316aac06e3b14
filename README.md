# Event tagger evaluation, in Dafny

This project models the core of the Danish event-tagging service, whose job is to assign up to three
sub-category tags to an arrangement (event).

Most of the model covers `evaluate_all` in `app/services/evaluation.py`, the benchmark of the tagger against
hand-labelled arrangements:
- for each item of the evaluation set it asks the predictor for a tag triple;
- it ranks the predicted first tag against the item's ground-truth tags;
- it keeps true-positive, false-positive and false-negative counters per tag, a confusion counter
  and per-tag accuracy counters;
- at the end it computes accuracy@1/2/3, weighted accuracy (1/rank), exact match@2/3, pooled
  precision/recall/F1 and average confidence, plus the most-confused tags and the best and worst
  three categories.

Next to it sit two parts of `load_evaluation_data`:
- the conversion of a CSV row into an evaluation item: the arrangement fields, and the ground truth
  read from `Underkategori1..3` with the column index as priority;
- the rule that chooses the delimiter.

The smaller services are modelled too:
- `OutputParser.parse_tag_response`, which validates the JSON answer of the language model;
- `InputValidator`, covering the title rule, text clean-up and sensitive-keyword scan;
- the validators of the `EventTagRequest` and `BatchTagRequest` request models.

Module layout:
- `Wrappers`: `Option`/`Result` and the truthiness of an optional string.
- `Text`: `str.strip`, `upper`/`lower`, substring search, `str.replace`, and the two regular
  expressions of `_clean_text`.
- `Seqs`: sets, distinctness and counting over sequences.
- `Counters`: Python dicts whose insertion order is observable, modelled as association lists.
- `StableSort`: Python's stable `sorted(..., reverse=True)` and `sorted(key=...)`.
- Shared data model:
  - `Requests`: the request model, a class with the pydantic validators;
  - `Scoring`: the datatypes and the per-item evaluation.
- Evaluation:
  - `Tally`: the accumulation over items;
  - `Metrics`: the aggregate metrics and rankings;
  - `Evaluation`: the imperative `evaluate_all` and its end-to-end lemmas.
- `EvaluationData`: the row conversion and loading.
- `InputValidation`.
- `OutputParsing`.

`evaluate_all` is a long loop that updates local variables and dictionaries. It is modelled as
`Evaluation.EvaluateAll`, a method with `while` loops that works on a `RunState` record holding
those locals. Each loop is proved against the pure specification `Tally.Fold` /
`Metrics.MetricsOf` / `Evaluation.EvaluateSpec`. The lemmas about that specification prove what
the metrics mean.

The predictor (`process_single_event`) is a parameter: `answers[i]` is what it gave for item `i`.
That is either a raised exception, a response without a tag triple, or a tag triple.

Floating-point values are modelled as `real`.

## Model

| member | source | states |
|---|---|---|
| Text.Strip | app/services/input_validator.py:91 | The result has no surrounding whitespace. It is the input with a leading and a trailing run of whitespace cut off. |
| Text.StripIdempotent | app/models/requests.py:31-32 | Stripping twice is stripping once. |
| Text.Upper | app/services/output_parser.py:58 | Same length; each character is mapped by the upper-case table. |
| Text.UpperIsUpper | app/services/evaluation.py:335-340 | An upper-cased string has no lower-case ASCII letter, and upper-casing is idempotent. |
| Text.Lower | app/services/input_validator.py:73 | Same length; each character is mapped by the lower-case table. |
| Text.LowerConcat | app/services/input_validator.py:68-73 | Lower-casing distributes over concatenation, so lower-casing the joined fields lower-cases each field. |
| Text.Contains | app/services/input_validator.py:76 | `in` on strings: true exactly when the pattern occurs at some index. |
| Text.ReplaceAbsent | app/services/input_validator.py:97-100 | `str.replace` leaves a text without the pattern unchanged. |
| Text.ReplaceFreeChar | app/services/input_validator.py:97-100 | `str.replace` leaves a text unchanged when the pattern's first character does not occur in it. |
| Text.ReplaceCharRemoves | app/services/evaluation.py:335-340 | Replacing a character by a string without it removes every occurrence; a one-character replacement keeps the length. |
| Text.CollapseSpace | app/services/input_validator.py:91 | `\s+` → `' '`: no run of two whitespace characters remains, every remaining whitespace is a blank, emptiness and the whitespace class of both ends are kept. |
| Text.NormalizeSpace | app/services/input_validator.py:91 | Strip then collapse: no edge whitespace, no whitespace run, only blanks. |
| Text.NormalizeNoSpace | app/services/input_validator.py:91 | A text without whitespace is left unchanged. |
| Text.NonSpace | app/services/input_validator.py:91 | The characters of a text other than whitespace, in order: no whitespace, no longer than the text. |
| Text.CollapseKeepsText | app/services/input_validator.py:91 | Collapsing whitespace runs keeps every other character, in order. |
| Text.StripKeepsText | app/services/input_validator.py:91 | `strip()` removes whitespace only. |
| Text.NormalizeKeepsText | app/services/input_validator.py:91 | The whitespace step keeps every non-whitespace character, in order. |
| Text.CollapseCollapsed | app/services/input_validator.py:91 | A text whose whitespace is single blanks is not changed by the collapse. |
| Text.NormalizeIdempotent | app/services/input_validator.py:91 | Applying the whitespace step twice is applying it once. |
| Text.CloseIndex | app/services/input_validator.py:94 | The index of the first `>` (or the length when there is none), with no `>` before it. |
| Text.RemoveTags | app/services/input_validator.py:94 | `<[^>]+>` → `''` adds no character, and keeps a first character that does not start a tag. |
| Text.RemoveTagsTagFree | app/services/input_validator.py:94 | After the substitution, no `<x…>` tag with at least one character between the brackets is left. |
| Text.RemoveTagsNoTag | app/services/input_validator.py:94 | A text without `<` is left unchanged. |
| Text.CloseIndexAfter | app/services/input_validator.py:94 | The closing `>` of `x>…`, when `x` has no `>`, is the one right after `x`. |
| Text.RemoveTagsSkipsTag | app/services/input_validator.py:94 | For `a<x>b`, with no `<` in `a`, `x` non-empty and no `>` in `x`: the text `a` is kept, the tag `<x>` is dropped whole, and `b` is processed on its own. |
| Seqs.ToSet | app/models/requests.py:51 | `set(list)`: the same members, no larger than the list. |
| Seqs.DistinctIffSetSize | app/models/requests.py:51 | The length test of `validate_events_unique`: a list has no repeats exactly when its set is as long as the list. |
| Seqs.Dedup | app/services/evaluation.py:120-126 | The set of present ground-truth tags in first-occurrence order: no repeats, same members. |
| Seqs.DedupSize | app/services/evaluation.py:120-126 | The deduplicated list is as long as the set. |
| Seqs.CountDistinct | app/services/evaluation.py:119-136 | In a list without repeats each key occurs once or not at all. |
| Seqs.Without | app/services/evaluation.py:128-136 | The candidates other than the predicted tag. |
| Seqs.WithoutDistinct | app/services/evaluation.py:128-136 | Removing one key keeps distinctness, and the length is the size of the set minus that key. |
| Counters.Keys | app/services/evaluation.py:246 | The keys of a counter in insertion order. |
| Counters.Inc | app/services/evaluation.py:117 | `counter[k] += 1`: only `k` grows, by one; the total grows by one. |
| Counters.IncKeys | app/services/evaluation.py:121-124 | Incrementing a new key appends it at the end; an existing key keeps the order. |
| Counters.IncValid | app/services/evaluation.py:117 | Incrementing keeps the keys distinct. |
| Counters.IncAll | app/services/evaluation.py:119-136 | Incrementing a list of keys adds each key's number of occurrences; the total grows by the length. |
| Counters.IncAllKeys | app/services/evaluation.py:121-124 | A key of the result was a key before or one of the incremented keys. |
| Counters.GetAt | app/services/evaluation.py:250-251 | Reading the key at position `i` gives that entry's count. |
| Counters.GetAbsent | app/services/evaluation.py:45-54 | `defaultdict(int)`: a key never incremented reads 0. |
| StableSort.SortFacts | app/services/evaluation.py:246 | `sorted(..., reverse=True)` by a key: non-increasing, a permutation, same length, and elements with equal keys keep their original order. |
| StableSort.SortOfSorted | app/services/evaluation.py:64 | Sorting an already ordered list changes nothing. |
| Scoring.SortByPriorityFacts | app/services/evaluation.py:64 | Ground truth sorted by priority: non-decreasing priorities, a permutation, ties in original order. |
| Scoring.TagsOf | app/services/evaluation.py:65 | The tag of each ground-truth entry, in order. |
| Scoring.Padded | app/services/evaluation.py:67-69 | The tag list extended with `None` to three slots; a longer list is kept whole. |
| Scoring.OrNone | app/services/evaluation.py:92-95 | `tag or None`: `Some` exactly for a non-empty tag. |
| Scoring.OptOrNone | app/services/evaluation.py:92-95 | `None` exactly for a falsy slot, otherwise the slot itself. |
| Scoring.ErrorOf | app/services/evaluation.py:142-148 | An item has an error message exactly when the predictor gave no tag triple. |
| Scoring.MatchRank | app/services/evaluation.py:97-105 | The rank is the 1-based position of the first slot equal to the predicted first tag. It is absent exactly when nothing was predicted or no slot holds the prediction. |
| Scoring.TruthyTags | app/services/evaluation.py:162 | The non-empty ground-truth tags in slot order: exactly the non-empty values held by some slot, and no more of them than slots. |
| Scoring.FirstTruthyHead | app/services/evaluation.py:114 | The first truthy slot is the head of the truthy tags. |
| Scoring.KeysOfKind | app/services/evaluation.py:128-136 | The candidates classified as TP, FP or FN: exactly those candidates of that kind. |
| Scoring.KeysOfKindDistinct | app/services/evaluation.py:128-136 | Filtering distinct candidates keeps them distinct. |
| Scoring.Candidates | app/services/evaluation.py:120-126 | `all_tags_in_dataset`: distinct, and exactly the present ground-truth tags plus the predicted one. |
| Scoring.TruePositives | app/services/evaluation.py:129-130 | One true positive exactly when a predicted tag is among the ground-truth slots, otherwise none. |
| Scoring.FalsePositives | app/services/evaluation.py:131-132 | One false positive exactly when a predicted tag is not one of the slots, otherwise none. |
| Scoring.FalseNegatives | app/services/evaluation.py:133-136 | The false negatives are the present ground-truth tags other than the predicted one. |
| Scoring.FalsePositiveSet | app/services/evaluation.py:131-132 | The false-positive keys are the predicted tag alone, when it is a miss. |
| Scoring.FalsePositiveMembers | app/services/evaluation.py:131-132 | Every false-positive key is the predicted tag, and it is not a ground-truth slot. |
| Scoring.Contributions | app/services/evaluation.py:119-136 | For one item: TP and FP counts as above, FN as the remaining present tags, and TP + FP = 1 whenever a tag was predicted. |
| Scoring.ItemResultFacts | app/services/evaluation.py:81-167 | The item's result: correct exactly when ranked, which is when the prediction is among the slots; its ground truth is the truthy slots; an error exactly when no triple came back, and then no predicted tag and confidence 0. |
| Scoring.RankIgnoresOtherTags | app/services/evaluation.py:97-109 | Rank and correctness depend only on the predicted first tag. |
| Scoring.RankWithinTags | app/services/evaluation.py:67-69 | The rank never exceeds the number of ground-truth entries, because padding slots are `None`. |
| Scoring.ExactFacts | app/services/evaluation.py:184-215 | Exact match@2 is tags 1 and 2 equal to ground-truth positions 1 and 2 (a missing position reads `None`); exact@3 adds tag 3; exact@3 implies exact@2; a missing first tag is never exact. |
| Tally.SuccessTpFp | app/services/evaluation.py:119-132 | A successful item adds one TP exactly when correct, and one of TP/FP exactly when it predicted a tag. |
| Tally.SuccessFn | app/services/evaluation.py:133-136 | A successful item adds as many FN as it has missed ground-truth tags. |
| Tally.SuccessConfusion | app/services/evaluation.py:111-117 | One confusion entry exactly for an incorrect prediction on an item with ground truth. |
| Tally.CorrectWithinTotal | app/services/evaluation.py:120-124 | Per tag, an item adds no more to `per_tag_correct` than to `per_tag_total`. |
| Tally.CountsSnoc | app/services/evaluation.py:153-167 | Appending one result adds its own contribution to every aggregate, including each tag's ground-truth count and correct count. |
| Tally.FailureContribution | app/services/evaluation.py:142-151 | A failed item counts neither as correct, as a prediction, as confused nor as missed, and adds confidence 0. |
| Tally.ConsistentAfter | app/services/evaluation.py:60-167 | A next state with one more result is consistent when every counter grew by that result's contribution. |
| Tally.StepPerTag | app/services/evaluation.py:119-149 | Every item, scored or failed, adds each present ground-truth tag to `per_tag_total`, once per occurrence. A correct item with a predicted tag adds that tag to `per_tag_correct`; no other item changes it. |
| Tally.SuccessPerTag | app/services/evaluation.py:120-140 | A successful item keeps `per_tag_correct` ≤ `per_tag_total` for every tag. |
| Tally.StepSuccess | app/services/evaluation.py:88-140 | Scoring an item with a tag triple preserves the invariant that every counter agrees with the result list. |
| Tally.StepFailure | app/services/evaluation.py:142-151 | Scoring an item whose predictor failed preserves the invariant. |
| Tally.StepConsistent | app/services/evaluation.py:60-167 | One loop iteration preserves the invariant. |
| Tally.StepResults | app/services/evaluation.py:153-167 | One iteration appends exactly that item's result. |
| Tally.FoldConsistent | app/services/evaluation.py:60-167 | After any number of items the counters agree with the results: TP total = correct results, TP + FP = results with a predicted tag, FN = missed tags, confusion total = incorrect predictions, confidence sum = sum of confidences. `per_tag_total[k]` = occurrences of `k` among all results' ground-truth tags, failed items included. `per_tag_correct[k]` = correct results predicting `k`. Per-tag correct ≤ total. |
| Tally.FoldResults | app/services/evaluation.py:60 | There is one result per item, in dataset order, and result `i` depends only on item `i` and its answer. |
| Tally.FoldFacts | app/services/evaluation.py:60-167 | The two facts above together. |
| Tally.FoldSnoc | app/services/evaluation.py:60 | Evaluating one more item is one more step on the previous state. |
| Metrics.RatioBounds | app/services/evaluation.py:174-182 | A count divided by the item count (0 for no items) lies in 0..1 and is monotone in the count. |
| Metrics.F1Bounds | app/services/evaluation.py:239 | F1 of a precision and a recall in 0..1 lies in 0..1. |
| Metrics.RankWithinMonotone | app/services/evaluation.py:172-182 | Hits within rank j ≤ hits within rank k ≤ items, for j ≤ k. |
| Metrics.ExactOrder | app/services/evaluation.py:184-215 | Exact@3 hits ≤ exact@2 hits ≤ items. |
| Metrics.WeightBetween | app/services/evaluation.py:222-227 | With ranks of at most 3, the summed weights 1/rank lie between the rank-1 hits and the rank-3 hits, and the rank-3 hits are the correct results. |
| Metrics.EmptyRunMetrics | app/services/evaluation.py:170-243 | With no results every metric is 0. |
| Metrics.MetricsErrIff | app/services/evaluation.py:187-190 | The metric computation fails with the `IndexError` text exactly when some result has no ground truth. |
| Metrics.MetricsFacts | app/services/evaluation.py:170-243 | For a consistent state: accuracy@1 ≤ @2 ≤ @3 within 0..1; exact@3 ≤ exact@2 within 0..1; P, R, F1 within 0..1; precision is correct / predicted, recall is correct / (correct + missed); the totals are item count and correct count. |
| Metrics.ZeroGuards | app/services/evaluation.py:232-239 | Precision is 0 when nothing was predicted, recall 0 when there is nothing to find, F1 0 when P + R = 0, and every ratio 0 for an empty run. |
| Metrics.WeightedBetween | app/services/evaluation.py:222-227 | accuracy@1 ≤ weighted accuracy ≤ accuracy@3, and accuracy@3 is correct / total. |
| Metrics.TagAccuracies | app/services/evaluation.py:248-252 | One accuracy per `per_tag_total` entry, naming that entry's tag, in `per_tag_total` order. |
| Metrics.AccuracyBounds | app/services/evaluation.py:248-252 | Each per-tag accuracy lies in 0..1 and belongs to its tag. |
| Metrics.AccuracyMeaning | app/services/evaluation.py:248-252 | On a consistent run, tag `k`'s accuracy is the correct results predicting `k`, divided by the occurrences of `k` among the ground-truth tags (failed items included). |
| Metrics.Top3 | app/services/evaluation.py:255 | `[:3]`: a prefix of the list, of length min(3, n). |
| Metrics.TagNames | app/services/evaluation.py:255 | The tag names of the entries, in order. |
| Metrics.MostConfusedFacts | app/services/evaluation.py:246 | Most-confused tags: ordered by count, non-increasing, a permutation of the counter, ties kept in insertion order. |
| Metrics.RankingFacts | app/services/evaluation.py:254-258 | Best and worst have min(3, #tags) names. Each best entry has accuracy ≥ any tag left out, and each worst entry ≤ any tag left out. |
| Metrics.RankingOrder | app/services/evaluation.py:254-258 | Best is non-increasing and worst non-decreasing by accuracy, and both sorts keep ties in insertion order. |
| Metrics.RankedTagsExist | app/services/evaluation.py:254-258 | Every best or worst name is the tag of some accuracy entry. |
| Evaluation.ClassifyStep | app/services/evaluation.py:128-136 | One iteration of the TP/FP/FN loop extends the counts over one more candidate. |
| Evaluation.PadSlots | app/services/evaluation.py:65-69 | The padding loop yields `Padded(tags)`. |
| Evaluation.FindMatch | app/services/evaluation.py:97-105 | The rank search loop yields `MatchRank`. |
| Evaluation.CountTruth | app/services/evaluation.py:120-126 | The ground-truth loop adds every present tag to `per_tag_total` and collects the set of present tags. |
| Evaluation.TruthStep | app/services/evaluation.py:121-124 | One iteration of that loop. |
| Evaluation.CountCandidates | app/services/evaluation.py:128-136 | The candidate loop gives every candidate its TP, FP or FN increment. |
| Evaluation.AddPrediction | app/services/evaluation.py:125-126 | Adding the predicted tag to the set gives `Candidates`. |
| Evaluation.CountConfusion | app/services/evaluation.py:111-117 | The confusion update adds the confusion key of an incorrect prediction. |
| Evaluation.ScoreSuccess | app/services/evaluation.py:107-140 | The counter updates of a successful item yield `Counted`. |
| Evaluation.CountCorrectTag | app/services/evaluation.py:138-140 | `per_tag_correct` grows by the predicted tag when correct. |
| Evaluation.CountTags | app/services/evaluation.py:119-136 | `per_tag_total` and the TP/FP/FN counters after one item. |
| Evaluation.ScoreItem | app/services/evaluation.py:60-167 | One iteration of the main loop yields `ScoreStep`. |
| Evaluation.ComputeMetrics | app/services/evaluation.py:169-243 | The metric code yields `MetricsOf`, failing when a result has no ground truth. |
| Evaluation.ExactCounts | app/services/evaluation.py:184-220 | The exact-match loop succeeds exactly when every result has ground truth, then counts exact@2 and exact@3. |
| Evaluation.SumWeights | app/services/evaluation.py:222-227 | The weight loop sums 1/rank. |
| Evaluation.PerTagAccuracy | app/services/evaluation.py:248-252 | The per-tag accuracy loop yields `TagAccuracies`. |
| Evaluation.EvaluateAll | app/services/evaluation.py:27-287 | `evaluate_all` returns exactly `EvaluateSpec`. |
| Evaluation.ResultsHaveTruth | app/services/evaluation.py:162 | Every result has ground truth exactly when every item has a non-empty ground-truth tag. |
| Evaluation.EvaluateErrIff | app/services/evaluation.py:34-38 | The run raises exactly for an empty dataset, a title outside 1..500 characters, or an item without a present ground-truth tag, each with its own message. |
| Evaluation.EvaluateOkFacts | app/services/evaluation.py:154-243 | A successful run has one result per item in order, ordered and bounded accuracies and exact matches, P/R/F1 in 0..1, precision equal to correct / predicted, and the item and correct totals. |
| Evaluation.EvaluateWeighted | app/services/evaluation.py:222-227 | With at most three ground-truth tags per item, accuracy@1 ≤ weighted accuracy ≤ accuracy@3. |
| Evaluation.EvaluateInsights | app/services/evaluation.py:246-258 | The most-confused list is the confusion counter sorted by count, and its total is the number of confused results. Tag accuracies lie in 0..1. Best and worst names are tags of `per_tag_total`. |
| Evaluation.RankedAreKeys | app/services/evaluation.py:249-258 | Best and worst categories are keys of the per-tag totals. |
| EvaluationData.Delimiter | app/services/evaluation.py:308 | `;` exactly when the first line contains one, otherwise `,`. |
| EvaluationData.ArrangementOf | app/services/evaluation.py:318-326 | The arrangement is built exactly when none of the six cells is `None`, on which `.strip()` raises; a column the header lacks reads as "". |
| EvaluationData.ArrangementStripped | app/services/evaluation.py:318-326 | Every arrangement field is stripped, and the title is the stripped title cell. |
| EvaluationData.TagValues | app/services/evaluation.py:330-333 | The three stripped `Underkategori` cells, reading a missing or `None` cell as "". |
| EvaluationData.NormalizeTagFacts | app/services/evaluation.py:335-340 | A normalized tag keeps the length and has no blank, `/`, `-` or lower-case ASCII letter. |
| EvaluationData.PrioritiesOf | app/services/evaluation.py:341-344 | The priorities of the entries, in order. |
| EvaluationData.EntriesShape | app/services/evaluation.py:329-345 | At most n entries, with priorities in 1..n, strictly increasing. |
| EvaluationData.EntriesFrom | app/services/evaluation.py:329-345 | Each entry holds the non-blank value of the column named by its priority, and its tag is that value normalized. |
| EvaluationData.EntriesCover | app/services/evaluation.py:329-345 | Column j contributes an entry exactly when its value is not blank. |
| EvaluationData.EntriesFacts | app/services/evaluation.py:329-345 | The three facts above for the three tag columns. |
| EvaluationData.GroundTruthFacts | app/services/evaluation.py:328-345 | A row's ground truth has at most 3 entries. Each is taken from its own column with a stripped, normalized value. Priorities increase, and priority j is present exactly when column j is not blank. |
| EvaluationData.TagValuesEdgeFree | app/services/evaluation.py:333 | The tag values are stripped. |
| EvaluationData.LoadedTagsSorted | app/services/evaluation.py:64 | A loaded ground-truth list is already in priority order, so the sort in the evaluation keeps it. |
| EvaluationData.GroundTruthEmptyIff | app/services/evaluation.py:328-347 | A row has no ground truth exactly when all three tag values are blank. |
| EvaluationData.ReadGroundTruth | app/services/evaluation.py:328-345 | The column loop builds exactly `GroundTruthOf(row)`. |
| EvaluationData.ConvertRowIff | app/services/evaluation.py:316-352 | A row becomes an item exactly when all arrangement cells are present, its stripped title is non-empty and some tag value is not blank. |
| EvaluationData.ConvertedLoaded | app/services/evaluation.py:316-352 | A converted item has a non-empty stripped title and 1..3 sorted ground-truth entries with non-empty values. |
| EvaluationData.KeptItemsFacts | app/services/evaluation.py:316-352 | The loaded items are no more than the rows, each is `Loaded`, and each is the conversion of some row. |
| EvaluationData.KeptItemsSnoc | app/services/evaluation.py:347-352 | A row is appended exactly when it converts. |
| EvaluationData.KeptItemsComplete | app/services/evaluation.py:347-352 | No convertible row is dropped. |
| EvaluationData.LoadEvaluationData | app/services/evaluation.py:316-352 | The row loop yields exactly `KeptItems(rows)`. |
| EvaluationData.LoadedHasTruth | app/services/evaluation.py:347 | A loaded item has a present ground-truth tag and at most three. |
| EvaluationData.EvaluateLoaded | app/services/evaluation.py:34-38 | On loaded data the evaluation fails only for an empty dataset or a title outside the length limits (never on the exact-match `IndexError`), and then accuracy@1 ≤ weighted ≤ accuracy@3. |
| EvaluationData.RankIsListPosition | app/services/evaluation.py:99-105 | With `Underkategori2` blank, a prediction equal to `Underkategori3` is ranked 2: the rank is the list position, not the column priority. |
| InputValidation.CleanTextPlain | app/services/input_validator.py:85-102 | A text without whitespace, `<` or `&` is not changed by cleaning. |
| InputValidation.CleanTextKeepsText | app/services/input_validator.py:85-102 | On a text without `<` and `&`, cleaning changes whitespace only: every other character stays, in order. |
| InputValidation.CleanTextDropsTag | app/services/input_validator.py:85-102 | On a text without whitespace and `&`, a tag `<x>` preceded by no `<` is removed whole. The text before it is kept, and the text after it is cleaned on its own. |
| InputValidation.CleanTextIsTagRemoval | app/services/input_validator.py:85-102 | On a text without whitespace and `&`, cleaning is tag removal alone. |
| InputValidation.CleanTextSpaceStep | app/services/input_validator.py:91 | After the first step the text has no edge whitespace, no whitespace run, only blanks. |
| InputValidation.CleanTextTagStep | app/services/input_validator.py:94 | After the second step no tag remains. |
| InputValidation.CleanTextEntityOrder | app/services/input_validator.py:97-100 | The entity order is observable: `&amp;lt;` decodes to `<` (via `&lt;`). |
| InputValidation.CleanTextTagsBeforeEntities | app/services/input_validator.py:94-100 | Tags are removed before entities are decoded: a literal `<b>` disappears, but an encoded `&lt;b&gt;` becomes the tag `<b>`. |
| InputValidation.PlainNoTag | app/services/input_validator.py:87-100 | For a non-empty text without whitespace and `<`, cleaning is entity decoding alone. |
| InputValidation.CleanField | app/services/input_validator.py:53-58 | An optional field is cleaned when present and stays absent when absent. |
| InputValidation.CleanedFields | app/services/input_validator.py:48-58 | The cleaned request differs from the original only in its four text fields, each cleaned. |
| InputValidation.ValidateAndClean | app/services/input_validator.py:27-60 | Raises the Danish title message exactly when the title is empty or shorter than 3 characters once stripped; otherwise returns a new request whose fields are `Cleaned` of the argument's. |
| InputValidation.FirstHit | app/services/input_validator.py:75-81 | The index of the first keyword, in list order, whose lower-case form occurs; absent exactly when none does. |
| InputValidation.CheckSensitiveContent | app/services/input_validator.py:62-83 | Flagged exactly when some keyword occurs in the joined lower-cased fields. The reason then names the first such keyword, with confidence 0.8; otherwise there is no reason and confidence is 0. |
| InputValidation.ContainsConcat | app/services/input_validator.py:68-73 | An occurrence in one part occurs in the joined text. |
| InputValidation.KeywordInFieldFlagged | app/services/input_validator.py:68-81 | A keyword occurring in any one field flags the request. |
| OutputParsing.NewOutputParser | app/services/output_parser.py:24-25 | `available_tags or []`. The same lines of `app/services/output_parser_example.py` behave identically. |
| OutputParsing.TagsToUse | app/services/output_parser.py:37 | The call's list when non-empty, otherwise the parser's own. The same lines of `app/services/output_parser_example.py` behave identically. |
| OutputParsing.CheckTags | app/services/output_parser.py:57-62 | The tag check passes exactly when every tag is falsy or an allowed upper-cased string. A rejection names the first failing index and its string; a truthy non-string tag raises. |
| OutputParsing.Confidence | app/services/output_parser.py:68 | `confidence or 0.0` under the float field's coercion: 0 for a falsy value, the number itself for a number, 1.0 for `true`, the string coercion's outcome for a non-empty string, and a validation error for a non-empty array or object. |
| OutputParsing.Reasoning | app/services/output_parser.py:69 | The reasoning field is accepted exactly when it is null or a string. |
| OutputParsing.Tags | app/services/output_parser.py:42-44 | The three tag lookups. |
| OutputParsing.ParseTagResponse | app/services/output_parser.py:28-77 | A decode failure gives an invalid response with the prefixed message. A non-object raises. A falsy TAG1 gives the no-tag1 response. The same lines of `app/services/output_parser_example.py` behave identically. |
| OutputParsing.DecodeFailureInvalid | app/services/output_parser_example.py:73-77 | A decoding error is caught and reported as an invalid response starting `Could not parse JSON: `. These lines are identical in `app/services/output_parser.py`. |
| OutputParsing.MissingTag1Invalid | app/services/output_parser.py:50-54 | A missing or falsy TAG1 is an invalid response with no tags. The same lines of `app/services/output_parser_example.py` behave identically. |
| OutputParsing.FirstRejectedTag | app/services/output_parser.py:57-62 | The first tag outside the allowed list decides the error, which names its index and text. |
| OutputParsing.InvalidMeansRejected | app/services/output_parser_example.py:49-62 | Every invalid response from an object is one of those two rejections. These lines are identical in `app/services/output_parser.py`. |
| OutputParsing.ValidResponse | app/services/output_parser.py:64-71 | A valid response has no error. Its tags are the input tags upper-cased, TAG1 among them, and every tag is allowed. A falsy confidence becomes 0. The same lines of `app/services/output_parser_example.py` behave identically. |
| OutputParsing.ValidIff | app/services/output_parser.py:49-71 | Valid exactly when TAG1 is truthy, all three tags pass, and confidence and reasoning are accepted by the response model. |
| OutputParsing.EmptyAllowedListRejects | app/services/output_parser.py:37 | With no allowed tags, no response carrying TAG1 is valid. |
| OutputParsing.DefaultParserFallback | app/services/output_parser.py:24-37 | A parser built without tags uses the call's list, or none. |
| Requests.StripWhitespace | app/models/requests.py:29-32 | The validated title has no edge whitespace and is the input with its edge whitespace runs removed. |
| Requests.StripWhitespaceIdempotent | app/models/requests.py:29-32 | Validating twice is validating once. |
| Requests.MergedOrganizerFacts | app/models/requests.py:34-39 | A truthy `arrangør` is kept; a falsy one is replaced by a truthy `arrangor`; the merged value is truthy exactly when either is; merging again changes nothing. |
| Requests.EventTagRequest.MergeOrganizerFields | app/models/requests.py:34-39 | Only `arrangør` changes, to the merged value. |
| Requests.EventTagRequest.Create | app/models/requests.py:11-39 | Construction raises exactly when the raw title is outside 1..500 characters. Otherwise it gives a new request with the stripped title and the merged organizer. |
| Requests.EventTagRequest.Copy | app/services/input_validator.py:48 | A new object with the same field values. |
| Requests.EventTagRequest.SetTextFields | app/services/input_validator.py:51-58 | Only the four text fields change. |
| Requests.NumbersMembership | app/models/requests.py:50 | A number is collected exactly when some event carries it as a truthy `arrangement_nummer`. |
| Requests.ValidateEventsUnique | app/models/requests.py:47-53 | Raises exactly when two events share a truthy number; otherwise returns the list unchanged. |
| Requests.NumbersDistinct | app/models/requests.py:49-53 | The collected numbers are distinct exactly when no truthy number repeats. |

## Left out

- Reading the CSV file (`open`, `csv.DictReader`, the path, the missing-file case) is not modelled.
  `EvaluationData.LoadEvaluationData` takes the parsed rows, and `Delimiter` takes the first line.
- The module-level `evaluation_data` is not a global: `EvaluateAll` receives the dataset, so the lazy
  load at the top of `evaluate_all` is left to the caller (`EvaluateLoaded` composes the two).
- The predictor `process_single_event`, the language-model client, prompts and
  `initialization.py` are not part of this model.
  - Their combined answer per item is the `answers` parameter.
  - The tag normalization that `initialization.py` repeats is the same rule as
    `EvaluationData.NormalizeTag`.
- `async`/`await` and logging (including the `has_description` warning of `validate_and_clean`)
  have no effect on the values and are left out.
- `uuid`, `time`, `datetime` and the fields built from them are not modelled:
  - `evaluation_id`;
  - `processing_time_ms`;
  - `timestamp` (of the response and of each result).
- Floating point is modelled as exact `real` arithmetic: no rounding of `1.0 / rank`, of averages or
  of F1.
- Upper and lower case: `Text.Upper`/`Text.Lower` map ASCII and Latin-1 letters only.
  - Other characters are unchanged, including `ß`, whose Python upper case `SS` changes the length.
- JSON decoding is not modelled. `ParseTagResponse` receives its outcome:
  - the decoder's message when decoding fails;
  - the top-level value;
  - the object's key/value map, with nested arrays and objects kept only by size.
  The `llm_output.strip()` before decoding is part of that abstraction. pydantic's coercion of a
  string confidence is the function parameter `coerceFloat`.
- Exception texts are approximated.
  - pydantic's full validation-error message (error count, field, type, input value, URL) is replaced
    by a fixed text (`TitleConstraintMessage`, `ValidationMessage`).
  - `NotUniqueMessage` is the bare `ValueError` text of `validate_events_unique`. pydantic wraps it in
    a `BatchTagRequest` validation error, and that wrapping is not modelled.
  - An `AttributeError` is given as its `'type' object has no attribute …` text. The type name
    distinguishes `int` from `float` by `JNumber`'s `integral` flag.
- Python dicts with observable order are association lists (`Counters`):
  - `per_tag_total`;
  - `per_tag_correct`;
  - the confusion counter.
  The set `all_tags_in_dataset` is iterated in first-occurrence order. Python's set order is
  unspecified. It decides only the key order of `tp_counts`, `fp_counts` and `fn_counts`, and
  nothing reads that order: only the sums of their values are used.
- `BatchTagRequest`'s `min_items=1`/`max_items=100` on `events`, `ProcessingMode` and
  `EvaluationRequest` are not modelled. Only `validate_events_unique` is.
- `output_parser_example.py` is identical to `output_parser.py` in the modelled lines 1-77 and is
  modelled once.
- `OutputParser._extract_primary_tag` and the other helpers after line 77 are not modelled: the parse
  path does not call them.
- Evaluation.EvaluateWeighted: needs at most three ground-truth tags per item. With a fourth tag a
  rank-4 hit would add 1/4 to the weighted accuracy and nothing to accuracy@3. Rows of the data file
  have only three tag columns, and `EvaluationData.EvaluateLoaded` discharges the hypothesis for
  loaded data.
- InputValidation.ValidateAndClean: updates the four text fields of the copy in one
  `SetTextFields` call where the source assigns them one by one. The resulting object is the same.
