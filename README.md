# Cross-provider divergence probe

This project models the decision core of AnomalyScope's live cross-provider probe. The probe asks several language-model providers the same prompt a number of times. It then:

- measures how consistent each provider is with itself (pairwise similarity of its own responses);
- measures how far the first two providers diverge from each other (average best-match similarity);
- grades that divergence as high, medium or low;
- assembles an anomaly record from the results.

A separate reporting helper turns such a record into a three-field summary card.

The model has three modules:

- `Stats` (stats.dfy): the mean and minimum that the probe takes with numpy, over exact reals.
- `Reporting` (reporting.dfy): the anomaly record and its summary card.
- `CrossProbe` (cross_probe.dfy): these operations:
  - the per-provider run (`FromResponses`) and the cross-provider score (`CrossSimilarity`), both as loop methods proved against specification functions (`RunOf`, `CrossScore`);
  - the severity rule (`Classify`);
  - the loop that collects runs into an insertion-ordered table (`CollectRuns`, against `CollectSpec`);
  - the assembly of the record (`BuildRecord`).

The string similarity (difflib's ratio) is a parameter `sim` of type `SimilarityMeasure`: any function from two strings to a real in [0, 1]. The record's timestamp and the way numbers are printed in the description are also parameters.

## Model

| member | source | states |
|---|---|---|
| CrossProbe.SeqSim | src/anomaly_scanner/cross_probe.py:30-32 | the similarity of two responses lies in [0, 1] |
| CrossProbe.FromResponses | src/anomaly_scanner/cross_probe.py:34-48 | the two nested loops build exactly `RunOf`: every pair i < j scored in loop order, with the mean and minimum of the scores, or of [1.0] when there are none |
| CrossProbe.PairwiseShape | src/anomaly_scanner/cross_probe.py:36-40 | the pairwise list has n(n-1)/2 entries; each is a pair i < j < n carrying the similarity of responses i and j; the list is strictly increasing in (i, j); every pair i < j occurs |
| CrossProbe.DegenerateRun | src/anomaly_scanner/cross_probe.py:41-47 | fewer than two responses iff no pairs; then mean and min are both 1.0; otherwise both the mean and the minimum are taken over the pairwise scores alone |
| CrossProbe.ConsistencyBounds | src/anomaly_scanner/cross_probe.py:42-48 | the run keeps the given name and responses, and 0 <= min_similarity <= mean_similarity <= 1 |
| Stats.Min | src/anomaly_scanner/cross_probe.py:47 | the minimum of a non-empty list occurs in it and no element is below it |
| Stats.MeanBounds | src/anomaly_scanner/cross_probe.py:46 | the mean of values in [lo, hi] lies in [lo, hi] |
| Stats.MinMeanOrder | src/anomaly_scanner/cross_probe.py:46-47 | for scores in [0, 1], 0 <= min <= mean <= 1 |
| Stats.SumAppend | src/anomaly_scanner/cross_probe.py:62 | the sum of a concatenation is the sum of the parts |
| Stats.MeanSwap | src/anomaly_scanner/cross_probe.py:62 | the mean of two joined lists does not depend on the order of the join |
| CrossProbe.BestMatch | src/anomaly_scanner/cross_probe.py:57 | the best score of x against a non-empty list is in [0, 1], is attained by some element, and no element scores higher |
| CrossProbe.CrossSimilarity | src/anomaly_scanner/cross_probe.py:51-62 | returns 1.0 when either side is empty; otherwise the two loops collect the best matches of a against b, then of b against a, and the result is their mean (`CrossScore`) |
| CrossProbe.CrossScoreMaxima | src/anomaly_scanner/cross_probe.py:55-62 | for non-empty sides the averaged list has len(a) + len(b) entries: first the best match of each a[k] against b, then of each b[k] against a |
| CrossProbe.BestMatchesInUnit | src/anomaly_scanner/cross_probe.py:56-61 | every collected best-match score lies in [0, 1] |
| CrossProbe.CrossScoreBounds | src/anomaly_scanner/cross_probe.py:51-62 | the cross-provider score lies in [0, 1], and is 1.0 when either side is empty |
| CrossProbe.CrossScoreSymmetric | src/anomaly_scanner/cross_probe.py:51-62 | swapping the two providers does not change the score, even for a non-symmetric similarity |
| CrossProbe.Classify | src/anomaly_scanner/cross_probe.py:65-79 | high iff score < 0.60; medium iff 0.60 <= score < threshold; low iff score >= both and some provider's mean is below threshold; none iff score >= both and no provider's mean is below threshold |
| CrossProbe.LabelsDistinct | src/anomaly_scanner/cross_probe.py:65-79 | the four severities have four distinct labels, "none", "low", "medium" and "high" |
| CrossProbe.ClassifyMonotoneInScore | src/anomaly_scanner/cross_probe.py:73-79 | a lower cross-provider score never gives a lower severity |
| CrossProbe.ClassifyMonotoneInThreshold | src/anomaly_scanner/cross_probe.py:75-79 | a higher threshold never gives a lower severity |
| CrossProbe.CollectRuns | src/anomaly_scanner/cross_probe.py:122-125 | the collection loop builds exactly `CollectSpec`: each provider's run stored under its name, dict-style |
| CrossProbe.PutValid | src/anomaly_scanner/cross_probe.py:125 | assigning a key keeps the names distinct and in step with the entries; existing keys keep their place; the key maps to the new run; other entries are unchanged |
| CrossProbe.ProvidedSnoc | src/anomaly_scanner/cross_probe.py:123-125 | a name occurs among the providers plus one more exactly when it occurs among the first ones or is the new one |
| CrossProbe.CollectKeys | src/anomaly_scanner/cross_probe.py:122-128 | the collected table is well formed; its keys are exactly the provider names; the first key is the first provider's name |
| CrossProbe.CollectOneName | src/anomaly_scanner/cross_probe.py:122-128 | when all providers have the same name, the table has that single key |
| CrossProbe.CollectSecondKey | src/anomaly_scanner/cross_probe.py:122-131 | the second key is the first provider name, in order, that differs from the first name |
| CrossProbe.CollectLastWins | src/anomaly_scanner/cross_probe.py:122-125 | a provider named several times keeps the run of its last occurrence |
| CrossProbe.CollectTwoProviders | src/anomaly_scanner/cross_probe.py:128-130 | the table has at least two keys iff some provider name differs from the first |
| CrossProbe.Upper | src/anomaly_scanner/cross_probe.py:140 | ASCII `str.upper`: the length is kept, each lower-case letter a-z becomes the character 32 code points below it, every other character is unchanged, and the result contains no lower-case ASCII letter |
| CrossProbe.DivergenceId | src/anomaly_scanner/cross_probe.py:140 | the id is the upper-cased first name, then "-vs-", then the upper-cased second name, then "-DIVERGENCE", and its length is the two names' lengths plus 15 |
| CrossProbe.UpperIdempotent | src/anomaly_scanner/cross_probe.py:140 | upper-casing twice is upper-casing once |
| CrossProbe.DivergenceIdIgnoresCase | src/anomaly_scanner/cross_probe.py:140 | the record id does not depend on how the provider names are cased |
| CrossProbe.Describe | src/anomaly_scanner/cross_probe.py:141-146 | the description opens with "Cross-provider drift on prompt with runs=" followed by the rendered run count, and ends with "." |
| CrossProbe.StoredSeverity | src/anomaly_scanner/cross_probe.py:147 | the stored severity is never none; any other level is kept; at most one level is added |
| CrossProbe.Samples | src/anomaly_scanner/cross_probe.py:156-157 | the samples are a prefix of the responses, min(3, n) long |
| CrossProbe.BuildRecord | src/anomaly_scanner/cross_probe.py:128-165 | error with the exact message iff fewer than two providers; otherwise the id is A-vs-B-DIVERGENCE of the first two keys, the severity is the stored classification of their cross score, the timestamp is the given one, providers lists every key, samples and within are keyed by exactly the two compared providers, the samples are min(3, n)-prefixes, within stores each compared provider's mean and minimum, prompt, threshold, runs and temperature are copied from the settings, and the description is the `Describe` text for the two compared providers and their cross score |
| CrossProbe.RecordSeverity | src/anomaly_scanner/cross_probe.py:135-147 | a built record's severity is never "none": "high" iff cross < 0.60, "medium" iff 0.60 <= cross < threshold, "low" iff cross is at least both |
| Reporting.GenerateAnomalyCard | src/reporting/generator.py:1-7 | the card has exactly the keys id, description and severity, each holding the record's value |
| Reporting.CardDeterminesSummary | src/reporting/generator.py:1-7 | two records give equal cards iff they agree on id, description and severity |

## Left out

- SeqSim: difflib's SequenceMatcher ratio is abstract. Only its [0, 1] range is modelled. Properties such as ratio(x, x) = 1 and its behaviour on empty strings are not used.
- Floating point: scores, means and minima are exact reals. numpy's float rounding in `mean` is not modelled.
- Describe: the `{runs}`, `{temperature}` and `:.3f` number renderings are a `NumberFormat` parameter. The literal text around them is modelled exactly in the body. The contract states only the opening, the run count after it and the closing period.
- Upper: Python's `str.upper` is modelled for ASCII letters only. Non-ASCII case mapping is not modelled.
- Argument parsing, `load_dotenv`, and choosing and instantiating providers (src/anomaly_scanner/cross_probe.py:102-119) are not modelled. That includes the `Unsupported provider` error. The collection loop receives each provider's name and responses as input.
- The provider `generate` calls go over the network. Their responses are inputs to `CollectRuns`.
- The `datetime.now` timestamp is a parameter of `BuildRecord`.
- `write_anomaly_outputs`, `_update_index_page`, the subprocess call and the console output (src/anomaly_scanner/cross_probe.py:82-98, 167-181) are file, process and terminal I/O. They are not modelled.
- CrossSimilarity: the trailing `if totals else 1.0` fallback cannot be reached once both sides are non-empty, so the model has no branch for it.
- The `AnomalyCard` class is imported at src/anomaly_scanner/cross_probe.py:17, but its definition is not part of this model. The `Reporting.AnomalyCard` datatype takes its fields from how src/anomaly_scanner/cross_probe.py:139-165 builds a record.
- src/anomaly_scanner/scanner.py is not part of this model.
- BuildRecord: the `RuntimeError` raised for fewer than two providers is modelled as an `Err` result carrying the same message. The exception type is not modelled.
