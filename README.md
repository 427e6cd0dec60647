# Retrieval-evaluation metrics, modelled in Dafny

This project models the retrieval-evaluation helpers of a RAG course workspace
(`Grok-AI-Engineer-5Months/02_Week2_RAG_PDF/eval/metrics.py`) and proves
properties of the model. It covers four pure functions:

- `precision_recall_f1(tp, fp, fn)`: precision, recall and F1 from confusion
  counts. Each division with a non-positive denominator gives 0.0 instead.
- `retrieval_at_k(ground_truth, ranked, k)`: the number of entries of
  `ranked[:k]` that are in the ground-truth set, paired with `k` exactly as
  it was passed.
- `recall_at_k(ground_truth, ranked, k)`: hits divided by the size of the
  ground truth, and 0.0 for an empty ground truth.
- `batch_recall_at_k(ground_truth_list, ranked_lists, k)`: the mean of the
  per-query `recall_at_k` values, 0.0 for an empty batch, with a length check
  on the two lists.

Files:

- `metrics.dfy` (module `Metrics`): the four operations as Dafny functions,
  with their helpers. Helpers cover the guarded ratio, the harmonic mean,
  Python's `[:k]` slice, the recursive hit count, `sum` and the mean.
- `metrics_properties.dfy` (module `MetricsProperties`): lemmas about the
  operations, plus small real-arithmetic and set-cardinality helper lemmas.

Modelling choices:

- Ratios are exact rationals (`real`), not IEEE doubles.
- Identifiers are `string`, a ranking is `seq<string>` and a ground truth is
  `set<string>`.
- Hits are a recursive count over the slice, so duplicates in the ranking
  are counted once per occurrence, as the generator expression does.
- `ranked[:k]` follows Python's slicing for every integer `k`. A negative `k`
  drops entries from the end. The bounds and monotonicity facts are stated
  for `k >= 0`, and `HitsNotMonotoneAcrossZero` shows why that hypothesis is
  needed.
- The counts of `precision_recall_f1` are unconstrained `int`s, as in the
  source. The `[0, 1]` bounds are proved for non-negative counts.
- The `assert` in `batch_recall_at_k` becomes a `Result`. Mismatched lengths
  give `Err(LengthMismatch(..))`, and every other input gives `Ok(mean)`.

Behaviours of the code that a reader might not expect:

- `k` may be any integer, and the model accepts any integer. The code never
  checks it, and Python's slice gives a negative `k` its own meaning.
- The code does not deduplicate the ranking, so recall@k can exceed 1 when
  the top-k slice repeats a relevant identifier (`RecallCanExceedOne`). The
  model keeps that behaviour. The `<= 1` bound is proved only for a
  duplicate-free top-k slice (`RecallAtMostOne`).
- Each of the three ranking functions defaults `k` to 5, as the source does
  (`DefaultCutOff`).

## Model

| member | source | states |
|---|---|---|
| `Metrics.GuardedRatio` | Grok-AI-Engineer-5Months/02_Week2_RAG_PDF/eval/metrics.py:5-7 | the guarded division times a positive denominator gives back the numerator; a non-positive denominator gives 0.0 |
| `Metrics.HarmonicMean` | Grok-AI-Engineer-5Months/02_Week2_RAG_PDF/eval/metrics.py:7 | when p + r > 0, F1 times (p + r) equals 2pr; otherwise F1 is 0.0 |
| `Metrics.PrecisionRecallF1` | Grok-AI-Engineer-5Months/02_Week2_RAG_PDF/eval/metrics.py:4-8 | precision times (tp + fp) is tp when tp + fp > 0, else precision is 0; the same for recall with tp + fn; F1 is the guarded harmonic mean of the two |
| `Metrics.SliceEnd` | Grok-AI-Engineer-5Months/02_Week2_RAG_PDF/eval/metrics.py:17 | the end of Python's `[:k]` slice never passes the list's length |
| `Metrics.TopK` | Grok-AI-Engineer-5Months/02_Week2_RAG_PDF/eval/metrics.py:17 | `ranked[:k]` is a prefix of `ranked`, of length min(k, \|ranked\|) for k >= 0 |
| `Metrics.CountIn` | Grok-AI-Engineer-5Months/02_Week2_RAG_PDF/eval/metrics.py:18 | the hit count never exceeds the length of the slice it counts over |
| `Metrics.RetrievalAtK` | Grok-AI-Engineer-5Months/02_Week2_RAG_PDF/eval/metrics.py:11-19 | k defaults to 5; the second component is k exactly as passed; hits <= \|ranked[:k]\|, hence hits <= k and hits <= \|ranked\| for k >= 0 |
| `Metrics.RecallAtK` | Grok-AI-Engineer-5Months/02_Week2_RAG_PDF/eval/metrics.py:22-26 | 0.0 for an empty ground truth; otherwise recall times \|ground truth\| equals the hits; never negative |
| `Metrics.Recalls` | Grok-AI-Engineer-5Months/02_Week2_RAG_PDF/eval/metrics.py:31 | one value per query, the i-th being recall@k of the i-th ground truth and the i-th ranking |
| `Metrics.Sum` | Grok-AI-Engineer-5Months/02_Week2_RAG_PDF/eval/metrics.py:32 | Python's left-to-right `sum`; no contract of its own: `SumAppend` and `SumBounds` state what it means |
| `Metrics.Mean` | Grok-AI-Engineer-5Months/02_Week2_RAG_PDF/eval/metrics.py:32 | 0.0 for an empty list; otherwise the mean times the list length equals the sum |
| `Metrics.BatchRecallAtK` | Grok-AI-Engineer-5Months/02_Week2_RAG_PDF/eval/metrics.py:29-32 | an error exactly when the list lengths differ, carrying both lengths; 0.0 for an empty batch; otherwise value times batch size equals the sum of the per-query recalls |
| `MetricsProperties.ScoresInUnitInterval` | Grok-AI-Engineer-5Months/02_Week2_RAG_PDF/eval/metrics.py:4-8 | for non-negative counts, precision, recall and F1 each lie in [0, 1] |
| `MetricsProperties.RatioInUnitInterval` | Grok-AI-Engineer-5Months/02_Week2_RAG_PDF/eval/metrics.py:5-6 | tp / (tp + other), guarded, lies in [0, 1] for non-negative counts |
| `MetricsProperties.HarmonicMeanBetween` | Grok-AI-Engineer-5Months/02_Week2_RAG_PDF/eval/metrics.py:7 | for p, r >= 0 the guarded 2pr/(p+r) lies between min(p, r) and max(p, r) |
| `MetricsProperties.F1BetweenPrecisionAndRecall` | Grok-AI-Engineer-5Months/02_Week2_RAG_PDF/eval/metrics.py:7 | for non-negative counts, F1 lies between min(precision, recall) and max(precision, recall) |
| `MetricsProperties.F1FromCounts` | Grok-AI-Engineer-5Months/02_Week2_RAG_PDF/eval/metrics.py:4-8 | for non-negative counts, F1 times (2tp + fp + fn) equals 2tp, the closed form of F1 |
| `MetricsProperties.ScoresOfNoCounts` | Grok-AI-Engineer-5Months/02_Week2_RAG_PDF/eval/metrics.py:4-8 | (0, 0, 0) gives (0.0, 0.0, 0.0), with no division by zero |
| `MetricsProperties.ScoresOfOnlyTruePositives` | Grok-AI-Engineer-5Months/02_Week2_RAG_PDF/eval/metrics.py:4-8 | (5, 0, 0) gives (1.0, 1.0, 1.0) |
| `MetricsProperties.ScoresOfEqualCounts` | Grok-AI-Engineer-5Months/02_Week2_RAG_PDF/eval/metrics.py:4-8 | (2, 2, 2) gives (0.5, 0.5, 0.5) |
| `MetricsProperties.CountIsPositions` | Grok-AI-Engineer-5Months/02_Week2_RAG_PDF/eval/metrics.py:18 | the recursive hit count equals the number of positions whose entry is in the ground truth, duplicates included |
| `MetricsProperties.HitsArePositions` | Grok-AI-Engineer-5Months/02_Week2_RAG_PDF/eval/metrics.py:17-18 | for k >= 0, hits is the number of positions i < min(k, \|ranked\|) with ranked[i] in the ground truth |
| `MetricsProperties.CountPrefix` | Grok-AI-Engineer-5Months/02_Week2_RAG_PDF/eval/metrics.py:18 | the count over a prefix never exceeds the count over the whole sequence |
| `MetricsProperties.HitsMonotoneInK` | Grok-AI-Engineer-5Months/02_Week2_RAG_PDF/eval/metrics.py:17-18 | for 0 <= k1 <= k2, hits at k1 <= hits at k2 |
| `MetricsProperties.HitsNotMonotoneAcrossZero` | Grok-AI-Engineer-5Months/02_Week2_RAG_PDF/eval/metrics.py:17 | with Python slicing, k = -1 can give more hits than k = 0, so monotonicity needs k >= 0 |
| `MetricsProperties.CountZeroIff` | Grok-AI-Engineer-5Months/02_Week2_RAG_PDF/eval/metrics.py:18 | the count is 0 if and only if no entry of the slice is in the ground truth |
| `MetricsProperties.CountFullIff` | Grok-AI-Engineer-5Months/02_Week2_RAG_PDF/eval/metrics.py:18 | the count equals the slice length if and only if every entry is in the ground truth |
| `MetricsProperties.RetrievalExamples` | Grok-AI-Engineer-5Months/02_Week2_RAG_PDF/eval/metrics.py:11-19 | ({a,b}, [a,x,b,y], 2) gives (1, 2); ({a,b}, [a,b,x], 10) gives (2, 10), echoing k beyond the list length |
| `MetricsProperties.DefaultCutOff` | Grok-AI-Engineer-5Months/02_Week2_RAG_PDF/eval/metrics.py:11-19 | with the default k = 5, a relevant identifier in sixth place is not a hit, and the echoed k is 5 |
| `MetricsProperties.CountDistinct` | Grok-AI-Engineer-5Months/02_Week2_RAG_PDF/eval/metrics.py:18 | over a duplicate-free slice, the count is the size of the intersection of the slice's identifiers with the ground truth |
| `MetricsProperties.RecallIsSetRecall` | Grok-AI-Engineer-5Months/02_Week2_RAG_PDF/eval/metrics.py:22-26 | for a duplicate-free top-k slice, recall times \|ground truth\| is \|retrieved ∩ relevant\| (the set-based recall) |
| `MetricsProperties.RecallAtMostOne` | Grok-AI-Engineer-5Months/02_Week2_RAG_PDF/eval/metrics.py:22-26 | recall@k <= 1 when the top-k slice has no duplicates |
| `MetricsProperties.RecallCanExceedOne` | Grok-AI-Engineer-5Months/02_Week2_RAG_PDF/eval/metrics.py:17-26 | with a duplicated relevant identifier, recall@k is 2.0: duplicates are not removed |
| `MetricsProperties.RecallMonotoneInK` | Grok-AI-Engineer-5Months/02_Week2_RAG_PDF/eval/metrics.py:22-26 | for 0 <= k1 <= k2, recall at k1 <= recall at k2 |
| `MetricsProperties.RecallExamples` | Grok-AI-Engineer-5Months/02_Week2_RAG_PDF/eval/metrics.py:22-26 | an empty ground truth gives 0.0; ({a,b,c}, [a,x,b], 3) gives 2/3 |
| `MetricsProperties.SumAppend` | Grok-AI-Engineer-5Months/02_Week2_RAG_PDF/eval/metrics.py:32 | a fact about the model's exact `Sum`: summing a concatenation gives the sum of the two parts (Python's float `sum` rounds and does not promise this) |
| `MetricsProperties.SumBounds` | Grok-AI-Engineer-5Months/02_Week2_RAG_PDF/eval/metrics.py:32 | a sum of n values each in [lo, hi] lies in [n·lo, n·hi] |
| `MetricsProperties.MeanBounds` | Grok-AI-Engineer-5Months/02_Week2_RAG_PDF/eval/metrics.py:32 | the mean of a non-empty list whose entries lie in [lo, hi] lies in [lo, hi] |
| `MetricsProperties.MeanBetween` | Grok-AI-Engineer-5Months/02_Week2_RAG_PDF/eval/metrics.py:32 | the mean of a non-empty list lies between its smallest and largest entry |
| `MetricsProperties.BatchBetweenMinAndMax` | Grok-AI-Engineer-5Months/02_Week2_RAG_PDF/eval/metrics.py:29-32 | a non-empty batch's result lies between the smallest and largest per-query recall@k |
| `MetricsProperties.BatchInUnitInterval` | Grok-AI-Engineer-5Months/02_Week2_RAG_PDF/eval/metrics.py:29-32 | the batch result lies in [0, 1] when no query's top-k slice has duplicates |
| `MetricsProperties.BatchExamples` | Grok-AI-Engineer-5Months/02_Week2_RAG_PDF/eval/metrics.py:29-32 | ([{a}], [[a,b]], 1) gives 1.0; an empty batch gives 0.0; mismatched lengths give the length error |

## Left out

- IEEE double rounding: ratios are exact rationals, so results such as 2/3
  are the exact values, not their nearest doubles.
- Running with assertions disabled (`python -O`): then `zip` would silently
  truncate to the shorter list. The model follows the assert-enabled
  behaviour and reports the mismatch as an error value.
- Python duck typing: the `Iterable`/`Sequence` generality and non-string
  identifiers are not modelled. Identifiers are strings, rankings are
  sequences and ground truths are sets.
- `Grok-AI-Engineer-5Months/01_Week1_FastAPI_Chatbot/src/main.py` is not part
  of this model. It is a thin web-framework wrapper (an echo endpoint and a
  health endpoint reading an environment variable).
- `Grok-AI-Engineer-5Months/01_Week1_FastAPI_Chatbot/tests/test_main.py` is
  not part of this model. It holds HTTP test-client assertions against that
  web app.
- `scripts/generate_wordpress_chapters.py` is not part of this model. It is
  file I/O and text templating over Python's regular-expression engine.
