/** Retrieval-evaluation metrics: precision/recall/F1 from confusion counts,
    hits and recall among the top k of a ranking, and recall@k averaged over a
    batch of queries. Ratios are exact rationals (`real`), not IEEE floats. */
module Metrics {

  /** The triple returned by `precision_recall_f1`. */
  datatype Scores = Scores(precision: real, recall: real, f1: real)

  /** The pair returned by `retrieval_at_k`: the hit count and the k that was asked for. */
  datatype Retrieval = Retrieval(hits: nat, k: int)

  /** The one fault of the batch operation: the two lists differ in length. */
  datatype Error = LengthMismatch(truths: nat, rankings: nat)

  datatype Result<T> = Ok(value: T) | Err(error: Error)

  /** `num / den` when `den` is positive, and 0.0 otherwise: the guard every
      division of the module uses. */
  function GuardedRatio(num: real, den: real): (r: real)
    ensures den > 0.0 ==> r * den == num
    ensures den <= 0.0 ==> r == 0.0
  {
    if den > 0.0 then num / den else 0.0
  }

  /** The F1 combination `2 p r / (p + r)`, and 0.0 when `p + r` is not positive. */
  function HarmonicMean(p: real, r: real): (h: real)
    ensures p + r > 0.0 ==> h * (p + r) == 2.0 * p * r
    ensures p + r <= 0.0 ==> h == 0.0
  {
    GuardedRatio(2.0 * p * r, p + r)
  }

  /** `precision_recall_f1(tp, fp, fn)`. */
  function PrecisionRecallF1(tp: int, fp: int, fn: int): (s: Scores)
    ensures tp + fp > 0 ==> s.precision * (tp + fp) as real == tp as real
    ensures tp + fp <= 0 ==> s.precision == 0.0
    ensures tp + fn > 0 ==> s.recall * (tp + fn) as real == tp as real
    ensures tp + fn <= 0 ==> s.recall == 0.0
    ensures s.f1 == HarmonicMean(s.precision, s.recall)
  {
    var precision := GuardedRatio(tp as real, (tp + fp) as real);
    var recall := GuardedRatio(tp as real, (tp + fn) as real);
    Scores(precision, recall, HarmonicMean(precision, recall))
  }

  /** Where Python's slice `s[:k]` ends in a sequence of length `n`: a negative
      `k` counts from the end, and the end is clamped to `0..n`. */
  function SliceEnd(n: nat, k: int): (e: nat)
    ensures e <= n
  {
    if k >= 0 then (if k < n then k else n)
    else if n + k < 0 then 0
    else n + k
  }

  /** `ranked[:k]`. */
  function TopK(ranked: seq<string>, k: int): (t: seq<string>)
    ensures t <= ranked
    ensures k >= 0 ==> |t| == (if k < |ranked| then k else |ranked|)
  {
    ranked[..SliceEnd(|ranked|, k)]
  }

  /** The number of entries of `s` that belong to `truth`, duplicates counted
      once per occurrence (the generator `sum(1 for x in s if x in truth)`). */
  function CountIn(s: seq<string>, truth: set<string>): (c: nat)
    ensures c <= |s|
  {
    if s == [] then 0
    else CountIn(s[..|s| - 1], truth) + (if s[|s| - 1] in truth then 1 else 0)
  }

  /** `retrieval_at_k(ground_truth, ranked, k)`. */
  function RetrievalAtK(truth: set<string>, ranked: seq<string>, k: int := 5): (r: Retrieval)
    ensures r.k == k
    ensures r.hits <= |TopK(ranked, k)|
    ensures k >= 0 ==> r.hits <= k && r.hits <= |ranked|
  {
    Retrieval(CountIn(TopK(ranked, k), truth), k)
  }

  /** `recall_at_k(ground_truth, ranked, k)`. */
  function RecallAtK(truth: set<string>, ranked: seq<string>, k: int := 5): (r: real)
    ensures r >= 0.0
    ensures truth == {} ==> r == 0.0
    ensures truth != {} ==> r * |truth| as real == RetrievalAtK(truth, ranked, k).hits as real
  {
    if truth == {} then 0.0
    else RetrievalAtK(truth, ranked, k).hits as real / |truth| as real
  }

  /** The list comprehension of `batch_recall_at_k`: one recall@k per query. */
  function Recalls(truths: seq<set<string>>, rankings: seq<seq<string>>, k: int): (rs: seq<real>)
    requires |truths| == |rankings|
    ensures |rs| == |truths|
    ensures forall i :: 0 <= i < |rs| ==> rs[i] == RecallAtK(truths[i], rankings[i], k)
  {
    seq(|truths|, i requires 0 <= i < |truths| => RecallAtK(truths[i], rankings[i], k))
  }

  /** Python's `sum` over a list of numbers. */
  function Sum(xs: seq<real>): real
  {
    if xs == [] then 0.0 else Sum(xs[..|xs| - 1]) + xs[|xs| - 1]
  }

  /** `sum(xs) / len(xs) if xs else 0.0`. */
  function Mean(xs: seq<real>): (m: real)
    ensures xs == [] ==> m == 0.0
    ensures xs != [] ==> m * |xs| as real == Sum(xs)
  {
    if xs == [] then 0.0 else Sum(xs) / |xs| as real
  }

  /** `batch_recall_at_k(ground_truth_list, ranked_lists, k)`; the length
      assertion becomes the `LengthMismatch` error. */
  function BatchRecallAtK(truths: seq<set<string>>, rankings: seq<seq<string>>, k: int := 5): (r: Result<real>)
    ensures r.Err? <==> |truths| != |rankings|
    ensures r.Err? ==> r.error == LengthMismatch(|truths|, |rankings|)
    ensures r.Ok? && truths == [] ==> r.value == 0.0
    ensures r.Ok? && truths != [] ==>
              r.value * |truths| as real == Sum(Recalls(truths, rankings, k))
  {
    if |truths| != |rankings| then Err(LengthMismatch(|truths|, |rankings|))
    else Ok(Mean(Recalls(truths, rankings, k)))
  }
}
