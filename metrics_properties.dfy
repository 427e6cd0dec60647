/** Properties of the retrieval-evaluation metrics: bounds, the counting
    meaning of hits, monotonicity in k, when recall@k stays at most 1, and
    where a batch average lies. */
module MetricsProperties {
  import opened Metrics

  // ---------------------------------------------------------------------------
  // precision_recall_f1

  /** Each of precision, recall and F1 lies in [0, 1] for non-negative counts. */
  lemma ScoresInUnitInterval(tp: nat, fp: nat, fn: nat)
    ensures var s := PrecisionRecallF1(tp, fp, fn);
      0.0 <= s.precision <= 1.0 && 0.0 <= s.recall <= 1.0 && 0.0 <= s.f1 <= 1.0
  {
    var p := GuardedRatio(tp as real, (tp + fp) as real);
    var r := GuardedRatio(tp as real, (tp + fn) as real);
    RatioInUnitInterval(tp, fp);
    RatioInUnitInterval(tp, fn);
    HarmonicMeanBetween(p, r);
  }

  /** tp / (tp + other), guarded, lies in [0, 1]. */
  lemma RatioInUnitInterval(tp: nat, other: nat)
    ensures 0.0 <= GuardedRatio(tp as real, (tp + other) as real) <= 1.0
  {
    if tp + other > 0 {
      QuotientBounds(tp as real, (tp + other) as real, 0.0, 1.0);
    }
  }

  /** The guarded harmonic mean 2pr/(p+r) of two non-negative reals lies
      between them (both are 0 when the guard fails). */
  lemma HarmonicMeanBetween(p: real, r: real)
    requires p >= 0.0 && r >= 0.0
    ensures var h := HarmonicMean(p, r);
      (if p <= r then p else r) <= h <= (if p <= r then r else p)
  {
    if p + r > 0.0 {
      var lo, hi := if p <= r then p else r, if p <= r then r else p;
      assert lo + hi == p + r && lo * hi == p * r;
      // 2 lo hi - lo (lo + hi) == lo (hi - lo) and hi (lo + hi) - 2 lo hi == hi (hi - lo)
      ProductNonNegative(lo, hi - lo);
      ProductNonNegative(hi, hi - lo);
      assert lo * (lo + hi) <= 2.0 * (lo * hi) <= hi * (lo + hi);
      QuotientBounds(2.0 * p * r, p + r, lo, hi);
      assert HarmonicMean(p, r) == 2.0 * p * r / (p + r);
    } else {
      assert HarmonicMean(p, r) == 0.0;
    }
  }

  /** F1 lies between precision and recall (it is their harmonic mean). */
  lemma F1BetweenPrecisionAndRecall(tp: nat, fp: nat, fn: nat)
    ensures var s := PrecisionRecallF1(tp, fp, fn);
      (if s.precision <= s.recall then s.precision else s.recall) <= s.f1 <=
      (if s.precision <= s.recall then s.recall else s.precision)
  {
    var p := GuardedRatio(tp as real, (tp + fp) as real);
    var r := GuardedRatio(tp as real, (tp + fn) as real);
    RatioInUnitInterval(tp, fp);
    RatioInUnitInterval(tp, fn);
    HarmonicMeanBetween(p, r);
  }

  /** F1 equals 2tp / (2tp + fp + fn), the closed form from the counts. */
  lemma F1FromCounts(tp: nat, fp: nat, fn: nat)
    ensures PrecisionRecallF1(tp, fp, fn).f1 * (2 * tp + fp + fn) as real == (2 * tp) as real
  {
  }

  /** No counts at all give all-zero scores rather than a division by zero. */
  lemma ScoresOfNoCounts()
    ensures PrecisionRecallF1(0, 0, 0) == Scores(0.0, 0.0, 0.0)
  {
  }

  /** Only true positives give perfect scores. */
  lemma ScoresOfOnlyTruePositives()
    ensures PrecisionRecallF1(5, 0, 0) == Scores(1.0, 1.0, 1.0)
  {
  }

  /** Equal counts of each kind give scores of one half. */
  lemma ScoresOfEqualCounts()
    ensures PrecisionRecallF1(2, 2, 2) == Scores(0.5, 0.5, 0.5)
  {
  }

  // ---------------------------------------------------------------------------
  // retrieval_at_k: hits as a count of positions

  /** The positions of `s` whose entry belongs to `truth`. */
  function Positions(s: seq<string>, truth: set<string>): set<int>
  {
    set i | 0 <= i < |s| && s[i] in truth
  }

  /** The recursive count is the number of matching positions, duplicates included. */
  lemma {:induction false} CountIsPositions(s: seq<string>, truth: set<string>)
    ensures CountIn(s, truth) == |Positions(s, truth)|
  {
    if s != [] {
      var n := |s| - 1;
      var init := s[..n];
      CountIsPositions(init, truth);
      if s[n] in truth {
        assert Positions(s, truth) == Positions(init, truth) + {n};
      } else {
        assert Positions(s, truth) == Positions(init, truth);
      }
    }
  }

  /** For k >= 0, hits is the number of positions i < min(k, |ranked|) whose
      entry is relevant. */
  lemma HitsArePositions(truth: set<string>, ranked: seq<string>, k: int)
    requires k >= 0
    ensures var m := if k < |ranked| then k else |ranked|;
      RetrievalAtK(truth, ranked, k).hits == |set i | 0 <= i < m && ranked[i] in truth|
  {
    var t := TopK(ranked, k);
    CountIsPositions(t, truth);
    var m := if k < |ranked| then k else |ranked|;
    assert Positions(t, truth) == set i | 0 <= i < m && ranked[i] in truth;
  }

  /** The count over a prefix never exceeds the count over the whole. */
  lemma {:induction false} CountPrefix(s: seq<string>, i: nat, truth: set<string>)
    requires i <= |s|
    ensures CountIn(s[..i], truth) <= CountIn(s, truth)
  {
    if i < |s| {
      var init := s[..|s| - 1];
      CountPrefix(init, i, truth);
      assert init[..i] == s[..i];
    } else {
      assert s[..i] == s;
    }
  }

  /** Hits never decrease as k grows (for k >= 0: the top-k slice is a prefix
      of every longer top slice). */
  lemma HitsMonotoneInK(truth: set<string>, ranked: seq<string>, k1: int, k2: int)
    requires 0 <= k1 <= k2
    ensures RetrievalAtK(truth, ranked, k1).hits <= RetrievalAtK(truth, ranked, k2).hits
  {
    var t1, t2 := TopK(ranked, k1), TopK(ranked, k2);
    CountPrefix(t2, |t1|, truth);
    assert t2[..|t1|] == t1;
  }

  /** Monotonicity needs k >= 0: going from k = -1 to k = 0 the slice shrinks
      from all but the last entry to nothing. */
  lemma HitsNotMonotoneAcrossZero()
    ensures RetrievalAtK({"a"}, ["a", "b"], -1).hits == 1
    ensures RetrievalAtK({"a"}, ["a", "b"], 0).hits == 0
  {
  }

  /** No hit at all exactly when no entry of the top-k slice is relevant. */
  lemma {:induction false} CountZeroIff(s: seq<string>, truth: set<string>)
    ensures CountIn(s, truth) == 0 <==> forall i :: 0 <= i < |s| ==> s[i] !in truth
  {
    if s != [] {
      var init := s[..|s| - 1];
      CountZeroIff(init, truth);
      assert forall i :: 0 <= i < |init| ==> init[i] == s[i];
    }
  }

  /** Every slot of the top-k slice is a hit exactly when every entry is relevant. */
  lemma {:induction false} CountFullIff(s: seq<string>, truth: set<string>)
    ensures CountIn(s, truth) == |s| <==> forall i :: 0 <= i < |s| ==> s[i] in truth
  {
    if s != [] {
      var init := s[..|s| - 1];
      CountFullIff(init, truth);
      assert forall i :: 0 <= i < |init| ==> init[i] == s[i];
    }
  }

  /** Worked case of the default k = 5: a relevant identifier in sixth place
      is outside the default cut-off. */
  lemma DefaultCutOff()
    ensures RetrievalAtK({"a"}, ["x", "x", "x", "x", "x", "a"]) == Retrieval(0, 5)
  {
    var t := TopK(["x", "x", "x", "x", "x", "a"], 5);
    assert t == ["x", "x", "x", "x", "x"];
    CountZeroIff(t, {"a"});
  }

  /** Worked cases: only "a" is relevant among the top 2, and k is echoed
      even beyond the list's length. */
  lemma RetrievalExamples()
    ensures RetrievalAtK({"a", "b"}, ["a", "x", "b", "y"], 2) == Retrieval(1, 2)
    ensures RetrievalAtK({"a", "b"}, ["a", "b", "x"], 10) == Retrieval(2, 10)
  {
    assert TopK(["a", "x", "b", "y"], 2) == ["a", "x"];
    assert ["a", "x"][..1] == ["a"];
    assert TopK(["a", "b", "x"], 10) == ["a", "b", "x"];
    assert ["a", "b", "x"][..2] == ["a", "b"];
    assert ["a", "b"][..1] == ["a"];
  }

  // ---------------------------------------------------------------------------
  // recall_at_k

  /** No two positions of `s` hold the same identifier. */
  predicate Distinct(s: seq<string>)
  {
    forall i, j :: 0 <= i < j < |s| ==> s[i] != s[j]
  }

  /** The identifiers occurring in `s`. */
  function Elements(s: seq<string>): set<string>
  {
    set x | x in s
  }

  /** Without duplicates, the count is the size of the intersection of the
      slice's identifiers with the ground truth. */
  lemma {:induction false} CountDistinct(s: seq<string>, truth: set<string>)
    requires Distinct(s)
    ensures CountIn(s, truth) == |Elements(s) * truth|
  {
    if s != [] {
      var n := |s| - 1;
      var init := s[..n];
      assert Distinct(init);
      CountDistinct(init, truth);
      assert Elements(s) == Elements(init) + {s[n]};
      assert s[n] !in Elements(init);
      if s[n] in truth {
        assert Elements(s) * truth == (Elements(init) * truth) + {s[n]};
      } else {
        assert Elements(s) * truth == Elements(init) * truth;
      }
    }
  }

  /** When the top-k slice has no duplicates, recall@k is the set-based recall
      |retrieved ∩ relevant| / |relevant| (and 0 for no relevant items). */
  lemma RecallIsSetRecall(truth: set<string>, ranked: seq<string>, k: int)
    requires Distinct(TopK(ranked, k))
    ensures RecallAtK(truth, ranked, k) * |truth| as real
            == |Elements(TopK(ranked, k)) * truth| as real
  {
    CountDistinct(TopK(ranked, k), truth);
  }

  /** Recall@k is at most 1 when the top-k slice has no duplicates. */
  lemma RecallAtMostOne(truth: set<string>, ranked: seq<string>, k: int)
    requires Distinct(TopK(ranked, k))
    ensures RecallAtK(truth, ranked, k) <= 1.0
  {
    var t := TopK(ranked, k);
    CountDistinct(t, truth);
    SubsetCard(Elements(t) * truth, truth);
    if truth != {} {
      QuotientBounds(CountIn(t, truth) as real, |truth| as real, 0.0, 1.0);
    }
  }

  /** Duplicates are not removed, so recall@k can exceed 1. */
  lemma RecallCanExceedOne()
    ensures RecallAtK({"a"}, ["a", "a"], 2) == 2.0
  {
  }

  /** Recall@k never decreases as k grows, for k >= 0. */
  lemma RecallMonotoneInK(truth: set<string>, ranked: seq<string>, k1: int, k2: int)
    requires 0 <= k1 <= k2
    ensures RecallAtK(truth, ranked, k1) <= RecallAtK(truth, ranked, k2)
  {
    HitsMonotoneInK(truth, ranked, k1, k2);
    if truth != {} {
      QuotientMonotone(RetrievalAtK(truth, ranked, k1).hits as real,
                       RetrievalAtK(truth, ranked, k2).hits as real, |truth| as real);
    }
  }

  /** Worked cases: an empty ground truth, and two of three relevant items retrieved. */
  lemma RecallExamples()
    ensures RecallAtK({}, ["a", "b"], 5) == 0.0
    ensures RecallAtK({"a", "b", "c"}, ["a", "x", "b"], 3) == 2.0 / 3.0
  {
    var truth: set<string> := {"a", "b", "c"};
    assert |truth| == 3;
    assert TopK(["a", "x", "b"], 3) == ["a", "x", "b"];
    assert ["a", "x", "b"][..2] == ["a", "x"];
    assert ["a", "x"][..1] == ["a"];
  }

  // ---------------------------------------------------------------------------
  // batch_recall_at_k

  /** The smallest entry of a non-empty list. */
  function MinOf(xs: seq<real>): (m: real)
    requires xs != []
    ensures m in xs
    ensures forall i :: 0 <= i < |xs| ==> m <= xs[i]
  {
    if |xs| == 1 then xs[0]
    else
      var m := MinOf(xs[..|xs| - 1]);
      if m <= xs[|xs| - 1] then m else xs[|xs| - 1]
  }

  /** The largest entry of a non-empty list. */
  function MaxOf(xs: seq<real>): (m: real)
    requires xs != []
    ensures m in xs
    ensures forall i :: 0 <= i < |xs| ==> xs[i] <= m
  {
    if |xs| == 1 then xs[0]
    else
      var m := MaxOf(xs[..|xs| - 1]);
      if xs[|xs| - 1] <= m then m else xs[|xs| - 1]
  }

  /** Summing a concatenation sums the parts: the left-to-right total of
      `sum` does not depend on where the list is split. */
  lemma {:induction false} SumAppend(xs: seq<real>, ys: seq<real>)
    ensures Sum(xs + ys) == Sum(xs) + Sum(ys)
  {
    if ys != [] {
      var init := ys[..|ys| - 1];
      SumAppend(xs, init);
      assert (xs + ys)[..|xs + ys| - 1] == xs + init;
    } else {
      assert xs + ys == xs;
    }
  }

  /** A sum of n entries each in [lo, hi] lies in [n lo, n hi]. */
  lemma {:induction false} SumBounds(xs: seq<real>, lo: real, hi: real)
    requires forall i :: 0 <= i < |xs| ==> lo <= xs[i] <= hi
    ensures lo * |xs| as real <= Sum(xs) <= hi * |xs| as real
  {
    if xs != [] {
      var init := xs[..|xs| - 1];
      assert forall i :: 0 <= i < |init| ==> init[i] == xs[i];
      SumBounds(init, lo, hi);
      ScaledBoundsStep(Sum(init), xs[|xs| - 1], |init| as real, |xs| as real, lo, hi);
      assert Sum(xs) == Sum(init) + xs[|xs| - 1];
    }
  }

  /** Adding one more value in [lo, hi] to a total of n values in [n lo, n hi]
      gives a total of m = n + 1 values in [m lo, m hi]. */
  lemma ScaledBoundsStep(total: real, x: real, n: real, m: real, lo: real, hi: real)
    requires m == n + 1.0
    requires lo * n <= total <= hi * n && lo <= x <= hi
    ensures lo * m <= total + x <= hi * m
  {
    assert lo * m == lo * n + lo && hi * m == hi * n + hi;
  }

  /** The mean of a non-empty list lies between its smallest and largest entry. */
  lemma MeanBetween(xs: seq<real>)
    requires xs != []
    ensures MinOf(xs) <= Mean(xs) <= MaxOf(xs)
  {
    MeanBounds(xs, MinOf(xs), MaxOf(xs));
  }

  /** The mean of a non-empty list whose entries lie in [lo, hi] lies in [lo, hi]. */
  lemma MeanBounds(xs: seq<real>, lo: real, hi: real)
    requires xs != []
    requires forall i :: 0 <= i < |xs| ==> lo <= xs[i] <= hi
    ensures lo <= Mean(xs) <= hi
  {
    var n := |xs| as real;
    SumBounds(xs, lo, hi);
    assert Mean(xs) == Sum(xs) / n;
    QuotientBounds(Sum(xs), n, lo, hi);
  }

  /** A batch result lies between the smallest and the largest per-query recall. */
  lemma BatchBetweenMinAndMax(truths: seq<set<string>>, rankings: seq<seq<string>>, k: int)
    requires |truths| == |rankings| && truths != []
    ensures var rs := Recalls(truths, rankings, k);
      MinOf(rs) <= BatchRecallAtK(truths, rankings, k).value <= MaxOf(rs)
  {
    MeanBetween(Recalls(truths, rankings, k));
  }

  /** A batch result lies in [0, 1] when no query's top-k slice has duplicates. */
  lemma BatchInUnitInterval(truths: seq<set<string>>, rankings: seq<seq<string>>, k: int)
    requires |truths| == |rankings|
    requires forall i :: 0 <= i < |rankings| ==> Distinct(TopK(rankings[i], k))
    ensures 0.0 <= BatchRecallAtK(truths, rankings, k).value <= 1.0
  {
    var rs := Recalls(truths, rankings, k);
    forall i | 0 <= i < |rs|
      ensures 0.0 <= rs[i] <= 1.0
    {
      RecallAtMostOne(truths[i], rankings[i], k);
    }
    if rs != [] {
      MeanBetween(rs);
    }
  }

  /** Worked cases: one perfect query, an empty batch, and mismatched lengths. */
  lemma BatchExamples()
    ensures BatchRecallAtK([{"a"}], [["a", "b"]], 1) == Ok(1.0)
    ensures BatchRecallAtK([], [], 5) == Ok(0.0)
    ensures BatchRecallAtK([{"a"}], [], 5) == Err(LengthMismatch(1, 0))
  {
  }

  // ---------------------------------------------------------------------------
  // helpers

  /** A quotient by a positive denominator inherits bounds scaled by it. */
  lemma QuotientBounds(num: real, den: real, lo: real, hi: real)
    requires den > 0.0
    requires lo * den <= num <= hi * den
    ensures lo <= num / den <= hi
  {
    var q := num / den;
    assert q * den == num;
    assert (q - lo) * den >= 0.0;
    assert (hi - q) * den >= 0.0;
  }

  /** The product of two non-negative reals is non-negative. */
  lemma ProductNonNegative(a: real, b: real)
    requires a >= 0.0 && b >= 0.0
    ensures a * b >= 0.0
  {
  }

  /** Dividing by a positive denominator preserves order. */
  lemma QuotientMonotone(a: real, b: real, den: real)
    requires den > 0.0 && a <= b
    ensures a / den <= b / den
  {
    assert b / den - a / den == (b - a) / den;
  }

  /** A subset is no larger than its superset. */
  lemma SubsetCard<T>(a: set<T>, b: set<T>)
    requires a <= b
    ensures |a| <= |b|
  {
    if a != {} {
      var x :| x in a;
      SubsetCard(a - {x}, b - {x});
    }
  }
}
