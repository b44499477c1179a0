/**
 The one-sided Kolmogorov-Smirnov distance between the recent and the baseline distribution
 (control_loop/main.cpp:311-341), computed by one merge over two search trees.  Floats are reals.
 */
module KsDistance {
  import opened AvlShape
  import opened AvlTree
  import opened TreeIterator

  /** The step one sample contributes; an empty tree contributes none. */
  function Step(n: nat): real { if n == 0 then 0.0 else 1.0 / n as real }

  /** The empirical distribution function: the share of samples that are at most x. */
  ghost function Cdf(ks: seq<real>, x: real): real { NumAtMost(ks, x) as real * Step(|ks|) }

  /** Each sample has the same share, and all of them together have 1; without samples there is none. */
  lemma {:induction false} CdfIsShare(ks: seq<real>, x: real)
    ensures Cdf(ks, x) * |ks| as real == NumAtMost(ks, x) as real
    ensures (forall k :: k in ks ==> k <= x) ==> Cdf(ks, x) == if ks == [] then 0.0 else 1.0
  {
    hide NumAtMost;
    NumAtMostBound(ks, x);
    if ks != [] { Share(NumAtMost(ks, x) as real, |ks|); }
  }

  lemma Share(a: real, n: nat)
    requires n > 0
    ensures a * Step(n) * n as real == a
    ensures n as real * Step(n) == 1.0
  {
    assert Step(n) * n as real == 1.0;
    assert a * Step(n) * n as real == a * (Step(n) * n as real);
  }

  lemma {:induction false} NumAtMostBound(ks: seq<real>, x: real)
    ensures NumAtMost(ks, x) <= |ks|
    ensures NumAtMost(ks, x) == |ks| <==> forall k :: k in ks ==> k <= x
  {
    if ks != [] {
      var n := |ks| - 1;
      NumAtMostBound(ks[..n], x);
      assert ks == ks[..n] + [ks[n]];
      assert ks[n] in ks && forall k :: k in ks[..n] ==> k in ks;
    }
  }

  ghost function Gap(recent: seq<real>, baseline: seq<real>, x: real): real { Cdf(recent, x) - Cdf(baseline, x) }

  lemma AddStep(i: nat, step: real)
    ensures (i + 1) as real * step == i as real * step + step
  {
  }

  lemma StepNonNegative(n: nat)
    ensures Step(n) >= 0.0
  {
  }

  lemma MulMonotone(i: nat, j: nat, step: real)
    requires i <= j && step >= 0.0
    ensures i as real * step <= j as real * step
  {
  }

  lemma {:induction false} NumAtMostMonotone(ks: seq<real>, x: real, y: real)
    requires x <= y
    ensures NumAtMost(ks, x) <= NumAtMost(ks, y)
  {
    if ks != [] { NumAtMostMonotone(ks[..|ks| - 1], x, y); }
  }

  /**
   d bounds the gap at every threshold below the recent sample at position i, and at all of them when
   there is none.
   */
  ghost predicate Bounds(recent: seq<real>, baseline: seq<real>, i: int, d: real) {
    d >= 0.0 && forall x: real :: (i >= |recent| || (0 <= i && x < recent[i])) ==> Gap(recent, baseline, x) <= d
  }

  /** d is zero, or the gap at some threshold. */
  ghost predicate Attained(recent: seq<real>, baseline: seq<real>, d: real) {
    d == 0.0 || exists x: real :: d == Gap(recent, baseline, x)
  }

  lemma BoundsStart(recent: seq<real>, baseline: seq<real>)
    requires Sorted(recent)
    ensures Bounds(recent, baseline, 0, 0.0) && Attained(recent, baseline, 0.0)
  {
    forall x: real | |recent| == 0 || x < recent[0]
      ensures Gap(recent, baseline, x) <= 0.0
    {
      NumAtMostIs(recent, 0, x);
      StepNonNegative(|baseline|);
      MulMonotone(0, NumAtMost(baseline, x), Step(|baseline|));
    }
  }

  /** Between one run of recent samples and the next, the gap is largest where the run stands. */
  lemma {:induction false} GapBetweenRuns(recent: seq<real>, baseline: seq<real>, i: int, i': int, x: real)
    requires Sorted(recent) && 0 <= i < i' <= |recent| && recent[i] == recent[i' - 1] <= x
    requires i' < |recent| ==> recent[i] < recent[i'] && x < recent[i']
    ensures NumAtMost(recent, x) == i' == NumAtMost(recent, recent[i])
    ensures Gap(recent, baseline, x) <= Gap(recent, baseline, recent[i])
  {
    hide NumAtMost, Step;
    NumAtMostIs(recent, i', x);
    NumAtMostIs(recent, i', recent[i]);
    NumAtMostMonotone(baseline, recent[i], x);
    StepNonNegative(|baseline|);
    MulMonotone(NumAtMost(baseline, recent[i]), NumAtMost(baseline, x), Step(|baseline|));
  }

  lemma {:induction false} BoundsStep(recent: seq<real>, baseline: seq<real>, i: int, i': int, d: real, d': real)
    requires Sorted(recent) && Bounds(recent, baseline, i, d) && 0 <= i < i' <= |recent|
    requires recent[i] == recent[i' - 1] && (i' < |recent| ==> recent[i] < recent[i'])
    requires d' == (if d >= Gap(recent, baseline, recent[i]) then d else Gap(recent, baseline, recent[i]))
    ensures Bounds(recent, baseline, i', d')
  {
    forall x: real | i' >= |recent| || x < recent[i']
      ensures Gap(recent, baseline, x) <= d'
    {
      if x >= recent[i] { GapBetweenRuns(recent, baseline, i, i', x); }
    }
  }

  /** Advance over the samples equal to cur, adding up their steps. */
  method SkipEqual(it: Iterator, cur: real, step: real, cdf: real) returns (cdf': real)
    requires it.Valid() && Sorted(it.tree.keys) && it.pos < |it.tree.keys| && it.tree.keys[it.pos] == cur
    requires cdf == it.pos as real * step
    modifies it
    ensures it.Valid() && old(it.pos) < it.pos <= |it.tree.keys| && it.tree.keys[it.pos - 1] == cur
    ensures it.pos < |it.tree.keys| ==> cur < it.tree.keys[it.pos]
    ensures cdf' == it.pos as real * step
  {
    hide *;
    ghost var ks := it.tree.keys;
    cdf' := cdf;
    var more := it.HasValue();
    var v := cur;
    while more && v == cur
      invariant it.Valid() && it.tree.keys == ks && old(it.pos) <= it.pos <= |ks| && cdf' == it.pos as real * step
      invariant more <==> it.pos < |ks|
      invariant more ==> v == ks[it.pos]
      invariant it.pos == old(it.pos) ==> more && v == cur
      invariant it.pos > old(it.pos) ==> ks[it.pos - 1] == cur
      decreases |ks| - it.pos
    {
      AddStep(it.pos, step);
      cdf' := cdf' + step;
      it.Advance();
      more := it.HasValue();
      if more { v := it.Value(); }
    }
    if more { NextIsLarger(ks, it.pos, cur); }
  }

  lemma NextIsLarger(ks: seq<real>, i: int, cur: real)
    requires Sorted(ks) && 0 < i < |ks| && ks[i - 1] == cur && ks[i] != cur
    ensures cur < ks[i]
  {
  }

  /** Advance over the samples that are at most cur, adding up their steps. */
  method SkipAtMost(it: Iterator, cur: real, step: real, cdf: real) returns (cdf': real)
    requires it.Valid() && Sorted(it.tree.keys) && cdf == it.pos as real * step
    requires forall k :: 0 <= k < it.pos ==> it.tree.keys[k] <= cur
    modifies it
    ensures it.Valid() && old(it.pos) <= it.pos == NumAtMost(it.tree.keys, cur)
    ensures forall k :: 0 <= k < it.pos ==> it.tree.keys[k] <= cur
    ensures cdf' == it.pos as real * step
  {
    hide *;
    ghost var ks := it.tree.keys;
    cdf' := cdf;
    var more := it.HasValue();
    var v := cur;
    if more { v := it.Value(); }
    while more && v <= cur
      invariant it.Valid() && it.tree.keys == ks && old(it.pos) <= it.pos <= |ks| && cdf' == it.pos as real * step
      invariant more <==> it.pos < |ks|
      invariant more ==> v == ks[it.pos]
      invariant forall k :: 0 <= k < it.pos ==> ks[k] <= cur
      decreases |ks| - it.pos
    {
      AddStep(it.pos, step);
      cdf' := cdf' + step;
      it.Advance();
      more := it.HasValue();
      if more { v := it.Value(); }
    }
    CountIs(ks, it.pos, cur);
  }

  lemma CountIs(ks: seq<real>, i: int, cur: real)
    requires Sorted(ks) && 0 <= i <= |ks| && (forall k :: 0 <= k < i ==> ks[k] <= cur) && (i < |ks| ==> cur < ks[i])
    ensures NumAtMost(ks, cur) == i
  {
    NumAtMostIs(ks, i, cur);
  }

  /** The gap at the end of a run of recent samples, in terms of the two running totals. */
  lemma GapAtRun(recent: seq<real>, baseline: seq<real>, i: int, j: int, cur: real)
    requires Sorted(recent) && 0 < i <= |recent| && recent[i - 1] == cur && (i < |recent| ==> cur < recent[i])
    requires j == NumAtMost(baseline, cur)
    ensures Gap(recent, baseline, cur) == i as real * Step(|recent|) - j as real * Step(|baseline|)
  {
    hide NumAtMost, Step;
    CountIs(recent, i, cur);
  }

  /** By how much the count of recent samples at most x exceeds that of baseline ones, each times the other's size. */
  ghost function Excess(recent: seq<real>, baseline: seq<real>, x: real): real {
    NumAtMost(recent, x) as real * |baseline| as real - NumAtMost(baseline, x) as real * |recent| as real
  }

  ghost function Pairs(recent: seq<real>, baseline: seq<real>): real { |recent| as real * |baseline| as real }

  lemma GapIsExcess(recent: seq<real>, baseline: seq<real>, x: real)
    ensures Gap(recent, baseline, x) * Pairs(recent, baseline) == Excess(recent, baseline, x)
  {
    hide *;
    CdfIsShare(recent, x);
    CdfIsShare(baseline, x);
    var (i, j, m, n) := (NumAtMost(recent, x) as real, NumAtMost(baseline, x) as real, |recent| as real,
        |baseline| as real);
    Unfolded(recent, baseline, x);
    CrossMultiply(Cdf(recent, x), Cdf(baseline, x), m, n, i, j, Gap(recent, baseline, x), Pairs(recent, baseline),
                  Excess(recent, baseline, x));
  }

  lemma Unfolded(recent: seq<real>, baseline: seq<real>, x: real)
    ensures Gap(recent, baseline, x) == Cdf(recent, x) - Cdf(baseline, x)
    ensures Pairs(recent, baseline) == |recent| as real * |baseline| as real
    ensures Excess(recent, baseline, x)
         == NumAtMost(recent, x) as real * |baseline| as real - NumAtMost(baseline, x) as real * |recent| as real
  {
    hide Cdf, NumAtMost;
  }

  lemma CrossMultiply(a: real, b: real, m: real, n: real, i: real, j: real, gap: real, pairs: real, excess: real)
    requires a * m == i && b * n == j && gap == a - b && pairs == m * n && excess == i * n - j * m
    ensures gap * pairs == excess
  {
    assert gap * pairs == a * pairs - b * pairs;
    assert a * pairs == a * m * n && b * pairs == b * n * m;
  }

  /** The distance in terms of counts alone. */
  ghost predicate IsDistance(recent: seq<real>, baseline: seq<real>, d: real) {
    && d >= 0.0
    && (forall x: real :: Excess(recent, baseline, x) <= d * Pairs(recent, baseline))
    && (d == 0.0 || exists x: real :: d * Pairs(recent, baseline) == Excess(recent, baseline, x))
    && (recent == [] ==> d == 0.0) && (recent != [] && baseline == [] ==> d == 1.0)
  }

  lemma {:induction false} CountsOfDistance(recent: seq<real>, baseline: seq<real>, d: real)
    requires d >= 0.0 && (forall x: real :: Gap(recent, baseline, x) <= d) && Attained(recent, baseline, d)
    ensures IsDistance(recent, baseline, d)
  {
    hide Gap, Excess, Pairs, Cdf, NumAtMost, Step, Attained;
    forall x: real
      ensures Excess(recent, baseline, x) <= d * Pairs(recent, baseline)
    {
      GapIsExcess(recent, baseline, x);
      PairsNonNegative(recent, baseline);
      Scale(Gap(recent, baseline, x), d, Pairs(recent, baseline));
    }
    AttainedInCounts(recent, baseline, d);
    if recent != [] && baseline == [] {
      var top := Largest(recent);
      GapWithoutSamples(recent, baseline, top);
    }
  }

  lemma AttainedInCounts(recent: seq<real>, baseline: seq<real>, d: real)
    requires d >= 0.0 && Attained(recent, baseline, d)
    ensures d == 0.0 || exists x: real :: d * Pairs(recent, baseline) == Excess(recent, baseline, x)
    ensures (recent == [] ==> d == 0.0) && (baseline == [] ==> d <= 1.0)
  {
    hide Gap, Excess, Pairs, Cdf, NumAtMost, Step;
    if d != 0.0 {
      var x: real :| d == Gap(recent, baseline, x);
      ScaledGap(recent, baseline, x, d);
      GapWithoutSamples(recent, baseline, x);
    }
  }

  lemma ScaledGap(recent: seq<real>, baseline: seq<real>, x: real, d: real)
    requires d == Gap(recent, baseline, x)
    ensures d * Pairs(recent, baseline) == Excess(recent, baseline, x)
  {
    hide *;
    GapIsExcess(recent, baseline, x);
  }

  lemma PairsNonNegative(recent: seq<real>, baseline: seq<real>)
    ensures Pairs(recent, baseline) >= 0.0
  {
  }

  lemma Scale(a: real, b: real, c: real)
    requires a <= b && c >= 0.0
    ensures a * c <= b * c
  {
  }

  /** Without recent samples the gap is never positive, and without baseline ones it reaches 1. */
  lemma GapWithoutSamples(recent: seq<real>, baseline: seq<real>, x: real)
    ensures recent == [] ==> Gap(recent, baseline, x) <= 0.0
    ensures baseline == [] ==> Gap(recent, baseline, x) <= 1.0
    ensures baseline == [] && recent != [] && (forall k :: k in recent ==> k <= x) ==> Gap(recent, baseline, x) == 1.0
  {
    hide NumAtMost, Step;
    CdfIsShare(recent, x);
    CdfIsShare(baseline, x);
    NumAtMostBound(recent, x);
    StepNonNegative(|baseline|);
    StepNonNegative(|recent|);
    MulMonotone(NumAtMost(recent, x), |recent|, Step(|recent|));
    MulMonotone(0, NumAtMost(baseline, x), Step(|baseline|));
    if recent != [] { Share(0.0, |recent|); }
    if baseline == [] { NumAtMostBound(baseline, x); }
  }

  ghost function Largest(ks: seq<real>): (top: real)
    requires ks != []
    ensures forall k :: k in ks ==> k <= top
  {
    var n := |ks| - 1;
    assert ks == ks[..n] + [ks[n]];
    if n == 0 then ks[0]
    else var top := Largest(ks[..n]); if top >= ks[n] then top else ks[n]
  }

  /** The new maximum is still zero or the gap at some threshold. */
  lemma StaysAttained(recent: seq<real>, baseline: seq<real>, d: real, cur: real)
    requires Attained(recent, baseline, d)
    ensures Attained(recent, baseline, if d >= Gap(recent, baseline, cur) then d else Gap(recent, baseline, cur))
  {
  }

  lemma Complete(recent: seq<real>, baseline: seq<real>, i: int, d: real)
    requires Bounds(recent, baseline, i, d) && i == |recent|
    ensures d >= 0.0 && forall x: real :: Gap(recent, baseline, x) <= d
  {
  }

  /** Both iterators belong to the merge of these samples, and every baseline sample passed is at most cur. */
  ghost predicate Merging(r: Iterator, b: Iterator, rs: seq<real>, bs: seq<real>, cur: real)
    reads r, r.tree, Nodes(r.tree.tree), InOrder(r.tree.tree), b, b.tree, Nodes(b.tree.tree), InOrder(b.tree.tree)
  {
    && r != b && r.Valid() && b.Valid() && r.tree.keys == rs && b.tree.keys == bs && Sorted(rs) && Sorted(bs)
    && (r.pos < |rs| ==> rs[r.pos] == cur && forall k :: 0 <= k < b.pos ==> bs[k] <= cur)
  }

  lemma StillMerging(r: Iterator, b: Iterator, rs: seq<real>, bs: seq<real>, cur: real, next: real)
    requires r != b && r.Valid() && b.Valid() && r.tree.keys == rs && b.tree.keys == bs && Sorted(rs) && Sorted(bs)
    requires r.pos < |rs| ==> next == rs[r.pos] && cur <= next
    requires forall k :: 0 <= k < b.pos <= |bs| ==> bs[k] <= cur
    ensures Merging(r, b, rs, bs, next)
  {
  }

  lemma Apart(r: Iterator, b: Iterator, rs: seq<real>, bs: seq<real>, cur: real)
    requires Merging(r, b, rs, bs, cur)
    ensures r.Valid() && b.Valid() && r.tree.keys == rs && b.tree.keys == bs && Sorted(rs) && Sorted(bs) && r != b
    ensures r.pos <= |rs| && b.pos <= |bs|
    ensures r.pos < |rs| ==> rs[r.pos] == cur && forall k :: 0 <= k < b.pos ==> bs[k] <= cur
  {
  }

  /** One turn of the loop of get_ks_distance: past one run of equal recent samples. */
  method PassRun(r: Iterator, b: Iterator, ghost rs: seq<real>, ghost bs: seq<real>, cur: real,
                 recentStep: real, baselineStep: real, recentCdf: real, baselineCdf: real, d: real)
    returns (recentCdf': real, baselineCdf': real, d': real)
    requires Merging(r, b, rs, bs, cur) && r.pos < |rs|
    requires recentStep == Step(|rs|) && baselineStep == Step(|bs|)
    requires recentCdf == r.pos as real * recentStep && baselineCdf == b.pos as real * baselineStep
    requires Bounds(rs, bs, r.pos, d) && Attained(rs, bs, d)
    modifies r, b
    ensures r.Valid() && b.Valid() && old(r.pos) < r.pos <= |rs|
    ensures r.pos < |rs| ==> cur <= rs[r.pos]
    ensures forall k :: 0 <= k < b.pos <= |bs| ==> bs[k] <= cur
    ensures recentCdf' == r.pos as real * recentStep && baselineCdf' == b.pos as real * baselineStep
    ensures Bounds(rs, bs, r.pos, d') && Attained(rs, bs, d')
  {
    hide Gap, Bounds, Attained, Step, Sorted, NumAtMost, SearchTree.Valid, NodeAt, Iterator.Valid, Merging, Nodes,
         InOrder;
    Apart(r, b, rs, bs, cur);
    ghost var i := r.pos;
    assert allocated(Nodes(r.tree.tree)) && allocated(InOrder(r.tree.tree));
    assert allocated(Nodes(b.tree.tree)) && allocated(InOrder(b.tree.tree));
    recentCdf' := SkipEqual(r, cur, recentStep, recentCdf);
    baselineCdf' := SkipAtMost(b, cur, baselineStep, baselineCdf);
    GapAtRun(rs, bs, r.pos, b.pos, cur);
    d' := if recentCdf' - baselineCdf' > d then recentCdf' - baselineCdf' else d;
    StaysAttained(rs, bs, d, cur);
    BoundsStep(rs, bs, i, r.pos, d, d');
  }

  /** The loop of get_ks_distance, over two iterators at their starts. */
  method MergeRuns(r: Iterator, b: Iterator, ghost rs: seq<real>, ghost bs: seq<real>, recentStep: real,
                   baselineStep: real)
    returns (distance: real)
    requires r != b && r.Valid() && b.Valid() && r.tree.keys == rs && b.tree.keys == bs && Sorted(rs) && Sorted(bs)
    requires r.pos == 0 && b.pos == 0 && recentStep == Step(|rs|) && baselineStep == Step(|bs|)
    modifies r, b
    ensures r.Valid() && b.Valid()
    ensures distance >= 0.0 && (forall x: real :: Gap(rs, bs, x) <= distance) && Attained(rs, bs, distance)
  {
    hide *;
    assert allocated(Nodes(r.tree.tree)) && allocated(InOrder(r.tree.tree));
    assert allocated(Nodes(b.tree.tree)) && allocated(InOrder(b.tree.tree));
    distance := 0.0;
    BoundsStart(rs, bs);
    var recentCdf, baselineCdf := 0.0, 0.0;
    var more := r.HasValue();
    var cur := 0.0;
    if more {
      cur := r.Value();
      StillMerging(r, b, rs, bs, cur, cur);
    }
    while more
      invariant r.Valid() && b.Valid() && r.tree.keys == rs && b.tree.keys == bs
      invariant recentCdf == r.pos as real * recentStep && baselineCdf == b.pos as real * baselineStep
      invariant r.pos <= |rs| && (more <==> r.pos < |rs|)
      invariant more ==> Merging(r, b, rs, bs, cur)
      invariant Bounds(rs, bs, r.pos, distance) && Attained(rs, bs, distance)
      decreases |rs| - r.pos
    {
      recentCdf, baselineCdf, distance :=
        PassRun(r, b, rs, bs, cur, recentStep, baselineStep, recentCdf, baselineCdf, distance);
      assert allocated(Nodes(r.tree.tree)) && allocated(InOrder(r.tree.tree));
      assert allocated(Nodes(b.tree.tree)) && allocated(InOrder(b.tree.tree));
      more := r.HasValue();
      if more {
        var next := r.Value();
        StillMerging(r, b, rs, bs, cur, next);
        cur := next;
      }
    }
    Complete(rs, bs, r.pos, distance);
  }

  /**
   get_ks_distance: the maximum of zero and the supremum, over every threshold and not only the
   visited ones, of the recent distribution function minus the baseline one.
   */
  method GetKsDistance(baseline: SearchTree, recent: SearchTree) returns (distance: real)
    requires baseline.Valid() && recent.Valid()
    ensures baseline.Valid() && recent.Valid()
    ensures distance >= 0.0 && forall x: real :: Gap(recent.keys, baseline.keys, x) <= distance
    ensures Attained(recent.keys, baseline.keys, distance) && IsDistance(recent.keys, baseline.keys, distance)
  {
    hide *;
    recent.Facts();
    baseline.Facts();
    assert allocated(Nodes(recent.tree)) && allocated(InOrder(recent.tree));
    assert allocated(Nodes(baseline.tree)) && allocated(InOrder(baseline.tree));
    var r := new Iterator(recent);
    var b := new Iterator(baseline);
    distance := MergeRuns(r, b, recent.keys, baseline.keys, Step(recent.count), Step(baseline.count));
    CountsOfDistance(recent.keys, baseline.keys, distance);
  }
}
