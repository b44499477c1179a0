/**
 The sliding-window maximum of the throughput controller
 (harvester/cmanager/cmanager.cpp:182-246): a deque that pops expired points in front and smaller
 ones behind, against the maximum over every point ever accepted.  Doubles are reals, and the
 standard deviation is kept as its square.
 */
module MovingMax {
  const WINDOW: int := 1800
  const SAMPLES: int := 600

  datatype Point = Point(epoch: int, avg: real, variance: real)

  datatype Performance = Finite(value: real) | NotFinite

  // ---- the deque ----

  /** Too old at epoch e, or from before the sample window had filled. */
  predicate Stale(p: Point, e: int) { p.epoch <= e - WINDOW || p.epoch + 1 < SAMPLES }

  function DropStale(queue: seq<Point>, e: int): seq<Point> {
    if queue == [] || !Stale(queue[0], e) then queue else DropStale(queue[1..], e)
  }

  function DropBelow(queue: seq<Point>, avg: real): seq<Point> {
    if queue == [] || queue[|queue| - 1].avg > avg then queue else DropBelow(queue[..|queue| - 1], avg)
  }

  function Insert(queue: seq<Point>, p: Point): seq<Point> {
    DropBelow(DropStale(queue, p.epoch), p.avg) + [p]
  }

  // ---- the points it stands for ----

  /**
   A point that counts at epoch e: less than 1800 epochs old and from a full sample window, which is
   reached at epoch 599, unless it is the current one.
   */
  predicate Live(p: Point, e: int) { p.epoch == e || (p.epoch > e - 1800 && p.epoch >= 599) }

  /** The loop's test pops exactly the points that no longer count once a later one is accepted. */
  lemma LiveIs(p: Point, e: int)
    ensures Live(p, e) <==> p.epoch == e || !Stale(p, e)
    ensures Stale(p, e) <==> p.epoch <= e - 1800 || p.epoch < 599
  {
  }

  predicate Ascending(points: seq<Point>) {
    forall i, j :: 0 <= i < j < |points| ==> points[i].epoch < points[j].epoch
  }

  predicate Descending(points: seq<Point>) {
    forall i, j :: 0 <= i < j < |points| ==> points[i].avg > points[j].avg
  }

  /** Some point of the queue is as late and as large. */
  ghost predicate Covered(queue: seq<Point>, p: Point) {
    exists i :: 0 <= i < |queue| && queue[i].epoch >= p.epoch && queue[i].avg >= p.avg
  }

  /** The deque and the history of accepted points, at the epoch of the last one. */
  ghost predicate Inv(history: seq<Point>, queue: seq<Point>) {
    && Ascending(history) && Ascending(queue) && Descending(queue)
    && (history == [] <==> queue == [])
    && (history != [] ==>
          var last := history[|history| - 1];
          && queue[|queue| - 1] == last
          && (forall q :: q in queue ==> q in history && Live(q, last.epoch))
          && forall p :: p in history && Live(p, last.epoch) ==> Covered(queue, p))
  }

  lemma {:induction false} DropStaleIs(queue: seq<Point>, e: int) returns (n: nat)
    requires Ascending(queue)
    ensures n <= |queue| && DropStale(queue, e) == queue[n..]
    ensures forall i :: 0 <= i < |queue| ==> (Stale(queue[i], e) <==> i < n)
  {
    if queue == [] || !Stale(queue[0], e) {
      n := 0;
    } else {
      n := DropStaleIs(queue[1..], e);
      n := n + 1;
      forall i | 0 <= i < |queue|
        ensures Stale(queue[i], e) <==> i < n
      {
        if i > 0 { assert queue[i] == queue[1..][i - 1]; }
      }
    }
  }

  lemma {:induction false} DropBelowIs(queue: seq<Point>, avg: real) returns (n: nat)
    requires Descending(queue)
    ensures n <= |queue| && DropBelow(queue, avg) == queue[..n]
    ensures forall i :: 0 <= i < |queue| ==> (queue[i].avg > avg <==> i < n)
  {
    if queue == [] || queue[|queue| - 1].avg > avg {
      n := |queue|;
    } else {
      n := DropBelowIs(queue[..|queue| - 1], avg);
      assert queue[..|queue| - 1][..n] == queue[..n];
      forall i | 0 <= i < |queue|
        ensures queue[i].avg > avg <==> i < n
      {
        if i < |queue| - 1 { assert queue[i] == queue[..|queue| - 1][i]; }
      }
    }
  }

  /** A point from the history is covered again after the insertion. */
  lemma CoveredAgain(queue: seq<Point>, p: Point, n: nat, m: nat, q: Point)
    requires Covered(queue, q) && n <= m <= |queue| && !Stale(q, p.epoch)
    requires forall i :: 0 <= i < |queue| ==> (Stale(queue[i], p.epoch) <==> i < n)
    requires forall i :: n <= i < |queue| ==> (queue[i].avg > p.avg <==> i < m)
    requires q.epoch <= p.epoch
    ensures Covered(queue[n..m] + [p], q)
  {
    var i :| 0 <= i < |queue| && queue[i].epoch >= q.epoch && queue[i].avg >= q.avg;
    var r := queue[n..m] + [p];
    assert i >= n;
    if i < m {
      assert r[i - n] == queue[i];
    } else {
      assert r[m - n] == p;
    }
  }

  /** The insertion keeps the middle part of the queue. */
  lemma InsertIs(queue: seq<Point>, p: Point) returns (n: nat, m: nat)
    requires Ascending(queue) && Descending(queue)
    ensures n <= m <= |queue| && Insert(queue, p) == queue[n..m] + [p]
    ensures forall i :: 0 <= i < |queue| ==> (Stale(queue[i], p.epoch) <==> i < n)
    ensures forall i :: n <= i < |queue| ==> (queue[i].avg > p.avg <==> i < m)
  {
    hide Stale;
    n := DropStaleIs(queue, p.epoch);
    var k := DropBelowIs(queue[n..], p.avg);
    m := n + k;
    assert queue[n..][..k] == queue[n..m];
    forall i | n <= i < |queue|
      ensures queue[i].avg > p.avg <==> i < m
    {
      assert queue[i] == queue[n..][i - n];
    }
  }

  lemma InsertOrder(queue: seq<Point>, p: Point, n: nat, m: nat)
    requires Ascending(queue) && Descending(queue) && n <= m <= |queue|
    requires forall i :: 0 <= i < |queue| ==> queue[i].epoch < p.epoch
    requires forall i :: n <= i < m ==> queue[i].avg > p.avg
    ensures Ascending(queue[n..m] + [p]) && Descending(queue[n..m] + [p])
  {
    var r := queue[n..m] + [p];
    forall i, j | 0 <= i < j < |r|
      ensures r[i].epoch < r[j].epoch && r[i].avg > r[j].avg
    {
      assert r[i] == queue[n + i];
      if j < m - n { assert r[j] == queue[n + j]; }
    }
  }

  lemma InsertMembers(history: seq<Point>, queue: seq<Point>, p: Point, n: nat, m: nat, q: Point)
    requires (forall x :: x in queue ==> x in history) && n <= m <= |queue|
    requires forall i :: n <= i < |queue| ==> !Stale(queue[i], p.epoch)
    requires q in queue[n..m] + [p]
    ensures q in history + [p] && Live(q, p.epoch)
  {
    hide Stale, Live;
    LiveIs(q, p.epoch);
    if q != p {
      var i :| n <= i < m && queue[i] == q;
      assert queue[i] in queue;
    }
  }

  lemma InsertCovers(history: seq<Point>, queue: seq<Point>, p: Point, n: nat, m: nat, q: Point)
    requires Inv(history, queue) && n <= m <= |queue| && (forall x :: x in history ==> x.epoch < p.epoch)
    requires forall i :: 0 <= i < |queue| ==> (Stale(queue[i], p.epoch) <==> i < n)
    requires forall i :: n <= i < |queue| ==> (queue[i].avg > p.avg <==> i < m)
    requires q in history + [p] && Live(q, p.epoch)
    ensures Covered(queue[n..m] + [p], q)
  {
    hide Covered, Stale;
    if q == p {
      CoveredBy(queue[n..m] + [p], m - n, q);
    } else {
      LatestIs(history, q);
      StaysLive(history, q, p.epoch);
      CoveredAgain(queue, p, n, m, q);
    }
  }

  lemma LatestIs(history: seq<Point>, q: Point)
    requires Ascending(history) && q in history
    ensures history != [] && q.epoch <= history[|history| - 1].epoch
  {
    var i :| 0 <= i < |history| && history[i] == q;
  }

  /** Accepting a later point keeps the deque in step with the history. */
  lemma {:induction false} InsertKeeps(history: seq<Point>, queue: seq<Point>, p: Point)
    requires Inv(history, queue) && (history != [] ==> history[|history| - 1].epoch < p.epoch)
    ensures Inv(history + [p], Insert(queue, p))
  {
    hide Stale, Covered, Live, Insert;
    var n, m := InsertIs(queue, p);
    EarlierThan(history, p);
    QueueEarlier(history, queue, p);
    InsertOrder(queue, p, n, m);
    var h, r := history + [p], queue[n..m] + [p];
    forall q | q in r
      ensures q in h && Live(q, p.epoch)
    {
      InsertMembers(history, queue, p, n, m, q);
    }
    forall q | q in h && Live(q, p.epoch)
      ensures Covered(r, q)
    {
      InsertCovers(history, queue, p, n, m, q);
    }
    StillAscending(history, p);
  }

  lemma StillAscending(history: seq<Point>, p: Point)
    requires Ascending(history) && forall q :: q in history ==> q.epoch < p.epoch
    ensures Ascending(history + [p])
  {
    var h := history + [p];
    forall i, j | 0 <= i < j < |h|
      ensures h[i].epoch < h[j].epoch
    {
      assert h[i] in history;
    }
  }

  /** The front is the maximum over all points that count, and the latest of those that attain it. */
  lemma {:induction false} FrontIsMaximum(history: seq<Point>, queue: seq<Point>, p: Point)
    requires Inv(history, queue) && p in history
    requires var e := history[|history| - 1].epoch; p.epoch == e || (p.epoch > e - 1800 && p.epoch >= 599)
    ensures queue != [] && queue[0] in history
    ensures var (e, f) := (history[|history| - 1].epoch, queue[0].epoch); f == e || (f > e - 1800 && f >= 599)
    ensures p.avg <= queue[0].avg && (p.avg == queue[0].avg ==> p.epoch <= queue[0].epoch)
  {
    assert Live(p, history[|history| - 1].epoch);
    assert Covered(queue, p);
    var i :| 0 <= i < |queue| && queue[i].epoch >= p.epoch && queue[i].avg >= p.avg;
    assert queue[0] in queue;
  }

  /** The deque holds exactly the points that count and that no later one reaches. */
  lemma {:induction false} QueueExactly(history: seq<Point>, queue: seq<Point>, p: Point)
    requires Inv(history, queue) && p in history
    ensures var e := history[|history| - 1].epoch;
            p in queue <==>
            && (p.epoch == e || (p.epoch > e - 1800 && p.epoch >= 599))
            && forall q :: q in history && q.epoch > p.epoch ==> q.avg < p.avg
  {
    hide Stale;
    var e := history[|history| - 1].epoch;
    if p in queue {
      var i :| 0 <= i < |queue| && queue[i] == p;
      forall q | q in history && q.epoch > p.epoch
        ensures q.avg < p.avg
      {
        LatestIs(history, q);
        LaterIsLive(p, q, e);
        assert Covered(queue, q);
        var j :| 0 <= j < |queue| && queue[j].epoch >= q.epoch && queue[j].avg >= q.avg;
        assert i < j;
      }
    } else if Live(p, e) {
      assert Covered(queue, p);
      var j :| 0 <= j < |queue| && queue[j].epoch >= p.epoch && queue[j].avg >= p.avg;
      assert queue[j] in queue;
      SameEpoch(history, p, queue[j]);
      assert queue[j].epoch > p.epoch;
    }
  }

  lemma LaterIsLive(p: Point, q: Point, e: int)
    requires Live(p, e) && p.epoch < q.epoch <= e
    ensures Live(q, e)
  {
  }

  lemma SameEpoch(history: seq<Point>, p: Point, q: Point)
    requires Ascending(history) && p in history && q in history
    ensures p.epoch == q.epoch ==> p == q
  {
    var i :| 0 <= i < |history| && history[i] == p;
    var j :| 0 <= j < |history| && history[j] == q;
    assert i < j ==> history[i].epoch < history[j].epoch;
    assert j < i ==> history[j].epoch < history[i].epoch;
  }

  lemma CoveredBy(queue: seq<Point>, i: nat, q: Point)
    requires i < |queue| && queue[i].epoch >= q.epoch && queue[i].avg >= q.avg
    ensures Covered(queue, q)
  {
  }

  lemma EarlierThan(history: seq<Point>, p: Point)
    requires Ascending(history) && (history != [] ==> history[|history| - 1].epoch < p.epoch)
    ensures forall q :: q in history ==> q.epoch < p.epoch
  {
    forall q | q in history
      ensures q.epoch < p.epoch
    {
      var i :| 0 <= i < |history| && history[i] == q;
      if i < |history| - 1 { assert history[i].epoch < history[|history| - 1].epoch; }
    }
  }

  lemma QueueEarlier(history: seq<Point>, queue: seq<Point>, p: Point)
    requires Inv(history, queue) && forall q :: q in history ==> q.epoch < p.epoch
    ensures forall i :: 0 <= i < |queue| ==> queue[i].epoch < p.epoch
  {
    forall i | 0 <= i < |queue|
      ensures queue[i].epoch < p.epoch
    {
      assert queue[i] in queue;
    }
  }

  /** A point that counts later counted before. */
  lemma StaysLive(history: seq<Point>, q: Point, e: int)
    requires history != [] && q in history && Live(q, e) && q.epoch < e
    requires history[|history| - 1].epoch < e && q.epoch <= history[|history| - 1].epoch
    ensures !Stale(q, e) && Live(q, history[|history| - 1].epoch)
  {
    LiveIs(q, e);
  }

  /** The deque after accepting these points in turn. */
  function RunQueue(points: seq<Point>): seq<Point> {
    if points == [] then [] else Insert(RunQueue(points[..|points| - 1]), points[|points| - 1])
  }

  /** Through every run with increasing epochs. */
  lemma {:induction false} RunKeeps(points: seq<Point>)
    requires Ascending(points)
    ensures Inv(points, RunQueue(points))
  {
    if points != [] {
      var n := |points| - 1;
      RunKeeps(points[..n]);
      assert points == points[..n] + [points[n]];
      InsertKeeps(points[..n], RunQueue(points[..n]), points[n]);
    }
  }

  // ---- the controller's globals ----

  function Sum(xs: seq<real>): real {
    if xs == [] then 0.0 else Sum(xs[..|xs| - 1]) + xs[|xs| - 1]
  }

  lemma {:induction false} SumTail(xs: seq<real>)
    requires xs != []
    ensures Sum(xs[1..]) == Sum(xs) - xs[0]
  {
    var n := |xs| - 1;
    if n > 0 {
      SumTail(xs[..n]);
      assert xs[1..][..n - 1] == xs[..n][1..];
    } else {
      assert xs[..0] == [] && xs[1..] == [];
    }
  }

  function Square(d: real): real { d * d }

  /** The sum of squared distances from the average. */
  function Squares(xs: seq<real>, avg: real): real {
    if xs == [] then 0.0 else Squares(xs[..|xs| - 1], avg) + Square(xs[|xs| - 1] - avg)
  }

  /** They are never negative, vanish exactly on equal samples, and are what the usual expansion says. */
  lemma {:induction false} SquaresExpand(xs: seq<real>, avg: real)
    ensures Squares(xs, avg) >= 0.0 && (Squares(xs, avg) == 0.0 <==> forall x :: x in xs ==> x == avg)
    ensures Squares(xs, avg) == Squares(xs, 0.0) - avg * (2.0 * Sum(xs) - avg * |xs| as real)
  {
    hide Squares, Sum, Square;
    if xs == [] {
      NoSquares(avg);
      NoSquares(0.0);
    } else {
      var n := |xs| - 1;
      SquaresExpand(xs[..n], avg);
      LastSquare(xs, avg);
      LastSquare(xs, 0.0);
      SumOfExpansions(avg, Sum(xs[..n]), xs[n], n as real, Squares(xs[..n], avg), Squares(xs[..n], 0.0));
    }
  }

  lemma NoSquares(avg: real)
    ensures Squares([], avg) == 0.0 && Sum([]) == 0.0
  {
  }

  lemma LastSquare(xs: seq<real>, avg: real)
    requires xs != []
    ensures var n := |xs| - 1;
            && Squares(xs, avg) == Squares(xs[..n], avg) + Square(xs[n] - avg)
            && Sum(xs) == Sum(xs[..n]) + xs[n]
            && ((forall x :: x in xs ==> x == avg) <==> xs[n] == avg && forall x :: x in xs[..n] ==> x == avg)
  {
    hide Square;
    var n := |xs| - 1;
    assert xs == xs[..n] + [xs[n]];
    assert xs[n] in xs && forall x :: x in xs[..n] ==> x in xs;
  }

  lemma SquareOf(x: real, avg: real)
    ensures Square(x - avg) == Square(x) - avg * (2.0 * x - avg)
    ensures Square(x - avg) >= 0.0 && (Square(x - avg) == 0.0 <==> x == avg)
  {
    SquareSign(x - avg);
    assert Square(x - avg) == x * (x - avg) - avg * (x - avg);
    assert x * (x - avg) == x * x - avg * x && avg * (x - avg) == avg * x - avg * avg;
  }

  lemma SquareSign(d: real)
    ensures Square(d) >= 0.0 && (Square(d) == 0.0 <==> d == 0.0)
  {
    if d != 0.0 { SameSign(d, d, Square(d)); }
  }

  lemma SameSign(a: real, b: real, r: real)
    requires ((a > 0.0 && b > 0.0) || (a < 0.0 && b < 0.0)) && r == a * b
    ensures r > 0.0
  {
  }

  lemma SumOfExpansions(avg: real, sum: real, x: real, n: real, squares: real, squares0: real)
    requires squares >= 0.0 && squares == squares0 - avg * (2.0 * sum - avg * n)
    ensures var (s, s0) := (squares + Square(x - avg), squares0 + Square(x - 0.0));
            && s == s0 - avg * (2.0 * (sum + x) - avg * (n + 1.0))
            && s >= 0.0 && (s == 0.0 <==> squares == 0.0 && x == avg)
  {
    hide Square;
    SquareOf(x, avg);
    Expand(avg, sum, x, n);
  }

  lemma Expand(avg: real, sum: real, x: real, n: real)
    ensures avg * (2.0 * (sum + x) - avg * (n + 1.0)) == avg * (2.0 * sum - avg * n) + avg * (2.0 * x - avg)
  {
  }

  /** The last samples, as many as the window holds. */
  function Recent(samples: seq<real>): seq<real> {
    if |samples| <= SAMPLES then samples else samples[|samples| - SAMPLES..]
  }

  function Average(xs: seq<real>): real
    requires xs != []
  {
    Sum(xs) / |xs| as real
  }

  function Variance(xs: seq<real>): real {
    if |xs| > 1 then Squares(xs, Average(xs)) / (|xs| - 1) as real else 0.0
  }

  class Controller {
    var recent: seq<real>
    var sum: real
    var queue: seq<Point>
    /** Every sample and every point accepted so far. */
    ghost var samples: seq<real>
    ghost var history: seq<Point>

    ghost predicate Valid()
      reads this
    {
      recent == Recent(samples) && sum == Sum(recent) && queue == RunQueue(history) && Ascending(history)
    }

    constructor ()
      ensures Valid() && samples == [] && history == []
    {
      recent, sum, queue, samples, history := [], 0.0, [], [], [];
    }

    /** atomic_update_max_performance: a sample that is not finite changes nothing. */
    method Update(epoch: int, performance: Performance)
      requires Valid() && (history != [] ==> history[|history| - 1].epoch < epoch)
      modifies this
      ensures Valid()
      ensures performance.NotFinite? ==>
                samples == old(samples) && history == old(history) && queue == old(queue) && recent == old(recent)
      ensures performance.Finite? ==>
                && samples == old(samples) + [performance.value] && recent != [] && |recent| <= 600
                && history == old(history) + [Point(epoch, Average(recent), Variance(recent))]
    {
      hide Sum, Squares, Insert, Recent, RunQueue, DropStale, DropBelow, Ascending;
      if performance.NotFinite? { return; }
      AddSample(performance.value);
      var size := |recent|;
      var avg := sum / size as real;
      var variance := 0.0;
      if size > 1 {
        var total := SumOfSquares(recent, avg);
        variance := total / (size - 1) as real;
      }
      var point := Point(epoch, avg, variance);
      queue := Accept(queue, point);
      AppendRun(history, point);
      history := history + [point];
    }

    /** The sample deque and its running sum. */
    method AddSample(x: real)
      requires Valid()
      modifies this`recent, this`sum, this`samples
      ensures Valid() && samples == old(samples) + [x] && 0 < |recent| <= 600
      ensures |samples| > 600 ==> recent == samples[|samples| - 600..]
    {
      hide Sum;
      SumSnoc(recent, x);
      recent := recent + [x];
      sum := sum + x;
      samples := samples + [x];
      if |recent| > SAMPLES {
        SumTail(recent);
        sum := sum - recent[0];
        recent := recent[1..];
      }
    }

    /** atomic_get_max_performance: zero before the first point, and then the maximum over all points that count. */
    method GetMax() returns (avg: real, variance: real)
      requires Valid()
      ensures history == [] ==> avg == 0.0 && variance == 0.0
      ensures history != [] ==>
                var e := history[|history| - 1].epoch;
                && (exists p :: p in history && p.avg == avg && p.variance == variance &&
                      (p.epoch == e || (p.epoch > e - 1800 && p.epoch >= 599)))
                && forall p :: p in history && (p.epoch == e || (p.epoch > e - 1800 && p.epoch >= 599)) ==> p.avg <= avg
    {
      hide RunQueue;
      RunKeeps(history);
      if queue == [] { return 0.0, 0.0; }
      avg, variance := queue[0].avg, queue[0].variance;
      ghost var e := history[|history| - 1].epoch;
      assert history[|history| - 1] in history;
      FrontIsMaximum(history, queue, history[|history| - 1]);
      forall p | p in history && (p.epoch == e || (p.epoch > e - 1800 && p.epoch >= 599))
        ensures p.avg <= avg
      {
        FrontIsMaximum(history, queue, p);
      }
    }
  }

  lemma SumSnoc(xs: seq<real>, x: real)
    ensures Sum(xs + [x]) == Sum(xs) + x
  {
    assert (xs + [x])[..|xs|] == xs;
  }

  lemma AppendRun(history: seq<Point>, p: Point)
    requires Ascending(history) && (history != [] ==> history[|history| - 1].epoch < p.epoch)
    ensures RunQueue(history + [p]) == DropBelow(DropStale(RunQueue(history), p.epoch), p.avg) + [p]
    ensures Ascending(history + [p])
  {
    assert (history + [p])[..|history|] == history;
    EarlierThan(history, p);
    StillAscending(history, p);
  }

  method SumOfSquares(xs: seq<real>, avg: real) returns (total: real)
    ensures total == Squares(xs, avg)
  {
    total := 0.0;
    for i := 0 to |xs|
      invariant total == Squares(xs[..i], avg)
    {
      assert xs[..i + 1][..i] == xs[..i];
      total := total + (xs[i] - avg) * (xs[i] - avg);
    }
    assert xs[..|xs|] == xs;
  }

  /** The two loops that make room for a point. */
  method Accept(queue: seq<Point>, p: Point) returns (q: seq<Point>)
    ensures q == DropBelow(DropStale(queue, p.epoch), p.avg) + [p]
  {
    q := DropFront(queue, p.epoch);
    q := DropBack(q, p.avg);
    q := q + [p];
  }

  /** The loop that pops expired points in front. */
  method DropFront(queue: seq<Point>, epoch: int) returns (q: seq<Point>)
    ensures q == DropStale(queue, epoch)
    ensures |q| <= |queue| && q == queue[|queue| - |q|..]
    ensures forall i :: 0 <= i < |queue| - |q| ==> queue[i].epoch <= epoch - 1800 || queue[i].epoch < 599
    ensures q != [] ==> q[0].epoch > epoch - 1800 && q[0].epoch >= 599
  {
    q := queue;
    while q != [] && (q[0].epoch <= epoch - WINDOW || q[0].epoch + 1 < SAMPLES)
      invariant DropStale(q, epoch) == DropStale(queue, epoch)
      invariant |q| <= |queue| && q == queue[|queue| - |q|..]
      invariant forall i :: 0 <= i < |queue| - |q| ==> queue[i].epoch <= epoch - 1800 || queue[i].epoch < 599
      decreases |q|
    {
      q := q[1..];
    }
  }

  /** The loop that pops points that are not larger behind. */
  method DropBack(queue: seq<Point>, avg: real) returns (q: seq<Point>)
    ensures q == DropBelow(queue, avg) && q <= queue
    ensures forall i :: |q| <= i < |queue| ==> queue[i].avg <= avg
    ensures q != [] ==> q[|q| - 1].avg > avg
  {
    q := queue;
    while q != [] && q[|q| - 1].avg <= avg
      invariant DropBelow(q, avg) == DropBelow(queue, avg) && q <= queue
      invariant forall i :: |q| <= i < |queue| ==> queue[i].avg <= avg
      decreases |q|
    {
      q := q[..|q| - 1];
    }
  }
}
