/**
 The sample windows of the control loop (control_loop/main.cpp:450-487): a list of samples by time and
 a search tree of the same samples by performance.
 */
module Windows {
  import opened AvlShape
  import opened AvlTree
  import opened Optional

  datatype Sample = Sample(timestamp: int, performance: real)

  function Performances(list: seq<Sample>): (r: seq<real>)
    ensures |r| == |list| && forall i :: 0 <= i < |list| ==> r[i] == list[i].performance
  {
    if list == [] then [] else [list[0].performance] + Performances(list[1..])
  }

  /** The tree holds the performances of the list, each as often. */
  ghost predicate Agree(list: seq<Sample>, keys: seq<real>) { multiset(keys) == multiset(Performances(list)) }

  /** The samples from the first one on that has not expired. */
  function Unexpired(list: seq<Sample>, bound: int): (r: seq<Sample>)
    ensures |r| <= |list|
  {
    if list == [] || list[0].timestamp > bound then list else Unexpired(list[1..], bound)
  }

  lemma {:induction false} ExpiredFirst(list: seq<Sample>, bound: int)
    ensures list == Expired(list, bound) + Unexpired(list, bound)
  {
    if list != [] && list[0].timestamp <= bound {
      ExpiredFirst(list[1..], bound);
      assert Expired(list, bound) == [list[0]] + Expired(list[1..], bound);
    }
  }

  lemma UnexpiredStep(list: seq<Sample>, bound: int)
    ensures if list == [] || list[0].timestamp > bound then Unexpired(list, bound) == list
            else Unexpired(list, bound) == Unexpired(list[1..], bound) && |Unexpired(list, bound)| < |list|
  {
  }

  /** The samples before it. */
  function Expired(list: seq<Sample>, bound: int): seq<Sample> { list[..|list| - |Unexpired(list, bound)|] }

  /** Of samples in the order of time exactly those stay that are later than the bound. */
  lemma {:induction false} UnexpiredExactly(list: seq<Sample>, bound: int, i: nat)
    requires forall i, j :: 0 <= i < j < |list| ==> list[i].timestamp <= list[j].timestamp
    requires i < |list|
    ensures Unexpired(list, bound) == list[|list| - |Unexpired(list, bound)|..]
    ensures i >= |list| - |Unexpired(list, bound)| <==> list[i].timestamp > bound
  {
    if list[0].timestamp > bound {
      assert i > 0 ==> list[0].timestamp <= list[i].timestamp;
    } else if |list| > 1 {
      UnexpiredExactly(list[1..], bound, if i == 0 then 0 else i - 1);
    }
  }

  /** The sample that enters, if the turn has one. */
  function Entering(sample: Option<Sample>): seq<Sample> { if sample.Some? then [sample.value] else [] }

  lemma PerformancesConcat(xs: seq<Sample>, ys: seq<Sample>)
    ensures Performances(xs + ys) == Performances(xs) + Performances(ys)
  {
  }

  lemma PopAgrees(list: seq<Sample>, keys: seq<real>, at: nat)
    requires Agree(list, keys) && list != [] && at < |keys| && keys[at] == list[0].performance
    ensures Agree(list[1..], keys[..at] + keys[at + 1..])
  {
    TakeOut(keys, at);
    var ps := Performances(list);
    TakeOut(ps, 0);
    assert ps[..0] + ps[1..] == Performances(list[1..]);
  }

  lemma TakeOut(s: seq<real>, at: nat)
    requires at < |s|
    ensures multiset(s[..at] + s[at + 1..]) == multiset(s) - multiset{s[at]}
  {
    assert s == s[..at] + ([s[at]] + s[at + 1..]);
  }

  lemma PutIn(s: seq<real>, at: nat, x: real)
    requires at <= |s|
    ensures multiset(s[..at] + [x] + s[at..]) == multiset(s) + multiset{x}
  {
    assert s == s[..at] + s[at..];
  }

  lemma Cancel(a: multiset<real>, b: multiset<real>, x: real)
    ensures a + multiset{x} == b + multiset{x} <==> a == b
  {
    assert forall p :: (a + multiset{x})[p] - multiset{x}[p] == a[p];
    assert forall p :: (b + multiset{x})[p] - multiset{x}[p] == b[p];
  }

  lemma PushAgrees(list: seq<Sample>, keys: seq<real>, at: nat, x: Sample)
    requires at <= |keys|
    ensures Agree(list + [x], keys[..at] + [x.performance] + keys[at..]) <==> Agree(list, keys)
  {
    PutIn(keys, at, x.performance);
    PerformancesConcat(list, [x]);
    Cancel(multiset(keys), multiset(Performances(list)), x.performance);
  }

  lemma FrontIsThere(list: seq<Sample>, keys: seq<real>)
    requires Agree(list, keys) && list != []
    ensures list[0].performance in keys
  {
    assert Performances(list)[0] in multiset(Performances(list));
    assert list[0].performance in multiset(keys);
  }

  /** A multiset after j removals of the same value, each of which does nothing once the value is gone. */
  ghost function Without(m: multiset<real>, b: real, j: nat): multiset<real> {
    m[b := if j < m[b] then m[b] - j else 0]
  }

  /** The keys before and after j removals of the value b. */
  ghost predicate Lost(before: seq<real>, after: seq<real>, b: real, j: nat) {
    multiset(after) == Without(multiset(before), b, j)
  }

  lemma LostNone(keys: seq<real>, b: real)
    ensures Lost(keys, keys, b, 0)
  {
  }

  /** One more removal, which does nothing if the value is not there. */
  lemma LostNext(all: seq<real>, before: seq<real>, after: seq<real>, b: real, j: nat, at: int)
    requires Lost(all, before, b, j)
    requires b !in before ==> after == before
    requires b in before ==> 0 <= at < |before| && before[at] == b && after == before[..at] + before[at + 1..]
    ensures Lost(all, after, b, j + 1)
  {
    if b in before {
      TakeOut(before, at);
    } else {
      assert b !in multiset(before);
    }
    WithoutNext(multiset(all), b, j);
  }

  lemma WithoutNext(m: multiset<real>, b: real, j: nat)
    ensures Without(m, b, j) - multiset{b} == Without(m, b, j + 1)
  {
  }

  /** Every sample has the performance of the front of the baseline list. */
  ghost predicate LikeFront(gone: seq<Sample>, baseline: seq<Sample>) {
    gone == [] || (baseline != [] && forall i :: 0 <= i < |gone| ==> gone[i].performance == baseline[0].performance)
  }

  lemma NothingGone(baseline: seq<Sample>)
    ensures LikeFront([], baseline)
  {
  }

  lemma {:induction false} SamePerformances(gone: seq<Sample>, b: real)
    requires forall i :: 0 <= i < |gone| ==> gone[i].performance == b
    ensures multiset(Performances(gone))[b] == |gone|
    ensures forall p :: p != b ==> multiset(Performances(gone))[p] == 0
  {
    if gone != [] {
      SamePerformances(gone[1..], b);
      assert Performances(gone) == [b] + Performances(gone[1..]);
    }
  }

  lemma OnlyOf(g: multiset<real>, r: multiset<real>, b: real, n: nat)
    requires g[b] == n && forall p :: p != b ==> g[p] == 0
    ensures Without(g + r, b, n) == r
  {
    assert forall p :: Without(g + r, b, n)[p] == r[p];
  }

  lemma OtherStays(g: multiset<real>, r: multiset<real>, b: real, n: nat, p: real)
    requires p != b && p in g
    ensures Without(g + r, b, n) != r
  {
    assert Without(g + r, b, n)[p] == g[p] + r[p];
  }

  /**
   Removing one baseline performance as often as samples are popped leaves the performances of the rest
   if and only if every popped sample had that performance.
   */
  lemma {:induction false} RemovedAgreesExactly(gone: seq<Sample>, rest: seq<Sample>, b: real)
    ensures Without(multiset(Performances(gone + rest)), b, |gone|) == multiset(Performances(rest))
       <==> forall i :: 0 <= i < |gone| ==> gone[i].performance == b
  {
    PerformancesConcat(gone, rest);
    var g, r := multiset(Performances(gone)), multiset(Performances(rest));
    assert multiset(Performances(gone + rest)) == g + r;
    if forall i :: 0 <= i < |gone| ==> gone[i].performance == b {
      SamePerformances(gone, b);
      OnlyOf(g, r, b, |gone|);
    } else {
      var i :| 0 <= i < |gone| && gone[i].performance != b;
      assert Performances(gone)[i] in g;
      OtherStays(g, r, b, |gone|, gone[i].performance);
    }
  }

  lemma PoppedAgreesExactly(gone: seq<Sample>, rest: seq<Sample>, all: seq<real>, after: seq<real>,
                            baseline: seq<Sample>)
    requires baseline != [] && Lost(all, after, baseline[0].performance, |gone|)
    ensures multiset(after) == Without(multiset(all), baseline[0].performance, |gone|)
    ensures Agree(gone + rest, all) ==> (Agree(rest, after) <==> LikeFront(gone, baseline))
  {
    RemovedAgreesExactly(gone, rest, baseline[0].performance);
  }

  class Window {
    var list: seq<Sample>
    const tree: SearchTree

    ghost predicate Valid()
      reads this, tree, Nodes(tree.tree), InOrder(tree.tree)
    {
      tree.Valid() && Agree(list, tree.keys)
    }

    /** What the methods below may change. */
    ghost function Repr(): set<object>
      reads tree
    {
      {this, tree} + Nodes(tree.tree)
    }

    constructor ()
      ensures Valid() && list == [] && tree.keys == [] && fresh(tree) && Nodes(tree.tree) == {}
    {
      list := [];
      tree := new SearchTree();
    }

    /** One expired sample leaves the list and the tree. */
    method Expire()
      requires Valid() && list != []
      modifies this`list, tree, Nodes(tree.tree)
      ensures Valid() && list == old(list)[1..] && Nodes(tree.tree) <= old(Nodes(tree.tree))
    {
      hide SearchTree.Valid, Agree, Nodes, InOrder;
      FrontIsThere(list, tree.keys);
      ghost var keys, before := tree.keys, list;
      ghost var at := tree.Remove(list[0].performance);
      PopAgrees(before, keys, at);
      assert allocated(Nodes(tree.tree)) && allocated(InOrder(tree.tree));
      list := list[1..];
    }

    /** An accepted sample enters the list and the tree. */
    method Enter(sample: Option<Sample>)
      requires tree.Valid()
      modifies this`list, tree, Nodes(tree.tree)
      ensures tree.Valid() && list == old(list) + Entering(sample)
      ensures multiset(tree.keys) == multiset(old(tree.keys)) + multiset(Performances(Entering(sample)))
      ensures Agree(list, tree.keys) <==> Agree(old(list), old(tree.keys))
      ensures forall n :: n in Nodes(tree.tree) ==> n in old(Nodes(tree.tree)) || fresh(n)
    {
      hide SearchTree.Valid, Agree, Nodes, InOrder;
      if sample.Some? {
        ghost var keys := tree.keys;
        ghost var at := tree.Insert(sample.value.performance);
        PushAgrees(list, keys, at, sample.value);
        PutIn(keys, at, sample.value.performance);
        assert allocated(Nodes(tree.tree)) && allocated(InOrder(tree.tree));
        list := list + [sample.value];
      } else {
        assert list + [] == list;
      }
    }

    /** One turn of the baseline or the prefetch window: expired samples leave, an accepted one enters. */
    method Tick(now: int, size: int, sample: Option<Sample>)
      requires Valid()
      modifies this`list, tree, Nodes(tree.tree)
      ensures Valid()
      ensures list == Unexpired(old(list), now - size) + Entering(sample)
      ensures forall n :: n in Nodes(tree.tree) ==> n in old(Nodes(tree.tree)) || fresh(n)
    {
      hide SearchTree.Valid, Agree, Nodes, InOrder;
      while list != [] && list[0].timestamp <= now - size
        invariant Valid() && Unexpired(list, now - size) == Unexpired(old(list), now - size)
        invariant Nodes(tree.tree) <= old(Nodes(tree.tree))
        decreases |list|
      {
        Expire();
      }
      Enter(sample);
    }

    /** Pops the expired samples of the list, and removes the baseline front from the tree for each of them. */
    method ExpireAgainst(baseline: Window, bound: int) returns (defined: bool)
      requires tree.Valid() && baseline != this
      modifies this`list, tree, Nodes(tree.tree)
      ensures tree.Valid() && Nodes(tree.tree) <= old(Nodes(tree.tree))
      ensures defined <==> Expired(old(list), bound) == [] || baseline.list != []
      ensures Expired(old(list), bound) == [] || !defined ==> list == old(list) && tree.keys == old(tree.keys)
      ensures defined ==> list == Unexpired(old(list), bound)
      ensures defined && baseline.list != [] ==>
                Lost(old(tree.keys), tree.keys, baseline.list[0].performance, |Expired(old(list), bound)|)
    {
      hide SearchTree.Valid, Nodes, InOrder, Lost, Unexpired;
      ghost var was, all := list, tree.keys;
      if baseline.list != [] { LostNone(all, baseline.list[0].performance); }
      UnexpiredStep(list, bound);
      ghost var popped := 0;
      while list != [] && list[0].timestamp <= bound
        invariant tree.Valid() && Nodes(tree.tree) <= old(Nodes(tree.tree))
        invariant popped + |list| == |was| && Unexpired(list, bound) == Unexpired(was, bound)
        invariant popped > 0 ==> baseline.list != []
        invariant popped == 0 ==> tree.keys == all && list == was
        invariant baseline.list != [] ==> Lost(all, tree.keys, baseline.list[0].performance, popped)
        decreases |list|
      {
        UnexpiredStep(list, bound);
        if baseline.list == [] { return false; }
        var expired := baseline.list[0];
        assert allocated(Nodes(tree.tree)) && allocated(InOrder(tree.tree));
        list := list[1..];
        ghost var before := tree.keys;
        ghost var at := tree.Remove(expired.performance);
        LostNext(all, before, tree.keys, expired.performance, popped, at);
        popped := popped + 1;
      }
      UnexpiredStep(list, bound);
      assert |Expired(was, bound)| == popped;
      return true;
    }

    /**
     One turn of the recent window.  It pops its own list, but removes from its tree, for each popped sample,
     the front of the baseline list; `defined` is false where the baseline list has no front.  List and tree
     agree afterwards if and only if every expired sample has the performance of the baseline front.
     */
    method TickAgainst(baseline: Window, now: int, size: int, sample: Option<Sample>) returns (defined: bool)
      requires tree.Valid() && baseline != this
      modifies this`list, tree, Nodes(tree.tree)
      ensures tree.Valid() && forall n :: n in Nodes(tree.tree) ==> n in old(Nodes(tree.tree)) || fresh(n)
      ensures defined <==> Expired(old(list), now - size) == [] || baseline.list != []
      ensures !defined ==> list == old(list) && tree.keys == old(tree.keys)
      ensures defined ==> list == Unexpired(old(list), now - size) + Entering(sample)
      ensures defined && baseline.list != [] ==>
                multiset(tree.keys) ==
                Without(multiset(old(tree.keys)), baseline.list[0].performance, |Expired(old(list), now - size)|)
                + multiset(Performances(Entering(sample)))
      ensures defined && Agree(old(list), old(tree.keys)) ==>
                (Agree(list, tree.keys) <==> LikeFront(Expired(old(list), now - size), baseline.list))
    {
      hide SearchTree.Valid, Nodes, InOrder, Without, Unexpired, Agree, Lost, Performances, LikeFront;
      ghost var gone, all := Expired(list, now - size), tree.keys;
      ExpiredFirst(list, now - size);
      defined := ExpireAgainst(baseline, now - size);
      if !defined { return; }
      if baseline.list == [] {
        NothingGone(baseline.list);
      } else {
        PoppedAgreesExactly(gone, list, all, tree.keys, baseline.list);
      }
      Enter(sample);
    }
  }

  /** The sample a turn enters into a window: a finite performance the window accepts. */
  function Accepted(now: int, performance: Option<real>, accept: bool): Option<Sample> {
    if performance.Some? && accept then Some(Sample(now, performance.value)) else None
  }

  lemma InOrderInside(t: Tree)
    ensures forall n :: n in InOrder(t) ==> n in Nodes(t)
  {
    InOrderNodes(t);
  }

  /** The two windows that drop detection compares, and the clock.  A performance that is not finite is None. */
  class Detector {
    const baseline: Window
    const recent: Window
    const baselineSize: int
    const recentSize: int
    var timestamp: int

    /** The baseline window is sound; of the recent one the tree is, in itself. */
    ghost predicate Valid()
      reads this, baseline, recent, baseline.tree, recent.tree
      reads Nodes(baseline.tree.tree), Nodes(recent.tree.tree), InOrder(baseline.tree.tree), InOrder(recent.tree.tree)
    {
      baseline.Repr() !! recent.Repr() && baseline.Valid() && recent.tree.Valid()
    }

    constructor (baselineSize: int, recentSize: int)
      ensures Valid() && timestamp == 0 && baseline.list == [] && recent.list == [] && recent.tree.keys == []
      ensures this.baselineSize == baselineSize && this.recentSize == recentSize
      ensures fresh(baseline.Repr()) && fresh(recent.Repr())
    {
      hide SearchTree.Valid, Agree, Nodes, InOrder;
      var b := new Window();
      assert allocated(Nodes(b.tree.tree)) && allocated(InOrder(b.tree.tree));
      var r := new Window();
      assert allocated(Nodes(b.tree.tree)) && allocated(InOrder(b.tree.tree));
      assert allocated(Nodes(r.tree.tree)) && allocated(InOrder(r.tree.tree));
      baseline, recent, timestamp := b, r, 0;
      this.baselineSize, this.recentSize := baselineSize, recentSize;
    }

    /** The part of one turn of the control loop that keeps the two windows. */
    method Turn(promotion: int, performance: Option<real>) returns (defined: bool)
      requires Valid()
      modifies this`timestamp, baseline.Repr(), recent.Repr()
      ensures Valid()
      ensures forall n :: n in baseline.Repr() ==> n in old(baseline.Repr()) || fresh(n)
      ensures forall n :: n in recent.Repr() ==> n in old(recent.Repr()) || fresh(n)
      ensures timestamp == old(timestamp) + if defined then 1 else 0
      ensures baseline.list ==
              Unexpired(old(baseline.list), old(timestamp) - baselineSize)
              + Entering(Accepted(old(timestamp), performance, promotion == 0))
      ensures var gone := Expired(old(recent.list), old(timestamp) - recentSize);
              var enters := Entering(Accepted(old(timestamp), performance, true));
              && (defined <==> gone == [] || baseline.list != [])
              && (defined ==> recent.list == Unexpired(old(recent.list), old(timestamp) - recentSize) + enters)
              && (defined && Agree(old(recent.list), old(recent.tree.keys)) ==>
                    (Agree(recent.list, recent.tree.keys) <==> LikeFront(gone, baseline.list)))
    {
      hide SearchTree.Valid, Agree, Nodes, InOrder, Unexpired;
      InOrderInside(baseline.tree.tree);
      InOrderInside(recent.tree.tree);
      assert allocated(Nodes(recent.tree.tree)) && allocated(InOrder(recent.tree.tree));
      baseline.Tick(timestamp, baselineSize, Accepted(timestamp, performance, promotion == 0));
      InOrderInside(baseline.tree.tree);
      assert allocated(Nodes(baseline.tree.tree)) && allocated(InOrder(baseline.tree.tree));
      defined := recent.TickAgainst(baseline, timestamp, recentSize, Accepted(timestamp, performance, true));
      if !defined { return; }
      assert allocated(Nodes(baseline.tree.tree)) && allocated(InOrder(baseline.tree.tree));
      assert allocated(Nodes(recent.tree.tree)) && allocated(InOrder(recent.tree.tree));
      timestamp := timestamp + 1;
    }
  }

  /**
   Three turns after which the recent list and the recent tree disagree: the first sample was promoted and
   never entered the baseline, so its place in the tree is not the one that is given up.
   */
  method RecentDisagrees() returns (d: Detector)
    ensures fresh(d) && d.Valid() && d.recent.list == [Sample(1, 2.0), Sample(2, 3.0)]
    ensures !Agree(d.recent.list, d.recent.tree.keys)
  {
    hide SearchTree.Valid, Nodes, InOrder, Agree;
    d := new Detector(100, 2);
    EmptyAgrees();
    var defined := d.Turn(1, Some(1.0));
    assert d.recent.list == [Sample(0, 1.0)];
    defined := d.Turn(0, Some(2.0));
    assert d.recent.list == [Sample(0, 1.0), Sample(1, 2.0)] && d.baseline.list == [Sample(1, 2.0)];
    ghost var was := d.recent.list;
    defined := d.Turn(0, Some(3.0));
    assert Unexpired(was, 0) == [Sample(1, 2.0)];
    assert Expired(was, 0)[0] == Sample(0, 1.0);
  }

  lemma EmptyAgrees()
    ensures Agree([], [])
  {
  }
}
