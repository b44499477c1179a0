/**
 A run in which the count of a STOP message loses a chunk for good: rdma-common.c:400 sends the count of
 the client flagged last to every stopped client, and destroy_connection (rdma-common.c:182-192) returns
 nothing to the pool when the count of the connection has run down.
 */
module Leak {
  import opened Counting
  import opened Binding
  import D = Daemon
  import E = Eviction

  // ---- runs, step by step ----

  /** The events lead from one state to the other. */
  ghost predicate Reaches(s: System, events: seq<Event>, t: System)
    decreases |events|
  {
    if events == [] then s == t
    else Shape(s) && Enabled(s, events[0]) && Reaches(Step(s, events[0]), events[1..], t)
  }

  lemma {:induction false} ReachesChain(s: System, xs: seq<Event>, t: System, ys: seq<Event>, u: System)
    requires Reaches(s, xs, t) && Reaches(t, ys, u)
    ensures Reaches(s, xs + ys, u)
    decreases |xs|
  {
    hide Step, Enabled;
    if xs == [] {
      assert xs + ys == ys;
    } else {
      ReachesChain(Step(s, xs[0]), xs[1..], t, ys, u);
      assert (xs + ys)[0] == xs[0] && (xs + ys)[1..] == xs[1..] + ys;
    }
  }

  lemma {:induction false} ReachesOne(s: System, ev: Event)
    requires Shape(s) && Enabled(s, ev)
    ensures Reaches(s, [ev], Step(s, ev))
  {
    hide Step, Enabled;
    assert [ev][1..] == [];
    assert Reaches(Step(s, ev), [], Step(s, ev));
  }

  /** The states that the events pass through. */
  lemma {:induction false} ReachesIsRun(s: System, events: seq<Event>, t: System) returns (states: seq<System>)
    requires Init(s) && Reaches(s, events, t)
    ensures IsRun(states, events) && states[0] == s && states[|events|] == t
  {
    states := Visits(s, events, t);
  }

  lemma {:induction false} Visits(s: System, events: seq<Event>, t: System) returns (states: seq<System>)
    requires Reaches(s, events, t)
    ensures |states| == |events| + 1 && states[0] == s && states[|events|] == t
    ensures forall n :: 0 <= n < |events| ==>
              Shape(states[n]) && Enabled(states[n], events[n]) && states[n + 1] == Step(states[n], events[n])
    decreases |events|
  {
    hide Step, Enabled, Shape;
    if events == [] {
      states := [s];
    } else {
      var rest := Visits(Step(s, events[0]), events[1..], t);
      states := [s] + rest;
      forall n | 0 <= n < |events|
        ensures Shape(states[n]) && Enabled(states[n], events[n]) && states[n + 1] == Step(states[n], events[n])
      {
        if n > 0 { assert states[n] == rest[n - 1] && events[n] == events[1..][n - 1]; }
      }
    }
  }

  // ---- the exchanges of one client, with empty channels before and after ----

  /** A client that routes these slots, with nothing in flight. */
  function Resting(routed: set<int>, phase: Phase): Link {
    Link(Client(true, routed, NotStopping, multiset{}), [], [], phase)
  }

  function Put(d: D.State, a: Link, b: Link, k: int, m: Link): (s: System)
    requires D.Shape(d)
    ensures Shape(s)
  {
    if k == 0 then Two(d, m, b) else Two(d, a, m)
  }

  lemma {:induction false} PutStep(d: D.State, a: Link, b: Link, k: int, l: Link, ev: Event)
    requires D.Shape(d) && !ev.DaemonFree? && !ev.DaemonExpand? && ev.k == k && 0 <= k <= 1 && EnabledAt(d, l, ev)
    ensures var (e, m) := StepAt(d, l, ev);
            D.Shape(e) && Reaches(Put(d, a, b, k, l), [ev], Put(e, a, b, k, m))
  {
    hide StepAt, EnabledAt, Two, Reaches, Step, Enabled;
    TwoStep(d, if k == 0 then l else a, if k == 0 then b else l, ev);
    ReachesOne(Put(d, a, b, k, l), ev);
  }

  lemma {:induction false} ChainTwo(s: System, x: Event, t: System, y: Event, u: System)
    requires Reaches(s, [x], t) && Reaches(t, [y], u)
    ensures Reaches(s, [x, y], u)
  {
    ReachesChain(s, [x], t, [y], u);
    assert [x] + [y] == [x, y];
  }

  lemma {:induction false} ChainThree(s: System, x: Event, t: System, y: Event, u: System, z: Event, v: System)
    requires Reaches(s, [x], t) && Reaches(t, [y], u) && Reaches(u, [z], v)
    ensures Reaches(s, [x, y, z], v)
  {
    ChainTwo(s, x, t, y, u);
    ReachesChain(s, [x, y], u, [z], v);
    assert [x, y] + [z] == [x, y, z];
  }

  function BindRound(k: int): seq<Event> { [ClientSend(k, BindSingle(0)), DaemonRecv(k), ClientRecv(k)] }

  /** A client asks for a chunk and is granted the first that is free. */
  lemma {:induction false} BindReaches(d: D.State, a: Link, b: Link, k: int, routed: set<int>)
    requires D.Shape(d) && 0 <= k <= 1 && d.conns[k].state != D.ConnIdle && D.FirstGrantableFrom(d, 0) != NONE
    ensures Reaches(Put(d, a, b, k, Resting(routed, Quiet)), BindRound(k),
                    Put(D.Bind(d, k), a, b, k, Resting(routed + {D.FirstGrantableFrom(d, 0)}, Quiet)))
  {
    hide Put, Reaches, D.Bind, D.FirstGrantableFrom;
    var l, e, i := Resting(routed, Quiet), D.Bind(d, k), D.FirstGrantableFrom(d, 0);
    OneMessage(BindSingle(0), InfoSingle(0, i));
    var l1 := l.(toDaemon := [BindSingle(0)]);
    PutStep(d, a, b, k, l, ClientSend(k, BindSingle(0)));
    var l2 := l.(toClient := [InfoSingle(0, i)]);
    PutStep(d, a, b, k, l1, DaemonRecv(k));
    PutStep(e, a, b, k, l2, ClientRecv(k));
    ChainThree(Put(d, a, b, k, l), ClientSend(k, BindSingle(0)), Put(d, a, b, k, l1), DaemonRecv(k),
        Put(e, a, b, k, l2),
               ClientRecv(k), Put(e, a, b, k, Resting(routed + {i}, Quiet)));
  }

  function EvictRound(k: int): seq<Event> { [DaemonEvict(k), ClientRecv(k), DaemonRecv(k)] }

  /** A client is asked for its activity and reports it. */
  lemma {:induction false} EvictReaches(d: D.State, a: Link, b: Link, k: int, routed: set<int>)
    requires D.Shape(d) && 0 <= k <= 1 && d.conns[k].state != D.ConnIdle
    ensures Reaches(Put(d, a, b, k, Resting(routed, Quiet)), EvictRound(k),
                    Put(d, a, b, k, Resting(routed, Reported(routed))))
  {
    hide Put, Reaches;
    var l := Resting(routed, Quiet);
    OneMessage(Activity(routed), Evict);
    var l1 := Resting(routed, AwaitActivity).(toClient := [Evict]);
    PutStep(d, a, b, k, l, DaemonEvict(k));
    var l2 := Resting(routed, AwaitActivity).(toDaemon := [Activity(routed)]);
    PutStep(d, a, b, k, l1, ClientRecv(k));
    PutStep(d, a, b, k, l2, DaemonRecv(k));
    ChainThree(Put(d, a, b, k, l), DaemonEvict(k), Put(d, a, b, k, l1), ClientRecv(k), Put(d, a, b, k, l2),
               DaemonRecv(k), Put(d, a, b, k, Resting(routed, Reported(routed))));
  }

  function StopRound(k: int, slots: set<int>, n: int): seq<Event> {
    [DaemonStop(k, slots, n)] + [ClientRecv(k), ClientDone(k), DaemonRecv(k)]
  }

  /** A client is told to stop some chunks, with any count, and gives them back. */
  lemma {:induction false} StopReaches(d: D.State, a: Link, b: Link, k: int, routed: set<int>, slots: set<int>, n: int)
    requires D.Shape(d) && 0 <= k <= 1 && d.conns[k].state != D.ConnIdle && slots <= routed && slots != {} && n > 0
    ensures Reaches(Put(d, a, b, k, Resting(routed, Reported(routed))), StopRound(k, slots, n),
                    Put(D.RecvDone(d, k, slots, n), a, b, k, Resting(routed - slots, Quiet)))
  {
    hide Put, Reaches, D.RecvDone;
    var e := D.RecvDone(d, k, slots, n);
    OneMessage(Done(slots, n), Stop(slots, n));
    var l0 := Resting(routed, Reported(routed));
    var l1 := Resting(routed, AwaitDone).(toClient := [Stop(slots, n)]);
    PutStep(d, a, b, k, l0, DaemonStop(k, slots, n));
    var l := Resting(routed - slots, AwaitDone);
    var l2 := l.(client := l.client.(stopping := StoppingSlots(slots, n)));
    PutStep(d, a, b, k, l1, ClientRecv(k));
    var l3 := l.(toDaemon := [Done(slots, n)]);
    PutStep(d, a, b, k, l2, ClientDone(k));
    PutStep(d, a, b, k, l3, DaemonRecv(k));
    var t := Put(e, a, b, k, Resting(routed - slots, Quiet));
    ChainThree(Put(d, a, b, k, l1), ClientRecv(k), Put(d, a, b, k, l2), ClientDone(k), Put(d, a, b, k, l3),
        DaemonRecv(k), t);
    ReachesChain(Put(d, a, b, k, l0), [DaemonStop(k, slots, n)], Put(d, a, b, k, l1),
                 [ClientRecv(k), ClientDone(k), DaemonRecv(k)], t);
  }

  function LeaveRound(k: int): seq<Event> { [Break(k), DaemonDestroy(k)] }

  /** A client loses its connection, and the server destroys its entry. */
  lemma {:induction false} LeaveReaches(d: D.State, a: Link, b: Link, k: int, routed: set<int>)
    requires D.Shape(d) && 0 <= k <= 1 && d.conns[k].state != D.ConnIdle
    ensures Reaches(Put(d, a, b, k, Resting(routed, Quiet)), LeaveRound(k), Put(D.Destroy(d, k), a, b, k, DownLink()))
  {
    hide Put, Reaches, D.Destroy;
    var l := Resting(routed, Quiet);
    PutStep(d, a, b, k, l, Break(k));
    PutStep(d, a, b, k, DownLink(), DaemonDestroy(k));
    ChainTwo(Put(d, a, b, k, l), Break(k), Put(d, a, b, k, DownLink()), DaemonDestroy(k),
             Put(D.Destroy(d, k), a, b, k, DownLink()));
  }

  // ---- two clients with two chunks each ----

  function Connected(): (d: D.State)
    ensures D.Shape(d)
  {
    D.Connect(D.Connect(D.Init(14), 0), 1)
  }

  function Lent(n: nat): (d: D.State)
    ensures D.Shape(d)
  {
    if n == 0 then Connected() else D.Bind(Lent(n - 1), if n <= 2 then 0 else 1)
  }

  /** What the server knows when n of the four chunks are lent, two to each client. */
  ghost predicate LentIs(d: D.State, n: int) {
    && D.Shape(d) && 0 <= n <= 4
    && (forall i :: 0 <= i < D.CHUNKS ==> d.mallocMap[i] == if i < 4 then D.MALLOCED else D.EMPTY)
    && (forall i :: 0 <= i < D.CHUNKS ==> d.owner[i] == if i >= n then NONE else if i < 2 then 0 else 1)
    && d.conns[0].state != D.ConnIdle && d.conns[1].state != D.ConnIdle
    && (forall i :: 0 <= i < D.CHUNKS ==> d.conns[0].chunkMap[i] == if i < n && i < 2 then i else NONE)
    && (forall i :: 0 <= i < D.CHUNKS ==> d.conns[1].chunkMap[i] == if 2 <= i < n then i else NONE)
    && d.conns[0].mapped == (if n < 2 then n else 2) && d.conns[1].mapped == if n < 2 then 0 else n - 2
  }

  lemma {:induction false} LentStep(n: nat)
    requires n <= 4
    ensures LentIs(Lent(n), n) && (n < 4 ==> D.FirstGrantableFrom(Lent(n), 0) == n)
  {
    hide D.Bind;
    if n > 0 {
      LentStep(n - 1);
      D.BindParts(Lent(n - 1), if n <= 2 then 0 else 1);
    }
    FirstFree(Lent(n), n);
  }

  lemma FirstFree(d: D.State, n: nat)
    requires LentIs(d, n)
    ensures n < 4 ==> D.FirstGrantableFrom(d, 0) == n
  {
    if n < 4 { assert D.Grantable(d, n); }
  }

  /** The events: both clients bind two chunks, both report, and client 0 is stopped with the count of client 1. */
  function Story(): seq<Event> {
    Opening() + (EvictRound(0) + EvictRound(1) + StopRound(0, {0}, 2) + LeaveRound(0))
  }

  function ConnectRound(k: int): seq<Event> { [Connect(k), ClientRecv(k)] }

  /** A client connects and is told how much is free. */
  lemma {:induction false} ConnectReaches(d: D.State, a: Link, b: Link, k: int)
    requires D.Shape(d) && 0 <= k <= 1 && d.conns[k].state == D.ConnIdle
    ensures Reaches(Put(d, a, b, k, DownLink()), ConnectRound(k), Put(D.Connect(d, k), a, b, k, Resting({}, Quiet)))
  {
    hide Put, Reaches;
    var e, l := D.Connect(d, k), Resting({}, Quiet);
    OneMessage(Query, FreeMem(d));
    PutStep(d, a, b, k, DownLink(), Connect(k));
    PutStep(e, a, b, k, l.(toClient := [FreeMem(d)]), ClientRecv(k));
    ChainTwo(Put(d, a, b, k, DownLink()), Connect(k), Put(e, a, b, k, l.(toClient := [FreeMem(d)])), ClientRecv(k),
             Put(e, a, b, k, l));
  }

  function Opening(): seq<Event> {
    ConnectRound(0) + ConnectRound(1) + BindRound(0) + BindRound(0) + BindRound(1) + BindRound(1)
  }

  lemma {:induction false} OpeningReaches()
    ensures Reaches(Two(D.Init(14), DownLink(), DownLink()), Opening(),
                    Two(Lent(4), Resting({0, 1}, Quiet), Resting({2, 3}, Quiet)))
  {
    hide Reaches, Two, D.Bind, D.FirstGrantableFrom, LentIs, ConnectRound, BindRound;
    var up, down, d0, both := Resting({}, Quiet), DownLink(), D.Init(14), ConnectRound(0) + ConnectRound(1);
    ConnectReaches(d0, down, down, 0);
    ConnectReaches(D.Connect(d0, 0), up, down, 1);
    var s := Two(d0, down, down);
    ReachesChain(s, ConnectRound(0), Two(D.Connect(d0, 0), up, down), ConnectRound(1), Two(Lent(0), up, up));
    FourBinds();
    var r1, r2, q1, q2 := Resting({0}, Quiet), Resting({0, 1}, Quiet), Resting({2}, Quiet), Resting({2, 3}, Quiet);
    ReachesChain(s, both, Two(Lent(0), up, up), BindRound(0), Two(Lent(1), r1, up));
    ReachesChain(s, both + BindRound(0), Two(Lent(1), r1, up), BindRound(0), Two(Lent(2), r2, up));
    ReachesChain(s, both + BindRound(0) + BindRound(0), Two(Lent(2), r2, up), BindRound(1), Two(Lent(3), r2, q1));
    ReachesChain(s, both + BindRound(0) + BindRound(0) + BindRound(1), Two(Lent(3), r2, q1),
                 BindRound(1), Two(Lent(4), r2, q2));
  }

  lemma {:induction false} FourBinds()
    ensures var up, r1, r2 := Resting({}, Quiet), Resting({0}, Quiet), Resting({0, 1}, Quiet);
            var q1, q2 := Resting({2}, Quiet), Resting({2, 3}, Quiet);
            && Reaches(Two(Lent(0), up, up), BindRound(0), Two(Lent(1), r1, up))
            && Reaches(Two(Lent(1), r1, up), BindRound(0), Two(Lent(2), r2, up))
            && Reaches(Two(Lent(2), r2, up), BindRound(1), Two(Lent(3), r2, q1))
            && Reaches(Two(Lent(3), r2, q1), BindRound(1), Two(Lent(4), r2, q2))
  {
    hide Reaches, Two, D.Bind, D.FirstGrantableFrom, BindRound;
    var up, r1, r2 := Resting({}, Quiet), Resting({0}, Quiet), Resting({0, 1}, Quiet);
    var q1 := Resting({2}, Quiet);
    LentStep(0);
    LentStep(1);
    LentStep(2);
    LentStep(3);
    assert {} + {0} == {0} && {0} + {1} == {0, 1} && {} + {2} == {2} && {2} + {3} == {2, 3};
    BindReaches(Lent(0), up, up, 0, {});
    BindReaches(Lent(1), up, up, 0, {0});
    BindReaches(Lent(2), r2, up, 1, {});
    BindReaches(Lent(3), r2, q1, 1, {2});
  }

  /** The daemon when client 0 has given back one of its two chunks and been charged for two. */
  function Overcharged(): (d: D.State)
    ensures D.Shape(d)
  {
    D.RecvDone(Lent(4), 0, {0}, 2)
  }

  lemma {:induction false} OverchargedIs()
    ensures var d := Overcharged();
            && d.conns[0].state != D.ConnIdle && d.conns[1].state != D.ConnIdle && d.conns[0].mapped == 0
            && d.owner[1] == 0 && 1 in D.Owned(d, 0)
  {
    hide Lent;
    LentStep(4);
  }

  lemma {:induction false} DestroyLoses(d: D.State)
    requires D.Shape(d) && d.conns[0].mapped == 0 && d.owner[1] == 0
    ensures D.Lost(D.Destroy(d, 0), 1)
  {
  }

  lemma {:induction false} LentInv(n: nat)
    requires n <= 4
    ensures D.Inv(Lent(n)) && Lent(n).mappedSize == n
  {
    hide D.Bind, D.Inv, D.Connect, D.Init, D.FirstGrantableFrom;
    LentStep(n);
    if n == 0 {
      D.InitInv(14);
      ConnectedInv();
    } else {
      LentInv(n - 1);
      LentStep(n - 1);
      var d, k := Lent(n - 1), if n <= 2 then 0 else 1;
      D.BindInvExactly(d, k);
      assert D.Grantable(d, n - 1);
      BindCounts(d, k);
    }
  }

  lemma ConnectedInv()
    requires D.Inv(D.Init(14))
    ensures D.Inv(Connected()) && Connected().mappedSize == 0
  {
    D.ConnectInv(D.Init(14), 0);
    D.ConnectInv(D.Connect(D.Init(14), 0), 1);
  }

  lemma BindCounts(d: D.State, k: int)
    requires D.Shape(d) && 0 <= k < CLIENTS
    ensures D.Bind(d, k).mappedSize == d.mappedSize + 1
  {
  }

  /** Three chunks are taken back while chunk 1 is the busiest of the four and chunk 3 the busiest of the rest. */
  method StoryIsEviction(random: seq<nat>, report: seq<seq<int>>)
    returns (send: seq<bool>, flagged: set<int>, last: int, stops: seq<E.Stop>)
    requires |random| >= 5 && E.Reports(Lent(4), report)
    requires report[0][0] < report[1][2] < report[1][3] < report[0][1]
    ensures flagged == {0, 2, 3} && last == 1 && |stops| == CLIENTS
    ensures stops[0] == E.StopChunks({0}, 2) && stops[1] == E.StopChunks({2, 3}, 2)
  {
    hide Lent, D.Inv, E.BusiestLast, E.LeastActive, E.LastFlagged, E.StopFor, E.Reports, E.PolledChunks;
    LentInv(4);
    LentStep(4);
    send, flagged, last, stops := E.TakeBack(Lent(4), 3, random, report);
    StoryFlags(report, send, flagged, last);
    StoryStops(send);
  }

  lemma {:induction false} StoryFlags(report: seq<seq<int>>, send: seq<bool>, flagged: set<int>, last: int)
    requires E.Reports(Lent(4), report) && |send| == CLIENTS
    requires report[0][0] < report[1][2] < report[1][3] < report[0][1]
    requires E.PolledChunks(Lent(4), send) == set i | 0 <= i < D.CHUNKS && Lent(4).owner[i] != D.NONE
    requires E.LeastActive(Lent(4), report, send, flagged, 3) && E.BusiestLast(Lent(4), report, send, flagged, last)
    ensures flagged == {0, 2, 3} && last == 1 && send[0] && send[1]
  {
    hide Lent;
    LentStep(4);
    var d := Lent(4);
    assert E.PolledChunks(d, send) == {0, 1, 2, 3};
    assert E.Polled(d, send, 0) && E.Polled(d, send, 2);
    assert E.ActivityOf(d, report, 0) == report[0][0] && E.ActivityOf(d, report, 1) == report[0][1];
    assert E.ActivityOf(d, report, 2) == report[1][2] && E.ActivityOf(d, report, 3) == report[1][3];
    forall p | p in {0, 2, 3} && 1 in flagged
      ensures p in flagged
    {
      assert p in E.PolledChunks(d, send);
    }
    if 1 in flagged {
      SubsetCard({0, 1, 2, 3}, flagged);
      assert false;
    }
    SubsetCard(flagged, {0, 2, 3});
    assert 3 in flagged;
  }

  lemma {:induction false} StoryStops(send: seq<bool>)
    requires |send| == CLIENTS && send[0] && send[1]
    ensures E.StopFor(Lent(4), send, {0, 2, 3}, 1, 0) == E.StopChunks({0}, 2)
    ensures E.StopFor(Lent(4), send, {0, 2, 3}, 1, 1) == E.StopChunks({2, 3}, 2)
  {
    hide Lent;
    LentStep(4);
    assert {0, 2, 3} * D.Owned(Lent(4), 0) == {0} && {0, 2, 3} * D.Owned(Lent(4), 1) == {2, 3};
  }

  /** At the end of the story chunk 1 is lent to an entry of the table that nobody uses. */
  lemma {:induction false} ChunkIsLost() returns (states: seq<System>)
    ensures IsRun(states, Story()) && |Story()| == 28
    ensures Leaks(states[27], Story()[27]) && D.Lost(states[28].daemon, 1) && !D.TablesOk(states[28].daemon)
  {
    hide Reaches, Two, Lent, D.RecvDone, D.Destroy, Step, Enabled, D.Lost;
    var a, b, s := Resting({0, 1}, Quiet), Resting({2, 3}, Quiet), Two(D.Init(14), DownLink(), DownLink());
    var a', b' := Resting({0, 1}, Reported({0, 1})), Resting({2, 3}, Reported({2, 3}));
    var d, e, rest := Lent(4), Overcharged(), Resting({1}, Quiet);
    OpeningReaches();
    LentFour();
    OverchargedIs();
    EvictReaches(d, a, b, 0, {0, 1});
    EvictReaches(d, a', b, 1, {2, 3});
    assert {0, 1} - {0} == {1};
    StopReaches(d, a, b', 0, {0, 1}, {0}, 2);
    LeaveReaches(e, a, b', 0, {1});
    var t := Two(d, a, b);
    ReachesChain(t, EvictRound(0), Two(d, a', b), EvictRound(1), Two(d, a', b'));
    ReachesChain(t, EvictRound(0) + EvictRound(1), Two(d, a', b'), StopRound(0, {0}, 2), Two(e, rest, b'));
    var u := Two(D.Destroy(e, 0), DownLink(), b');
    ReachesChain(t, EvictRound(0) + EvictRound(1) + StopRound(0, {0}, 2), Two(e, rest, b'), LeaveRound(0), u);
    ReachesChain(s, Opening(), t, EvictRound(0) + EvictRound(1) + StopRound(0, {0}, 2) + LeaveRound(0), u);
    InitTwo(D.Init(14));
    states := ReachesIsRun(s, Story(), u);
    DestroyLoses(e);
    TwoDaemon(D.Destroy(e, 0), DownLink(), b');
    OneDestroy();
    LastIsLeak(states);
  }

  lemma LentFour()
    ensures Lent(4).conns[0].state != D.ConnIdle && Lent(4).conns[1].state != D.ConnIdle
  {
    hide Lent;
    LentStep(4);
  }

  lemma InitTwo(d: D.State)
    requires d == D.Init(14)
    ensures Init(Two(d, DownLink(), DownLink()))
  {
  }

  lemma TwoDaemon(d: D.State, a: Link, b: Link)
    requires D.Shape(d)
    ensures Two(d, a, b).daemon == d
  {
  }

  /** Only the last event destroys a connection. */
  lemma OneDestroy()
    ensures |Story()| == 28 && Story()[27] == DaemonDestroy(0)
    ensures forall n :: 0 <= n < 27 ==> !Story()[n].DaemonDestroy?
  {
  }

  /** Tables that agreed before the last event no longer do, so it was a leak. */
  lemma {:induction false} LastIsLeak(states: seq<System>)
    requires IsRun(states, Story()) && |Story()| == 28 && Shape(states[28]) && D.Lost(states[28].daemon, 1)
    ensures Leaks(states[27], Story()[27]) && !D.TablesOk(states[28].daemon)
  {
    hide Step, Enabled, D.Lost, Story, Safe, D.TablesOk, D.Safe;
    OneDestroy();
    var early, before := Story()[..27], states[..28];
    assert IsRun(before, early);
    RunKeepsTables(before, early, 27);
    RunKeepsSafe(states, Story(), 27);
    RunKeepsSafe(states, Story(), 28);
    SafeDaemon(states[28]);
    D.TablesExactly(states[28].daemon);
    StepKeepsTablesExactly(states[27], Story()[27]);
  }

  lemma SafeDaemon(s: System)
    requires Safe(s)
    ensures D.Safe(s.daemon)
  {
  }
}
