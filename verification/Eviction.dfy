/**
 evict_mem (framework/infiniswap_daemon/rdma-common.c:249-407): when the host runs short of memory,
 free unlent chunks, then poll some clients and take back the least active of their chunks.
 */
module Eviction {
  import opened Counting
  import opened Daemon
  import opened DaemonSession

  /** An entry of evict_list. */
  datatype Activity = Activity(activity: int, chunk: int)

  // ---------------------------------------------------------------- freeing unlent chunks

  function GrantableBelow(d: State, n: nat): set<int>
    requires Shape(d) && n <= CHUNKS
  {
    set i | 0 <= i < n && Grantable(d, i)
  }

  lemma GrantableBelowSnoc(d: State, n: nat)
    requires Shape(d) && n < CHUNKS
    ensures GrantableBelow(d, n + 1) == if Grantable(d, n) then GrantableBelow(d, n) + {n} else GrantableBelow(d, n)
    ensures |GrantableBelow(d, n + 1)| == |GrantableBelow(d, n)| + if Grantable(d, n) then 1 else 0
  {
    assert Grantable(d, n) ==> GrantableBelow(d, n + 1) == GrantableBelow(d, n) + {n};
    assert !Grantable(d, n) ==> GrantableBelow(d, n + 1) == GrantableBelow(d, n);
  }

  /** The first loop: free the lowest grantable chunks, until there are none or enough. */
  method FreeUnlent(s: Session, evictG: int) returns (freedG: int, ghost freed: set<int>)
    requires s.Valid() && evictG > 0
    modifies s, s.mallocMap
    ensures s.Valid() && s.mallocMap == old(s.mallocMap) && s.connMap == old(s.connMap)
    ensures freed <= old(GrantableChunks(s.View())) &&
            freedG == |freed| == Min(evictG, |old(GrantableChunks(s.View()))|)
    ensures s.View() == FreeChunks(old(s.View()), freed)
  {
    ghost var d := s.View();
    freedG, freed := 0, {};
    FillNothing(d.mallocMap, EMPTY);
    assert GrantableBelow(d, 0) == {};
    assert GrantableBelow(d, CHUNKS) == GrantableChunks(d);
    var i := 0;
    while i < CHUNKS
      invariant 0 <= i <= CHUNKS && freed == GrantableBelow(d, i) && freedG == |freed| < evictG
      invariant s.mallocMap[..] == Fill(d.mallocMap, freed, EMPTY)
      modifies s.mallocMap
    {
      GrantableBelowSnoc(d, i);
      if s.mallocMap[i] == MALLOCED && s.connMap[i] == NONE {
        FillAdd(d.mallocMap, freed, i, EMPTY);
        s.mallocMap[i] := EMPTY;
        freed := freed + {i};
        freedG := freedG + 1;
        if freedG == evictG { break; }
      }
      i := i + 1;
    }
    SubsetCard(freed, GrantableChunks(d));
    s.sizeGb := s.sizeGb - freedG;
  }

  // ---------------------------------------------------------------- choosing whom to poll

  function Around(start: nat, d: nat): nat { (start + d) % CHUNKS }

  lemma AroundStep(start: nat, d: nat)
    requires start < CHUNKS && d < CHUNKS
    ensures Around(start, d + 1) == (Around(start, d) + 1) % CHUNKS
    ensures (Around(start, d) - start) % CHUNKS == d
  {
  }

  lemma AroundStart(start: nat)
    requires start < CHUNKS
    ensures Around(start, 0) == start
  {
  }

  lemma AroundReaches(start: nat, z: nat)
    requires start < CHUNKS && z < CHUNKS
    ensures Around(start, (z - start) % CHUNKS) == z
  {
  }

  /** The circular probe: the first selectable entry at or after a random start.  It always ends. */
  method Probe(select: array<int>, start: nat) returns (r: nat)
    requires select.Length == CHUNKS && start < CHUNKS && CountEq(select[..], 0) > 0
    ensures r < CHUNKS && select[r] == 0
    ensures forall d :: 0 <= d < (r - start) % CHUNKS ==> select[Around(start, d)] != 0
  {
    hide Around;
    WhereCount(select[..], 0);
    ghost var z := Pick(Where(select[..], 0));
    ghost var far := (z - start) % CHUNKS;
    AroundReaches(start, z);
    AroundStart(start);
    r := start;
    ghost var steps := 0;
    while select[r] != 0
      invariant 0 <= r < CHUNKS && r == Around(start, steps) && 0 <= steps <= far < CHUNKS
      invariant forall d :: 0 <= d < steps ==> 0 <= Around(start, d) < CHUNKS && select[Around(start, d)] != 0
      decreases far - steps
    {
      AroundStep(start, steps);
      r := (r + 1) % CHUNKS;
      steps := steps + 1;
    }
    AroundStep(start, steps);
  }

  /** A chunk may be taken back from a polled connection. */
  predicate Polled(d: State, send: seq<bool>, i: int)
    requires Shape(d) && |send| == CLIENTS && 0 <= i < CHUNKS
  {
    0 <= d.owner[i] < CLIENTS && send[d.owner[i]]
  }

  function PolledChunks(d: State, send: seq<bool>): set<int>
    requires Shape(d) && |send| == CLIENTS
  {
    set i | 0 <= i < CHUNKS && Polled(d, send, i)
  }

  function Selectable(owner: seq<int>): (r: seq<int>)
    ensures |r| == |owner|
  {
    seq(|owner|, i requires 0 <= i < |owner| => if owner[i] == NONE then -1 else 0)
  }

  lemma {:induction false} SelectableCount(owner: seq<int>)
    ensures CountEq(Selectable(owner), 0) == |owner| - CountEq(owner, NONE)
  {
    if owner != [] {
      var n := |owner| - 1;
      SelectableCount(owner[..n]);
      assert Selectable(owner)[..n] == Selectable(owner[..n]);
    }
  }

  lemma PollOneMore(d: State, send: seq<bool>, r: int)
    requires Shape(d) && |send| == CLIENTS && 0 <= r < CHUNKS && 0 <= d.owner[r] < CLIENTS
    ensures PolledChunks(d, send) + {r} <= PolledChunks(d, send[d.owner[r] := true])
  {
  }

  /** Poll the owners of rounds chunks, each chosen by a random probe among those not chosen yet. */
  method PollRandom(d: State, rounds: int, random: seq<nat>) returns (send: seq<bool>)
    requires Daemon.Inv(d) && 0 <= rounds <= d.mappedSize && |random| >= rounds
    ensures |send| == CLIENTS && |PolledChunks(d, send)| >= rounds
  {
    hide PolledChunks, Polled;
    send := seq(CLIENTS, _ => false);
    var select := new int[CHUNKS];
    var i := 0;
    while i < CHUNKS
      invariant 0 <= i <= CHUNKS && select[..i] == Selectable(d.owner)[..i]
    {
      select[i] := if d.owner[i] == NONE then -1 else 0;
      i := i + 1;
    }
    assert select[..] == Selectable(d.owner);
    SelectableCount(d.owner);
    var j := 0;
    ghost var chosen: set<int> := {};
    while j < rounds
      invariant 0 <= j <= rounds && |send| == CLIENTS && CountEq(select[..], 0) == d.mappedSize - j && |chosen| == j
      invariant forall i :: 0 <= i < CHUNKS && select[i] == 0 ==> d.owner[i] != NONE && i !in chosen
      invariant chosen <= PolledChunks(d, send)
    {
      var r := Probe(select, random[j] % CHUNKS);
      CountUpdate(select[..], r, 1, 0);
      PollOneMore(d, send, r);
      select[r] := 1;
      send := send[d.owner[r] := true];
      chosen := chosen + {r};
      j := j + 1;
    }
    SubsetCard(chosen, PolledChunks(d, send));
  }

  // ---------------------------------------------------------------- polling

  /** ACTIVITY replies: report[k][i] is positive exactly for the chunks that connection k holds. */
  predicate Reports(d: State, report: seq<seq<int>>) {
    && Shape(d) && |report| == CLIENTS
    && (forall k :: 0 <= k < CLIENTS ==> |report[k]| == CHUNKS)
    && forall k, i :: 0 <= k < CLIENTS && 0 <= i < CHUNKS ==> (report[k][i] != 0 <==> d.owner[i] == k)
  }

  function ActivityOf(d: State, report: seq<seq<int>>, i: int): int
    requires Reports(d, report) && 0 <= i < CHUNKS && 0 <= d.owner[i] < CLIENTS
  {
    report[d.owner[i]][i]
  }

  predicate Distinct(list: seq<Activity>) {
    forall x, y :: 0 <= x < y < |list| ==> list[x].chunk != list[y].chunk
  }

  function ChunksIn(list: seq<Activity>): set<int> {
    set x | 0 <= x < |list| :: list[x].chunk
  }

  lemma {:induction false} DistinctCard(list: seq<Activity>)
    requires Distinct(list)
    ensures |ChunksIn(list)| == |list|
  {
    if list == [] {
      assert ChunksIn(list) == {};
    } else {
      var n := |list| - 1;
      DistinctCard(list[..n]);
      assert ChunksIn(list) == ChunksIn(list[..n]) + {list[n].chunk};
      assert list[n].chunk !in ChunksIn(list[..n]);
    }
  }

  /** Every entry of the list is the report of a polled chunk. */
  predicate Entries(d: State, report: seq<seq<int>>, send: seq<bool>, list: seq<Activity>)
    requires Reports(d, report) && |send| == CLIENTS
  {
    forall x :: 0 <= x < |list| ==>
      && 0 <= list[x].chunk < CHUNKS && Polled(d, send, list[x].chunk)
      && list[x].activity == ActivityOf(d, report, list[x].chunk)
  }

  /** The chunks of polled connections met before connection k, and those of k below chunk m. */
  function Met(d: State, send: seq<bool>, k: int, m: int): set<int>
    requires Shape(d) && |send| == CLIENTS
  {
    set i | 0 <= i < CHUNKS && Polled(d, send, i) && (d.owner[i] < k || (d.owner[i] == k && i < m))
  }

  lemma MetAdd(d: State, send: seq<bool>, k: int, m: int)
    requires Shape(d) && |send| == CLIENTS && 0 <= k < CLIENTS && send[k] && 0 <= m < CHUNKS
    ensures Met(d, send, k, m + 1) == if d.owner[m] == k then Met(d, send, k, m) + {m} else Met(d, send, k, m)
    ensures d.owner[m] == k ==> m !in Met(d, send, k, m)
  {
  }

  lemma MetNext(d: State, send: seq<bool>, k: int)
    requires Shape(d) && |send| == CLIENTS && 0 <= k < CLIENTS
    ensures Met(d, send, k + 1, 0) == if send[k] then Met(d, send, k, CHUNKS) else Met(d, send, k, 0)
  {
  }

  lemma ListAdd(list: seq<Activity>, a: Activity)
    requires Distinct(list) && a.chunk !in ChunksIn(list)
    ensures Distinct(list + [a]) && ChunksIn(list + [a]) == ChunksIn(list) + {a.chunk}
  {
    var l := list + [a];
    forall x, y | 0 <= x < y < |l| ensures l[x].chunk != l[y].chunk {
      assert list == l[..|list|];
      if y == |list| { assert list[x].chunk in ChunksIn(list); }
    }
    forall c | c in ChunksIn(list) + {a.chunk} ensures c in ChunksIn(l) {
      if c == a.chunk { assert l[|list|].chunk == c; } else {
        var x :| 0 <= x < |list| && list[x].chunk == c;
        assert l[x].chunk == c;
      }
    }
  }

  /** Gather the replies into evict_list: every polled chunk once. */
  method Gather(d: State, report: seq<seq<int>>, send: seq<bool>) returns (list: seq<Activity>)
    requires Reports(d, report) && |send| == CLIENTS
    ensures Distinct(list) && Entries(d, report, send, list) && ChunksIn(list) == PolledChunks(d, send)
  {
    list := [];
    assert Met(d, send, 0, 0) == {};
    var k := 0;
    while k < CLIENTS
      invariant 0 <= k <= CLIENTS && Distinct(list) && Entries(d, report, send, list) &&
                ChunksIn(list) == Met(d, send, k, 0)
    {
      MetNext(d, send, k);
      if send[k] {
        var m := 0;
        while m < CHUNKS
          invariant 0 <= m <= CHUNKS && Distinct(list) && Entries(d, report, send, list) &&
                    ChunksIn(list) == Met(d, send, k, m)
        {
          MetAdd(d, send, k, m);
          if report[k][m] != 0 {
            ListAdd(list, Activity(report[k][m], m));
            list := list + [Activity(report[k][m], m)];
          }
          m := m + 1;
        }
      }
      k := k + 1;
    }
    assert Met(d, send, CLIENTS, 0) == PolledChunks(d, send);
  }

  // ---------------------------------------------------------------- choosing what to take back

  method Swap(list: array<Activity>, n: int, m: int)
    requires 0 <= n < m < list.Length
    modifies list
    ensures list[n] == old(list[m]) && list[m] == old(list[n])
    ensures forall x :: 0 <= x < list.Length && x != n && x != m ==> list[x] == old(list[x])
    ensures multiset(list[..]) == multiset(old(list[..]))
  {
    list[n], list[m] := list[m], list[n];
  }

  /** The first n entries are in order, and none is more active than a later one. */
  predicate LeastFirst(list: seq<Activity>, n: int) {
    forall x, y :: 0 <= x < n && x <= y < |list| ==> list[x].activity <= list[y].activity
  }

  /** One pass of the exchange sort brings the least active of the rest to position n. */
  method ExchangePass(list: array<Activity>, n: int)
    requires 0 <= n < list.Length && LeastFirst(list[..], n)
    modifies list
    ensures multiset(list[..]) == multiset(old(list[..])) && LeastFirst(list[..], n + 1)
    ensures list[..n] == old(list[..n])
  {
    var m := n + 1;
    while m < list.Length
      invariant n < m <= list.Length && multiset(list[..]) == multiset(old(list[..]))
      invariant list[..n] == old(list[..n])
      invariant LeastFirst(list[..], n)
      invariant forall y :: n <= y < m ==> list[n].activity <= list[y].activity
    {
      if list[n].activity > list[m].activity {
        Swap(list, n, m);
      }
      m := m + 1;
    }
  }

  lemma {:induction false} CardDistinct(list: seq<Activity>)
    ensures |ChunksIn(list)| <= |list| && (|ChunksIn(list)| == |list| ==> Distinct(list))
  {
    if list == [] {
      assert ChunksIn(list) == {};
    } else {
      var n := |list| - 1;
      var front := list[..n];
      CardDistinct(front);
      assert ChunksIn(list) == ChunksIn(front) + {list[n].chunk};
      if |ChunksIn(list)| == |list| {
        assert list[n].chunk !in ChunksIn(front);
        ListAdd(front, list[n]);
        assert list == front + [list[n]];
      }
    }
  }

  lemma PermutedMember(a: seq<Activity>, b: seq<Activity>, x: int) returns (y: int)
    requires multiset(a) == multiset(b) && 0 <= x < |a|
    ensures 0 <= y < |b| && b[y] == a[x]
  {
    assert a[x] in multiset(b);
    y :| 0 <= y < |b| && b[y] == a[x];
  }

  lemma PermutedList(d: State, report: seq<seq<int>>, send: seq<bool>, a: seq<Activity>, b: seq<Activity>)
    requires Reports(d, report) && |send| == CLIENTS && multiset(a) == multiset(b)
    requires Distinct(a) && Entries(d, report, send, a)
    ensures |a| == |b| && Distinct(b) && Entries(d, report, send, b) && ChunksIn(b) == ChunksIn(a)
  {
    assert |a| == |multiset(a)| == |multiset(b)| == |b|;
    forall x | 0 <= x < |b| ensures exists y :: 0 <= y < |a| && a[y] == b[x] {
      var y := PermutedMember(b, a, x);
    }
    forall x | 0 <= x < |a| ensures exists y :: 0 <= y < |b| && b[y] == a[x] {
      var y := PermutedMember(a, b, x);
    }
    assert ChunksIn(b) == ChunksIn(a);
    DistinctCard(a);
    CardDistinct(b);
  }

  /** flagged are g of the polled chunks, none more active than a polled chunk left alone. */
  predicate LeastActive(d: State, report: seq<seq<int>>, send: seq<bool>, flagged: set<int>, g: int)
    requires Reports(d, report) && |send| == CLIENTS
  {
    && |flagged| == g && flagged <= PolledChunks(d, send)
    && forall f, p :: f in flagged && p in PolledChunks(d, send) - flagged ==>
         ActivityOf(d, report, f) <= ActivityOf(d, report, p)
  }

  lemma {:induction false} FrontIsLeastActive(d: State, report: seq<seq<int>>, send: seq<bool>, list: seq<Activity>,
                                              j: int)
    requires Reports(d, report) && |send| == CLIENTS && 0 <= j <= |list|
    requires Distinct(list) && Entries(d, report, send, list) && ChunksIn(list) == PolledChunks(d, send) &&
             LeastFirst(list, j)
    ensures LeastActive(d, report, send, ChunksIn(list[..j]), j)
  {
    var flagged := ChunksIn(list[..j]);
    DistinctCard(list[..j]);
    forall f | f in flagged ensures f in PolledChunks(d, send) {
      var x :| 0 <= x < |list[..j]| && list[..j][x].chunk == f;
      assert list[x].chunk == f;
    }
    forall f, p | f in flagged && p in PolledChunks(d, send) - flagged
      ensures ActivityOf(d, report, f) <= ActivityOf(d, report, p)
    {
      var x :| 0 <= x < |list[..j]| && list[..j][x].chunk == f;
      assert list[x].chunk == f;
      assert p in ChunksIn(list);
      var y :| 0 <= y < |list| && list[y].chunk == p;
      assert forall z :: 0 <= z < j ==> list[..j][z].chunk in flagged;
    }
  }

  /** Poll everybody who holds a chunk, or the owners of a random choice. */
  method ChoosePolled(d: State, evictG: int, random: seq<nat>) returns (send: seq<bool>, g: int)
    requires Daemon.Inv(d) && evictG >= 0 && |random| >= evictG + EXTRA
    ensures |send| == CLIENTS && g == Min(evictG, d.mappedSize) && g <= |PolledChunks(d, send)|
    ensures d.mappedSize < evictG + 2 ==> PolledChunks(d, send) == set i | 0 <= i < CHUNKS && d.owner[i] != NONE
    ensures |PolledChunks(d, send)| >= Min(evictG + 2, d.mappedSize)
  {
    g := evictG;
    if d.mappedSize < evictG + EXTRA {
      if d.mappedSize < evictG { g := d.mappedSize; }
      send := seq(CLIENTS, k requires 0 <= k < CLIENTS => d.conns[k].state == ConnMapped);
      forall i | 0 <= i < CHUNKS && d.owner[i] != NONE ensures Polled(d, send, i) {
        OwnerIsMapped(d, i);
      }
      WhereCount(d.owner, NONE);
      OwnedCount(d.owner);
      assert PolledChunks(d, send) == set i | 0 <= i < CHUNKS && d.owner[i] != NONE;
    } else {
      send := PollRandom(d, evictG + EXTRA, random);
    }
  }

  lemma OwnerIsMapped(d: State, i: int)
    requires Daemon.Inv(d) && 0 <= i < CHUNKS && d.owner[i] != NONE
    ensures d.conns[d.owner[i]].state == ConnMapped
  {
    WhereCount(d.owner, d.owner[i]);
    assert i in Where(d.owner, d.owner[i]);
  }

  lemma {:induction false} OwnedCount(owner: seq<int>)
    ensures |set i | 0 <= i < |owner| && owner[i] != NONE| == |owner| - CountEq(owner, NONE)
  {
    var s := set i | 0 <= i < |owner| && owner[i] != NONE;
    if owner == [] {
      assert s == {};
    } else {
      var n := |owner| - 1;
      OwnedCount(owner[..n]);
      var s' := set i | 0 <= i < |owner[..n]| && owner[..n][i] != NONE;
      assert s == if owner[n] != NONE then s' + {n} else s';
    }
  }

  // ---------------------------------------------------------------- telling the clients

  /** What is being put together for a connection in its send_msg: the flags and their number. */
  datatype Message = Message(rkey: seq<bool>, sizeGb: int)

  /** The chunks flagged so far, as the messages and send_list record them. */
  ghost predicate Marked(d: State, send: seq<bool>, flagged: set<int>, messages: seq<Message>, sendList: seq<int>)
    requires Shape(d) && |send| == CLIENTS
  {
    && |messages| == CLIENTS && |sendList| == CLIENTS
    && forall k :: 0 <= k < CLIENTS ==> MarkedFor(d, send, flagged, messages[k], sendList[k], k)
  }

  ghost predicate MarkedFor(d: State, send: seq<bool>, flagged: set<int>, m: Message, sent: int, k: int)
    requires Shape(d) && |send| == CLIENTS && 0 <= k < CLIENTS
  {
    var share := flagged * Owned(d, k);
    && |m.rkey| == CHUNKS && Flagged(m.rkey, CHUNKS) == share && m.sizeGb == |share|
    && sent == if !send[k] then -1 else if share == {} then 1 else 2
  }

  lemma NothingMarked(d: State, send: seq<bool>, messages: seq<Message>, sendList: seq<int>)
    requires Shape(d) && |send| == CLIENTS && |messages| == CLIENTS && |sendList| == CLIENTS
    requires forall k :: 0 <= k < CLIENTS ==> messages[k] == Message(seq(CHUNKS, _ => false), 0)
    requires forall k :: 0 <= k < CLIENTS ==> sendList[k] == if send[k] then 1 else -1
    ensures Marked(d, send, {}, messages, sendList)
  {
    assert Flagged(seq(CHUNKS, _ => false), CHUNKS) == {};
    forall k | 0 <= k < CLIENTS
      ensures MarkedFor(d, send, {}, messages[k], sendList[k], k)
    {
      assert {} * Owned(d, k) == {};
    }
  }

  /** Flagging one more chunk touches the message of its owner alone. */
  lemma MarkOne(d: State, send: seq<bool>, flagged: set<int>, c: int, m: Message, sent: int, k: int)
    requires Shape(d) && |send| == CLIENTS && 0 <= k < CLIENTS && MarkedFor(d, send, flagged, m, sent, k)
    requires 0 <= c < CHUNKS && c !in flagged && Polled(d, send, c)
    ensures d.owner[c] != k ==> MarkedFor(d, send, flagged + {c}, m, sent, k)
    ensures d.owner[c] == k ==>
              MarkedFor(d, send, flagged + {c}, Message(m.rkey[c := true], m.sizeGb + 1),
                        if sent == 1 then 2 else sent, k)
  {
    var share := flagged * Owned(d, k);
    if d.owner[c] == k {
      assert (flagged + {c}) * Owned(d, k) == share + {c};
      assert Flagged(m.rkey[c := true], CHUNKS) == Flagged(m.rkey, CHUNKS) + {c};
    } else {
      assert (flagged + {c}) * Owned(d, k) == share;
    }
  }

  lemma ChunksNext(list: seq<Activity>, n: nat)
    requires Distinct(list) && n < |list|
    ensures ChunksIn(list[..n + 1]) == ChunksIn(list[..n]) + {list[n].chunk} && list[n].chunk !in ChunksIn(list[..n])
  {
    assert list[..n + 1] == list[..n] + [list[n]];
    forall x | 0 <= x < n
      ensures list[..n][x].chunk != list[n].chunk
    {
      assert list[x].chunk != list[n].chunk;
    }
    ListAdd(list[..n], list[n]);
  }

  /**
   The selection loop: each pass of the sort brings the least active remaining chunk to the front,
   which is flagged in the message of its owner.  The index of the last owner outlives the loop.
   */
  method FlagLeast(d: State, report: seq<seq<int>>, send: seq<bool>, list: array<Activity>, j: int)
    returns (messages: seq<Message>, sendList: seq<int>, connIndex: int)
    requires Reports(d, report) && |send| == CLIENTS && 0 <= j <= list.Length
    requires Distinct(list[..]) && Entries(d, report, send, list[..])
    modifies list
    ensures multiset(list[..]) == multiset(old(list[..])) && LeastFirst(list[..], j)
    ensures Marked(d, send, ChunksIn(list[..j]), messages, sendList)
    ensures j > 0 ==> list[..j][j - 1].chunk in ChunksIn(list[..j]) && 0 <= list[j - 1].chunk < CHUNKS
    ensures j > 0 ==> connIndex == d.owner[list[j - 1].chunk] && 0 <= connIndex < CLIENTS
  {
    hide Marked, ChunksIn, Entries, Distinct, Reports;
    messages := seq(CLIENTS, _ => Message(seq(CHUNKS, _ => false), 0));
    sendList := seq(CLIENTS, k requires 0 <= k < CLIENTS => if send[k] then 1 else -1);
    connIndex := NONE;
    ReportsShape(d, report);
    NothingMarked(d, send, messages, sendList);
    NoChunks(list[..0]);
    var n := 0;
    while n < j
      invariant 0 <= n <= j && multiset(list[..]) == multiset(old(list[..])) && LeastFirst(list[..], n)
      invariant Marked(d, send, ChunksIn(list[..n]), messages, sendList) && |messages| == |sendList| == CLIENTS
      invariant n > 0 ==> 0 <= list[n - 1].chunk < CHUNKS && connIndex == d.owner[list[n - 1].chunk]
      invariant n > 0 ==> 0 <= connIndex < CLIENTS
    {
      ExchangePass(list, n);
      PermutedList(d, report, send, old(list[..]), list[..]);
      EntryAt(d, report, send, list[..], n);
      var chunk := list[n].chunk;
      connIndex := d.owner[chunk];
      MarkNext(d, send, list[..], n, messages, sendList);
      var m := messages[connIndex];
      assert sendList == sendList[connIndex := sendList[connIndex]];
      if sendList[connIndex] == 1 { sendList := sendList[connIndex := 2]; }
      messages := messages[connIndex := Message(m.rkey[chunk := true], m.sizeGb + 1)];
      n := n + 1;
    }
    if j > 0 { InChunks(list[..j], j - 1); }
  }

  lemma ReportsShape(d: State, report: seq<seq<int>>)
    requires Reports(d, report)
    ensures Shape(d)
  {
  }

  lemma NoChunks(list: seq<Activity>)
    requires list == []
    ensures ChunksIn(list) == {}
  {
  }

  lemma InChunks(list: seq<Activity>, x: int)
    requires 0 <= x < |list|
    ensures list[x].chunk in ChunksIn(list)
  {
  }

  lemma EntryAt(d: State, report: seq<seq<int>>, send: seq<bool>, list: seq<Activity>, n: int)
    requires Reports(d, report) && |send| == CLIENTS && Entries(d, report, send, list) && 0 <= n < |list|
    ensures 0 <= list[n].chunk < CHUNKS && Polled(d, send, list[n].chunk)
  {
  }

  /** The step of the selection loop, for all connections at once. */
  lemma MarkNext(d: State, send: seq<bool>, list: seq<Activity>, n: nat, messages: seq<Message>, sendList: seq<int>)
    requires Shape(d) && |send| == CLIENTS && Distinct(list) && n < |list|
    requires 0 <= list[n].chunk < CHUNKS && Polled(d, send, list[n].chunk)
    requires Marked(d, send, ChunksIn(list[..n]), messages, sendList)
    ensures |messages| == |sendList| == CLIENTS
    ensures var c := list[n].chunk; var k := d.owner[c]; var m := messages[k];
            && |m.rkey| == CHUNKS
            && Marked(d, send, ChunksIn(list[..n + 1]), messages[k := Message(m.rkey[c := true], m.sizeGb + 1)],
                      sendList[k := if sendList[k] == 1 then 2 else sendList[k]])
  {
    hide MarkedFor, ChunksIn;
    var c := list[n].chunk;
    var k := d.owner[c];
    var m := messages[k];
    MessageShape(d, send, ChunksIn(list[..n]), m, sendList[k], k);
    ChunksNext(list, n);
    var messages' := messages[k := Message(m.rkey[c := true], m.sizeGb + 1)];
    var sendList' := sendList[k := if sendList[k] == 1 then 2 else sendList[k]];
    forall i | 0 <= i < CLIENTS
      ensures MarkedFor(d, send, ChunksIn(list[..n + 1]), messages'[i], sendList'[i], i)
    {
      MarkOne(d, send, ChunksIn(list[..n]), c, messages[i], sendList[i], i);
    }
  }

  lemma MessageShape(d: State, send: seq<bool>, flagged: set<int>, m: Message, sent: int, k: int)
    requires Shape(d) && |send| == CLIENTS && 0 <= k < CLIENTS && MarkedFor(d, send, flagged, m, sent, k)
    ensures |m.rkey| == CHUNKS
  {
  }

  /** The STOP message of each client: nothing, "no need to stop", or chunks to give up and a count. */
  datatype Stop = NotPolled | NoNeed | StopChunks(slots: set<int>, count: int)

  /** Each stopped client is told its own chunks, and how many the client flagged last gives up. */
  function StopFor(d: State, send: seq<bool>, flagged: set<int>, last: int, k: int): Stop
    requires Shape(d) && |send| == CLIENTS && 0 <= k < CLIENTS
  {
    if !send[k] then NotPolled
    else if flagged * Owned(d, k) == {} then NoNeed
    else StopChunks(flagged * Owned(d, k), |flagged * Owned(d, last)|)
  }

  /** The loop that sends STOP: its count is read from the connection the selection loop ended with. */
  method SendStops(d: State, send: seq<bool>, messages: seq<Message>, sendList: seq<int>, connIndex: int,
                   ghost flagged: set<int>)
    returns (stops: seq<Stop>)
    requires Shape(d) && |send| == CLIENTS && Marked(d, send, flagged, messages, sendList)
    requires flagged != {} ==> 0 <= connIndex < CLIENTS
    requires flagged == {} ==> connIndex == NONE
    ensures |stops| == CLIENTS && forall k :: 0 <= k < CLIENTS ==> stops[k] == StopFor(d, send, flagged, connIndex, k)
  {
    hide MarkedFor;
    stops := [];
    var sent := messages;
    var i := 0;
    while i < CLIENTS
      invariant 0 <= i <= CLIENTS && |stops| == i && |sent| == CLIENTS
      invariant forall k :: i <= k < CLIENTS ==> sent[k] == messages[k]
      invariant 0 <= connIndex < CLIENTS ==> sent[connIndex].sizeGb == messages[connIndex].sizeGb
      invariant forall k :: 0 <= k < i ==> stops[k] == StopFor(d, send, flagged, connIndex, k)
    {
      StopIs(d, send, flagged, messages, sendList, connIndex, i);
      if sendList[i] == 2 {
        var n := sent[connIndex].sizeGb;
        sent := sent[i := sent[i].(sizeGb := n)];
        stops := stops + [StopChunks(Flagged(sent[i].rkey, CHUNKS), n)];
      } else if sendList[i] == 1 {
        sent := sent[i := sent[i].(sizeGb := 0)];
        stops := stops + [NoNeed];
      } else {
        stops := stops + [NotPolled];
      }
      i := i + 1;
    }
  }

  lemma StopIs(d: State, send: seq<bool>, flagged: set<int>, messages: seq<Message>, sendList: seq<int>, last: int,
               k: int)
    requires Shape(d) && |send| == CLIENTS && 0 <= k < CLIENTS && Marked(d, send, flagged, messages, sendList)
    requires flagged != {} ==> 0 <= last < CLIENTS
    ensures |messages[k].rkey| == CHUNKS
    ensures sendList[k] == 2 ==>
              && 0 <= last < CLIENTS
              && StopFor(d, send, flagged, last, k)
                   == StopChunks(Flagged(messages[k].rkey, CHUNKS), messages[last].sizeGb)
    ensures sendList[k] == 1 ==> StopFor(d, send, flagged, last, k) == NoNeed
    ensures sendList[k] != 2 && sendList[k] != 1 ==> StopFor(d, send, flagged, last, k) == NotPolled
    ensures sendList[k] == 1 ==> last != k || messages[k].sizeGb == 0
  {
    assert MarkedFor(d, send, flagged, messages[k], sendList[k], k);
    if 0 <= last < CLIENTS { assert MarkedFor(d, send, flagged, messages[last], sendList[last], last); }
  }

  /** The second half of evict_mem: poll clients, flag the least active of their chunks, and tell their owners. */
  method TakeBack(d: State, evictG: int, random: seq<nat>, report: seq<seq<int>>)
    returns (send: seq<bool>, flagged: set<int>, last: int, stops: seq<Stop>)
    requires Daemon.Inv(d) && evictG >= 0 && |random| >= evictG + EXTRA && Reports(d, report)
    ensures |send| == CLIENTS && LeastActive(d, report, send, flagged, Min(evictG, d.mappedSize))
    ensures d.mappedSize < evictG + 2 ==> PolledChunks(d, send) == set i | 0 <= i < CHUNKS && d.owner[i] != NONE
    ensures |PolledChunks(d, send)| >= Min(evictG + 2, d.mappedSize)
    ensures LastFlagged(d, flagged, last) && BusiestLast(d, report, send, flagged, last)
    ensures |stops| == CLIENTS && forall k :: 0 <= k < CLIENTS ==> stops[k] == StopFor(d, send, flagged, last, k)
  {
    hide Marked, LeastFirst, Entries, Distinct;
    var j;
    send, j := ChoosePolled(d, evictG, random);
    var gathered := Gather(d, report, send);
    DistinctCard(gathered);
    var list := new Activity[|gathered|](x requires 0 <= x < |gathered| => gathered[x]);
    assert list[..] == gathered;
    var messages, sendList;
    messages, sendList, last := FlagLeast(d, report, send, list, j);
    ghost var sorted := list[..];
    PermutedList(d, report, send, gathered, sorted);
    FrontIsLeastActive(d, report, send, sorted, j);
    assert sorted[..j] == list[..j];
    flagged := ChunksIn(list[..j]);
    if j == 0 {
      last := NONE;
      NoChunks(list[..j]);
    } else {
      LastIsBusiest(d, report, send, sorted, j);
    }
    stops := SendStops(d, send, messages, sendList, last, flagged);
  }

  /** The connection of a flagged chunk that no flagged chunk is more active than. */
  ghost predicate BusiestLast(d: State, report: seq<seq<int>>, send: seq<bool>, flagged: set<int>, last: int)
    requires Reports(d, report) && |send| == CLIENTS && flagged <= PolledChunks(d, send)
  {
    flagged != {} ==>
      exists f :: f in flagged && d.owner[f] == last &&
        forall g :: g in flagged ==> ActivityOf(d, report, g) <= ActivityOf(d, report, f)
  }

  lemma {:induction false} LastIsBusiest(d: State, report: seq<seq<int>>, send: seq<bool>, list: seq<Activity>, j: int)
    requires Reports(d, report) && |send| == CLIENTS && 0 < j <= |list| && Entries(d, report, send, list)
    requires LeastFirst(list, j) && ChunksIn(list[..j]) <= PolledChunks(d, send)
    ensures 0 <= list[j - 1].chunk < CHUNKS
    ensures BusiestLast(d, report, send, ChunksIn(list[..j]), d.owner[list[j - 1].chunk])
  {
    var flagged, f := ChunksIn(list[..j]), list[j - 1].chunk;
    assert list[..j][j - 1].chunk in flagged;
    forall g | g in flagged
      ensures ActivityOf(d, report, g) <= ActivityOf(d, report, f)
    {
      var x :| 0 <= x < |list[..j]| && list[..j][x].chunk == g;
      assert list[x].activity <= list[j - 1].activity;
    }
  }

  /** The connection of some flagged chunk; none if there is no such chunk. */
  ghost predicate LastFlagged(d: State, flagged: set<int>, last: int)
    requires Shape(d)
  {
    if flagged == {} then last == NONE
    else 0 <= last < CLIENTS && exists f :: f in flagged && 0 <= f < CHUNKS && d.owner[f] == last
  }

  /**
   evict_mem.  Unlent chunks go first; what is then still missing is taken back from clients, up to
   what they hold, and each of them is sent a STOP.  The state the daemon is left in differs by the
   freed chunks only.
   */
  method EvictMem(s: Session, stopG: int, random: seq<nat>, report: seq<seq<int>>)
    returns (send: seq<bool>, flagged: set<int>, last: int, stops: seq<Stop>, ghost freed: set<int>)
    requires s.Valid() && Daemon.Inv(s.View()) && stopG > 0 && |random| >= stopG + EXTRA && Reports(s.View(), report)
    modifies s, s.mallocMap
    ensures s.Valid() && |send| == CLIENTS && Daemon.Inv(s.View())
    ensures freed <= old(GrantableChunks(s.View())) && |freed| == Min(stopG, |old(GrantableChunks(s.View()))|)
    ensures s.View() == FreeChunks(old(s.View()), freed)
    ensures Reports(s.View(), report)
    ensures LeastActive(s.View(), report, send, flagged, Min(stopG - |freed|, s.mappedSize))
    ensures |freed| < stopG ==> |PolledChunks(s.View(), send)| >= Min(stopG - |freed| + 2, s.mappedSize)
    ensures LastFlagged(s.View(), flagged, last) && BusiestLast(s.View(), report, send, flagged, last)
    ensures |stops| == CLIENTS && forall k :: 0 <= k < CLIENTS ==> stops[k] == StopFor(s.View(), send, flagged, last, k)
  {
    ghost var d0 := s.View();
    assert d0.mappedSize >= 0;
    var freedG;
    freedG, freed := FreeUnlent(s, stopG);
    FreeChunksInv(d0, freed);
    send, flagged, last, stops := seq(CLIENTS, _ => false), {}, NONE, seq(CLIENTS, _ => NotPolled);
    if freedG < stopG {
      var d := State(s.mallocMap[..], s.connMap[..], s.sizeGb, s.mappedSize, s.conns);
      send, flagged, last, stops := TakeBack(d, stopG - freedG, random, report);
    }
  }

  // ---------------------------------------------------------------- what the answers do

  /** The daemon when the first n clients have answered their STOP with a DONE of the same contents. */
  function ServeStops(d: State, stops: seq<Stop>, n: nat): (e: State)
    requires Shape(d) && n <= |stops| <= CLIENTS
    ensures Shape(e)
  {
    if n == 0 then d
    else
      var e := ServeStops(d, stops, n - 1);
      if stops[n - 1].StopChunks? then RecvDone(e, n - 1, stops[n - 1].slots, stops[n - 1].count) else e
  }

  /** Every stopped client is named chunks it holds, and at least one. */
  predicate OwnChunks(d: State, stops: seq<Stop>)
    requires Shape(d)
  {
    |stops| == CLIENTS
    && forall k :: 0 <= k < CLIENTS && stops[k].StopChunks? ==> stops[k].slots != {} && stops[k].slots <= Owned(d, k)
  }

  predicate Served(stops: seq<Stop>, n: nat, k: int) { 0 <= k < n && k < |stops| && stops[k].StopChunks? }

  /** What has been served of the chunks of one client. */
  function ServedSlots(stops: seq<Stop>, n: nat, k: int): set<int> {
    if Served(stops, n, k) then stops[k].slots else {}
  }

  lemma {:induction false} OwnerServed(d: State, stops: seq<Stop>, n: nat, i: int)
    requires TablesOk(d) && OwnChunks(d, stops) && n <= CLIENTS && 0 <= i < CHUNKS
    ensures ServeStops(d, stops, n).owner[i] == if i in ServedSlots(stops, n, d.owner[i]) then NONE else d.owner[i]
  {
    if n > 0 {
      OwnerServed(d, stops, n - 1, i);
      if stops[n - 1].StopChunks? && i in stops[n - 1].slots { assert i in Owned(d, n - 1); }
    }
  }

  lemma OwnedServed(d: State, stops: seq<Stop>, n: nat, k: int)
    requires TablesOk(d) && OwnChunks(d, stops) && n <= CLIENTS && 0 <= k < CLIENTS
    ensures Owned(ServeStops(d, stops, n), k) == Owned(d, k) - ServedSlots(stops, n, k)
  {
    var e := ServeStops(d, stops, n);
    forall i | 0 <= i < CHUNKS
      ensures e.owner[i] == k <==> d.owner[i] == k && i !in ServedSlots(stops, n, k)
    {
      OwnerServed(d, stops, n, i);
    }
  }

  lemma {:induction false} ConnServed(d: State, stops: seq<Stop>, n: nat, k: int)
    requires Shape(d) && |stops| == CLIENTS && n <= CLIENTS && 0 <= k < CLIENTS
    ensures var e := ServeStops(d, stops, n);
            && e.conns[k].mapped == d.conns[k].mapped - (if Served(stops, n, k) then stops[k].count else 0)
            && (!Served(stops, n, k) ==> e.conns[k] == d.conns[k])
  {
    if n > 0 { ConnServed(d, stops, n - 1, k); }
  }

  predicate HonestCounts(stops: seq<Stop>, n: nat)
    requires n <= |stops|
  {
    forall k :: 0 <= k < n && stops[k].StopChunks? ==> stops[k].count == |stops[k].slots|
  }

  lemma {:induction false} HonestKeeps(d: State, stops: seq<Stop>, n: nat)
    requires Daemon.Inv(d) && OwnChunks(d, stops) && n <= CLIENTS && HonestCounts(stops, n)
    ensures Daemon.Inv(ServeStops(d, stops, n))
  {
    if n > 0 {
      HonestKeeps(d, stops, n - 1);
      var e, k := ServeStops(d, stops, n - 1), n - 1;
      if stops[k].StopChunks? {
        OwnedServed(d, stops, n - 1, k);
        ConnServed(d, stops, n - 1, k);
        var i := Pick(stops[k].slots);
        assert i in Owned(d, k);
        RecvDoneInvExactly(e, k, stops[k].slots, stops[k].count);
      }
    }
  }

  /** Whether the tables and counters survive the answers is a matter of every single count. */
  lemma {:induction false} ServeKeepsExactly(d: State, stops: seq<Stop>)
    requires Daemon.Inv(d) && OwnChunks(d, stops)
    ensures Daemon.Inv(ServeStops(d, stops, CLIENTS)) <==> HonestCounts(stops, CLIENTS)
  {
    if HonestCounts(stops, CLIENTS) {
      HonestKeeps(d, stops, CLIENTS);
    } else {
      var k :| 0 <= k < CLIENTS && stops[k].StopChunks? && stops[k].count != |stops[k].slots|;
      var e := ServeStops(d, stops, CLIENTS);
      OwnedServed(d, stops, CLIENTS, k);
      ConnServed(d, stops, CLIENTS, k);
      WhereCount(d.owner, k);
      WhereCount(e.owner, k);
      LessSlots(Owned(d, k), stops[k].slots);
      assert e.conns[k].mapped != CountEq(e.owner, k);
    }
  }

  lemma LessSlots(xs: set<int>, ys: set<int>)
    requires ys <= xs
    ensures |xs - ys| == |xs| - |ys|
  {
    assert xs == (xs - ys) + ys;
  }

  /** All clients that give up chunks give up equally many. */
  predicate EqualShares(d: State, flagged: set<int>)
    requires Shape(d)
  {
    forall j, k ::
      0 <= j < CLIENTS && 0 <= k < CLIENTS && flagged * Owned(d, j) != {} && flagged * Owned(d, k) != {} ==>
      |flagged * Owned(d, j)| == |flagged * Owned(d, k)|
  }

  /**
   The STOP messages of an eviction, once every client has answered, leave the daemon's tables and
   counters right if and only if all clients that give up chunks give up equally many.
   */
  lemma {:induction false} StopCountsExactly(d: State, send: seq<bool>, flagged: set<int>, last: int, stops: seq<Stop>)
    requires Daemon.Inv(d) && |send| == CLIENTS && flagged <= PolledChunks(d, send) && LastFlagged(d, flagged, last)
    requires |stops| == CLIENTS && forall k :: 0 <= k < CLIENTS ==> stops[k] == StopFor(d, send, flagged, last, k)
    ensures Daemon.Inv(ServeStops(d, stops, CLIENTS)) <==> EqualShares(d, flagged)
  {
    hide CountersOk, ServeStops, StopFor, Owned, PolledChunks, EqualShares, HonestCounts, OwnChunks, LastFlagged;
    forall k | 0 <= k < CLIENTS
      ensures StopIsShare(d, flagged, last, stops[k], k)
    {
      StopShares(d, send, flagged, last, k);
    }
    OwnShares(d, flagged, last, stops);
    ServeKeepsExactly(d, stops);
    HonestExactly(d, flagged, last, stops);
  }

  /** A client is stopped if and only if it gives something up, with its own share and the count of the last one. */
  predicate StopIsShare(d: State, flagged: set<int>, last: int, stop: Stop, k: int)
    requires Shape(d)
  {
    if flagged * Owned(d, k) == {} then !stop.StopChunks?
    else stop == StopChunks(flagged * Owned(d, k), |flagged * Owned(d, last)|)
  }

  lemma {:induction false} StopShares(d: State, send: seq<bool>, flagged: set<int>, last: int, k: int)
    requires Shape(d) && |send| == CLIENTS && flagged <= PolledChunks(d, send) && 0 <= k < CLIENTS
    ensures StopIsShare(d, flagged, last, StopFor(d, send, flagged, last, k), k)
  {
    hide Owned, PolledChunks;
    ShareIsPolled(d, send, flagged, k);
  }

  lemma {:induction false} OwnShares(d: State, flagged: set<int>, last: int, stops: seq<Stop>)
    requires Shape(d) && |stops| == CLIENTS
    requires forall k :: 0 <= k < CLIENTS ==> StopIsShare(d, flagged, last, stops[k], k)
    ensures OwnChunks(d, stops)
  {
    hide Owned;
    forall k | 0 <= k < CLIENTS && stops[k].StopChunks?
      ensures stops[k].slots != {} && stops[k].slots <= Owned(d, k)
    {
      assert StopIsShare(d, flagged, last, stops[k], k);
    }
  }

  /** The counts are honest exactly when the shares are equal. */
  lemma {:induction false} HonestExactly(d: State, flagged: set<int>, last: int, stops: seq<Stop>)
    requires Shape(d) && |stops| == CLIENTS && LastFlagged(d, flagged, last)
    requires forall k :: 0 <= k < CLIENTS ==> StopIsShare(d, flagged, last, stops[k], k)
    ensures HonestCounts(stops, CLIENTS) <==> EqualShares(d, flagged)
  {
    hide Owned;
    if flagged == {} {
      assert forall k :: flagged * Owned(d, k) == {};
      assert forall k :: 0 <= k < CLIENTS ==> StopIsShare(d, flagged, last, stops[k], k) && !stops[k].StopChunks?;
    } else {
      SomeShare(d, flagged, last);
      forall k | 0 <= k < CLIENTS && flagged * Owned(d, k) != {}
        ensures stops[k].StopChunks? && stops[k].slots == flagged * Owned(d, k)
        ensures stops[k].count == |flagged * Owned(d, last)|
        ensures HonestCounts(stops, CLIENTS) ==> |flagged * Owned(d, k)| == |flagged * Owned(d, last)|
      {
        assert StopIsShare(d, flagged, last, stops[k], k);
      }
      forall k | 0 <= k < CLIENTS && stops[k].StopChunks?
        ensures flagged * Owned(d, k) != {}
      {
        assert StopIsShare(d, flagged, last, stops[k], k);
      }
    }
  }

  lemma SomeShare(d: State, flagged: set<int>, last: int)
    requires Shape(d) && flagged != {} && LastFlagged(d, flagged, last)
    ensures flagged * Owned(d, last) != {}
  {
    var f :| f in flagged && 0 <= f < CHUNKS && d.owner[f] == last;
    assert f in flagged * Owned(d, last);
  }

  lemma ShareIsPolled(d: State, send: seq<bool>, flagged: set<int>, k: int)
    requires Shape(d) && |send| == CLIENTS && flagged <= PolledChunks(d, send) && 0 <= k < CLIENTS
    ensures flagged * Owned(d, k) != {} ==> send[k]
  {
    if flagged * Owned(d, k) != {} {
      var f := Pick(flagged * Owned(d, k));
      assert f in PolledChunks(d, send);
    }
  }

  // ---------------------------------------------------------------- an eviction that goes wrong

  /** Three chunks; client 0 holds two of them and client 1 the third. */
  function TwoToOne(): (d: State)
    ensures Shape(d)
  {
    Bind(Bind(Bind(Connect(Connect(Init(13), 0), 1), 0), 0), 1)
  }

  lemma BindIs(d: State, k: int, i: int)
    requires Shape(d) && 0 <= k < CLIENTS && 0 <= i < CHUNKS && Grantable(d, i)
    requires forall j :: 0 <= j < i ==> !Grantable(d, j)
    ensures Bind(d, k).owner == d.owner[i := k] && Bind(d, k).mallocMap == d.mallocMap
    ensures Bind(d, k).mappedSize == d.mappedSize + 1
    ensures forall c :: 0 <= c < CLIENTS && d.conns[c].state != ConnIdle ==> Bind(d, k).conns[c].state != ConnIdle
  {
  }

  lemma TwoToOneIs()
    ensures Daemon.Inv(TwoToOne()) && TwoToOne().mappedSize == 3
    ensures forall i :: 0 <= i < CHUNKS ==> TwoToOne().owner[i] == if i < 2 then 0 else if i == 2 then 1 else NONE
  {
    hide Bind, Daemon.Inv;
    var d0 := Init(13);
    InitInv(13);
    var d1 := Connect(d0, 0);
    ConnectInv(d0, 0);
    var d2 := Connect(d1, 1);
    ConnectInv(d1, 1);
    assert Grantable(d2, 0);
    BindInvExactly(d2, 0);
    BindIs(d2, 0, 0);
    var d3 := Bind(d2, 0);
    assert Grantable(d3, 1);
    BindInvExactly(d3, 0);
    BindIs(d3, 0, 1);
    var d4 := Bind(d3, 0);
    assert Grantable(d4, 2);
    BindInvExactly(d4, 1);
    BindIs(d4, 1, 2);
  }

  /** Taking all three back: the STOP messages it sends ruin the daemon's counters once they are answered. */
  method EvictionMiscounts() returns (flagged: set<int>, stops: seq<Stop>)
    ensures |stops| == CLIENTS && Daemon.Inv(TwoToOne()) && !Daemon.Inv(ServeStops(TwoToOne(), stops, CLIENTS))
  {
    hide TwoToOne, ServeStops;
    var d := TwoToOne();
    TwoToOneIs();
    var report := seq(CLIENTS, k requires 0 <= k < CLIENTS =>
                        seq(CHUNKS, i requires 0 <= i < CHUNKS => if d.owner[i] == k then i + 1 else 0));
    var send, last;
    send, flagged, last, stops := TakeBack(d, 3, [0, 0, 0, 0, 0], report);
    Unequal(d, send, flagged);
    StopCountsExactly(d, send, flagged, last, stops);
  }

  lemma Unequal(d: State, send: seq<bool>, flagged: set<int>)
    requires Shape(d) && |send| == CLIENTS && flagged <= PolledChunks(d, send) && |flagged| == 3
    requires forall i :: 0 <= i < CHUNKS ==> d.owner[i] == if i < 2 then 0 else if i == 2 then 1 else NONE
    ensures !EqualShares(d, flagged)
  {
    assert flagged <= {0, 1, 2};
    SubsetCard(flagged, {0, 1, 2});
    assert flagged * Owned(d, 0) == {0, 1} && flagged * Owned(d, 1) == {2};
  }
}
