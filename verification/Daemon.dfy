/**
 The memory server (framework/infiniswap_daemon/rdma-common.c): 32 chunks of 1 GB that may be
 allocated and lent to connections, and the counters it keeps beside the tables.
 */
module Daemon {
  import opened Counting

  const CHUNKS := 32                       // MAX_FREE_MEM_GB and MAX_MR_SIZE_GB
  const CLIENTS := 32                      // MAX_CLIENT
  const EXTRA := 2                         // EXTRA_CHUNK_NUM
  const EVICT_THRESHOLD := 10              // FREE_MEM_EVICT_THRESHOLD
  const EXPAND_THRESHOLD := 20             // FREE_MEM_EXPAND_THRESHOLD
  const EMPTY := 0                         // CHUNK_EMPTY
  const MALLOCED := 1                      // CHUNK_MALLOCED
  const NONE := -1

  datatype ConnState = ConnIdle | ConnConnected | ConnMapped

  /** A connection: its state, sess_chunk_map and mapped_chunk_size. */
  datatype Conn = Conn(state: ConnState, chunkMap: seq<int>, mapped: int)

  datatype State = State(
    mallocMap: seq<int>,     // malloc_map
    owner: seq<int>,         // conn_map: chunk -> connection
    sizeGb: int,             // size_gb
    mappedSize: int,         // mapped_size
    conns: seq<Conn>)

  predicate Shape(d: State) {
    |d.mallocMap| == CHUNKS && |d.owner| == CHUNKS && |d.conns| == CLIENTS
    && forall k :: 0 <= k < CLIENTS ==> |d.conns[k].chunkMap| == CHUNKS
  }

  /** Tables agree: a lent chunk is allocated, its borrower is connected and has it in its own map. */
  predicate TablesOk(d: State) {
    && Shape(d)
    && (forall i :: 0 <= i < CHUNKS ==> d.mallocMap[i] == EMPTY || d.mallocMap[i] == MALLOCED)
    && (forall i :: 0 <= i < CHUNKS && d.owner[i] != NONE ==>
          0 <= d.owner[i] < CLIENTS && d.mallocMap[i] == MALLOCED && d.conns[d.owner[i]].state != ConnIdle)
    && (forall k, i :: 0 <= k < CLIENTS && 0 <= i < CHUNKS && d.conns[k].state != ConnIdle ==>
          d.conns[k].chunkMap[i] == if d.owner[i] == k then i else NONE)
  }

  /** The counters say what the tables hold. */
  predicate CountersOk(d: State)
    requires Shape(d)
  {
    && d.sizeGb == CountEq(d.mallocMap, MALLOCED)
    && d.mappedSize == CHUNKS - CountEq(d.owner, NONE)
    && (forall k :: 0 <= k < CLIENTS ==> d.conns[k].mapped == CountEq(d.owner, k))
    && (forall k :: 0 <= k < CLIENTS ==> (d.conns[k].state == ConnMapped <==> d.conns[k].mapped > 0))
  }

  predicate Inv(d: State) { TablesOk(d) && CountersOk(d) }

  predicate Grantable(d: State, i: int)
    requires Shape(d) && 0 <= i < CHUNKS
  {
    d.mallocMap[i] == MALLOCED && d.owner[i] == NONE
  }

  function GrantableChunks(d: State): set<int>
    requires Shape(d)
  {
    set i | 0 <= i < CHUNKS && Grantable(d, i)
  }

  /** Chunks lent to connection k. */
  function Owned(d: State, k: int): set<int>
    requires Shape(d)
  {
    Where(d.owner, k)
  }

  /** Chunks that a connection has in its own map; an entry of the map is empty or names its own index. */
  function Held(d: State, k: int): set<int>
    requires Shape(d) && 0 <= k < CLIENTS
  {
    if d.conns[k].state == ConnIdle then {} else set i | 0 <= i < CHUNKS && d.conns[k].chunkMap[i] == i
  }

  // ---------------------------------------------------------------- operations

  /**
   rdma_session_init: how many chunks to allocate for a given amount of free memory.  Up to 20 GB all
   but 10 GB are taken, and beyond that all but 15 GB, up to the size of the table.
   */
  function InitialChunks(freeMem: int): (n: nat)
    ensures n <= CHUNKS && (n == 0 <==> freeMem <= 10)
    ensures 10 < freeMem <= 20 ==> freeMem - n == 10
    ensures freeMem > 20 ==> freeMem - n >= 15 && (n < 32 ==> freeMem - n == 15)
  {
    var n := if freeMem > EXPAND_THRESHOLD then freeMem - (EVICT_THRESHOLD + EXPAND_THRESHOLD) / 2
             else if freeMem > EVICT_THRESHOLD then freeMem - EVICT_THRESHOLD
             else 0;
    if n > CHUNKS then CHUNKS else n
  }

  function IdleConn(): Conn { Conn(ConnIdle, seq(CHUNKS, _ => NONE), 0) }

  function Init(freeMem: int): (d: State)
    ensures Shape(d)
  {
    var n := InitialChunks(freeMem);
    State(seq(CHUNKS, i => if i < n then MALLOCED else EMPTY), seq(CHUNKS, _ => NONE), n, 0,
          seq(CLIENTS, _ => IdleConn()))
  }

  /** build_connection: take the idle entry k. */
  function Connect(d: State, k: int): (e: State)
    requires Shape(d) && 0 <= k < CLIENTS
    ensures Shape(e)
  {
    d.(conns := d.conns[k := Conn(ConnConnected, seq(CHUNKS, _ => NONE), 0)])
  }

  lemma InitCounters(freeMem: int)
    ensures Init(freeMem).sizeGb == InitialChunks(freeMem) && Init(freeMem).mappedSize == 0
  {
  }

  lemma ConnectCounters(d: State, k: int)
    requires Shape(d) && 0 <= k < CLIENTS
    ensures Connect(d, k).sizeGb == d.sizeGb && Connect(d, k).mappedSize == d.mappedSize
  {
  }

  function FirstGrantableFrom(d: State, i: nat): (r: int)
    requires Shape(d) && i <= CHUNKS
    ensures r == NONE || (i <= r < CHUNKS && Grantable(d, r))
    ensures r == NONE ==> forall j :: i <= j < CHUNKS ==> !Grantable(d, j)
    ensures r != NONE ==> forall j :: i <= j < r ==> !Grantable(d, j)
    decreases CHUNKS - i
  {
    if i == CHUNKS then NONE else if Grantable(d, i) then i else FirstGrantableFrom(d, i + 1)
  }

  /** The counters send_single_mr bumps, whether or not it found a chunk. */
  function BumpMapped(d: State, k: int): (e: State)
    requires Shape(d) && 0 <= k < CLIENTS
    ensures Shape(e)
  {
    d.(mappedSize := d.mappedSize + 1,
       conns := d.conns[k := d.conns[k].(state := ConnMapped, mapped := d.conns[k].mapped + 1)])
  }

  function Lend(d: State, k: int, i: int): (e: State)
    requires Shape(d) && 0 <= k < CLIENTS && 0 <= i < CHUNKS
    ensures Shape(e)
  {
    d.(owner := d.owner[i := k], conns := d.conns[k := d.conns[k].(chunkMap := d.conns[k].chunkMap[i := i])])
  }

  /** send_single_mr on BIND_SINGLE: lend the first grantable chunk. */
  function Bind(d: State, k: int): (e: State)
    requires Shape(d) && 0 <= k < CLIENTS
    ensures Shape(e)
  {
    var i := FirstGrantableFrom(d, 0);
    BumpMapped(if i == NONE then d else Lend(d, k, i), k)
  }

  /** recv_done: the client has let go of these chunks; their memory is freed. */
  function RecvDone(d: State, k: int, slots: set<int>, n: int): (e: State)
    requires Shape(d) && 0 <= k < CLIENTS
    ensures Shape(e)
  {
    var c := d.conns[k];
    d.(mallocMap := Fill(d.mallocMap, slots, EMPTY), owner := Fill(d.owner, slots, NONE),
       sizeGb := d.sizeGb - n, mappedSize := d.mappedSize - n,
       conns := d.conns[k := Conn(if c.mapped - n == 0 then ConnConnected else c.state,
                                  Fill(c.chunkMap, slots, NONE), c.mapped - n)])
  }

  /** destroy_connection: if the count is positive, what the map of the connection names becomes grantable again. */
  function Destroy(d: State, k: int): (e: State)
    requires Shape(d) && 0 <= k < CLIENTS
    ensures Shape(e)
  {
    var slots := if d.conns[k].mapped > 0 then Held(d, k) else {};
    d.(owner := Fill(d.owner, slots, NONE),
       mappedSize := if d.conns[k].mapped > 0 then d.mappedSize - d.conns[k].mapped else d.mappedSize,
       conns := d.conns[k := IdleConn()])
  }

  /** Free a set of unlent chunks, as the first loop of evict_mem does. */
  function FreeChunks(d: State, slots: set<int>): (e: State)
    requires Shape(d)
    ensures Shape(e)
  {
    d.(mallocMap := Fill(d.mallocMap, slots, EMPTY), sizeGb := d.sizeGb - |slots|)
  }

  /** Allocate a set of empty chunks and announce n of them, as the expand branch of free_mem does. */
  function Expand(d: State, slots: set<int>, n: int): (e: State)
    requires Shape(d)
    ensures Shape(e)
  {
    d.(mallocMap := Fill(d.mallocMap, slots, MALLOCED), sizeGb := d.sizeGb + n)
  }

  // ---------------------------------------------------------------- what every operation keeps

  lemma {:induction false} CountPrefix(n: nat, m: nat)
    requires n <= m
    ensures CountEq(seq(m, i => if i < n then MALLOCED else EMPTY), MALLOCED) == n
  {
    var s := seq(m, i => if i < n then MALLOCED else EMPTY);
    if m > 0 {
      if n == m {
        CountPrefix(n - 1, m - 1);
        assert s[..m - 1] == seq(m - 1, i => if i < n - 1 then MALLOCED else EMPTY);
      } else {
        CountPrefix(n, m - 1);
        assert s[..m - 1] == seq(m - 1, i => if i < n then MALLOCED else EMPTY);
      }
    }
  }

  lemma {:induction false} CountConst(m: nat, u: int, v: int)
    ensures CountEq(seq(m, _ => u), v) == if u == v then m else 0
  {
    if m > 0 {
      CountConst(m - 1, u, v);
      assert seq(m, _ => u)[..m - 1] == seq(m - 1, _ => u);
    }
  }

  lemma {:induction false} InitInv(freeMem: int)
    ensures Inv(Init(freeMem))
  {
    CountPrefix(InitialChunks(freeMem), CHUNKS);
    forall v ensures CountEq(Init(freeMem).owner, v) == if v == NONE then CHUNKS else 0 {
      CountConst(CHUNKS, NONE, v);
      assert Init(freeMem).owner == seq(CHUNKS, _ => NONE);
    }
  }

  /** Nothing is lent to an idle connection. */
  lemma IdleOwnsNothing(d: State, k: int)
    requires TablesOk(d) && 0 <= k < CLIENTS && d.conns[k].state == ConnIdle
    ensures CountEq(d.owner, k) == 0
  {
    WhereCount(d.owner, k);
    assert Where(d.owner, k) == {};
  }

  lemma {:induction false} ConnectInv(d: State, k: int)
    requires Inv(d) && 0 <= k < CLIENTS && d.conns[k].state == ConnIdle
    ensures Inv(Connect(d, k))
  {
    IdleOwnsNothing(d, k);
  }

  /** What a bind changes, with the chunk it finds. */
  lemma BindParts(d: State, k: int)
    requires Shape(d) && 0 <= k < CLIENTS
    ensures var g, e := FirstGrantableFrom(d, 0), Bind(d, k);
            && (g == NONE || (0 <= g < CHUNKS && Grantable(d, g)))
            && e.mallocMap == d.mallocMap && e.owner == (if g == NONE then d.owner else d.owner[g := k])
            && e.conns == d.conns[k := Conn(ConnMapped, e.conns[k].chunkMap, d.conns[k].mapped + 1)]
            && e.conns[k].chunkMap == if g == NONE then d.conns[k].chunkMap else d.conns[k].chunkMap[g := g]
  {
    hide Grantable;
  }

  lemma {:induction false} BindTables(d: State, k: int)
    requires TablesOk(d) && 0 <= k < CLIENTS && d.conns[k].state != ConnIdle
    ensures TablesOk(Bind(d, k))
  {
    hide Bind, FirstGrantableFrom;
    BindParts(d, k);
    var e, g := Bind(d, k), FirstGrantableFrom(d, 0);
    forall c, i | 0 <= c < CLIENTS && 0 <= i < CHUNKS && e.conns[c].state != ConnIdle
      ensures e.conns[c].chunkMap[i] == if e.owner[i] == c then i else NONE
    {
      assert d.conns[c].chunkMap[i] == if d.owner[i] == c then i else NONE;
    }
  }

  /** A bind keeps the counters right exactly when there was a chunk to lend. */
  lemma {:induction false} BindInvExactly(d: State, k: int)
    requires Inv(d) && 0 <= k < CLIENTS && d.conns[k].state != ConnIdle
    ensures Inv(Bind(d, k)) <==> exists i :: 0 <= i < CHUNKS && Grantable(d, i)
  {
    BindTables(d, k);
    var i := FirstGrantableFrom(d, 0);
    if i != NONE {
      assert Grantable(d, i);
      forall v
        ensures CountEq(d.owner[i := k], v)
             == CountEq(d.owner, v) - (if v == NONE then 1 else 0) + (if v == k then 1 else 0) {
        CountUpdate(d.owner, i, k, v);
      }
      assert CountersOk(Bind(d, k));
    } else {
      assert Bind(d, k).mappedSize != CHUNKS - CountEq(Bind(d, k).owner, NONE);
    }
  }

  lemma {:induction false} RecvDoneTables(d: State, k: int, slots: set<int>, n: int)
    requires TablesOk(d) && 0 <= k < CLIENTS && d.conns[k].state != ConnIdle && slots <= Owned(d, k)
    ensures TablesOk(RecvDone(d, k, slots, n))
  {
    var e := RecvDone(d, k, slots, n);
    forall c, i | 0 <= c < CLIENTS && 0 <= i < CHUNKS && e.conns[c].state != ConnIdle
      ensures e.conns[c].chunkMap[i] == if e.owner[i] == c then i else NONE
    {
      assert d.conns[c].chunkMap[i] == if d.owner[i] == c then i else NONE;
      if i in slots { assert i in Owned(d, k); }
    }
  }

  lemma RecvDoneCounts(d: State, k: int, slots: set<int>, n: int)
    requires Inv(d) && 0 <= k < CLIENTS && slots <= Owned(d, k)
    ensures var e := RecvDone(d, k, slots, n);
            && CountEq(e.mallocMap, MALLOCED) == CountEq(d.mallocMap, MALLOCED) - |slots|
            && forall v :: CountEq(e.owner, v) ==
                           CountEq(d.owner, v) + (if v == NONE then |slots| else 0) - (if v == k then |slots| else 0)
  {
    CountFill(d.mallocMap, slots, MALLOCED, EMPTY, MALLOCED);
    forall v
      ensures CountEq(Fill(d.owner, slots, NONE), v)
           == CountEq(d.owner, v) + (if v == NONE then |slots| else 0) - (if v == k then |slots| else 0) {
      CountFill(d.owner, slots, k, NONE, v);
    }
  }

  /** A DONE message keeps the counters right exactly when its count is the number of chunks it names. */
  lemma {:induction false} RecvDoneInvExactly(d: State, k: int, slots: set<int>, n: int)
    requires Inv(d) && 0 <= k < CLIENTS && d.conns[k].state != ConnIdle && slots <= Owned(d, k) && slots != {}
    ensures Inv(RecvDone(d, k, slots, n)) <==> n == |slots|
  {
    RecvDoneTables(d, k, slots, n);
    RecvDoneCounts(d, k, slots, n);
    WhereCount(d.owner, k);
    SubsetCard(slots, Owned(d, k));
    if n == |slots| {
      assert CountersOk(RecvDone(d, k, slots, n));
    }
  }

  lemma HeldIsOwned(d: State, k: int)
    requires TablesOk(d) && 0 <= k < CLIENTS && d.conns[k].state != ConnIdle
    ensures Held(d, k) == Owned(d, k)
  {
  }

  lemma {:induction false} DestroyInv(d: State, k: int)
    requires Inv(d) && 0 <= k < CLIENTS && d.conns[k].state != ConnIdle
    ensures Inv(Destroy(d, k)) && Owned(Destroy(d, k), k) == {}
  {
    var e := Destroy(d, k);
    var slots := Owned(d, k);
    WhereCount(d.owner, k);
    HeldIsOwned(d, k);
    assert d.conns[k].mapped == 0 ==> slots == {};
    forall v
      ensures CountEq(e.owner, v)
           == CountEq(d.owner, v) + (if v == NONE then |slots| else 0) - (if v == k then |slots| else 0) {
      CountFill(d.owner, slots, k, NONE, v);
    }
  }

  lemma {:induction false} FreeChunksInv(d: State, slots: set<int>)
    requires Inv(d) && slots <= GrantableChunks(d)
    ensures Inv(FreeChunks(d, slots))
  {
    CountFill(d.mallocMap, slots, MALLOCED, EMPTY, MALLOCED);
  }

  /** The expand branch keeps the counters right exactly when it announces what it allocated. */
  lemma {:induction false} ExpandInvExactly(d: State, slots: set<int>, n: int)
    requires Inv(d) && slots <= Where(d.mallocMap, EMPTY)
    ensures Inv(Expand(d, slots, n)) <==> n == |slots|
  {
    CountFill(d.mallocMap, slots, EMPTY, MALLOCED, MALLOCED);
  }

  // ---------------------------------------------------------------- what holds whatever the counters say

  /** A lent chunk is allocated, and what a connection has in its map is lent to it. */
  predicate Safe(d: State) {
    && Shape(d)
    && (forall i :: 0 <= i < CHUNKS ==> d.mallocMap[i] == EMPTY || d.mallocMap[i] == MALLOCED)
    && (forall i :: 0 <= i < CHUNKS && d.owner[i] != NONE ==> 0 <= d.owner[i] < CLIENTS && d.mallocMap[i] == MALLOCED)
    && forall k, i :: 0 <= k < CLIENTS && 0 <= i < CHUNKS ==> EntryOk(d.owner, d.conns[k], k, i)
  }

  /** Entry i of the map of connection k is empty, or names chunk i, which is lent to k. */
  predicate EntryOk(owner: seq<int>, c: Conn, k: int, i: int)
    requires 0 <= i < |owner| && 0 <= i < |c.chunkMap|
  {
    c.state == ConnIdle || c.chunkMap[i] == NONE || (c.chunkMap[i] == i && owner[i] == k)
  }

  lemma TablesAreSafe(d: State)
    requires TablesOk(d)
    ensures Safe(d)
  {
    forall k, i | 0 <= k < CLIENTS && 0 <= i < CHUNKS
      ensures EntryOk(d.owner, d.conns[k], k, i)
    {
      if d.conns[k].state != ConnIdle { assert d.conns[k].chunkMap[i] == if d.owner[i] == k then i else NONE; }
    }
  }

  lemma ConnectSafe(d: State, k: int)
    requires Safe(d) && 0 <= k < CLIENTS
    ensures Safe(Connect(d, k)) && Held(Connect(d, k), k) == {}
  {
    forall c, i | 0 <= c < CLIENTS && 0 <= i < CHUNKS
      ensures EntryOk(d.owner, Connect(d, k).conns[c], c, i)
    {
      assert EntryOk(d.owner, d.conns[c], c, i);
    }
  }

  lemma BindSafe(d: State, k: int)
    requires Safe(d) && 0 <= k < CLIENTS && d.conns[k].state != ConnIdle
    ensures Safe(Bind(d, k))
    ensures var i := FirstGrantableFrom(d, 0); Held(Bind(d, k), k) == Held(d, k) + if i == NONE then {} else {i}
    ensures FirstGrantableFrom(d, 0) !in Held(d, k)
  {
    hide Bind, FirstGrantableFrom;
    BindParts(d, k);
    var e, g := Bind(d, k), FirstGrantableFrom(d, 0);
    forall c, i | 0 <= c < CLIENTS && 0 <= i < CHUNKS
      ensures EntryOk(e.owner, e.conns[c], c, i)
    {
      assert EntryOk(d.owner, d.conns[c], c, i);
    }
    if g != NONE { assert EntryOk(d.owner, d.conns[k], k, g); }
    assert Held(e, k) == Held(d, k) + if g == NONE then {} else {g};
  }

  lemma RecvDoneSafe(d: State, k: int, slots: set<int>, n: int)
    requires Safe(d) && 0 <= k < CLIENTS && d.conns[k].state != ConnIdle && slots <= Held(d, k)
    ensures Safe(RecvDone(d, k, slots, n)) && Held(RecvDone(d, k, slots, n), k) == Held(d, k) - slots
  {
    var e := RecvDone(d, k, slots, n);
    forall c, i | 0 <= c < CLIENTS && 0 <= i < CHUNKS
      ensures EntryOk(e.owner, e.conns[c], c, i)
    {
      assert EntryOk(d.owner, d.conns[c], c, i);
      if i in slots { assert EntryOk(d.owner, d.conns[k], k, i); }
    }
  }

  lemma DestroySafe(d: State, k: int)
    requires Safe(d) && 0 <= k < CLIENTS && d.conns[k].state != ConnIdle
    ensures Safe(Destroy(d, k)) && Held(Destroy(d, k), k) == {}
  {
    var e := Destroy(d, k);
    forall c, i | 0 <= c < CLIENTS && 0 <= i < CHUNKS
      ensures EntryOk(e.owner, e.conns[c], c, i)
    {
      assert EntryOk(d.owner, d.conns[c], c, i);
      if i in Held(d, k) { assert EntryOk(d.owner, d.conns[k], k, i); }
    }
  }

  lemma FreeChunksSafe(d: State, slots: set<int>)
    requires Safe(d) && slots <= GrantableChunks(d)
    ensures Safe(FreeChunks(d, slots))
  {
    forall c, i | 0 <= c < CLIENTS && 0 <= i < CHUNKS
      ensures EntryOk(d.owner, FreeChunks(d, slots).conns[c], c, i)
    {
      assert EntryOk(d.owner, d.conns[c], c, i);
    }
  }

  lemma ExpandSafe(d: State, slots: set<int>, n: int)
    requires Safe(d)
    ensures Safe(Expand(d, slots, n))
  {
    forall c, i | 0 <= c < CLIENTS && 0 <= i < CHUNKS
      ensures EntryOk(d.owner, Expand(d, slots, n).conns[c], c, i)
    {
      assert EntryOk(d.owner, d.conns[c], c, i);
    }
  }

  /** A chunk that is lent, but to a connection that does not have it: nobody will give it back. */
  predicate Lost(d: State, i: int)
    requires Shape(d)
  {
    0 <= i < CHUNKS && 0 <= d.owner[i] < CLIENTS && i !in Held(d, d.owner[i])
  }

  /** No lent chunk is lost exactly when the tables agree. */
  lemma {:induction false} TablesExactly(d: State)
    requires Safe(d)
    ensures TablesOk(d) <==> forall i :: 0 <= i < CHUNKS ==> !Lost(d, i)
  {
    if forall i :: 0 <= i < CHUNKS ==> !Lost(d, i) {
      forall k, i | 0 <= k < CLIENTS && 0 <= i < CHUNKS && d.conns[k].state != ConnIdle
        ensures d.conns[k].chunkMap[i] == if d.owner[i] == k then i else NONE
      {
        assert EntryOk(d.owner, d.conns[k], k, i) && !Lost(d, i);
      }
      forall i | 0 <= i < CHUNKS && d.owner[i] != NONE
        ensures d.conns[d.owner[i]].state != ConnIdle
      {
        assert !Lost(d, i);
      }
    }
  }

  /** Destroying a connection loses its chunks exactly when it has some and its count is not positive. */
  lemma {:induction false} DestroyTablesExactly(d: State, k: int)
    requires TablesOk(d) && 0 <= k < CLIENTS && d.conns[k].state != ConnIdle
    ensures TablesOk(Destroy(d, k)) <==> d.conns[k].mapped > 0 || Owned(d, k) == {}
  {
    HeldIsOwned(d, k);
    var e := Destroy(d, k);
    if d.conns[k].mapped <= 0 && Owned(d, k) != {} {
      var i := Pick(Owned(d, k));
      assert e.owner[i] == k && e.conns[k].state == ConnIdle;
    }
  }

  /** No connection is credited with fewer chunks than it holds. */
  predicate Credited(d: State) {
    TablesOk(d) && forall k :: 0 <= k < CLIENTS ==> d.conns[k].mapped >= CountEq(d.owner, k)
  }

  lemma ConnectCredited(d: State, k: int)
    requires Credited(d) && 0 <= k < CLIENTS && d.conns[k].state == ConnIdle
    ensures Credited(Connect(d, k))
  {
    IdleOwnsNothing(d, k);
  }

  lemma BindCredited(d: State, k: int)
    requires Credited(d) && 0 <= k < CLIENTS && d.conns[k].state != ConnIdle
    ensures Credited(Bind(d, k))
  {
    BindTables(d, k);
    var i := FirstGrantableFrom(d, 0);
    if i != NONE {
      forall v
        ensures CountEq(d.owner[i := k], v) <= CountEq(d.owner, v) + if v == k then 1 else 0
      {
        CountUpdate(d.owner, i, k, v);
      }
    }
  }

  /** A DONE overdraws exactly when its count exceeds the chunks it names by more than the connection has in hand. */
  lemma {:induction false} RecvDoneCreditedExactly(d: State, k: int, slots: set<int>, n: int)
    requires Credited(d) && 0 <= k < CLIENTS && d.conns[k].state != ConnIdle && slots <= Owned(d, k)
    ensures Credited(RecvDone(d, k, slots, n)) <==> n - |slots| <= d.conns[k].mapped - |Owned(d, k)|
  {
    RecvDoneTables(d, k, slots, n);
    WhereCount(d.owner, k);
    forall v
      ensures v != NONE ==>
                CountEq(Fill(d.owner, slots, NONE), v) == CountEq(d.owner, v) - if v == k then |slots| else 0
    {
      CountFill(d.owner, slots, k, NONE, v);
    }
  }

  lemma DestroyCredited(d: State, k: int)
    requires Credited(d) && 0 <= k < CLIENTS && d.conns[k].state != ConnIdle
    ensures Credited(Destroy(d, k)) && Owned(Destroy(d, k), k) == {}
  {
    var slots := Owned(d, k);
    WhereCount(d.owner, k);
    HeldIsOwned(d, k);
    DestroyTablesExactly(d, k);
    assert d.conns[k].mapped <= 0 ==> slots == {};
    forall v
      ensures v != NONE ==>
                CountEq(Fill(d.owner, slots, NONE), v) == CountEq(d.owner, v) - if v == k then |slots| else 0
    {
      CountFill(d.owner, slots, k, NONE, v);
    }
  }

  // ---------------------------------------------------------------- what the counters are worth

  lemma {:induction false} GrantableCount(mallocMap: seq<int>, owner: seq<int>)
    requires |mallocMap| == |owner|
    requires forall i :: 0 <= i < |owner| && owner[i] != NONE ==> mallocMap[i] == MALLOCED
    ensures |Lendable(mallocMap, owner)| == CountEq(mallocMap, MALLOCED) - (|owner| - CountEq(owner, NONE))
  {
    hide Lendable;
    LendableSnoc(mallocMap, owner);
    if owner != [] { GrantableCount(mallocMap[..|owner| - 1], owner[..|owner| - 1]); }
  }

  function Lendable(mallocMap: seq<int>, owner: seq<int>): set<int>
    requires |mallocMap| == |owner|
  {
    set i | 0 <= i < |owner| && mallocMap[i] == MALLOCED && owner[i] == NONE
  }

  lemma LendableSnoc(mallocMap: seq<int>, owner: seq<int>)
    requires |mallocMap| == |owner|
    ensures owner == [] ==> |Lendable(mallocMap, owner)| == 0
    ensures owner != [] ==>
              var n := |owner| - 1;
              |Lendable(mallocMap, owner)|
              == |Lendable(mallocMap[..n], owner[..n])|
                 + if mallocMap[n] == MALLOCED && owner[n] == NONE then 1 else 0
  {
    if owner == [] {
      assert Lendable(mallocMap, owner) == {};
    } else {
      var n := |owner| - 1;
      var last := if mallocMap[n] == MALLOCED && owner[n] == NONE then {n} else {};
      assert Lendable(mallocMap, owner) == Lendable(mallocMap[..n], owner[..n]) + last;
    }
  }

  /** send_free_mem_size: what FREE_SIZE advertises is exactly the number of chunks that can be lent. */
  lemma {:induction false} AdvertisedIsGrantable(d: State)
    requires Inv(d)
    ensures d.sizeGb - d.mappedSize == |GrantableChunks(d)|
  {
    GrantableCount(d.mallocMap, d.owner);
    assert GrantableChunks(d) == Lendable(d.mallocMap, d.owner);
  }

  function SumMapped(conns: seq<Conn>): int {
    if conns == [] then 0 else SumMapped(conns[..|conns| - 1]) + conns[|conns| - 1].mapped
  }

  function SumCounts(owner: seq<int>, n: nat): int {
    if n == 0 then 0 else SumCounts(owner, n - 1) + CountEq(owner, n - 1)
  }

  lemma {:induction false} SumCountsUpdate(owner: seq<int>, n: nat)
    requires owner != []
    ensures var o' := owner[..|owner| - 1];
            SumCounts(owner, n) == SumCounts(o', n) + if 0 <= owner[|owner| - 1] < n then 1 else 0
  {
    if n > 0 { SumCountsUpdate(owner, n - 1); }
  }

  lemma {:induction false} SumCountsTotal(owner: seq<int>, n: nat)
    requires forall i :: 0 <= i < |owner| ==> owner[i] == NONE || 0 <= owner[i] < n
    ensures SumCounts(owner, n) == |owner| - CountEq(owner, NONE)
  {
    if owner == [] {
      if n > 0 { SumCountsTotal(owner, n - 1); }
    } else {
      SumCountsTotal(owner[..|owner| - 1], n);
      SumCountsUpdate(owner, n);
    }
  }

  lemma {:induction false} SumMappedCounts(d: State, n: nat)
    requires Inv(d) && n <= CLIENTS
    ensures SumMapped(d.conns[..n]) == SumCounts(d.owner, n)
  {
    if n > 0 {
      SumMappedCounts(d, n - 1);
      assert d.conns[..n][..n - 1] == d.conns[..n - 1];
    }
  }

  /** The sum of the per-connection counts is the total. */
  lemma {:induction false} MappedIsSum(d: State)
    requires Inv(d)
    ensures d.mappedSize == SumMapped(d.conns)
  {
    SumMappedCounts(d, CLIENTS);
    assert d.conns[..CLIENTS] == d.conns;
    SumCountsTotal(d.owner, CLIENTS);
  }
}
