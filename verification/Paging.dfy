/**
 The Infiniswap block device (framework/infiniswap_bd) as a state machine over atomic steps.

 A session of twelve 1 GB chunks is backed by a local disk.  Chunks may be routed to a slot of
 some remote server, and a bitmap per slot records which remote pages may be trusted.  Requests
 go to the remote page, to a FIFO queue in front of the disk, or to both.  The module states what
 it means for such a device to be a store (every read sees the last write to its page), proves it
 for all runs, and characterises the one kind of step that breaks it.
 */
module Paging {
  import opened Counting

  const SESSION_CHUNKS := 12       // STACKBD_SIZE_G
  const SLOTS := 32                // MAX_MR_SIZE_GB
  const PAGES := 262144            // pages of 4 KB in a chunk of 1 GB
  const MAX_REQUEST_PAGES := 32    // MAX_SGL_LEN
  const CAPACITY := SESSION_CHUNKS * PAGES
  const NONE := -1                 // NO_CB_MAPPED, and "unmapped" in both chunk maps

  type PageData = seq<bv8>

  /** A page in the remote memory a server has lent. */
  datatype Loc = Loc(cb: int, slot: int, off: int)

  /** An entry of the disk queue; a read carries the index of the request that asked for it. */
  datatype Bio = DiskWrite(page: int, data: PageData) | DiskRead(page: int, id: nat)

  /** The eviction a server has under way, between its first and its last step: slots given up, chunks unrouted. */
  datatype Stopping = NotStopping | Stopping(slots: set<int>, chunks: set<int>)

  datatype State = State(
    route: seq<int>,            // cb_index_map: session chunk -> server
    slotOf: seq<int>,           // chunk_map_cb_chunk: session chunk -> slot on that server
    chunkOf: seq<seq<int>>,     // chunk_map of each server: slot -> session chunk
    valid: set<Loc>,            // the bits set in the bitmaps
    remote: map<Loc, PageData>, // the contents of remote memory
    rdmaOn: bool,
    freeIndex: int,             // free_chunk_index
    disk: seq<PageData>,
    queue: seq<Bio>,
    mappedCbs: set<int>,        // the servers in state CB_MAPPED or CB_EVICTING
    stopping: seq<Stopping>,    // the eviction under way at each server
    leaving: set<int>)          // the servers whose disconnect is under way

  datatype Event =
    | MapChunk(chunk: int, cb: int, slot: int)
    | NoGrant(cb: int)                       // an INFO_SINGLE without a slot
    | RdmaOn
    | EvictBegin(cb: int, slots: set<int>)
    | EvictEnd(cb: int)
    | DisconnectBegin(cb: int)
    | DisconnectEnd(cb: int)
    | Write(page: int, data: seq<PageData>)
    | Read(page: int)
    | DiskPop
    | RemoteNoise(loc: Loc, content: PageData)

  /** A completed read: the request it answers, and what it returned. */
  datatype Observation = Observation(id: nat, data: PageData)

  // ---------------------------------------------------------------- pages and queues

  function ChunkIndex(page: int): int { page / PAGES }
  function Offset(page: int): int { page % PAGES }

  predicate ValidRequest(page: int, n: int) {
    0 <= page && 1 <= n <= MAX_REQUEST_PAGES && page + n <= CAPACITY
  }

  /** What the disk will hold at page p once the whole queue has been written out. */
  function PageAfter(disk: seq<PageData>, queue: seq<Bio>, p: int): PageData
    requires 0 <= p < |disk|
  {
    if queue == [] then disk[p]
    else
      var last := queue[|queue| - 1];
      if last.DiskWrite? && last.page == p then last.data
      else PageAfter(disk, queue[..|queue| - 1], p)
  }

  function WriteBios(page: int, data: seq<PageData>): (bios: seq<Bio>)
    ensures |bios| == |data|
  {
    if data == [] then []
    else WriteBios(page, data[..|data| - 1]) + [DiskWrite(page + |data| - 1, data[|data| - 1])]
  }

  /** The reference store: what page p must hold after a history of requests. */
  function LastWritten(disk: seq<PageData>, events: seq<Event>, p: int): PageData
    requires 0 <= p < |disk|
  {
    if events == [] then disk[p]
    else
      var last := events[|events| - 1];
      if last.Write? && last.page <= p < last.page + |last.data| then last.data[p - last.page]
      else LastWritten(disk, events[..|events| - 1], p)
  }

  lemma {:induction false} PageAfterWrites(disk: seq<PageData>, queue: seq<Bio>, page: int, data: seq<PageData>, p: int)
    requires 0 <= p < |disk|
    ensures PageAfter(disk, queue + WriteBios(page, data), p) ==
            if page <= p < page + |data| then data[p - page] else PageAfter(disk, queue, p)
  {
    if data == [] {
      assert queue + WriteBios(page, data) == queue;
    } else {
      var n := |data| - 1;
      var q := queue + WriteBios(page, data);
      assert q[..|q| - 1] == queue + WriteBios(page, data[..n]);
      PageAfterWrites(disk, queue, page, data[..n], p);
    }
  }

  lemma {:induction false} PageAfterRead(disk: seq<PageData>, queue: seq<Bio>, page: int, id: nat, p: int)
    requires 0 <= p < |disk|
    ensures PageAfter(disk, queue + [DiskRead(page, id)], p) == PageAfter(disk, queue, p)
  {
    var q := queue + [DiskRead(page, id)];
    assert q[..|q| - 1] == queue;
  }

  function ApplyBio(disk: seq<PageData>, bio: Bio): (r: seq<PageData>)
    ensures |r| == |disk|
  {
    if bio.DiskWrite? && 0 <= bio.page < |disk| then disk[bio.page := bio.data] else disk
  }

  lemma {:induction false} PageAfterPop(disk: seq<PageData>, queue: seq<Bio>, p: int)
    requires 0 <= p < |disk| && queue != []
    ensures PageAfter(ApplyBio(disk, queue[0]), queue[1..], p) == PageAfter(disk, queue, p)
  {
    var n := |queue| - 1;
    if n == 0 {
      assert queue[..0] == [];
    } else {
      assert queue[1..][..n - 1] == queue[..n][1..];
      PageAfterPop(disk, queue[..n], p);
    }
  }

  // ---------------------------------------------------------------- steps

  function LocsOf(cb: int, slot: int, off: int, n: int): set<Loc> {
    set k | off <= k < off + n :: Loc(cb, slot, k)
  }

  function SlotLocs(valid: set<Loc>, cb: int, slots: set<int>): set<Loc> {
    set l | l in valid && l.cb == cb && l.slot in slots
  }

  function RemoteWrite(remote: map<Loc, PageData>, cb: int, slot: int, off: int, data: seq<PageData>)
    : map<Loc, PageData>
  {
    remote + map l | l in LocsOf(cb, slot, off, |data|) :: data[l.off - off]
  }

  predicate Shape(s: State) {
    && |s.route| == SESSION_CHUNKS
    && |s.slotOf| == SESSION_CHUNKS
    && (forall c :: 0 <= c < |s.chunkOf| ==> |s.chunkOf[c]| == SLOTS)
    && |s.disk| == CAPACITY && |s.stopping| == |s.chunkOf|
  }

  /** The requests in this session chunk can be served remotely. */
  predicate Routed(s: State, g: int)
    requires Shape(s) && 0 <= g < SESSION_CHUNKS
  {
    s.route[g] != NONE && s.slotOf[g] != NONE
  }

  /** Is the page backed by a remote page whose bit is set? */
  predicate RemoteHolds(s: State, page: int)
    requires Shape(s) && 0 <= page < CAPACITY
  {
    var g := ChunkIndex(page);
    Routed(s, g) && Loc(s.route[g], s.slotOf[g], Offset(page)) in s.valid
  }

  /** Clear the bits of n pages of session chunk g, if it is routed. */
  function ClearBits(s: State, g: int, off: int, n: int): set<Loc>
    requires Shape(s) && 0 <= g < SESSION_CHUNKS
  {
    if s.route[g] == NONE then s.valid else s.valid - LocsOf(s.route[g], s.slotOf[g], off, n)
  }

  function WriteStep(s: State, page: int, data: seq<PageData>): (t: State)
    requires Shape(s) && ValidRequest(page, |data|)
    ensures Shape(t)
  {
    var g, e, off := ChunkIndex(page), ChunkIndex(page + |data| - 1), Offset(page);
    var queue := s.queue + WriteBios(page, data);
    if g != e then
      var s1 := s.(valid := ClearBits(s, g, off, PAGES - off));
      s1.(valid := ClearBits(s1, e, 0, off + |data| - PAGES), queue := queue)
    else if Routed(s, g) && s.rdmaOn then
      s.(valid := s.valid + LocsOf(s.route[g], s.slotOf[g], off, |data|),
         remote := RemoteWrite(s.remote, s.route[g], s.slotOf[g], off, data),
         queue := queue)
    else s.(queue := queue)
  }

  /** A read is answered from remote memory exactly when the device is on line and the bit is set. */
  predicate ReadsRemotely(s: State, page: int)
    requires Shape(s) && 0 <= page < CAPACITY
  {
    s.rdmaOn && RemoteHolds(s, page)
  }

  function RemoteLoc(s: State, page: int): Loc
    requires Shape(s) && 0 <= page < CAPACITY
  {
    Loc(s.route[ChunkIndex(page)], s.slotOf[ChunkIndex(page)], Offset(page))
  }

  /** The session chunks behind a set of slots of one server. */
  function ChunksOf(s: State, cb: int, slots: set<int>): set<int>
    requires Shape(s) && 0 <= cb < |s.chunkOf|
  {
    set i | i in slots && 0 <= i < SLOTS :: s.chunkOf[cb][i]
  }

  function MappedSlots(s: State, cb: int): set<int>
    requires Shape(s) && 0 <= cb < |s.chunkOf|
  {
    set i | 0 <= i < SLOTS && s.chunkOf[cb][i] != NONE
  }

  /** The slots an eviction under way at this server gives up. */
  function StoppedSlots(s: State, cb: int): set<int>
    requires Shape(s) && 0 <= cb < |s.chunkOf|
  {
    if s.stopping[cb].Stopping? then s.stopping[cb].slots else {}
  }

  predicate Enabled(s: State, ev: Event)
    requires Shape(s)
  {
    match ev
    // a server grants no slot that is still being given up, and none over a lost connection
    case MapChunk(g, c, i) =>
      && 0 <= g < SESSION_CHUNKS && 0 <= c < |s.chunkOf| && 0 <= i < SLOTS && c !in s.leaving
      && s.slotOf[g] == NONE && s.chunkOf[c][i] == NONE && i !in StoppedSlots(s, c)
    case NoGrant(c) => 0 <= c < |s.chunkOf| && c !in s.leaving
    case RdmaOn => true
    case EvictBegin(c, slots) =>
      0 <= c < |s.chunkOf| && c !in s.leaving && s.stopping[c].NotStopping? && slots <= MappedSlots(s, c)
    case EvictEnd(c) => 0 <= c < |s.chunkOf| && s.stopping[c].Stopping?
    case DisconnectBegin(c) => 0 <= c < |s.chunkOf| && c !in s.leaving
    case DisconnectEnd(c) => 0 <= c < |s.chunkOf| && c in s.leaving
    case Write(page, data) => ValidRequest(page, |data|)
    case Read(page) => 0 <= page < CAPACITY
    case DiskPop => s.queue != []
    // memory that is not lent to this session may change in any way
    case RemoteNoise(l, _) =>
      !(0 <= l.cb < |s.chunkOf| && 0 <= l.slot < SLOTS && s.chunkOf[l.cb][l.slot] != NONE)
  }

  /** IS_single_chunk_init: the granted slot starts with an empty bitmap. */
  function MapStep(s: State, g: int, c: int, i: int): (t: State)
    requires Shape(s) && 0 <= g < SESSION_CHUNKS && 0 <= c < |s.chunkOf| && 0 <= i < SLOTS
    ensures Shape(t)
  {
    s.(route := s.route[g := c], slotOf := s.slotOf[g := i],
       chunkOf := s.chunkOf[c := s.chunkOf[c][i := g]],
       valid := s.valid - SlotLocs(s.valid, c, {i}), freeIndex := s.freeIndex - 1,
       mappedCbs := s.mappedCbs + {c})
  }

  function EvictBeginStep(s: State, c: int, slots: set<int>): (t: State)
    requires Shape(s) && 0 <= c < |s.chunkOf|
    ensures Shape(t)
  {
    var chunks := ChunksOf(s, c, slots);
    s.(route := Fill(s.route, chunks, NONE), chunkOf := s.chunkOf[c := Fill(s.chunkOf[c], slots, NONE)],
       stopping := s.stopping[c := Stopping(slots, chunks)])
  }

  function EvictEndStep(s: State, c: int): (t: State)
    requires Shape(s) && 0 <= c < |s.chunkOf| && s.stopping[c].Stopping?
    ensures Shape(t)
  {
    s.(valid := s.valid - SlotLocs(s.valid, c, s.stopping[c].slots),
       slotOf := Fill(s.slotOf, s.stopping[c].chunks, NONE),
       freeIndex := s.freeIndex + |s.stopping[c].chunks|, stopping := s.stopping[c := NotStopping])
  }

  /** The handler returns at once for a server that has never been mapped. */
  function DisconnectBeginStep(s: State, c: int): (t: State)
    requires Shape(s) && 0 <= c < |s.chunkOf|
    ensures Shape(t)
  {
    if c !in s.mappedCbs then s
    else
      var slots := MappedSlots(s, c);
      s.(rdmaOn := false, valid := s.valid - SlotLocs(s.valid, c, slots),
         route := Fill(s.route, ChunksOf(s, c, slots), NONE), mappedCbs := s.mappedCbs - {c},
         leaving := s.leaving + {c})
  }

  function DisconnectEndStep(s: State, c: int): (t: State)
    requires Shape(s) && 0 <= c < |s.chunkOf|
    ensures Shape(t)
  {
    var slots := MappedSlots(s, c);
    s.(slotOf := Fill(s.slotOf, ChunksOf(s, c, slots), NONE),
       chunkOf := s.chunkOf[c := Fill(s.chunkOf[c], slots, NONE)],
       freeIndex := s.freeIndex + |slots|, rdmaOn := true, leaving := s.leaving - {c})
  }

  function ReadStep(s: State, page: int, now: nat): (t: State)
    requires Shape(s) && 0 <= page < CAPACITY
    ensures Shape(t)
  {
    if ReadsRemotely(s, page) then s else s.(queue := s.queue + [DiskRead(page, now)])
  }

  function PopStep(s: State): (t: State)
    requires Shape(s) && s.queue != []
    ensures Shape(t)
  {
    s.(disk := ApplyBio(s.disk, s.queue[0]), queue := s.queue[1..])
  }

  function Step(s: State, ev: Event, now: nat): (t: State)
    requires Shape(s) && Enabled(s, ev)
    ensures Shape(t)
  {
    match ev
    case MapChunk(g, c, i) => MapStep(s, g, c, i)
    case NoGrant(c) => s.(mappedCbs := s.mappedCbs + {c})
    case RdmaOn => s.(rdmaOn := true)
    case EvictBegin(c, slots) => EvictBeginStep(s, c, slots)
    case EvictEnd(c) => EvictEndStep(s, c)
    case DisconnectBegin(c) => DisconnectBeginStep(s, c)
    case DisconnectEnd(c) => DisconnectEndStep(s, c)
    case Write(page, data) => WriteStep(s, page, data)
    case Read(page) => ReadStep(s, page, now)
    case DiskPop => PopStep(s)
    case RemoteNoise(l, d) => s.(remote := s.remote[l := d])
  }

  /** The read, if any, that a step completes. */
  function Output(s: State, ev: Event, now: nat): set<Observation>
    requires Shape(s) && Enabled(s, ev)
  {
    match ev
    case Read(page) =>
      if ReadsRemotely(s, page) && RemoteLoc(s, page) in s.remote
      then {Observation(now, s.remote[RemoteLoc(s, page)])} else {}
    case DiskPop =>
      if s.queue[0].DiskRead? && 0 <= s.queue[0].page < CAPACITY
      then {Observation(s.queue[0].id, s.disk[s.queue[0].page])} else {}
    case _ => {}
  }

  // ---------------------------------------------------------------- invariants

  function Unmapped(slotOf: seq<int>): set<int> {
    set g | 0 <= g < |slotOf| && slotOf[g] == NONE
  }

  /** Server c has chunk g in its map, or an eviction under way there is still to release it. */
  predicate AtServer(s: State, g: int, c: int)
    requires Shape(s) && 0 <= g < SESSION_CHUNKS && 0 <= c < |s.chunkOf|
  {
    || (0 <= s.slotOf[g] < SLOTS && s.chunkOf[c][s.slotOf[g]] == g)
    || (s.stopping[c].Stopping? && g in s.stopping[c].chunks)
  }

  predicate RouteOk(s: State)
    requires Shape(s)
  {
    forall g :: 0 <= g < SESSION_CHUNKS && s.route[g] != NONE ==>
      && 0 <= s.route[g] < |s.chunkOf| && 0 <= s.slotOf[g] < SLOTS
      && s.chunkOf[s.route[g]][s.slotOf[g]] == g
  }

  /** An entry of a server's map: the chunk knows its slot, and is routed there unless the server is leaving. */
  predicate SlotOk(s: State, c: int, i: int)
    requires Shape(s) && 0 <= c < |s.chunkOf| && 0 <= i < SLOTS
  {
    s.chunkOf[c][i] != NONE ==>
      && 0 <= s.chunkOf[c][i] < SESSION_CHUNKS && s.slotOf[s.chunkOf[c][i]] == i
      && (c in s.mappedCbs || c in s.leaving)
      && s.route[s.chunkOf[c][i]] == if c in s.leaving then NONE else c
  }

  predicate SlotsOk(s: State)
    requires Shape(s)
  {
    forall c, i :: 0 <= c < |s.chunkOf| && 0 <= i < SLOTS ==> SlotOk(s, c, i)
  }

  /** An eviction under way has emptied its slots and unrouted its chunks. */
  predicate StopOk(s: State, c: int)
    requires Shape(s) && 0 <= c < |s.chunkOf|
  {
    s.stopping[c].Stopping? ==>
      && (forall i :: i in s.stopping[c].slots ==> 0 <= i < SLOTS && s.chunkOf[c][i] == NONE)
      && (forall g :: g in s.stopping[c].chunks ==>
            0 <= g < SESSION_CHUNKS && s.route[g] == NONE && s.slotOf[g] in s.stopping[c].slots)
  }

  predicate StopsOk(s: State)
    requires Shape(s)
  {
    forall c :: 0 <= c < |s.chunkOf| ==> StopOk(s, c)
  }

  /** A chunk is at one server at most, and at one as long as it has a slot. */
  predicate HomesOk(s: State)
    requires Shape(s)
  {
    && (forall g, c, e ::
          0 <= g < SESSION_CHUNKS && 0 <= c < |s.chunkOf| && 0 <= e < |s.chunkOf| && AtServer(s, g, c) ==>
          AtServer(s, g, e) ==> c == e)
    && (forall g :: 0 <= g < SESSION_CHUNKS && s.slotOf[g] != NONE ==>
          exists c :: 0 <= c < |s.chunkOf| && AtServer(s, g, c))
  }

  /** The tables are mutual inverses, up to the entries that teardowns under way are still to clear. */
  predicate TablesOk(s: State) {
    && Shape(s) && RouteOk(s) && SlotsOk(s) && StopsOk(s) && HomesOk(s)
    && s.freeIndex + 1 == |Unmapped(s.slotOf)|
  }

  predicate DiskOk(s: State, disk0: seq<PageData>, past: seq<Event>)
    requires |s.disk| == |disk0|
  {
    forall p :: 0 <= p < |disk0| ==> PageAfter(s.disk, s.queue, p) == LastWritten(disk0, past, p)
  }

  /** If the remote copy of page p is trusted, it is current. */
  predicate PageOk(s: State, disk0: seq<PageData>, past: seq<Event>, p: int)
    requires Shape(s) && |disk0| == CAPACITY && 0 <= p < CAPACITY
  {
    RemoteHolds(s, p) ==>
      RemoteLoc(s, p) in s.remote && s.remote[RemoteLoc(s, p)] == LastWritten(disk0, past, p)
  }

  /** A set bit on a routed slot means that the remote page is current. */
  predicate RemoteOk(s: State, disk0: seq<PageData>, past: seq<Event>)
    requires Shape(s) && |disk0| == CAPACITY
  {
    forall p :: 0 <= p < CAPACITY ==> PageOk(s, disk0, past, p)
  }

  /** The queued read at position k will find what its page held when the read was asked for. */
  predicate ReadOk(s: State, disk0: seq<PageData>, past: seq<Event>, k: int)
    requires |s.disk| == |disk0| == CAPACITY && 0 <= k < |s.queue| && s.queue[k].DiskRead?
  {
    var p, id := s.queue[k].page, s.queue[k].id;
    && 0 <= p < CAPACITY && id < |past| && past[id] == Read(p)
    && PageAfter(s.disk, s.queue[..k], p) == LastWritten(disk0, past[..id], p)
  }

  predicate ReadsOk(s: State, disk0: seq<PageData>, past: seq<Event>)
    requires |s.disk| == |disk0| == CAPACITY
  {
    forall k :: 0 <= k < |s.queue| && s.queue[k].DiskRead? ==> ReadOk(s, disk0, past, k)
  }

  predicate Inv(s: State, disk0: seq<PageData>, past: seq<Event>) {
    && TablesOk(s) && |disk0| == CAPACITY
    && DiskOk(s, disk0, past) && RemoteOk(s, disk0, past) && ReadsOk(s, disk0, past)
  }

  // ---------------------------------------------------------------- every step keeps the tables

  lemma {:induction false} ChunksCardinality(s: State, c: int, slots: set<int>)
    requires Shape(s) && SlotsOk(s) && 0 <= c < |s.chunkOf| && slots <= MappedSlots(s, c)
    ensures |ChunksOf(s, c, slots)| == |slots|
    decreases slots
  {
    if slots == {} {
      assert ChunksOf(s, c, slots) == {};
    } else {
      var i :| i in slots;
      var rest := slots - {i};
      ChunksCardinality(s, c, rest);
      assert SlotOk(s, c, i) && forall j :: j in rest ==> SlotOk(s, c, j);
      assert s.chunkOf[c][i] !in ChunksOf(s, c, rest);
      assert ChunksOf(s, c, slots) == ChunksOf(s, c, rest) + {s.chunkOf[c][i]};
    }
  }

  lemma FillUnmapped(table: seq<int>, at: set<int>)
    requires forall g :: g in at ==> 0 <= g < |table| && table[g] != NONE
    ensures |Unmapped(Fill(table, at, NONE))| == |Unmapped(table)| + |at|
  {
    assert Unmapped(Fill(table, at, NONE)) == Unmapped(table) + at;
  }

  /** A chunk is where it was, as far as these tables say. */
  lemma {:induction false} HomesKept(s: State, t: State)
    requires Shape(s) && Shape(t) && |t.chunkOf| == |s.chunkOf| && HomesOk(s)
    requires forall g :: 0 <= g < SESSION_CHUNKS && t.slotOf[g] != NONE ==> s.slotOf[g] != NONE
    requires forall g, c :: 0 <= g < SESSION_CHUNKS && 0 <= c < |s.chunkOf| ==>
               (AtServer(t, g, c) ==> AtServer(s, g, c)) &&
                   (AtServer(s, g, c) ==> t.slotOf[g] == NONE || AtServer(t, g, c))
    ensures HomesOk(t)
  {
    hide AtServer;
    forall g | 0 <= g < SESSION_CHUNKS && t.slotOf[g] != NONE
      ensures exists c :: 0 <= c < |t.chunkOf| && AtServer(t, g, c)
    {
      var c :| 0 <= c < |s.chunkOf| && AtServer(s, g, c);
      assert AtServer(t, g, c);
    }
  }

  /** A chunk without a slot is at no server. */
  lemma {:induction false} NowhereYet(s: State, g: int, c: int)
    requires Shape(s) && StopsOk(s) && 0 <= g < SESSION_CHUNKS && 0 <= c < |s.chunkOf| && s.slotOf[g] == NONE
    ensures !AtServer(s, g, c) && forall i :: 0 <= i < SLOTS && SlotOk(s, c, i) ==> s.chunkOf[c][i] != g
  {
    assert StopOk(s, c);
  }

  lemma {:induction false} MapKeepsHomes(s: State, g: int, c: int, i: int)
    requires TablesOk(s) && Enabled(s, MapChunk(g, c, i))
    ensures HomesOk(MapStep(s, g, c, i))
  {
    hide RouteOk, Unmapped;
    var t := MapStep(s, g, c, i);
    assert AtServer(t, g, c);
    forall h, e | 0 <= h < SESSION_CHUNKS && 0 <= e < |s.chunkOf|
      ensures if h == g then AtServer(t, h, e) <==> e == c else AtServer(t, h, e) <==> AtServer(s, h, e)
    {
      NowhereYet(s, g, e);
      if h == g { assert SlotOk(s, e, i); }
    }
    forall h | 0 <= h < SESSION_CHUNKS && t.slotOf[h] != NONE
      ensures exists e :: 0 <= e < |t.chunkOf| && AtServer(t, h, e)
    {
      if h != g {
        var e :| 0 <= e < |s.chunkOf| && AtServer(s, h, e);
        assert AtServer(t, h, e);
      }
    }
  }

  lemma {:induction false} MapKeepsTables(s: State, ev: Event, now: nat)
    requires TablesOk(s) && ev.MapChunk? && Enabled(s, ev)
    ensures TablesOk(Step(s, ev, now))
  {
    hide HomesOk, AtServer;
    var t, g := Step(s, ev, now), ev.chunk;
    MapKeepsHomes(s, g, ev.cb, ev.slot);
    assert Unmapped(t.slotOf) == Unmapped(s.slotOf) - {g};
    assert s.route[g] == NONE;
    forall c, i | 0 <= c < |s.chunkOf| && 0 <= i < SLOTS
      ensures SlotOk(t, c, i)
    {
      assert SlotOk(s, c, i);
    }
    forall c | 0 <= c < |s.chunkOf|
      ensures StopOk(t, c)
    {
      assert StopOk(s, c);
    }
  }

  /** The chunks behind the slots of an eviction, before it begins. */
  lemma {:induction false} StoppedChunks(s: State, c: int, slots: set<int>, g: int)
    requires Shape(s) && SlotsOk(s) && 0 <= c < |s.chunkOf| && slots <= MappedSlots(s, c)
    ensures g in ChunksOf(s, c, slots) <==>
            0 <= g < SESSION_CHUNKS && s.slotOf[g] in slots && s.chunkOf[c][s.slotOf[g]] == g
  {
    if g in ChunksOf(s, c, slots) {
      var i :| i in slots && 0 <= i < SLOTS && s.chunkOf[c][i] == g;
      assert SlotOk(s, c, i) && i in MappedSlots(s, c);
    }
    if 0 <= g < SESSION_CHUNKS && s.slotOf[g] in slots { assert s.slotOf[g] in MappedSlots(s, c); }
  }

  lemma {:induction false} EvictBeginKeepsHomes(s: State, c: int, slots: set<int>)
    requires TablesOk(s) && Enabled(s, EvictBegin(c, slots))
    ensures HomesOk(EvictBeginStep(s, c, slots))
  {
    hide RouteOk, Unmapped, HomesOk, ChunksOf;
    var t := EvictBeginStep(s, c, slots);
    forall g, e | 0 <= g < SESSION_CHUNKS && 0 <= e < |s.chunkOf|
      ensures AtServer(t, g, e) <==> AtServer(s, g, e)
    {
      StoppedChunks(s, c, slots, g);
    }
    HomesKept(s, t);
  }

  lemma {:induction false} EvictBeginKeepsTables(s: State, ev: Event, now: nat)
    requires TablesOk(s) && ev.EvictBegin? && Enabled(s, ev)
    ensures TablesOk(Step(s, ev, now))
  {
    hide HomesOk, AtServer, ChunksOf;
    var t := Step(s, ev, now);
    EvictBeginKeepsHomes(s, ev.cb, ev.slots);
    forall g | 0 <= g < SESSION_CHUNKS && t.route[g] != NONE
      ensures t.chunkOf[t.route[g]][t.slotOf[g]] == g
    {
      StoppedChunks(s, ev.cb, ev.slots, g);
      assert SlotOk(s, s.route[g], s.slotOf[g]);
    }
    forall c, i | 0 <= c < |s.chunkOf| && 0 <= i < SLOTS
      ensures SlotOk(t, c, i)
    {
      assert SlotOk(s, c, i);
      StoppedChunks(s, ev.cb, ev.slots, s.chunkOf[c][i]);
      if c != ev.cb && s.chunkOf[c][i] != NONE { assert SlotOk(s, ev.cb, i); }
    }
    forall c | 0 <= c < |s.chunkOf|
      ensures StopOk(t, c)
    {
      BeginKeepsStop(s, ev.cb, ev.slots, c);
    }
  }

  lemma {:induction false} BeginKeepsStop(s: State, cb: int, slots: set<int>, c: int)
    requires TablesOk(s) && Enabled(s, EvictBegin(cb, slots)) && 0 <= c < |s.chunkOf|
    ensures StopOk(EvictBeginStep(s, cb, slots), c)
  {
    hide HomesOk, AtServer, ChunksOf, RouteOk;
    assert StopOk(s, c);
    if c == cb {
      forall i | i in slots
        ensures 0 <= i < SLOTS
      {
        assert i in MappedSlots(s, c);
      }
      forall g | g in ChunksOf(s, c, slots)
        ensures 0 <= g < SESSION_CHUNKS && s.slotOf[g] in slots
      {
        StoppedChunks(s, c, slots, g);
      }
    }
  }

  /** A chunk that an eviction is to release is at its server and at no other. */
  lemma {:induction false} StoppedThere(s: State, c: int, g: int, e: int)
    requires TablesOk(s) && 0 <= c < |s.chunkOf| && 0 <= e < |s.chunkOf|
    requires s.stopping[c].Stopping? && g in s.stopping[c].chunks
    ensures 0 <= g < SESSION_CHUNKS && 0 <= s.slotOf[g] < SLOTS && s.route[g] == NONE
    ensures AtServer(s, g, e) <==> e == c
    ensures forall i :: 0 <= i < SLOTS ==> s.chunkOf[e][i] != g
  {
    hide RouteOk, Unmapped;
    assert StopOk(s, c);
    assert AtServer(s, g, c);
    forall i | 0 <= i < SLOTS
      ensures s.chunkOf[e][i] != g
    {
      assert SlotOk(s, e, i);
      assert s.chunkOf[e][i] == g ==> AtServer(s, g, e);
    }
  }

  lemma {:induction false} EvictEndKeepsHomes(s: State, c: int)
    requires TablesOk(s) && Enabled(s, EvictEnd(c))
    ensures HomesOk(EvictEndStep(s, c))
  {
    hide RouteOk, Unmapped, HomesOk;
    var t := EvictEndStep(s, c);
    forall g, e | 0 <= g < SESSION_CHUNKS && 0 <= e < |s.chunkOf|
      ensures AtServer(t, g, e) ==> AtServer(s, g, e)
      ensures AtServer(s, g, e) ==> t.slotOf[g] == NONE || AtServer(t, g, e)
    {
      if g in s.stopping[c].chunks { StoppedThere(s, c, g, e); }
    }
    HomesKept(s, t);
  }

  lemma {:induction false} EvictEndKeepsTables(s: State, ev: Event, now: nat)
    requires TablesOk(s) && ev.EvictEnd? && Enabled(s, ev)
    ensures TablesOk(Step(s, ev, now))
  {
    hide HomesOk, AtServer, Unmapped;
    var t, chunks := Step(s, ev, now), s.stopping[ev.cb].chunks;
    EvictEndKeepsHomes(s, ev.cb);
    forall g | g in chunks
      ensures 0 <= g < SESSION_CHUNKS && s.slotOf[g] != NONE && s.route[g] == NONE
    {
      StoppedThere(s, ev.cb, g, ev.cb);
    }
    FillUnmapped(s.slotOf, chunks);
    forall c, i | 0 <= c < |s.chunkOf| && 0 <= i < SLOTS
      ensures SlotOk(t, c, i)
    {
      assert SlotOk(s, c, i);
      if s.chunkOf[c][i] in chunks { StoppedThere(s, ev.cb, s.chunkOf[c][i], c); }
    }
    forall c | 0 <= c < |s.chunkOf|
      ensures StopOk(t, c)
    {
      EndKeepsStop(s, ev.cb, c);
    }
  }

  lemma {:induction false} EndKeepsStop(s: State, cb: int, c: int)
    requires TablesOk(s) && Enabled(s, EvictEnd(cb)) && 0 <= c < |s.chunkOf|
    ensures StopOk(EvictEndStep(s, cb), c)
  {
    hide HomesOk, RouteOk, AtServer, Unmapped;
    assert StopOk(s, c);
    if c != cb && s.stopping[c].Stopping? {
      forall g | g in s.stopping[c].chunks
        ensures g !in s.stopping[cb].chunks
      {
        if g in s.stopping[cb].chunks {
          StoppedThere(s, cb, g, c);
          StoppedThere(s, c, g, c);
        }
      }
    }
  }

  /** Nothing is routed to a server that is leaving. */
  lemma {:induction false} LeavingIsUnrouted(s: State, g: int)
    requires Shape(s) && RouteOk(s) && SlotsOk(s) && 0 <= g < SESSION_CHUNKS && s.route[g] != NONE
    ensures s.route[g] !in s.leaving
  {
    assert SlotOk(s, s.route[g], s.slotOf[g]);
  }

  lemma {:induction false} MappedChunks(s: State, c: int, g: int)
    requires Shape(s) && SlotsOk(s) && 0 <= c < |s.chunkOf| && 0 <= g < SESSION_CHUNKS
    ensures g in ChunksOf(s, c, MappedSlots(s, c)) <==> 0 <= s.slotOf[g] < SLOTS && s.chunkOf[c][s.slotOf[g]] == g
  {
    StoppedChunks(s, c, MappedSlots(s, c), g);
    if 0 <= s.slotOf[g] < SLOTS && s.chunkOf[c][s.slotOf[g]] == g { assert s.slotOf[g] in MappedSlots(s, c); }
  }

  lemma {:induction false} DisconnectBeginKeepsTables(s: State, ev: Event, now: nat)
    requires TablesOk(s) && ev.DisconnectBegin? && Enabled(s, ev)
    ensures TablesOk(Step(s, ev, now))
  {
    hide HomesOk, ChunksOf, MappedSlots, Unmapped;
    if ev.cb !in s.mappedCbs { return; }
    var t := Step(s, ev, now);
    forall g, c | 0 <= g < SESSION_CHUNKS && 0 <= c < |s.chunkOf|
      ensures AtServer(t, g, c) <==> AtServer(s, g, c)
    {
    }
    HomesKept(s, t);
    forall c, i | 0 <= c < |s.chunkOf| && 0 <= i < SLOTS
      ensures SlotOk(t, c, i)
    {
      BeginKeepsSlot(s, ev.cb, c, i);
    }
    forall g | 0 <= g < SESSION_CHUNKS && t.route[g] != NONE
      ensures t.route[g] == s.route[g]
    {
      MappedChunks(s, ev.cb, g);
    }
    forall c | 0 <= c < |s.chunkOf|
      ensures StopOk(t, c)
    {
      assert StopOk(s, c);
    }
  }

  lemma {:induction false} BeginKeepsSlot(s: State, cb: int, c: int, i: int)
    requires TablesOk(s) && Enabled(s, DisconnectBegin(cb)) && 0 <= c < |s.chunkOf| && 0 <= i < SLOTS
    ensures SlotOk(DisconnectBeginStep(s, cb), c, i)
  {
    hide RouteOk, Unmapped, ChunksOf, MappedSlots, StopOk;
    assert SlotOk(s, c, i);
    var g := s.chunkOf[c][i];
    if g != NONE {
      MappedChunks(s, cb, g);
      assert AtServer(s, g, c);
      if s.chunkOf[cb][i] == g { assert AtServer(s, g, cb); }
    }
  }

  lemma {:induction false} DisconnectEndKeepsHomes(s: State, c: int)
    requires TablesOk(s) && Enabled(s, DisconnectEnd(c))
    ensures HomesOk(DisconnectEndStep(s, c))
  {
    hide RouteOk, Unmapped, ChunksOf;
    var t := DisconnectEndStep(s, c);
    forall g, e | 0 <= g < SESSION_CHUNKS && 0 <= e < |s.chunkOf|
      ensures AtServer(t, g, e) ==> AtServer(s, g, e)
      ensures AtServer(s, g, e) ==> t.slotOf[g] == NONE || AtServer(t, g, e)
    {
      MappedChunks(s, c, g);
      assert StopOk(s, e);
      if g in ChunksOf(s, c, MappedSlots(s, c)) { assert AtServer(s, g, c); }
    }
    HomesKept(s, t);
  }

  lemma {:induction false} DisconnectEndKeepsTables(s: State, ev: Event, now: nat)
    requires TablesOk(s) && ev.DisconnectEnd? && Enabled(s, ev)
    ensures TablesOk(Step(s, ev, now))
  {
    hide HomesOk, ChunksOf, Unmapped, StopOk, SlotOk;
    var t, slots := Step(s, ev, now), MappedSlots(s, ev.cb);
    DisconnectEndKeepsHomes(s, ev.cb);
    ChunksCardinality(s, ev.cb, slots);
    forall g | g in ChunksOf(s, ev.cb, slots)
      ensures 0 <= g < SESSION_CHUNKS && s.slotOf[g] != NONE && s.route[g] == NONE
    {
      StoppedChunks(s, ev.cb, slots, g);
      ReleasedChunk(s, ev.cb, g);
    }
    FillUnmapped(s.slotOf, ChunksOf(s, ev.cb, slots));
    forall g | 0 <= g < SESSION_CHUNKS && t.route[g] != NONE
      ensures t.chunkOf[t.route[g]][t.slotOf[g]] == g
    {
      LeavingIsUnrouted(s, g);
    }
    forall c, i | 0 <= c < |s.chunkOf| && 0 <= i < SLOTS
      ensures SlotOk(t, c, i)
    {
      EndKeepsSlot(s, ev.cb, c, i);
    }
    forall c | 0 <= c < |s.chunkOf|
      ensures StopOk(t, c)
    {
      DisconnectEndKeepsStop(s, ev.cb, c);
    }
  }

  lemma {:induction false} ReleasedChunk(s: State, c: int, g: int)
    requires Shape(s) && SlotsOk(s) && 0 <= c < |s.chunkOf| && c in s.leaving
    requires 0 <= g < SESSION_CHUNKS && 0 <= s.slotOf[g] < SLOTS && s.chunkOf[c][s.slotOf[g]] == g
    ensures s.route[g] == NONE
  {
    assert SlotOk(s, c, s.slotOf[g]);
  }

  lemma {:induction false} EndKeepsSlot(s: State, cb: int, c: int, i: int)
    requires TablesOk(s) && Enabled(s, DisconnectEnd(cb)) && 0 <= c < |s.chunkOf| && 0 <= i < SLOTS
    ensures SlotOk(DisconnectEndStep(s, cb), c, i)
  {
    hide RouteOk, Unmapped, ChunksOf, StopOk;
    assert SlotOk(s, c, i);
    var g := s.chunkOf[c][i];
    if g != NONE {
      MappedChunks(s, cb, g);
      assert AtServer(s, g, c);
      if s.chunkOf[cb][i] == g { assert AtServer(s, g, cb); }
    }
  }

  lemma {:induction false} DisconnectEndKeepsStop(s: State, cb: int, c: int)
    requires TablesOk(s) && Enabled(s, DisconnectEnd(cb)) && 0 <= c < |s.chunkOf|
    ensures StopOk(DisconnectEndStep(s, cb), c)
  {
    hide RouteOk, Unmapped, ChunksOf, HomesOk, AtServer;
    assert StopOk(s, c);
    if s.stopping[c].Stopping? {
      forall g | g in s.stopping[c].chunks
        ensures g !in ChunksOf(s, cb, MappedSlots(s, cb))
      {
        StoppedThere(s, c, g, cb);
        MappedChunks(s, cb, g);
      }
    }
  }

  lemma SameTables(s: State, t: State)
    requires TablesOk(s) && |t.disk| == |s.disk|
    requires t.route == s.route && t.slotOf == s.slotOf && t.chunkOf == s.chunkOf && t.stopping == s.stopping
    requires t.freeIndex == s.freeIndex && s.mappedCbs <= t.mappedCbs && t.leaving == s.leaving
    ensures TablesOk(t)
  {
    forall c, i | 0 <= c < |s.chunkOf| && 0 <= i < SLOTS
      ensures SlotOk(t, c, i)
    {
      assert SlotOk(s, c, i);
    }
    forall c | 0 <= c < |s.chunkOf|
      ensures StopOk(t, c)
    {
      assert StopOk(s, c);
    }
    forall g, c | 0 <= g < SESSION_CHUNKS && 0 <= c < |s.chunkOf|
      ensures AtServer(t, g, c) <==> AtServer(s, g, c)
    {
    }
    HomesKept(s, t);
  }

  lemma {:induction false} StepKeepsTables(s: State, ev: Event, now: nat)
    requires TablesOk(s) && Enabled(s, ev)
    ensures TablesOk(Step(s, ev, now))
  {
    hide RouteOk, SlotsOk, StopsOk, HomesOk, Unmapped;
    match ev
    case MapChunk(_, _, _) => MapKeepsTables(s, ev, now);
    case EvictBegin(_, _) => EvictBeginKeepsTables(s, ev, now);
    case EvictEnd(_) => EvictEndKeepsTables(s, ev, now);
    case DisconnectBegin(_) => DisconnectBeginKeepsTables(s, ev, now);
    case DisconnectEnd(_) => DisconnectEndKeepsTables(s, ev, now);
    case _ => SameTables(s, Step(s, ev, now));
  }

  // ---------------------------------------------------------------- every step keeps the data

  lemma LastWrittenSnoc(disk0: seq<PageData>, past: seq<Event>, ev: Event, p: int)
    requires 0 <= p < |disk0|
    ensures LastWritten(disk0, past + [ev], p) ==
            if ev.Write? && ev.page <= p < ev.page + |ev.data| then ev.data[p - ev.page]
            else LastWritten(disk0, past, p)
  {
    assert (past + [ev])[..|past|] == past;
  }

  lemma StepKeepsDiskPage(s: State, disk0: seq<PageData>, past: seq<Event>, ev: Event, p: int)
    requires Shape(s) && |disk0| == CAPACITY && DiskOk(s, disk0, past) && Enabled(s, ev) && 0 <= p < CAPACITY
    ensures var t := Step(s, ev, |past|);
            PageAfter(t.disk, t.queue, p) == LastWritten(disk0, past + [ev], p)
  {
    hide PageAfter, LastWritten;
    LastWrittenSnoc(disk0, past, ev, p);
    match ev
    case Write(page, data) => PageAfterWrites(s.disk, s.queue, page, data, p);
    case Read(page) => PageAfterRead(s.disk, s.queue, page, |past|, p);
    case DiskPop => PageAfterPop(s.disk, s.queue, p);
    case _ =>
  }

  lemma {:induction false} StepKeepsDisk(s: State, disk0: seq<PageData>, past: seq<Event>, ev: Event)
    requires Inv(s, disk0, past) && Enabled(s, ev)
    ensures DiskOk(Step(s, ev, |past|), disk0, past + [ev])
  {
    forall p | 0 <= p < |disk0|
      ensures PageAfter(Step(s, ev, |past|).disk, Step(s, ev, |past|).queue, p) == LastWritten(disk0, past + [ev], p)
    {
      StepKeepsDiskPage(s, disk0, past, ev, p);
    }
  }

  lemma {:induction false} WriteBiosAreWrites(page: int, data: seq<PageData>)
    ensures forall k :: 0 <= k < |data| ==> WriteBios(page, data)[k].DiskWrite?
  {
    if data != [] { WriteBiosAreWrites(page, data[..|data| - 1]); }
  }

  lemma AppendKeepsReads(s: State, t: State, disk0: seq<PageData>, past: seq<Event>, ev: Event)
    requires Inv(s, disk0, past) && t.disk == s.disk && s.queue <= t.queue
    requires forall k :: |s.queue| <= k < |t.queue| ==> t.queue[k].DiskWrite?
    ensures ReadsOk(t, disk0, past + [ev])
  {
    forall k | 0 <= k < |t.queue| && t.queue[k].DiskRead?
      ensures ReadOk(t, disk0, past + [ev], k)
    {
      assert ReadOk(s, disk0, past, k);
      assert t.queue[..k] == s.queue[..k];
      assert (past + [ev])[..s.queue[k].id] == past[..s.queue[k].id];
    }
  }

  lemma QueuedReadIsOk(s: State, disk0: seq<PageData>, past: seq<Event>, page: int)
    requires Inv(s, disk0, past) && 0 <= page < CAPACITY && !ReadsRemotely(s, page)
    ensures ReadsOk(Step(s, Read(page), |past|), disk0, past + [Read(page)])
  {
    var ev := Read(page);
    var t := Step(s, ev, |past|);
    forall k | 0 <= k < |t.queue| && t.queue[k].DiskRead?
      ensures ReadOk(t, disk0, past + [ev], k)
    {
      assert t.queue[..k] == s.queue[..k];
      assert (past + [ev])[..t.queue[k].id] == past[..t.queue[k].id] by {
        if k < |s.queue| { assert ReadOk(s, disk0, past, k); }
      }
      if k < |s.queue| {
        assert ReadOk(s, disk0, past, k);
      } else {
        assert s.queue[..k] == s.queue;
        assert past[..|past|] == past;
      }
    }
  }

  lemma PopKeepsReads(s: State, disk0: seq<PageData>, past: seq<Event>)
    requires Inv(s, disk0, past) && s.queue != []
    ensures ReadsOk(Step(s, DiskPop, |past|), disk0, past + [DiskPop])
  {
    var t := Step(s, DiskPop, |past|);
    forall k | 0 <= k < |t.queue| && t.queue[k].DiskRead?
      ensures ReadOk(t, disk0, past + [DiskPop], k)
    {
      var q := s.queue[..k + 1];
      assert ReadOk(s, disk0, past, k + 1);
      assert t.queue == s.queue[1..];
      assert s.queue[..k + 1][1..] == s.queue[1..][..k];
      PageAfterPop(s.disk, q, t.queue[k].page);
      assert (past + [DiskPop])[..t.queue[k].id] == past[..t.queue[k].id];
    }
  }

  lemma {:induction false} StepKeepsReads(s: State, disk0: seq<PageData>, past: seq<Event>, ev: Event)
    requires Inv(s, disk0, past) && Enabled(s, ev)
    ensures ReadsOk(Step(s, ev, |past|), disk0, past + [ev])
  {
    var t := Step(s, ev, |past|);
    match ev
    case Write(page, data) =>
      WriteBiosAreWrites(page, data);
      AppendKeepsReads(s, t, disk0, past, ev);
    case Read(page) =>
      if ReadsRemotely(s, page) {
        AppendKeepsReads(s, t, disk0, past, ev);
      } else {
        QueuedReadIsOk(s, disk0, past, page);
      }
    case DiskPop => PopKeepsReads(s, disk0, past);
    case _ => AppendKeepsReads(s, t, disk0, past, ev);
  }

  // ---------------------------------------------------------------- remote pages

  /**
   An off-line write to a page whose remote copy is trusted: the request goes to the disk alone
   and the bit stays set.  It does harm when it changes the page.
   */
  predicate StaleWrite(s: State, disk0: seq<PageData>, past: seq<Event>, ev: Event)
    requires Shape(s) && |disk0| == CAPACITY
  {
    && ev.Write? && ValidRequest(ev.page, |ev.data|)
    && !s.rdmaOn && ChunkIndex(ev.page) == ChunkIndex(ev.page + |ev.data| - 1)
    && exists k :: 0 <= k < |ev.data| && RemoteHolds(s, ev.page + k) &&
         ev.data[k] != LastWritten(disk0, past, ev.page + k)
  }

  /** Distinct pages have distinct remote locations. */
  lemma RemoteLocInjective(s: State, p: int, q: int)
    requires TablesOk(s) && 0 <= p < CAPACITY && 0 <= q < CAPACITY
    requires Routed(s, ChunkIndex(p)) && Routed(s, ChunkIndex(q)) && RemoteLoc(s, p) == RemoteLoc(s, q)
    ensures p == q
  {
    assert s.chunkOf[s.route[ChunkIndex(p)]][s.slotOf[ChunkIndex(p)]] == ChunkIndex(p);
    assert s.chunkOf[s.route[ChunkIndex(q)]][s.slotOf[ChunkIndex(q)]] == ChunkIndex(q);
  }

  lemma SameChunk(page: int, n: int, p: int)
    requires ValidRequest(page, n) && ChunkIndex(page) == ChunkIndex(page + n - 1) && page <= p < page + n
    ensures ChunkIndex(p) == ChunkIndex(page) && Offset(p) == Offset(page) + (p - page)
  {
  }

  lemma OnlineWriteKeepsPage(s: State, disk0: seq<PageData>, past: seq<Event>, ev: Event, p: int)
    requires Inv(s, disk0, past) && ev.Write? && Enabled(s, ev) && 0 <= p < CAPACITY && s.rdmaOn
    requires ChunkIndex(ev.page) == ChunkIndex(ev.page + |ev.data| - 1) && Routed(s, ChunkIndex(ev.page))
    ensures PageOk(Step(s, ev, |past|), disk0, past + [ev], p)
  {
    hide RouteOk, SlotsOk, StopsOk, HomesOk, Unmapped, LastWritten, DiskOk, ReadsOk;
    var g, off := ChunkIndex(ev.page), Offset(ev.page);
    LastWrittenSnoc(disk0, past, ev, p);
    assert PageOk(s, disk0, past, p);
    if ev.page <= p < ev.page + |ev.data| {
      SameChunk(ev.page, |ev.data|, p);
      assert RemoteLoc(s, p) in LocsOf(s.route[g], s.slotOf[g], off, |ev.data|);
    } else if Routed(s, ChunkIndex(p)) {
      if RemoteLoc(s, p) in LocsOf(s.route[g], s.slotOf[g], off, |ev.data|) {
        var q := g * PAGES + Offset(p);
        RemoteLocInjective(s, p, q);
        assert false;
      }
    }
  }

  lemma SplitWriteKeepsPage(s: State, disk0: seq<PageData>, past: seq<Event>, ev: Event, p: int)
    requires Inv(s, disk0, past) && ev.Write? && Enabled(s, ev) && 0 <= p < CAPACITY
    requires ChunkIndex(ev.page) != ChunkIndex(ev.page + |ev.data| - 1)
    ensures PageOk(Step(s, ev, |past|), disk0, past + [ev], p)
  {
    hide RouteOk, SlotsOk, StopsOk, HomesOk, Unmapped, LastWritten, DiskOk, ReadsOk;
    LastWrittenSnoc(disk0, past, ev, p);
    assert PageOk(s, disk0, past, p);
  }

  /** Steps other than writes keep a page current because they never set a bit. */
  lemma OtherStepKeepsPage(s: State, disk0: seq<PageData>, past: seq<Event>, ev: Event, p: int)
    requires Inv(s, disk0, past) && !ev.Write? && Enabled(s, ev) && 0 <= p < CAPACITY
    ensures PageOk(Step(s, ev, |past|), disk0, past + [ev], p)
  {
    LastWrittenSnoc(disk0, past, ev, p);
    assert PageOk(s, disk0, past, p);
    var g := ChunkIndex(p);
    match ev
    case MapChunk(chunk, c, i) =>
      if g == chunk {
        assert Step(s, ev, |past|).valid == s.valid - SlotLocs(s.valid, c, {i});
      }
    case RemoteNoise(l, _) =>
      if Routed(s, g) { assert s.chunkOf[s.route[g]][s.slotOf[g]] == g; }
    case _ =>
  }

  lemma OfflineWriteKeepsPage(s: State, disk0: seq<PageData>, past: seq<Event>, ev: Event, p: int)
    requires Inv(s, disk0, past) && ev.Write? && Enabled(s, ev) && 0 <= p < CAPACITY
    requires ChunkIndex(ev.page) == ChunkIndex(ev.page + |ev.data| - 1)
    requires !s.rdmaOn || !Routed(s, ChunkIndex(ev.page))
    requires !StaleWrite(s, disk0, past, ev)
    ensures PageOk(Step(s, ev, |past|), disk0, past + [ev], p)
  {
    var t := Step(s, ev, |past|);
    assert t == s.(queue := t.queue);
    LastWrittenSnoc(disk0, past, ev, p);
    assert PageOk(s, disk0, past, p);
    if ev.page <= p < ev.page + |ev.data| {
      SameChunk(ev.page, |ev.data|, p);
      if !s.rdmaOn { NotStaleAt(s, disk0, past, ev, p - ev.page); }
    }
  }

  lemma NotStaleAt(s: State, disk0: seq<PageData>, past: seq<Event>, ev: Event, k: int)
    requires Shape(s) && |disk0| == CAPACITY && ev.Write? && Enabled(s, ev) && !StaleWrite(s, disk0, past, ev)
    requires ChunkIndex(ev.page) == ChunkIndex(ev.page + |ev.data| - 1) && !s.rdmaOn && 0 <= k < |ev.data|
    ensures RemoteHolds(s, ev.page + k) ==> ev.data[k] == LastWritten(disk0, past, ev.page + k)
  {
  }

  /** Every step that is not a stale write keeps the whole invariant. */
  lemma {:induction false} StepKeepsInv(s: State, disk0: seq<PageData>, past: seq<Event>, ev: Event)
    requires Inv(s, disk0, past) && Enabled(s, ev) && !StaleWrite(s, disk0, past, ev)
    ensures Inv(Step(s, ev, |past|), disk0, past + [ev])
  {
    var t := Step(s, ev, |past|);
    StepKeepsTables(s, ev, |past|);
    StepKeepsDisk(s, disk0, past, ev);
    StepKeepsReads(s, disk0, past, ev);
    forall p | 0 <= p < CAPACITY
      ensures PageOk(t, disk0, past + [ev], p)
    {
      if !ev.Write? {
        OtherStepKeepsPage(s, disk0, past, ev, p);
      } else if ChunkIndex(ev.page) != ChunkIndex(ev.page + |ev.data| - 1) {
        SplitWriteKeepsPage(s, disk0, past, ev, p);
      } else if s.rdmaOn && Routed(s, ChunkIndex(ev.page)) {
        OnlineWriteKeepsPage(s, disk0, past, ev, p);
      } else {
        OfflineWriteKeepsPage(s, disk0, past, ev, p);
      }
    }
  }

  lemma StaleWriteSpoils(s: State, disk0: seq<PageData>, past: seq<Event>, ev: Event, p: int)
    requires Inv(s, disk0, past) && Enabled(s, ev) && ev.Write? && !s.rdmaOn
    requires ChunkIndex(ev.page) == ChunkIndex(ev.page + |ev.data| - 1)
    requires ev.page <= p < ev.page + |ev.data| && RemoteHolds(s, p) &&
             ev.data[p - ev.page] != LastWritten(disk0, past, p)
    ensures !PageOk(Step(s, ev, |past|), disk0, past + [ev], p)
    ensures var t := Step(s, ev, |past|);
            && RemoteHolds(t, p) && RemoteLoc(t, p) in t.remote
            && t.remote[RemoteLoc(t, p)] != LastWritten(disk0, past + [ev], p)
  {
    LastWrittenSnoc(disk0, past, ev, p);
    assert PageOk(s, disk0, past, p);
  }

  lemma {:induction false} StaleWriteBreaksInv(s: State, disk0: seq<PageData>, past: seq<Event>, ev: Event)
    requires Inv(s, disk0, past) && Enabled(s, ev) && StaleWrite(s, disk0, past, ev)
    ensures !Inv(Step(s, ev, |past|), disk0, past + [ev])
  {
    var k :| 0 <= k < |ev.data| && RemoteHolds(s, ev.page + k) && ev.data[k] != LastWritten(disk0, past, ev.page + k);
    StaleWriteSpoils(s, disk0, past, ev, ev.page + k);
    assert !RemoteOk(Step(s, ev, |past|), disk0, past + [ev]);
  }

  /** A step keeps the invariant exactly when it is not a stale write. */
  lemma {:induction false} StepKeepsInvExactly(s: State, disk0: seq<PageData>, past: seq<Event>, ev: Event)
    requires Inv(s, disk0, past) && Enabled(s, ev)
    ensures Inv(Step(s, ev, |past|), disk0, past + [ev]) <==> !StaleWrite(s, disk0, past, ev)
  {
    if StaleWrite(s, disk0, past, ev) {
      StaleWriteBreaksInv(s, disk0, past, ev);
    } else {
      StepKeepsInv(s, disk0, past, ev);
    }
  }

  lemma LastBeforeOn(disk0: seq<PageData>, past: seq<Event>, ev: Event, p: int)
    requires 0 <= p < |disk0|
    ensures LastWritten(disk0, past + [ev, RdmaOn], p) == LastWritten(disk0, past + [ev], p)
  {
    assert past + [ev, RdmaOn] == (past + [ev]) + [RdmaOn];
    LastWrittenSnoc(disk0, past + [ev], RdmaOn, p);
  }

  /** The damage is observable: back on line, the next read of the page returns the old contents. */
  lemma {:induction false} StaleWriteIsObservable(s: State, disk0: seq<PageData>, past: seq<Event>, ev: Event)
    returns (p: int, d: PageData)
    requires Inv(s, disk0, past) && Enabled(s, ev) && StaleWrite(s, disk0, past, ev)
    ensures 0 <= p < CAPACITY
    ensures var t := Step(s, ev, |past|);
            var u := Step(t, RdmaOn, |past| + 1);
            Output(u, Read(p), |past| + 2) == {Observation(|past| + 2, d)}
            && d != LastWritten(disk0, past + [ev, RdmaOn], p)
  {
    hide LastWritten, Output, RemoteLoc;
    var k :| 0 <= k < |ev.data| && RemoteHolds(s, ev.page + k) && ev.data[k] != LastWritten(disk0, past, ev.page + k);
    p := ev.page + k;
    StaleWriteSpoils(s, disk0, past, ev, p);
    var t := Step(s, ev, |past|);
    LastBeforeOn(disk0, past, ev, p);
    BackOnline(t, p, |past| + 1);
    d := t.remote[RemoteLoc(t, p)];
  }

  /** A read after RDMA is on again is answered from the remote page that is trusted. */
  lemma BackOnline(t: State, p: int, now: nat)
    requires Shape(t) && 0 <= p < CAPACITY && Enabled(t, RdmaOn)
    requires RemoteHolds(t, p) && RemoteLoc(t, p) in t.remote
    ensures var u := Step(t, RdmaOn, now);
            Enabled(u, Read(p)) && Output(u, Read(p), now + 1) == {Observation(now + 1, t.remote[RemoteLoc(t, p)])}
  {
    var u := Step(t, RdmaOn, now);
    assert RemoteHolds(u, p) && RemoteLoc(u, p) == RemoteLoc(t, p);
  }

  /**
   Which remote pages are trusted after a write: all it covers if it went to remote memory, none it
   covers if it spans two chunks, and otherwise the same as before.
   */
  lemma {:induction false} TrustedAfterWrite(s: State, ev: Event, now: nat, p: int)
    requires TablesOk(s) && ev.Write? && Enabled(s, ev) && 0 <= p < CAPACITY
    ensures var g, e := ChunkIndex(ev.page), ChunkIndex(ev.page + |ev.data| - 1);
            RemoteHolds(Step(s, ev, now), p) <==>
            if !(ev.page <= p < ev.page + |ev.data|) then RemoteHolds(s, p)
            else g == e && (RemoteHolds(s, p) || (Routed(s, g) && s.rdmaOn))
  {
    hide SlotsOk, StopsOk, HomesOk, Unmapped;
    var g, e, off := ChunkIndex(ev.page), ChunkIndex(ev.page + |ev.data| - 1), Offset(ev.page);
    if g != e {
      SplitWriteTrusts(s, ev, now, p);
    } else if Routed(s, g) && s.rdmaOn && Routed(s, ChunkIndex(p)) {
      if ev.page <= p < ev.page + |ev.data| {
        SameChunk(ev.page, |ev.data|, p);
      } else if RemoteLoc(s, p) in LocsOf(s.route[g], s.slotOf[g], off, |ev.data|) {
        RemoteLocInjective(s, p, g * PAGES + Offset(p));
        assert false;
      }
    }
  }

  lemma SplitWriteTrusts(s: State, ev: Event, now: nat, p: int)
    requires TablesOk(s) && ev.Write? && Enabled(s, ev) && 0 <= p < CAPACITY
    requires ChunkIndex(ev.page) != ChunkIndex(ev.page + |ev.data| - 1)
    ensures RemoteHolds(Step(s, ev, now), p) <==> RemoteHolds(s, p) && !(ev.page <= p < ev.page + |ev.data|)
  {
    hide SlotsOk, StopsOk, HomesOk, Unmapped;
    var g := ChunkIndex(ev.page);
    if Routed(s, ChunkIndex(p)) {
      ClearedExactly(s, g, Offset(ev.page), PAGES - Offset(ev.page), p);
      ClearedExactly(s, g + 1, 0, Offset(ev.page) + |ev.data| - PAGES, p);
    }
  }

  /** Clearing bits of a session chunk clears those of its own pages. */
  lemma ClearedExactly(s: State, g: int, off: int, n: int, p: int)
    requires TablesOk(s) && 0 <= g < SESSION_CHUNKS && 0 <= off && off + n <= PAGES && 0 <= p < CAPACITY
    requires Routed(s, ChunkIndex(p))
    ensures RemoteLoc(s, p) in ClearBits(s, g, off, n) <==>
            RemoteLoc(s, p) in s.valid && !(g * PAGES + off <= p < g * PAGES + off + n)
  {
    hide SlotsOk, StopsOk, HomesOk, Unmapped;
    if s.route[g] != NONE {
      assert s.chunkOf[s.route[g]][s.slotOf[g]] == g;
      assert s.chunkOf[s.route[ChunkIndex(p)]][s.slotOf[ChunkIndex(p)]] == ChunkIndex(p);
    }
  }

  /** No other step makes a page trusted, and one that keeps the chunk routed keeps its pages so. */
  lemma {:induction false} TrustedAfterOther(s: State, ev: Event, now: nat, p: int)
    requires TablesOk(s) && !ev.Write? && Enabled(s, ev) && 0 <= p < CAPACITY
    ensures RemoteHolds(Step(s, ev, now), p) <==>
            RemoteHolds(s, p) && Step(s, ev, now).route[ChunkIndex(p)] != NONE
  {
    hide HomesOk, Unmapped;
    var g := ChunkIndex(p);
    match ev
    case MapChunk(chunk, c, i) =>
      if g == chunk {
        assert Step(s, ev, now).valid == s.valid - SlotLocs(s.valid, c, {i});
      }
    case EvictEnd(c) => assert StopOk(s, c);
    case DisconnectBegin(c) => assert s.route[g] == c ==> s.slotOf[g] in MappedSlots(s, c);
    case DisconnectEnd(c) =>
      if g in ChunksOf(s, c, MappedSlots(s, c)) {
        var i :| i in MappedSlots(s, c) && s.chunkOf[c][i] == g;
        assert SlotOk(s, c, i);
      }
    case _ =>
  }

  // ---------------------------------------------------------------- runs

  /** IS_session_create: nothing is mapped, the device is off line, the disk holds anything. */
  predicate Init(s: State) {
    && Shape(s)
    && (forall g :: 0 <= g < SESSION_CHUNKS ==> s.route[g] == NONE && s.slotOf[g] == NONE)
    && (forall c, i :: 0 <= c < |s.chunkOf| && 0 <= i < SLOTS ==> s.chunkOf[c][i] == NONE)
    && s.valid == {} && !s.rdmaOn && s.freeIndex == SESSION_CHUNKS - 1 && s.queue == []
    && s.mappedCbs == {} && s.leaving == {} && forall c :: 0 <= c < |s.chunkOf| ==> s.stopping[c] == NotStopping
  }

  lemma {:induction false} InitInv(s: State)
    requires Init(s)
    ensures Inv(s, s.disk, [])
  {
    AllUnmapped(s.slotOf);
    assert StopsOk(s) && HomesOk(s);
  }

  lemma {:induction false} AllUnmapped(table: seq<int>)
    requires forall g :: 0 <= g < |table| ==> table[g] == NONE
    ensures |Unmapped(table)| == |table|
  {
    if table == [] {
      assert Unmapped(table) == {};
    } else {
      var n := |table| - 1;
      AllUnmapped(table[..n]);
      assert Unmapped(table) == Unmapped(table[..n]) + {n};
    }
  }

  /** A run visits states[k] before events[k]. */
  predicate IsRun(states: seq<State>, events: seq<Event>) {
    && |states| == |events| + 1 && Init(states[0])
    && forall k :: 0 <= k < |events| ==>
         Shape(states[k]) && Enabled(states[k], events[k]) && states[k + 1] == Step(states[k], events[k], k)
  }

  predicate NoStaleWrites(states: seq<State>, events: seq<Event>)
    requires IsRun(states, events)
  {
    forall k :: 0 <= k < |events| ==> !StaleWrite(states[k], states[0].disk, events[..k], events[k])
  }

  lemma {:induction false} RunKeepsInv(states: seq<State>, events: seq<Event>, k: nat)
    requires IsRun(states, events) && NoStaleWrites(states, events) && k <= |events|
    ensures Inv(states[k], states[0].disk, events[..k])
  {
    if k == 0 {
      InitInv(states[0]);
      assert events[..0] == [];
    } else {
      RunKeepsInv(states, events, k - 1);
      StepKeepsInv(states[k - 1], states[0].disk, events[..k - 1], events[k - 1]);
      assert events[..k] == events[..k - 1] + [events[k - 1]];
    }
  }

  /**
   The device is a store: in every run without stale writes, whatever read a step completes, it
   returns what was last written to that page before the read was asked for.
   */
  lemma {:induction false} ReadsReturnLastWrite(states: seq<State>, events: seq<Event>, k: nat, o: Observation)
    requires IsRun(states, events) && NoStaleWrites(states, events) && k < |events|
    requires o in Output(states[k], events[k], k)
    ensures o.id <= k && events[o.id].Read?
    ensures 0 <= events[o.id].page < CAPACITY &&
            o.data == LastWritten(states[0].disk, events[..o.id], events[o.id].page)
  {
    RunKeepsInv(states, events, k);
    var s, disk0, past := states[k], states[0].disk, events[..k];
    match events[k]
    case Read(page) => assert PageOk(s, disk0, past, page);
    case DiskPop =>
      assert ReadOk(s, disk0, past, 0);
      assert s.queue[..0] == [];
      assert past[..o.id] == events[..o.id];
    case _ =>
  }

  // ---------------------------------------------------------------- every read is answered once

  /** Request k is a read in the disk queue. */
  predicate Waits(queue: seq<Bio>, k: nat) {
    exists i :: 0 <= i < |queue| && queue[i].DiskRead? && queue[i].id == k
  }

  /** The reads in the queue stand in the order they were asked in, before request n. */
  predicate InOrder(queue: seq<Bio>, n: nat) {
    && (forall i :: 0 <= i < |queue| && queue[i].DiskRead? ==> queue[i].id < n)
    && forall i, j :: 0 <= i < j < |queue| && queue[i].DiskRead? && queue[j].DiskRead? ==> queue[i].id < queue[j].id
  }

  /** Step j completes the read of request k. */
  predicate Answers(states: seq<State>, events: seq<Event>, j: int, k: nat)
    requires IsRun(states, events)
  {
    0 <= j < |events| && exists o :: o in Output(states[j], events[j], j) && o.id == k
  }

  lemma {:induction false} WriteBiosAreNoReads(page: int, data: seq<PageData>)
    ensures forall i :: 0 <= i < |data| ==> WriteBios(page, data)[i].DiskWrite?
  {
    if data != [] { WriteBiosAreNoReads(page, data[..|data| - 1]); }
  }

  /** A step other than a read that is queued, and other than a pop, queues nothing but writes. */
  lemma QueueGrows(s: State, ev: Event, now: nat)
    requires Shape(s) && Enabled(s, ev) && !ev.DiskPop?
    ensures var q := Step(s, ev, now).queue;
            && s.queue <= q
            && (ev.Read? && !ReadsRemotely(s, ev.page) ==> q == s.queue + [DiskRead(ev.page, now)])
            && (!ev.Read? || ReadsRemotely(s, ev.page) ==> forall i :: |s.queue| <= i < |q| ==> q[i].DiskWrite?)
  {
    if ev.Write? { WriteBiosAreNoReads(ev.page, ev.data); }
  }

  lemma {:induction false} QueueInOrder(states: seq<State>, events: seq<Event>, n: nat)
    requires IsRun(states, events) && n <= |events|
    ensures InOrder(states[n].queue, n)
  {
    hide Step, Enabled, Shape, Init, ReadsRemotely;
    if n > 0 {
      QueueInOrder(states, events, n - 1);
      var s, ev := states[n - 1], events[n - 1];
      if ev.DiskPop? { PopIs(s, n - 1); } else { QueueGrows(s, ev, n - 1); }
    } else {
      InitQueue(states[0]);
    }
  }

  lemma InitQueue(s: State)
    requires Init(s)
    ensures s.queue == []
  {
  }

  lemma PopIs(s: State, now: nat)
    requires Shape(s) && Enabled(s, DiskPop)
    ensures s.queue != [] && Step(s, DiskPop, now).queue == s.queue[1..]
  {
  }

  /** A read that waits still waits after the next step, unless that step completes it. */
  lemma WaitsOn(s: State, disk0: seq<PageData>, past: seq<Event>, ev: Event, k: nat) returns (d: PageData)
    requires Inv(s, disk0, past) && Enabled(s, ev) && Waits(s.queue, k)
    ensures Waits(Step(s, ev, |past|).queue, k) || Output(s, ev, |past|) == {Observation(k, d)}
  {
    hide Step, RouteOk, SlotsOk, StopsOk, HomesOk, Unmapped, DiskOk, RemoteOk, PageAfter, LastWritten;
    d := [];
    var i :| 0 <= i < |s.queue| && s.queue[i].DiskRead? && s.queue[i].id == k;
    var q := Step(s, ev, |past|).queue;
    if ev.DiskPop? {
      PopIs(s, |past|);
      if i == 0 {
        assert ReadOk(s, disk0, past, 0);
        d := s.disk[s.queue[0].page];
      } else {
        assert q[i - 1] == s.queue[i];
      }
    } else {
      QueueGrows(s, ev, |past|);
      assert q[i] == s.queue[i];
    }
  }

  /** A read that is asked for is completed at once, or it waits. */
  lemma AskedFor(s: State, disk0: seq<PageData>, past: seq<Event>, p: int) returns (d: PageData)
    requires Inv(s, disk0, past) && Enabled(s, Read(p))
    ensures Waits(Step(s, Read(p), |past|).queue, |past|) || Output(s, Read(p), |past|) == {Observation(|past|, d)}
  {
    hide Step, RouteOk, SlotsOk, StopsOk, HomesOk, Unmapped, DiskOk, ReadsOk, PageAfter, LastWritten;
    var q := Step(s, Read(p), |past|).queue;
    QueueGrows(s, Read(p), |past|);
    d := [];
    if ReadsRemotely(s, p) {
      assert PageOk(s, disk0, past, p);
      d := s.remote[RemoteLoc(s, p)];
    } else {
      assert q[|s.queue|] == DiskRead(p, |past|);
    }
  }

  /** Before step n, a read asked for earlier waits or has been completed. */
  lemma {:induction false} WaitsOrAnswered(states: seq<State>, events: seq<Event>, k: nat, n: nat)
    returns (j: nat, d: PageData)
    requires IsRun(states, events) && NoStaleWrites(states, events) && k < n <= |events| && events[k].Read?
    ensures Waits(states[n].queue, k) || (k <= j < n && Output(states[j], events[j], j) == {Observation(k, d)})
  {
    hide Step, Enabled, Shape, Init, Inv, Waits, Output, NoStaleWrites;
    RunKeepsInv(states, events, n - 1);
    assert |events[..n - 1]| == n - 1;
    if n == k + 1 {
      d := AskedFor(states[k], states[0].disk, events[..k], events[k].page);
      j := k;
    } else {
      j, d := WaitsOrAnswered(states, events, k, n - 1);
      if Waits(states[n - 1].queue, k) {
        d := WaitsOn(states[n - 1], states[0].disk, events[..n - 1], events[n - 1], k);
        j := n - 1;
      }
    }
  }

  /** A completed read was asked for before, and waits no longer. */
  lemma AnswerLeaves(s: State, ev: Event, n: nat, o: Observation)
    requires Shape(s) && Enabled(s, ev) && InOrder(s.queue, n) && o in Output(s, ev, n)
    ensures o.id <= n && !Waits(Step(s, ev, n).queue, o.id)
    ensures if ev.Read? then o.id == n else Waits(s.queue, o.id)
  {
    hide Step;
    var q := Step(s, ev, n).queue;
    if ev.Read? {
      QueueGrows(s, ev, n);
      assert forall i :: 0 <= i < |s.queue| ==> q[i] == s.queue[i];
    } else {
      PopIs(s, n);
      assert s.queue[0].DiskRead? && s.queue[0].id == o.id;
      assert forall i :: 0 <= i < |q| ==> q[i] == s.queue[i + 1];
    }
  }

  /** A read that does not wait is not queued by a later step. */
  lemma NotQueuedLater(s: State, ev: Event, n: nat, k: nat)
    requires Shape(s) && Enabled(s, ev) && !Waits(s.queue, k) && k < n
    ensures !Waits(Step(s, ev, n).queue, k)
  {
    hide Step, ReadsRemotely;
    var q := Step(s, ev, n).queue;
    if ev.DiskPop? {
      PopIs(s, n);
      assert forall i :: 0 <= i < |q| ==> q[i] == s.queue[i + 1];
    } else {
      QueueGrows(s, ev, n);
      assert forall i :: 0 <= i < |s.queue| ==> q[i] == s.queue[i];
    }
  }

  lemma {:induction false} AnsweredIsGone(states: seq<State>, events: seq<Event>, j: nat, k: nat, n: nat)
    requires IsRun(states, events) && Answers(states, events, j, k) && j < n <= |events|
    ensures k <= j && !Waits(states[n].queue, k)
  {
    hide Step, Enabled, Shape, Init, Waits, Output;
    if n == j + 1 {
      QueueInOrder(states, events, j);
      var o :| o in Output(states[j], events[j], j) && o.id == k;
      AnswerLeaves(states[j], events[j], j, o);
    } else {
      AnsweredIsGone(states, events, j, k, n - 1);
      NotQueuedLater(states[n - 1], events[n - 1], n - 1, k);
    }
  }

  lemma {:induction false} AnsweredOnce(states: seq<State>, events: seq<Event>, i: nat, j: nat, k: nat)
    requires IsRun(states, events) && Answers(states, events, i, k) && Answers(states, events, j, k)
    ensures i == j
  {
    hide Step, Enabled, Shape, Init, Waits, Output;
    var (a, b) := if i < j then (i, j) else (j, i);
    if a < b {
      AnsweredIsGone(states, events, a, k, b);
      QueueInOrder(states, events, b);
      var o :| o in Output(states[b], events[b], b) && o.id == k;
      AnswerLeaves(states[b], events[b], b, o);
      assert false;
    }
  }

  /**
   No read is lost: once the disk queue has drained, every read asked for has been completed by
   exactly one step, and with what was last written to its page before it was asked for.
   */
  lemma {:induction false} EveryReadIsAnswered(states: seq<State>, events: seq<Event>, k: nat) returns (j: nat)
    requires IsRun(states, events) && NoStaleWrites(states, events) && states[|events|].queue == []
    requires k < |events| && events[k].Read?
    ensures 0 <= events[k].page < CAPACITY && k <= j < |events|
    ensures Output(states[j], events[j], j)
         == {Observation(k, LastWritten(states[0].disk, events[..k], events[k].page))}
    ensures forall i :: Answers(states, events, i, k) <==> i == j
  {
    hide Step, Init, Output, NoStaleWrites, LastWritten;
    var d;
    j, d := WaitsOrAnswered(states, events, k, |events|);
    assert Observation(k, d) in Output(states[j], events[j], j);
    ReadsReturnLastWrite(states, events, j, Observation(k, d));
    forall i | Answers(states, events, i, k)
      ensures i == j
    {
      AnsweredOnce(states, events, i, j, k);
    }
  }

  /** RDMA is off only before the first chunk has been written, and while some server is leaving. */
  lemma {:induction false} OfflineMeansLeaving(states: seq<State>, events: seq<Event>, k: nat)
    requires IsRun(states, events) && k <= |events|
    ensures states[k].rdmaOn || states[k].valid == {} || states[k].leaving != {}
  {
    if k > 0 {
      OfflineMeansLeaving(states, events, k - 1);
      assert states[k] == Step(states[k - 1], events[k - 1], k - 1);
    }
  }

  /** No write is served between the two halves of a disconnect. */
  predicate QuietDisconnects(states: seq<State>, events: seq<Event>)
    requires IsRun(states, events)
  {
    forall k :: 0 <= k < |events| && states[k].leaving != {} ==> !events[k].Write?
  }

  /** Then no run has a stale write, so every read returns the last write. */
  lemma {:induction false} QuietDisconnectsSuffice(states: seq<State>, events: seq<Event>)
    requires IsRun(states, events) && QuietDisconnects(states, events)
    ensures NoStaleWrites(states, events)
  {
    forall k | 0 <= k < |events|
      ensures !StaleWrite(states[k], states[0].disk, events[..k], events[k])
    {
      OfflineMeansLeaving(states, events, k);
    }
  }

  // ---------------------------------------------------------------- a stale read

  /** Two servers, each with one chunk in its first slot. */
  predicate TwoMapped(s: State) {
    && Shape(s) && |s.chunkOf| >= 2 && s.mappedCbs == {0, 1} && s.leaving == {}
    && s.route[0] == 0 && s.slotOf[0] == 0 && s.route[1] == 1 && s.slotOf[1] == 0
    && s.chunkOf[1][0] == 1 && forall i :: 0 < i < SLOTS ==> s.chunkOf[1][i] == NONE
  }

  /** Page 0 is trusted at server 0 and holds a there. */
  predicate Holding(s: State, a: PageData) {
    && Shape(s) && s.route[0] == 0 && s.slotOf[0] == 0
    && Loc(0, 0, 0) in s.valid && Loc(0, 0, 0) in s.remote && s.remote[Loc(0, 0, 0)] == a
  }

  lemma MapBoth(s0: State)
    requires Init(s0) && |s0.chunkOf| >= 2
    ensures Enabled(s0, MapChunk(0, 0, 0))
    ensures var s1 := Step(s0, MapChunk(0, 0, 0), 0);
            Enabled(s1, MapChunk(1, 1, 0)) && TwoMapped(Step(s1, MapChunk(1, 1, 0), 1))
  {
  }

  lemma WriteOnline(s: State, a: PageData)
    requires TwoMapped(s) && s.rdmaOn
    ensures Enabled(s, Write(0, [a]))
    ensures TwoMapped(Step(s, Write(0, [a]), 3)) && Holding(Step(s, Write(0, [a]), 3), a)
  {
    assert Loc(0, 0, 0) in LocsOf(0, 0, 0, 1);
  }

  /** The first half of the disconnect of server 1 leaves server 0 and its trusted page alone. */
  lemma LeaveSecond(s: State, a: PageData)
    requires TwoMapped(s) && Holding(s, a)
    ensures Enabled(s, DisconnectBegin(1))
    ensures var t := Step(s, DisconnectBegin(1), 4);
            Holding(t, a) && !t.rdmaOn && |t.chunkOf| >= 2 && 1 in t.leaving && t.chunkOf == s.chunkOf
  {
    assert MappedSlots(s, 1) == {0};
    assert ChunksOf(s, 1, {0}) == {1};
  }

  lemma WriteOffline(s: State, a: PageData, b: PageData)
    requires Holding(s, a) && !s.rdmaOn
    ensures Enabled(s, Write(0, [b]))
    ensures var t := Step(s, Write(0, [b]), 5); Holding(t, a) && t.chunkOf == s.chunkOf && t.leaving == s.leaving
  {
  }

  /** So does the second half. */
  lemma ReleaseSecond(s: State, a: PageData)
    requires Holding(s, a) && |s.chunkOf| >= 2 && 1 in s.leaving
    requires s.chunkOf[1][0] == 1 && forall i :: 0 < i < SLOTS ==> s.chunkOf[1][i] == NONE
    ensures Enabled(s, DisconnectEnd(1))
    ensures var t := Step(s, DisconnectEnd(1), 6); Holding(t, a) && t.rdmaOn
  {
    assert MappedSlots(s, 1) == {0};
    assert ChunksOf(s, 1, {0}) == {1};
  }

  lemma ReadHeld(s: State, a: PageData)
    requires Holding(s, a) && s.rdmaOn
    ensures Enabled(s, Read(0)) && Output(s, Read(0), 7) == {Observation(7, a)}
  {
  }

  function StaleEvents(a: PageData, b: PageData): seq<Event> {
    [MapChunk(0, 0, 0), MapChunk(1, 1, 0), RdmaOn, Write(0, [a]), DisconnectBegin(1), Write(0, [b]), DisconnectEnd(1),
     Read(0)]
  }

  lemma StaleEventsWrite(disk: seq<PageData>, a: PageData, b: PageData)
    requires |disk| == CAPACITY
    ensures LastWritten(disk, StaleEvents(a, b)[..7], 0) == b
  {
    hide LastWritten;
    var events := StaleEvents(a, b);
    assert events[..7] == events[..6] + [DisconnectEnd(1)] && events[..6] == events[..5] + [Write(0, [b])];
    LastWrittenSnoc(disk, events[..6], DisconnectEnd(1), 0);
    LastWrittenSnoc(disk, events[..5], Write(0, [b]), 0);
  }

  lemma TurnOn(s: State)
    requires TwoMapped(s)
    ensures Enabled(s, RdmaOn) && TwoMapped(Step(s, RdmaOn, 2)) && Step(s, RdmaOn, 2).rdmaOn
  {
  }

  /**
   With such a write the store breaks: while server 1 is being torn down, a write to a chunk that
   server 0 still holds goes to the disk alone, and the next read returns the older contents.
   */
  lemma {:induction false} StaleReadHappens(s0: State, a: PageData, b: PageData)
    returns (states: seq<State>, events: seq<Event>)
    requires Init(s0) && |s0.chunkOf| >= 2 && a != b
    ensures IsRun(states, events) && states[0] == s0 && |events| == 8 && events[7] == Read(0)
    ensures Output(states[7], events[7], 7) == {Observation(7, a)}
    ensures LastWritten(s0.disk, events[..7], 0) == b
  {
    hide Step, Enabled, LastWritten, Output, Holding;
    events := StaleEvents(a, b);
    MapBoth(s0);
    var s1 := Step(s0, events[0], 0);
    var s2 := Step(s1, events[1], 1);
    TurnOn(s2);
    var s3 := Step(s2, events[2], 2);
    WriteOnline(s3, a);
    var s4 := Step(s3, events[3], 3);
    LeaveSecond(s4, a);
    var s5 := Step(s4, events[4], 4);
    WriteOffline(s5, a, b);
    var s6 := Step(s5, events[5], 5);
    ReleaseSecond(s6, a);
    var s7 := Step(s6, events[6], 6);
    ReadHeld(s7, a);
    states := [s0, s1, s2, s3, s4, s5, s6, s7, Step(s7, events[7], 7)];
    StaleEventsWrite(s0.disk, a, b);
  }

  // ---------------------------------------------------------------- the driver's handlers

  /** The chunk map of one server names session chunks only; every table invariant implies it. */
  predicate InRange(s: State, cb: int) {
    && Shape(s) && 0 <= cb < |s.chunkOf|
    && forall i :: 0 <= i < SLOTS && s.chunkOf[cb][i] != NONE ==> 0 <= s.chunkOf[cb][i] < SESSION_CHUNKS
  }

  function Below(xs: set<int>, n: int): set<int> {
    set x | x in xs && x < n
  }

  lemma BelowSnoc(xs: set<int>, n: int)
    ensures Below(xs, n + 1) == if n in xs then Below(xs, n) + {n} else Below(xs, n)
    ensures n in xs ==> |Below(xs, n + 1)| == |Below(xs, n)| + 1
  {
    assert n in xs ==> Below(xs, n + 1) == Below(xs, n) + {n};
  }

  function MappedBelow(s: State, cb: int, n: nat): set<int>
    requires Shape(s) && 0 <= cb < |s.chunkOf| && n <= SLOTS
  {
    set i | 0 <= i < n && s.chunkOf[cb][i] != NONE
  }

  lemma MappedBelowSnoc(s: State, cb: int, n: nat)
    requires Shape(s) && 0 <= cb < |s.chunkOf| && n < SLOTS
    ensures s.chunkOf[cb][n] == NONE ==> MappedBelow(s, cb, n + 1) == MappedBelow(s, cb, n)
    ensures s.chunkOf[cb][n] != NONE ==> MappedBelow(s, cb, n + 1) == MappedBelow(s, cb, n) + {n}
    ensures s.chunkOf[cb][n] != NONE ==> |MappedBelow(s, cb, n + 1)| == |MappedBelow(s, cb, n)| + 1
  {
    assert s.chunkOf[cb][n] != NONE ==> MappedBelow(s, cb, n + 1) == MappedBelow(s, cb, n) + {n};
  }

  lemma ChunksOfAdd(s: State, cb: int, slots: set<int>, i: int)
    requires Shape(s) && 0 <= cb < |s.chunkOf| && 0 <= i < SLOTS
    ensures ChunksOf(s, cb, slots + {i}) == ChunksOf(s, cb, slots) + {s.chunkOf[cb][i]}
  {
  }

  lemma SlotLocsAdd(valid: set<Loc>, cb: int, slots: set<int>, i: int)
    ensures var rest := valid - SlotLocs(valid, cb, slots);
            rest - SlotLocs(rest, cb, {i}) == valid - SlotLocs(valid, cb, slots + {i})
  {
  }

  // What each table holds when a disconnect handler has visited the first n slots of a server.

  function BitsAfter(s: State, cb: int, n: nat): set<Loc>
    requires Shape(s) && 0 <= cb < |s.chunkOf| && n <= SLOTS
  {
    s.valid - SlotLocs(s.valid, cb, MappedBelow(s, cb, n))
  }

  function TableAfter(s: State, table: seq<int>, cb: int, n: nat): (r: seq<int>)
    requires Shape(s) && 0 <= cb < |s.chunkOf| && n <= SLOTS
    ensures |r| == |table|
  {
    Fill(table, ChunksOf(s, cb, MappedBelow(s, cb, n)), NONE)
  }

  function SlotsAfter(s: State, cb: int, n: nat): (r: seq<int>)
    requires Shape(s) && 0 <= cb < |s.chunkOf| && n <= SLOTS
    ensures |r| == SLOTS
  {
    Fill(s.chunkOf[cb], MappedBelow(s, cb, n), NONE)
  }

  lemma AfterNone(s: State, cb: int)
    requires Shape(s) && 0 <= cb < |s.chunkOf|
    ensures BitsAfter(s, cb, 0) == s.valid && SlotsAfter(s, cb, 0) == s.chunkOf[cb] && |MappedBelow(s, cb, 0)| == 0
    ensures TableAfter(s, s.route, cb, 0) == s.route && TableAfter(s, s.slotOf, cb, 0) == s.slotOf
  {
    assert MappedBelow(s, cb, 0) == {};
    FillNothing(s.route, NONE);
    FillNothing(s.slotOf, NONE);
    FillNothing(s.chunkOf[cb], NONE);
  }

  lemma TableAfterSnoc(s: State, table: seq<int>, cb: int, n: nat)
    requires InRange(s, cb) && n < SLOTS && |table| == SESSION_CHUNKS
    ensures TableAfter(s, table, cb, n + 1) ==
            if s.chunkOf[cb][n] == NONE then TableAfter(s, table, cb, n)
            else TableAfter(s, table, cb, n)[s.chunkOf[cb][n] := NONE]
  {
    MappedBelowSnoc(s, cb, n);
    if s.chunkOf[cb][n] != NONE {
      ChunksOfAdd(s, cb, MappedBelow(s, cb, n), n);
      FillAdd(table, ChunksOf(s, cb, MappedBelow(s, cb, n)), s.chunkOf[cb][n], NONE);
    }
  }

  lemma BitsAfterSnoc(s: State, cb: int, n: nat)
    requires InRange(s, cb) && n < SLOTS
    ensures BitsAfter(s, cb, n + 1) ==
            if s.chunkOf[cb][n] == NONE then BitsAfter(s, cb, n)
            else BitsAfter(s, cb, n) - SlotLocs(BitsAfter(s, cb, n), cb, {n})
  {
    MappedBelowSnoc(s, cb, n);
    SlotLocsAdd(s.valid, cb, MappedBelow(s, cb, n), n);
  }

  lemma SlotsAfterSnoc(s: State, cb: int, n: nat)
    requires InRange(s, cb) && n < SLOTS
    ensures SlotsAfter(s, cb, n)[n] == s.chunkOf[cb][n]
    ensures SlotsAfter(s, cb, n + 1)
         == if s.chunkOf[cb][n] == NONE then SlotsAfter(s, cb, n) else SlotsAfter(s, cb, n)[n := NONE]
    ensures |MappedBelow(s, cb, n + 1)| == |MappedBelow(s, cb, n)| + if s.chunkOf[cb][n] == NONE then 0 else 1
  {
    MappedBelowSnoc(s, cb, n);
    FillAdd(s.chunkOf[cb], MappedBelow(s, cb, n), n, NONE);
  }

  lemma AfterAll(s: State, cb: int)
    requires Shape(s) && 0 <= cb < |s.chunkOf|
    ensures var slots := MappedSlots(s, cb);
            && MappedBelow(s, cb, SLOTS) == slots
            && BitsAfter(s, cb, SLOTS) == s.valid - SlotLocs(s.valid, cb, slots)
            && TableAfter(s, s.route, cb, SLOTS) == Fill(s.route, ChunksOf(s, cb, slots), NONE)
            && TableAfter(s, s.slotOf, cb, SLOTS) == Fill(s.slotOf, ChunksOf(s, cb, slots), NONE)
            && SlotsAfter(s, cb, SLOTS) == Fill(s.chunkOf[cb], slots, NONE)
  {
    assert MappedBelow(s, cb, SLOTS) == MappedSlots(s, cb);
  }

  datatype Answer = FromRemote(data: PageData) | Queued

  /** The session as the kernel module keeps it: tables updated in place by the handlers. */
  class BlockDevice {
    var cbIndexMap: seq<int>
    var chunkMapCbChunk: seq<int>
    var chunkMap: seq<seq<int>>
    var bits: set<Loc>
    var remoteMemory: map<Loc, PageData>
    var rdmaOn: bool
    var freeChunkIndex: int
    var disk: seq<PageData>
    var bioList: seq<Bio>
    var mappedCbs: set<int>
    var stopping: seq<Stopping>
    var leaving: set<int>

    function View(): (s: State)
      reads this
    {
      State(cbIndexMap, chunkMapCbChunk, chunkMap, bits, remoteMemory, rdmaOn, freeChunkIndex, disk, bioList,
            mappedCbs, stopping, leaving)
    }

    constructor (servers: nat, backing: seq<PageData>)
      requires |backing| == CAPACITY
      ensures Init(View()) && disk == backing && |chunkMap| == servers
    {
      cbIndexMap := seq(SESSION_CHUNKS, _ => NONE);
      chunkMapCbChunk := seq(SESSION_CHUNKS, _ => NONE);
      chunkMap := seq(servers, _ => seq(SLOTS, _ => NONE));
      bits := {};
      remoteMemory := map[];
      rdmaOn := false;
      freeChunkIndex := SESSION_CHUNKS - 1;
      disk := backing;
      bioList := [];
      mappedCbs := {};
      stopping := seq(servers, _ => NotStopping);
      leaving := {};
    }

    /** IS_request for a write. */
    method RequestWrite(page: int, data: seq<PageData>)
      requires Shape(View()) && ValidRequest(page, |data|)
      modifies this
      ensures View() == WriteStep(old(View()), page, data)
    {
      var gbIndex := page / PAGES;
      var endIndex := (page + |data| - 1) / PAGES;
      var offset := page % PAGES;
      if gbIndex == endIndex {
        var cb := cbIndexMap[gbIndex];
        if cb == NONE {
          bioList := bioList + WriteBios(page, data);
          return;
        }
        var slot := chunkMapCbChunk[gbIndex];
        if slot == NONE {
          bioList := bioList + WriteBios(page, data);
          return;
        }
        if rdmaOn {
          bioList := bioList + WriteBios(page, data);
          remoteMemory := RemoteWrite(remoteMemory, cb, slot, offset, data);
          bits := bits + LocsOf(cb, slot, offset, |data|);
        } else {
          bioList := bioList + WriteBios(page, data);
        }
      } else {
        var cb, cb2 := cbIndexMap[gbIndex], cbIndexMap[endIndex];
        if cb != NONE {
          bits := bits - LocsOf(cb, chunkMapCbChunk[gbIndex], offset, PAGES - offset);
        }
        if cb2 != NONE {
          bits := bits - LocsOf(cb2, chunkMapCbChunk[endIndex], 0, offset + |data| - PAGES);
        }
        bioList := bioList + WriteBios(page, data);
      }
    }

    /** IS_request for a read, which is always of a single page. */
    method RequestRead(page: int, now: nat) returns (a: Answer)
      requires Shape(View()) && 0 <= page < CAPACITY
      requires ReadsRemotely(View(), page) ==> RemoteLoc(View(), page) in remoteMemory
      modifies this
      ensures View() == ReadStep(old(View()), page, now)
      ensures old(Output(View(), Read(page), now)) == if a.FromRemote? then {Observation(now, a.data)} else {}
    {
      var gbIndex := page / PAGES;
      var cb := cbIndexMap[gbIndex];
      a := Queued;
      if cb != NONE && chunkMapCbChunk[gbIndex] != NONE && rdmaOn {
        var loc := Loc(cb, chunkMapCbChunk[gbIndex], page % PAGES);
        if loc in bits {
          a := FromRemote(remoteMemory[loc]);
          return;
        }
      }
      bioList := bioList + [DiskRead(page, now)];
    }

    /** stackbd_threadfn: one entry of the queue reaches the disk. */
    method DiskThread() returns (done: set<Observation>)
      requires Shape(View())
      modifies this
      ensures old(bioList) == [] ==> View() == old(View()) && done == {}
      ensures old(bioList) != [] ==> View() == PopStep(old(View())) && done == old(Output(View(), DiskPop, 0))
      ensures old(bioList) != [] ==>
                match old(bioList)[0]
                case DiskRead(p, id) =>
                  disk == old(disk) && (0 <= p < CAPACITY ==> done == {Observation(id, old(disk)[p])})
                case DiskWrite(p, data) => done == {} && (0 <= p < CAPACITY ==> disk == old(disk)[p := data])
    {
      done := {};
      if bioList != [] {
        var bio := bioList[0];
        bioList := bioList[1..];
        if bio.DiskRead? && 0 <= bio.page < CAPACITY {
          done := {Observation(bio.id, disk[bio.page])};
        }
        disk := ApplyBio(disk, bio);
      }
    }

    /** INFO_SINGLE with IS_single_chunk_init: take the first slot the server has put a key into, if there is one. */
    method SingleChunkInit(cb: int, rkey: seq<bool>, selectChunk: int)
      requires Shape(View()) && |rkey| == SLOTS && 0 <= cb < |chunkMap| && 0 <= selectChunk < SESSION_CHUNKS
      requires cb !in leaving && chunkMapCbChunk[selectChunk] == NONE
      requires forall i :: 0 <= i < SLOTS && rkey[i] ==> chunkMap[cb][i] == NONE
      modifies this
      ensures (forall i :: 0 <= i < SLOTS ==> !rkey[i]) ==> View() == Step(old(View()), NoGrant(cb), 0)
      ensures forall i :: 0 <= i < SLOTS && rkey[i] && (forall j :: 0 <= j < i ==> !rkey[j]) ==>
                View() == MapStep(old(View()), selectChunk, cb, i)
    {
      mappedCbs := mappedCbs + {cb};
      var i := 0;
      while i < SLOTS
        invariant 0 <= i <= SLOTS && View() == old(View()).(mappedCbs := mappedCbs)
        invariant forall j :: 0 <= j < i ==> !rkey[j]
      {
        if rkey[i] {
          TakeSlot(cb, i, selectChunk);
          return;
        }
        i := i + 1;
      }
    }

    /** The body of the loop, at the granted slot. */
    method TakeSlot(cb: int, i: int, selectChunk: int)
      requires Shape(View()) && 0 <= cb < |chunkMap| && 0 <= i < SLOTS && 0 <= selectChunk < SESSION_CHUNKS
      requires cb in mappedCbs
      modifies this
      ensures View() == MapStep(old(View()), selectChunk, cb, i)
    {
      bits := bits - SlotLocs(bits, cb, {i});
      freeChunkIndex := freeChunkIndex - 1;
      chunkMapCbChunk := chunkMapCbChunk[selectChunk := i];
      chunkMap := chunkMap[cb := chunkMap[cb][i := selectChunk]];
      cbIndexMap := cbIndexMap[selectChunk := cb];
      assert mappedCbs + {cb} == mappedCbs;
    }

    /** evict_handler, first pass: unroute every chunk whose slot is to be stopped. */
    method EvictUnroute(cb: int, stop: seq<bool>) returns (evicted: set<int>)
      requires InRange(View(), cb) && |stop| == SLOTS
      requires Flagged(stop, SLOTS) <= MappedSlots(View(), cb)
      modifies this
      ensures View() == EvictBeginStep(old(View()), cb, Flagged(stop, SLOTS))
      ensures stopping[cb] == Stopping(Flagged(stop, SLOTS), evicted)
    {
      ghost var s0 := View();
      var map0 := chunkMap[cb];
      evicted := {};
      assert Flagged(stop, 0) == {};
      FillNothing(cbIndexMap, NONE);
      FillNothing(map0, NONE);
      var i := 0;
      while i < SLOTS
        invariant 0 <= i <= SLOTS
        invariant evicted == ChunksOf(s0, cb, Flagged(stop, i))
        invariant cbIndexMap == Fill(s0.route, evicted, NONE)
        invariant chunkMap == s0.chunkOf[cb := Fill(map0, Flagged(stop, i), NONE)]
        modifies `cbIndexMap, `chunkMap
      {
        FlaggedSnoc(stop, i);
        if stop[i] {
          assert i in MappedSlots(s0, cb);
          var chunk := chunkMap[cb][i];
          ChunksOfAdd(s0, cb, Flagged(stop, i), i);
          FillAdd(s0.route, evicted, chunk, NONE);
          FillAdd(map0, Flagged(stop, i), i, NONE);
          cbIndexMap := cbIndexMap[chunk := NONE];
          evicted := evicted + {chunk};
          chunkMap := chunkMap[cb := chunkMap[cb][i := NONE]];
        }
        i := i + 1;
      }
      stopping := stopping[cb := Stopping(Flagged(stop, SLOTS), evicted)];
    }

    /** evict_handler, second pass, after the requests in flight have drained. */
    method EvictRelease(cb: int, evicted: set<int>)
      requires Shape(View()) && 0 <= cb < |chunkMap| && stopping[cb].Stopping? && evicted == stopping[cb].chunks
      requires forall g :: g in evicted ==> 0 <= g < SESSION_CHUNKS
      modifies this
      ensures View() == EvictEndStep(old(View()), cb)
    {
      bits := bits - SlotLocs(bits, cb, stopping[cb].slots);
      ghost var s1 := View();
      ghost var done := {};
      FillNothing(chunkMapCbChunk, NONE);
      var i := 0;
      while i < SESSION_CHUNKS
        invariant 0 <= i <= SESSION_CHUNKS && |chunkMapCbChunk| == SESSION_CHUNKS
        invariant done == Below(evicted, i) && freeChunkIndex == s1.freeIndex + |done|
        invariant chunkMapCbChunk == Fill(s1.slotOf, done, NONE)
        modifies `chunkMapCbChunk, `freeChunkIndex
      {
        BelowSnoc(evicted, i);
        if i in evicted {
          FillAdd(s1.slotOf, done, i, NONE);
          chunkMapCbChunk := chunkMapCbChunk[i := NONE];
          freeChunkIndex := freeChunkIndex + 1;
          done := done + {i};
        }
        i := i + 1;
      }
      assert Below(evicted, SESSION_CHUNKS) == evicted;
      stopping := stopping[cb := NotStopping];
    }

    /** IS_disconnect_handler, up to the wait for requests in flight. */
    method DisconnectUnroute(cb: int)
      requires InRange(View(), cb)
      modifies this
      ensures View() == DisconnectBeginStep(old(View()), cb)
    {
      hide BitsAfter, TableAfter, MappedBelow, ChunksOf, MappedSlots;
      ghost var s0 := View();
      if cb !in mappedCbs { return; }
      AfterNone(s0, cb);
      mappedCbs := mappedCbs - {cb};
      rdmaOn := false;
      var i := 0;
      while i < SLOTS
        invariant 0 <= i <= SLOTS
        invariant bits == BitsAfter(s0, cb, i) && cbIndexMap == TableAfter(s0, s0.route, cb, i)
        modifies `bits, `cbIndexMap
      {
        BitsAfterSnoc(s0, cb, i);
        TableAfterSnoc(s0, s0.route, cb, i);
        var chunk := chunkMap[cb][i];
        if chunk != NONE {
          bits := bits - SlotLocs(bits, cb, {i});
          cbIndexMap := cbIndexMap[chunk := NONE];
        }
        i := i + 1;
      }
      AfterAll(s0, cb);
      leaving := leaving + {cb};
    }

    /** IS_disconnect_handler, from there to the end. */
    method DisconnectRelease(cb: int)
      requires InRange(View(), cb)
      modifies this
      ensures View() == DisconnectEndStep(old(View()), cb)
    {
      hide TableAfter, SlotsAfter, MappedBelow, ChunksOf, MappedSlots;
      ghost var s0 := View();
      AfterNone(s0, cb);
      var i := 0;
      while i < SLOTS
        invariant 0 <= i <= SLOTS
        invariant chunkMapCbChunk == TableAfter(s0, s0.slotOf, cb, i)
        invariant chunkMap == s0.chunkOf[cb := SlotsAfter(s0, cb, i)]
        invariant freeChunkIndex == s0.freeIndex + |MappedBelow(s0, cb, i)|
        modifies `chunkMapCbChunk, `freeChunkIndex, `chunkMap
      {
        TableAfterSnoc(s0, s0.slotOf, cb, i);
        SlotsAfterSnoc(s0, cb, i);
        var chunk := chunkMap[cb][i];
        if chunk != NONE {
          chunkMapCbChunk := chunkMapCbChunk[chunk := NONE];
          freeChunkIndex := freeChunkIndex + 1;
          chunkMap := chunkMap[cb := chunkMap[cb][i := NONE]];
        }
        i := i + 1;
      }
      AfterAll(s0, cb);
      rdmaOn := true;
      leaving := leaving - {cb};
    }
  }
}
