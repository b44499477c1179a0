/**
 The exchanges between a memory server and its clients, with messages in flight: QUERY/FREE_SIZE,
 BIND_SINGLE/INFO_SINGLE, EVICT/ACTIVITY/STOP/DONE, and broken connections
 (framework/infiniswap_daemon/rdma-common.c and framework/infiniswap_bd/is_main.c).
 Connection k joins entry k of the server's table to one client; its two channels are FIFO.
 */
module Binding {
  import opened Counting
  import D = Daemon

  const CLIENTS := D.CLIENTS
  const NONE := D.NONE

  datatype ToClient = FreeSize(n: int) | InfoSingle(chunk: int, slot: int) | Evict | Stop(slots: set<int>, n: int)
  datatype ToDaemon = Query | BindSingle(chunk: int) | Activity(slots: set<int>) | Done(slots: set<int>, n: int)

  /** Where the server stands in an eviction of one connection. */
  datatype Phase = Quiet | AwaitActivity | Reported(slots: set<int>) | AwaitDone

  /** A client's end: the slots it routes requests to, those it is giving up, and its requests in flight. */
  datatype Client = Client(up: bool, routed: set<int>, stopping: Stopping, inFlight: multiset<int>)
  datatype Stopping = NotStopping | StoppingSlots(slots: set<int>, n: int)

  datatype Link = Link(client: Client, toClient: seq<ToClient>, toDaemon: seq<ToDaemon>, phase: Phase)

  datatype System = System(daemon: D.State, links: seq<Link>)

  datatype Event =
    | Connect(k: int)
    | ClientSend(k: int, msg: ToDaemon)            // QUERY or BIND_SINGLE
    | ClientRecv(k: int)
    | ClientDone(k: int)                           // requests drained: tell the server
    | Issue(k: int, slot: int)
    | Complete(k: int, slot: int)
    | Break(k: int)                                // the client loses the connection
    | DaemonRecv(k: int)
    | DaemonEvict(k: int)
    | DaemonStop(k: int, slots: set<int>, n: int)  // chunks to stop, and the count that is sent with them
    | DaemonDestroy(k: int)
    | DaemonFree(slots: set<int>)
    | DaemonExpand(slots: set<int>)

  function DownClient(): Client { Client(false, {}, NotStopping, multiset{}) }
  function DownLink(): Link { Link(DownClient(), [], [], Quiet) }

  predicate Shape(s: System) { D.Shape(s.daemon) && |s.links| == CLIENTS }

  // ---------------------------------------------------------------- steps at one connection

  /** A message to the client; it is lost when the connection is broken. */
  function Send(l: Link, m: ToClient): Link {
    if l.client.up then l.(toClient := l.toClient + [m]) else l
  }

  /** send_free_mem_size: how many chunks are left. */
  function FreeMem(d: D.State): ToClient { FreeSize(d.sizeGb - d.mappedSize) }

  /** client_recv and the part of evict_handler up to the wait for requests in flight. */
  function ReceiveAtClient(l: Link): Link
    requires l.toClient != []
  {
    var rest := l.(toClient := l.toClient[1..]);
    match l.toClient[0]
    case FreeSize(_) => rest
    case InfoSingle(_, slot) =>
      if slot == NONE then rest else rest.(client := l.client.(routed := l.client.routed + {slot}))
    case Evict => rest.(toDaemon := l.toDaemon + [Activity(l.client.routed)])
    case Stop(slots, n) =>
      if n == 0 then rest
      else rest.(client := l.client.(routed := l.client.routed - slots, stopping := StoppingSlots(slots, n)))
  }

  /** IS_chunk_wait_in_flight_requests has returned: no request of a stopped slot is left. */
  predicate Drained(c: Client) {
    c.stopping.StoppingSlots? && forall i :: i in c.stopping.slots ==> i !in c.inFlight
  }

  predicate Enabled(s: System, ev: Event)
    requires Shape(s)
  {
    match ev
    case DaemonFree(slots) => slots <= D.GrantableChunks(s.daemon)
    case DaemonExpand(slots) => slots <= Where(s.daemon.mallocMap, D.EMPTY)
    case _ => 0 <= ev.k < CLIENTS && EnabledAt(s.daemon, s.links[ev.k], ev)
  }

  predicate EnabledAt(d: D.State, l: Link, ev: Event)
    requires D.Shape(d) && !ev.DaemonFree? && !ev.DaemonExpand? && 0 <= ev.k < CLIENTS
  {
    match ev
    case Connect(k) => d.conns[k].state == D.ConnIdle
    case ClientSend(_, msg) => l.client.up && (msg.Query? || msg.BindSingle?)
    case ClientRecv(_) => l.client.up && l.toClient != []
    case ClientDone(_) => l.client.up && Drained(l.client)
    case Issue(_, i) => l.client.up && i in l.client.routed
    case Complete(_, i) => l.client.up && i in l.client.inFlight
    case Break(_) => l.client.up
    case DaemonRecv(k) => d.conns[k].state != D.ConnIdle && l.toDaemon != []
    case DaemonEvict(k) => d.conns[k].state != D.ConnIdle && l.phase == Quiet
    // the count is that of the client flagged last, which is any positive number here
    case DaemonStop(_, slots, n) => l.phase.Reported? && slots <= l.phase.slots && n >= 0 && (n == 0 <==> slots == {})
    case DaemonDestroy(k) => d.conns[k].state != D.ConnIdle && !l.client.up
  }

  /** on_completion at the server, for the message at the head of the channel. */
  function ReceiveAtDaemon(d: D.State, l: Link, k: int): (D.State, Link)
    requires D.Shape(d) && 0 <= k < CLIENTS && l.toDaemon != []
  {
    var rest := l.(toDaemon := l.toDaemon[1..]);
    match l.toDaemon[0]
    case Query => (d, Send(rest, FreeMem(d)))
    case BindSingle(g) => (D.Bind(d, k), Send(rest, InfoSingle(g, D.FirstGrantableFrom(d, 0))))
    case Activity(slots) => (d, rest.(phase := Reported(slots)))
    case Done(slots, n) => (D.RecvDone(d, k, slots, n), rest.(phase := Quiet))
  }

  function StepAt(d: D.State, l: Link, ev: Event): (D.State, Link)
    requires D.Shape(d) && !ev.DaemonFree? && !ev.DaemonExpand? && 0 <= ev.k < CLIENTS && EnabledAt(d, l, ev)
  {
    var c := l.client;
    match ev
    // an established connection is told at once how much is free
    case Connect(k) => (D.Connect(d, k), Link(Client(true, {}, NotStopping, multiset{}), [FreeMem(d)], [], Quiet))
    case ClientSend(_, msg) => (d, l.(toDaemon := l.toDaemon + [msg]))
    case ClientRecv(_) => (d, ReceiveAtClient(l))
    case ClientDone(_) =>
      (d, l.(client := c.(stopping := NotStopping), toDaemon := l.toDaemon + [Done(c.stopping.slots, c.stopping.n)]))
    case Issue(_, i) => (d, l.(client := c.(inFlight := c.inFlight + multiset{i})))
    case Complete(_, i) => (d, l.(client := c.(inFlight := c.inFlight - multiset{i})))
    case Break(_) => (d, l.(client := DownClient(), toClient := []))
    case DaemonRecv(k) => ReceiveAtDaemon(d, l, k)
    case DaemonEvict(_) => (d, Send(l, Evict).(phase := AwaitActivity))
    case DaemonStop(_, slots, n) => (d, Send(l, Stop(slots, n)).(phase := if n == 0 then Quiet else AwaitDone))
    case DaemonDestroy(k) => (D.Destroy(d, k), DownLink())
  }

  lemma StepAtShape(d: D.State, l: Link, ev: Event)
    requires D.Shape(d) && !ev.DaemonFree? && !ev.DaemonExpand? && 0 <= ev.k < CLIENTS && EnabledAt(d, l, ev)
    ensures D.Shape(StepAt(d, l, ev).0)
  {
  }

  function Step(s: System, ev: Event): (t: System)
    requires Shape(s) && Enabled(s, ev)
    ensures Shape(t)
  {
    match ev
    case DaemonFree(slots) => s.(daemon := D.FreeChunks(s.daemon, slots))
    case DaemonExpand(slots) => s.(daemon := D.Expand(s.daemon, slots, |slots|))
    case _ =>
      StepAtShape(s.daemon, s.links[ev.k], ev);
      var (d, l) := StepAt(s.daemon, s.links[ev.k], ev);
      System(d, s.links[ev.k := l])
  }

  // ---------------------------------------------------------------- invariant

  function InfoClaim(m: ToClient, i: int): nat { if m.InfoSingle? && m.slot == i != NONE then 1 else 0 }
  function DoneClaim(m: ToDaemon, i: int): nat { if m.Done? && i in m.slots then 1 else 0 }

  /** How often slot i has been granted without the client knowing yet. */
  function InfoClaims(q: seq<ToClient>, i: int): nat {
    if q == [] then 0 else InfoClaims(q[..|q| - 1], i) + InfoClaim(q[|q| - 1], i)
  }

  /** How often the client has given slot i up without the server knowing yet. */
  function DoneClaims(q: seq<ToDaemon>, i: int): nat {
    if q == [] then 0 else DoneClaims(q[..|q| - 1], i) + DoneClaim(q[|q| - 1], i)
  }

  function One(b: bool): nat { if b then 1 else 0 }

  predicate IsStopping(c: Client, i: int) { c.stopping.StoppingSlots? && i in c.stopping.slots }

  /** How often slot i is on its way to, at, or on its way back from the client. */
  function Claims(l: Link, i: int): nat {
    InfoClaims(l.toClient, i) + One(i in l.client.routed) + One(IsStopping(l.client, i)) + DoneClaims(l.toDaemon, i)
  }

  /** A slot is claimed at most once, and only if the server has it in the map of this connection. */
  predicate ClaimOk(held: set<int>, l: Link, i: int) { Claims(l, i) <= One(i in held) }

  ghost predicate ClaimsOk(held: set<int>, l: Link) { forall i :: ClaimOk(held, l, i) }

  function TokenC(m: ToClient): nat { if m.Evict? || (m.Stop? && m.n != 0) then 1 else 0 }
  function TokenD(m: ToDaemon): nat { if m.Activity? || m.Done? then 1 else 0 }
  function TokensC(q: seq<ToClient>): nat { if q == [] then 0 else TokensC(q[..|q| - 1]) + TokenC(q[|q| - 1]) }
  function TokensD(q: seq<ToDaemon>): nat { if q == [] then 0 else TokensD(q[..|q| - 1]) + TokenD(q[|q| - 1]) }

  /** How many eviction exchanges are under way on a connection, wherever they have got to. */
  function Tokens(l: Link): nat {
    TokensC(l.toClient) + TokensD(l.toDaemon) + (if l.phase.Reported? then 1 else 0)
    + (if l.client.stopping.StoppingSlots? then 1 else 0)
  }

  predicate TokensOk(l: Link) { Tokens(l) <= 1 && (l.phase == Quiet ==> Tokens(l) == 0) }

  /** Requests in flight are for slots that are routed, or that are being given up. */
  predicate FlightsOk(c: Client) { forall i :: i in c.inFlight ==> i in c.routed || IsStopping(c, i) }

  /** What the server tells the client to stop is still routed by it. */
  predicate ToClientOk(m: ToClient, routed: set<int>) {
    m.Stop? ==> m.n >= 0 && (m.n == 0 <==> m.slots == {}) && m.slots <= routed
  }

  /** So is what the client reports; what it gives up is something. */
  predicate ToDaemonOk(m: ToDaemon, c: Client) {
    (m.Activity? && c.up ==> m.slots <= c.routed) && (m.Done? ==> m.slots != {} && m.n > 0)
  }

  predicate MessagesOk(l: Link) {
    && (forall m :: m in l.toClient ==> ToClientOk(m, l.client.routed))
    && (forall m :: m in l.toDaemon ==> ToDaemonOk(m, l.client))
    && (l.phase.Reported? && l.client.up ==> l.phase.slots <= l.client.routed)
    && (l.client.stopping.StoppingSlots? ==> l.client.stopping.slots != {} && l.client.stopping.n > 0)
  }

  predicate DownOk(l: Link) { !l.client.up ==> l.client == DownClient() && l.toClient == [] }

  /** A connection and its client, given the chunks the server has in the connection's map. */
  ghost predicate LinkInv(held: set<int>, l: Link) {
    ClaimsOk(held, l) && FlightsOk(l.client) && TokensOk(l) && MessagesOk(l) && DownOk(l)
  }

  ghost predicate LinkOk(d: D.State, k: int, l: Link)
    requires D.Shape(d) && 0 <= k < CLIENTS
  {
    LinkInv(D.Held(d, k), l) && (d.conns[k].state == D.ConnIdle ==> l == DownLink())
  }

  /** What every run keeps: tables that agree, and connections that claim only what is lent to them. */
  ghost predicate Safe(s: System) {
    Shape(s) && D.Safe(s.daemon) && forall k :: 0 <= k < CLIENTS ==> LinkOk(s.daemon, k, s.links[k])
  }

  /** And with counters that say what the tables hold. */
  ghost predicate Inv(s: System) { Safe(s) && D.Inv(s.daemon) }

  // ---------------------------------------------------------------- queues

  lemma {:induction false} SendC(q: seq<ToClient>, m: ToClient)
    ensures TokensC(q + [m]) == TokensC(q) + TokenC(m)
    ensures forall i :: InfoClaims(q + [m], i) == InfoClaims(q, i) + InfoClaim(m, i)
  {
    assert (q + [m])[..|q|] == q;
  }

  lemma {:induction false} SendD(q: seq<ToDaemon>, m: ToDaemon)
    ensures TokensD(q + [m]) == TokensD(q) + TokenD(m)
    ensures forall i :: DoneClaims(q + [m], i) == DoneClaims(q, i) + DoneClaim(m, i)
  {
    assert (q + [m])[..|q|] == q;
  }

  lemma {:induction false} PopC(q: seq<ToClient>)
    requires q != []
    ensures TokensC(q) == TokenC(q[0]) + TokensC(q[1..])
    ensures forall i :: InfoClaims(q, i) == InfoClaim(q[0], i) + InfoClaims(q[1..], i)
  {
    var n := |q| - 1;
    if n > 0 {
      PopC(q[..n]);
      assert q[..n][1..] == q[1..][..n - 1];
    }
  }

  lemma {:induction false} PopD(q: seq<ToDaemon>)
    requires q != []
    ensures TokensD(q) == TokenD(q[0]) + TokensD(q[1..])
    ensures forall i :: DoneClaims(q, i) == DoneClaim(q[0], i) + DoneClaims(q[1..], i)
  {
    var n := |q| - 1;
    if n > 0 {
      PopD(q[..n]);
      assert q[..n][1..] == q[1..][..n - 1];
    }
  }

  lemma {:induction false} NoTokenD(q: seq<ToDaemon>)
    requires TokensD(q) == 0
    ensures forall m :: m in q ==> !m.Activity? && !m.Done?
  {
    if q != [] {
      NoTokenD(q[..|q| - 1]);
      assert q == q[..|q| - 1] + [q[|q| - 1]];
    }
  }

  lemma {:induction false} NoTokenC(q: seq<ToClient>)
    requires TokensC(q) == 0
    ensures forall m :: m in q ==> !m.Evict? && (m.Stop? ==> m.n == 0)
  {
    if q != [] {
      NoTokenC(q[..|q| - 1]);
      assert q == q[..|q| - 1] + [q[|q| - 1]];
    }
  }

  // ---------------------------------------------------------------- every step keeps its connection

  /** The claims of a connection after a step, slot by slot. */
  lemma {:induction false} ClaimsStep(held: set<int>, l: Link, held': set<int>, t: Link)
    requires ClaimsOk(held, l) && forall i :: Claims(t, i) + One(i in held) <= Claims(l, i) + One(i in held')
    ensures ClaimsOk(held', t)
  {
    hide Claims;
    forall i ensures ClaimOk(held', t, i) { assert ClaimOk(held, l, i); }
  }

  lemma {:induction false} ClientSendOk(held: set<int>, l: Link, msg: ToDaemon)
    requires LinkInv(held, l) && l.client.up && (msg.Query? || msg.BindSingle?)
    ensures LinkInv(held, l.(toDaemon := l.toDaemon + [msg]))
  {
    hide ClaimsOk, TokensC, TokensD, InfoClaims, DoneClaims;
    SendD(l.toDaemon, msg);
    ClaimsStep(held, l, held, l.(toDaemon := l.toDaemon + [msg]));
  }

  function AfterDone(l: Link): Link
    requires l.client.stopping.StoppingSlots?
  {
    var c := l.client;
    l.(client := c.(stopping := NotStopping), toDaemon := l.toDaemon + [Done(c.stopping.slots, c.stopping.n)])
  }

  lemma ClientDoneOk(held: set<int>, l: Link)
    requires LinkInv(held, l) && l.client.up && Drained(l.client)
    ensures LinkInv(held, AfterDone(l))
  {
    hide ClaimsOk, TokensOk, MessagesOk;
    DoneClaimsOk(held, l);
    DoneTokens(l);
    DoneMessages(l);
  }

  lemma {:induction false} DoneClaimsOk(held: set<int>, l: Link)
    requires ClaimsOk(held, l) && l.client.stopping.StoppingSlots?
    ensures ClaimsOk(held, AfterDone(l))
  {
    hide ClaimsOk, TokensC, TokensD, InfoClaims, DoneClaims;
    SendD(l.toDaemon, Done(l.client.stopping.slots, l.client.stopping.n));
    ClaimsStep(held, l, held, AfterDone(l));
  }

  lemma {:induction false} DoneTokens(l: Link)
    requires TokensOk(l) && l.client.stopping.StoppingSlots?
    ensures TokensOk(AfterDone(l))
  {
    hide TokensC, TokensD, InfoClaims, DoneClaims;
    SendD(l.toDaemon, Done(l.client.stopping.slots, l.client.stopping.n));
  }

  lemma {:induction false} DoneMessages(l: Link)
    requires MessagesOk(l) && l.client.stopping.StoppingSlots?
    ensures MessagesOk(AfterDone(l))
  {
  }

  /** A message that belongs to no eviction is received. */
  lemma ClientRecvInfoOk(held: set<int>, l: Link)
    requires LinkInv(held, l) && l.client.up && l.toClient != [] &&
             (l.toClient[0].InfoSingle? || l.toClient[0].FreeSize?)
    ensures LinkInv(held, ReceiveAtClient(l))
  {
    hide ClaimsOk, TokensOk, MessagesOk;
    InfoClaimsOk(held, l);
    InfoTokens(l);
    MoreRouted(l, ReceiveAtClient(l));
  }

  lemma {:induction false} InfoClaimsOk(held: set<int>, l: Link)
    requires ClaimsOk(held, l) && l.toClient != [] && (l.toClient[0].InfoSingle? || l.toClient[0].FreeSize?)
    ensures ClaimsOk(held, ReceiveAtClient(l))
  {
    hide TokensC, TokensD, InfoClaims, DoneClaims;
    PopC(l.toClient);
    forall i ensures ClaimOk(held, ReceiveAtClient(l), i) { assert ClaimOk(held, l, i); }
  }

  lemma {:induction false} InfoTokens(l: Link)
    requires TokensOk(l) && l.toClient != [] && (l.toClient[0].InfoSingle? || l.toClient[0].FreeSize?)
    ensures TokensOk(ReceiveAtClient(l))
  {
    hide TokensC, TokensD, InfoClaims, DoneClaims;
    PopC(l.toClient);
  }

  /** Messages stay in order when the client routes more. */
  lemma MoreRouted(l: Link, t: Link)
    requires MessagesOk(l) && l.toClient != [] && t.toClient == l.toClient[1..] && t.toDaemon == l.toDaemon
    requires t.phase == l.phase && t.client == l.client.(routed := t.client.routed) &&
             l.client.routed <= t.client.routed
    ensures MessagesOk(t)
  {
    forall m | m in t.toClient
      ensures ToClientOk(m, t.client.routed)
    {
      assert m in l.toClient && ToClientOk(m, l.client.routed);
    }
    forall m | m in t.toDaemon
      ensures ToDaemonOk(m, t.client)
    {
      assert ToDaemonOk(m, l.client);
    }
  }

  lemma ClientRecvEvictOk(held: set<int>, l: Link)
    requires LinkInv(held, l) && l.client.up && l.toClient != [] && l.toClient[0].Evict?
    ensures LinkInv(held, ReceiveAtClient(l))
  {
    hide ClaimsOk, TokensOk, MessagesOk;
    EvictClaims(held, l);
    EvictTokens(l);
    EvictMessages(l);
  }

  lemma {:induction false} EvictClaims(held: set<int>, l: Link)
    requires ClaimsOk(held, l) && l.toClient != [] && l.toClient[0].Evict?
    ensures ClaimsOk(held, ReceiveAtClient(l))
  {
    hide ClaimsOk, TokensC, TokensD, InfoClaims, DoneClaims;
    PopC(l.toClient);
    SendD(l.toDaemon, Activity(l.client.routed));
    ClaimsStep(held, l, held, ReceiveAtClient(l));
  }

  lemma {:induction false} EvictTokens(l: Link)
    requires TokensOk(l) && l.toClient != [] && l.toClient[0].Evict?
    ensures TokensOk(ReceiveAtClient(l))
  {
    hide TokensC, TokensD, InfoClaims, DoneClaims;
    PopC(l.toClient);
    SendD(l.toDaemon, Activity(l.client.routed));
  }

  /** What an eviction request leaves alone, and the report that answers it. */
  lemma {:induction false} EvictMessages(l: Link)
    requires MessagesOk(l) && l.toClient != [] && l.toClient[0].Evict?
    ensures MessagesOk(ReceiveAtClient(l))
  {
    forall m | m in l.toClient[1..]
      ensures ToClientOk(m, l.client.routed)
    {
      assert m in l.toClient;
    }
  }

  lemma ClientRecvStopOk(held: set<int>, l: Link)
    requires LinkInv(held, l) && l.client.up && l.toClient != [] && l.toClient[0].Stop?
    ensures LinkInv(held, ReceiveAtClient(l))
  {
    hide ClaimsOk, TokensOk, MessagesOk;
    StopClaims(held, l);
    StopTokens(l);
    StopMessages(l);
    if l.toClient[0].n != 0 { NotYetStopping(l); }
  }

  lemma {:induction false} StopClaims(held: set<int>, l: Link)
    requires ClaimsOk(held, l) && TokensOk(l) && MessagesOk(l) && l.toClient != [] && l.toClient[0].Stop?
    ensures ClaimsOk(held, ReceiveAtClient(l))
  {
    hide TokensOk, TokensC, TokensD, InfoClaims, DoneClaims;
    PopC(l.toClient);
    assert ToClientOk(l.toClient[0], l.client.routed);
    if l.toClient[0].n != 0 { NotYetStopping(l); }
    forall i ensures ClaimOk(held, ReceiveAtClient(l), i) { assert ClaimOk(held, l, i); }
  }

  /** While a stop is on its way, nothing else of its exchange is. */
  lemma {:induction false} NotYetStopping(l: Link)
    requires TokensOk(l) && l.toClient != [] && l.toClient[0].Stop? && l.toClient[0].n != 0
    ensures l.client.stopping == NotStopping && !l.phase.Reported? &&
            TokensC(l.toClient[1..]) == TokensD(l.toDaemon) == 0
  {
    hide TokensC, TokensD, InfoClaims, DoneClaims;
    PopC(l.toClient);
  }

  lemma {:induction false} StopTokens(l: Link)
    requires TokensOk(l) && l.toClient != [] && l.toClient[0].Stop?
    ensures TokensOk(ReceiveAtClient(l))
  {
    hide TokensC, TokensD, InfoClaims, DoneClaims;
    PopC(l.toClient);
  }

  lemma {:induction false} StopMessages(l: Link)
    requires TokensOk(l) && MessagesOk(l) && l.toClient != [] && l.toClient[0].Stop?
    ensures MessagesOk(ReceiveAtClient(l))
  {
    hide TokensOk;
    assert ToClientOk(l.toClient[0], l.client.routed);
    if l.toClient[0].n != 0 {
      NotYetStopping(l);
      LessRouted(l, ReceiveAtClient(l));
    } else {
      MoreRouted(l, ReceiveAtClient(l));
    }
  }

  /** After the one pending stop has been received, no message names a slot of the client. */
  lemma LessRouted(l: Link, t: Link)
    requires MessagesOk(l) && l.toClient != [] && t.toClient == l.toClient[1..] && t.toDaemon == l.toDaemon
    requires TokensC(t.toClient) == TokensD(t.toDaemon) == 0 && !t.phase.Reported?
    requires t.client.stopping.StoppingSlots? ==> t.client.stopping.slots != {} && t.client.stopping.n > 0
    ensures MessagesOk(t)
  {
    NoTokenD(t.toDaemon);
    NoTokenC(t.toClient);
    forall m | m in t.toClient
      ensures ToClientOk(m, t.client.routed)
    {
      assert m in l.toClient && ToClientOk(m, l.client.routed);
    }
  }

  lemma ClientRecvOk(held: set<int>, l: Link)
    requires LinkInv(held, l) && l.client.up && l.toClient != []
    ensures LinkInv(held, ReceiveAtClient(l))
  {
    hide *;
    match l.toClient[0]
    case FreeSize(_) => ClientRecvInfoOk(held, l);
    case InfoSingle(_, _) => ClientRecvInfoOk(held, l);
    case Evict => ClientRecvEvictOk(held, l);
    case Stop(_, _) => ClientRecvStopOk(held, l);
  }

  /** A message that belongs to no eviction; a grant names a slot that is not claimed yet. */
  lemma {:induction false} SendOk(held: set<int>, l: Link, m: ToClient)
    requires LinkInv(held, l) && (m.FreeSize? || m.InfoSingle?)
    requires m.InfoSingle? && m.slot != NONE ==> m.slot in held && Claims(l, m.slot) == 0
    ensures LinkInv(held, Send(l, m))
  {
    hide TokensC, TokensD, InfoClaims, DoneClaims;
    SendC(l.toClient, m);
    forall i ensures ClaimOk(held, Send(l, m), i) { assert ClaimOk(held, l, i); }
  }

  /** The server has taken a message that belongs to no eviction from the channel, and holds more for the client. */
  lemma {:induction false} TakeOk(held: set<int>, l: Link, held': set<int>)
    requires LinkInv(held, l) && l.toDaemon != [] && (l.toDaemon[0].Query? || l.toDaemon[0].BindSingle?) &&
             held <= held'
    ensures LinkInv(held', l.(toDaemon := l.toDaemon[1..]))
    ensures forall i :: Claims(l.(toDaemon := l.toDaemon[1..]), i) == Claims(l, i)
  {
    hide ClaimsOk, TokensC, TokensD, InfoClaims, DoneClaims;
    PopD(l.toDaemon);
    ClaimsStep(held, l, held', l.(toDaemon := l.toDaemon[1..]));
  }

  lemma {:induction false} NotClaimed(held: set<int>, l: Link, i: int)
    requires LinkInv(held, l) && i !in held
    ensures Claims(l, i) == 0
  {
    hide TokensC, TokensD, InfoClaims, DoneClaims;
    assert ClaimOk(held, l, i);
  }

  lemma DaemonRecvBindOk(d: D.State, k: int, l: Link)
    requires D.Shape(d) && D.Safe(d) && 0 <= k < CLIENTS && LinkOk(d, k, l) && EnabledAt(d, l, DaemonRecv(k))
    requires l.toDaemon[0].BindSingle?
    ensures var (e, m) := ReceiveAtDaemon(d, l, k); D.Safe(e) && LinkOk(e, k, m)
  {
    hide LinkInv, D.FirstGrantableFrom, Claims, Send, D.Held, D.Safe;
    D.BindSafe(d, k);
    var e, i := D.Bind(d, k), D.FirstGrantableFrom(d, 0);
    NotClaimed(D.Held(d, k), l, i);
    TakeOk(D.Held(d, k), l, D.Held(e, k));
    SendOk(D.Held(e, k), l.(toDaemon := l.toDaemon[1..]), InfoSingle(l.toDaemon[0].chunk, i));
  }

  /** The chunks a DONE names are in the map of the connection. */
  lemma {:induction false} DoneIsHeld(held: set<int>, l: Link)
    requires LinkInv(held, l) && l.toDaemon != [] && l.toDaemon[0].Done?
    ensures l.toDaemon[0].slots <= held && l.toDaemon[0].slots != {} && l.toDaemon[0].n > 0
    ensures forall i :: i in l.toDaemon[0].slots ==> i !in l.client.routed && i !in l.client.inFlight
  {
    hide TokensOk, TokensC, TokensD, InfoClaims, DoneClaims;
    PopD(l.toDaemon);
    assert ToDaemonOk(l.toDaemon[0], l.client);
    forall i | i in l.toDaemon[0].slots
      ensures i in held && i !in l.client.routed && i !in l.client.inFlight
    {
      assert ClaimOk(held, l, i);
    }
  }

  lemma {:induction false} DoneTaken(held: set<int>, l: Link)
    requires LinkInv(held, l) && l.toDaemon != [] && l.toDaemon[0].Done?
    ensures LinkInv(held - l.toDaemon[0].slots, l.(toDaemon := l.toDaemon[1..], phase := Quiet))
  {
    hide TokensC, TokensD, InfoClaims, DoneClaims;
    var t := l.(toDaemon := l.toDaemon[1..], phase := Quiet);
    PopD(l.toDaemon);
    forall i ensures ClaimOk(held - l.toDaemon[0].slots, t, i) { assert ClaimOk(held, l, i); }
  }

  lemma DaemonRecvDoneOk(d: D.State, k: int, l: Link)
    requires D.Shape(d) && D.Safe(d) && 0 <= k < CLIENTS && LinkOk(d, k, l) && EnabledAt(d, l, DaemonRecv(k))
    requires l.toDaemon[0].Done?
    ensures var (e, m) := ReceiveAtDaemon(d, l, k); D.Safe(e) && LinkOk(e, k, m)
  {
    hide LinkInv, D.Safe, D.Held;
    DoneIsHeld(D.Held(d, k), l);
    DoneTaken(D.Held(d, k), l);
    D.RecvDoneSafe(d, k, l.toDaemon[0].slots, l.toDaemon[0].n);
  }

  lemma {:induction false} ActivityTaken(held: set<int>, l: Link)
    requires LinkInv(held, l) && l.toDaemon != [] && l.toDaemon[0].Activity?
    ensures LinkInv(held, l.(toDaemon := l.toDaemon[1..], phase := Reported(l.toDaemon[0].slots)))
  {
    hide TokensC, TokensD, InfoClaims, DoneClaims;
    var t := l.(toDaemon := l.toDaemon[1..], phase := Reported(l.toDaemon[0].slots));
    PopD(l.toDaemon);
    assert ToDaemonOk(l.toDaemon[0], l.client);
    forall i ensures ClaimOk(held, t, i) { assert ClaimOk(held, l, i); }
  }

  lemma DaemonRecvOk(d: D.State, k: int, l: Link)
    requires D.Shape(d) && D.Safe(d) && 0 <= k < CLIENTS && LinkOk(d, k, l) && EnabledAt(d, l, DaemonRecv(k))
    ensures var (e, m) := ReceiveAtDaemon(d, l, k); D.Safe(e) && LinkOk(e, k, m)
  {
    hide LinkInv, D.Safe, D.Held, D.Bind, D.RecvDone, Send;
    var held := D.Held(d, k);
    match l.toDaemon[0]
    case Query =>
      TakeOk(held, l, held);
      SendOk(held, l.(toDaemon := l.toDaemon[1..]), FreeSize(d.sizeGb - d.mappedSize));
    case BindSingle(_) => DaemonRecvBindOk(d, k, l);
    case Activity(_) => ActivityTaken(held, l);
    case Done(_, _) => DaemonRecvDoneOk(d, k, l);
  }

  lemma {:induction false} DaemonEvictOk(held: set<int>, l: Link)
    requires LinkInv(held, l) && l.phase == Quiet
    ensures LinkInv(held, Send(l, Evict).(phase := AwaitActivity))
  {
    hide ClaimsOk, TokensC, TokensD, InfoClaims, DoneClaims;
    SendC(l.toClient, Evict);
    ClaimsStep(held, l, held, Send(l, Evict).(phase := AwaitActivity));
  }

  lemma {:induction false} DaemonStopOk(held: set<int>, l: Link, slots: set<int>, n: int)
    requires LinkInv(held, l) && l.phase.Reported? && slots <= l.phase.slots && n >= 0 && (n == 0 <==> slots == {})
    ensures LinkInv(held, Send(l, Stop(slots, n)).(phase := if n == 0 then Quiet else AwaitDone))
  {
    hide ClaimsOk, TokensC, TokensD, InfoClaims, DoneClaims;
    var t := Send(l, Stop(slots, n)).(phase := if n == 0 then Quiet else AwaitDone);
    SendC(l.toClient, Stop(slots, n));
    ClaimsStep(held, l, held, t);
    assert MessagesOk(t);
  }

  lemma NoQueue()
    ensures TokensC([]) == 0 && forall i :: InfoClaims([], i) == 0
  {
  }

  lemma {:induction false} BreakOk(held: set<int>, l: Link)
    requires LinkInv(held, l) && l.client.up
    ensures LinkInv(held, l.(client := DownClient(), toClient := []))
  {
    hide ClaimsOk, TokensC, TokensD, InfoClaims, DoneClaims;
    NoQueue();
    ClaimsStep(held, l, held, l.(client := DownClient(), toClient := []));
  }

  /** A request is sent to a routed slot, or one returns. */
  lemma {:induction false} RequestOk(held: set<int>, l: Link, i: int, inFlight: multiset<int>)
    requires LinkInv(held, l) && i in l.client.routed + (set j | j in l.client.inFlight) && l.client.up
    requires inFlight == l.client.inFlight + multiset{i} || inFlight == l.client.inFlight - multiset{i}
    ensures LinkInv(held, l.(client := l.client.(inFlight := inFlight)))
  {
    hide ClaimsOk, TokensC, TokensD, InfoClaims, DoneClaims;
    ClaimsStep(held, l, held, l.(client := l.client.(inFlight := inFlight)));
  }

  lemma FreshLink(held: set<int>, up: bool, toClient: seq<ToClient>)
    requires toClient == [] || (up && |toClient| == 1 && toClient[0].FreeSize?)
    ensures LinkInv(held, Link(Client(up, {}, NotStopping, multiset{}), toClient, [], Quiet))
  {
    if toClient != [] {
      SendC([], toClient[0]);
      assert [] + [toClient[0]] == toClient;
    }
  }

  lemma StepAtOk(d: D.State, k: int, l: Link, ev: Event)
    requires D.Shape(d) && D.Safe(d) && !ev.DaemonFree? && !ev.DaemonExpand? && ev.k == k && 0 <= k < CLIENTS
    requires LinkOk(d, k, l) && EnabledAt(d, l, ev)
    ensures var (e, m) := StepAt(d, l, ev); D.Safe(e) && LinkOk(e, k, m)
  {
    hide LinkInv, D.Safe, D.Held, Send, ReceiveAtClient, ReceiveAtDaemon, D.Connect, D.Destroy, Drained;
    var held := D.Held(d, k);
    match ev
    case Connect(_) =>
      D.ConnectSafe(d, k);
      FreshLink({}, true, [FreeMem(d)]);
      Reconnected(d, k);
    case ClientSend(_, msg) => ClientSendOk(held, l, msg);
    case ClientRecv(_) => ClientRecvOk(held, l);
    case ClientDone(_) => ClientDoneOk(held, l);
    case Issue(_, i) => RequestOk(held, l, i, l.client.inFlight + multiset{i});
    case Complete(_, i) => RequestOk(held, l, i, l.client.inFlight - multiset{i});
    case Break(_) => BreakOk(held, l);
    case DaemonRecv(_) => DaemonRecvOk(d, k, l);
    case DaemonEvict(_) => DaemonEvictOk(held, l);
    case DaemonStop(_, slots, n) => DaemonStopOk(held, l, slots, n);
    case DaemonDestroy(_) =>
      D.DestroySafe(d, k);
      FreshLink({}, false, []);
      Destroyed(d, k);
  }

  lemma Reconnected(d: D.State, k: int)
    requires D.Shape(d) && 0 <= k < CLIENTS
    ensures D.Connect(d, k).conns[k].state == D.ConnConnected
  {
  }

  lemma Destroyed(d: D.State, k: int)
    requires D.Shape(d) && 0 <= k < CLIENTS
    ensures D.Destroy(d, k).conns[k].state == D.ConnIdle
  {
  }

  // ---------------------------------------------------------------- every step keeps the system

  /** A step at one connection changes no other entry of the server's table. */
  lemma StepAtOthers(d: D.State, l: Link, ev: Event, j: int)
    requires D.Shape(d) && !ev.DaemonFree? && !ev.DaemonExpand? && 0 <= ev.k < CLIENTS && 0 <= j < CLIENTS && j != ev.k
    requires EnabledAt(d, l, ev)
    ensures D.Shape(StepAt(d, l, ev).0) && StepAt(d, l, ev).0.conns[j] == d.conns[j]
  {
    hide D.FirstGrantableFrom, D.Held, Send, ReceiveAtClient, Drained;
    StepAtShape(d, l, ev);
  }

  lemma OthersOk(d: D.State, e: D.State, j: int, l: Link)
    requires D.Shape(d) && D.Shape(e) && 0 <= j < CLIENTS && e.conns[j] == d.conns[j] && LinkOk(d, j, l)
    ensures LinkOk(e, j, l)
  {
    hide LinkInv;
    assert D.Held(e, j) == D.Held(d, j);
  }

  lemma LocalStepKeepsSafe(s: System, ev: Event)
    requires Safe(s) && Enabled(s, ev) && (ev.DaemonFree? || ev.DaemonExpand?)
    ensures Safe(Step(s, ev))
  {
    hide LinkOk, D.Safe;
    var t := Step(s, ev);
    if ev.DaemonFree? { D.FreeChunksSafe(s.daemon, ev.slots); } else { D.ExpandSafe(s.daemon, ev.slots, |ev.slots|); }
    forall j | 0 <= j < CLIENTS ensures LinkOk(t.daemon, j, t.links[j]) { OthersOk(s.daemon, t.daemon, j, s.links[j]); }
  }

  lemma LinkStepKeepsSafe(s: System, ev: Event)
    requires Safe(s) && Enabled(s, ev) && !ev.DaemonFree? && !ev.DaemonExpand?
    ensures Safe(Step(s, ev))
  {
    hide LinkOk, D.Safe, StepAt;
    var t, k, l := Step(s, ev), ev.k, s.links[ev.k];
    assert LinkOk(s.daemon, k, l);
    StepAtOk(s.daemon, k, l, ev);
    assert t == System(StepAt(s.daemon, l, ev).0, s.links[k := StepAt(s.daemon, l, ev).1]);
    forall j | 0 <= j < CLIENTS && j != k ensures LinkOk(t.daemon, j, t.links[j]) {
      StepAtOthers(s.daemon, l, ev, j);
      OthersOk(s.daemon, t.daemon, j, s.links[j]);
    }
  }

  /**
   Every step, a bind without a free chunk included, keeps each slot claimed at most once and only while
   it is lent.
   */
  lemma {:induction false} StepKeepsSafe(s: System, ev: Event)
    requires Safe(s) && Enabled(s, ev)
    ensures Safe(Step(s, ev))
  {
    if ev.DaemonFree? || ev.DaemonExpand? { LocalStepKeepsSafe(s, ev); } else { LinkStepKeepsSafe(s, ev); }
  }

  /** A bind that arrives when there is no chunk to lend. */
  predicate BlindBind(s: System, ev: Event)
    requires Shape(s)
  {
    && ev.DaemonRecv? && 0 <= ev.k < CLIENTS && s.links[ev.k].toDaemon != [] && s.links[ev.k].toDaemon[0].BindSingle?
    && D.GrantableChunks(s.daemon) == {}
  }

  /** The DONE at the head of a channel, when it is about to be received. */
  predicate Returns(s: System, ev: Event)
    requires Shape(s)
  {
    ev.DaemonRecv? && 0 <= ev.k < CLIENTS && s.links[ev.k].toDaemon != [] && s.links[ev.k].toDaemon[0].Done?
  }

  /** A DONE whose count is not the number of chunks it names. */
  predicate Miscounts(s: System, ev: Event)
    requires Shape(s)
  {
    Returns(s, ev) && var m := s.links[ev.k].toDaemon[0]; m.n != |m.slots|
  }

  /** A DONE whose count leaves its connection credited with less than it still holds. */
  predicate Overdraws(s: System, ev: Event)
    requires Shape(s)
  {
    && Returns(s, ev)
    && var m := s.links[ev.k].toDaemon[0];
       m.n - |m.slots| > s.daemon.conns[ev.k].mapped - |D.Owned(s.daemon, ev.k)|
  }

  /** A connection that is destroyed with chunks and without credit. */
  predicate Leaks(s: System, ev: Event)
    requires Shape(s)
  {
    && ev.DaemonDestroy? && 0 <= ev.k < CLIENTS
    && s.daemon.conns[ev.k].mapped <= 0 && D.Owned(s.daemon, ev.k) != {}
  }

  lemma SomeGrantable(d: D.State)
    requires D.Shape(d)
    ensures D.GrantableChunks(d) == {} <==> !exists i :: 0 <= i < D.CHUNKS && D.Grantable(d, i)
  {
    if D.GrantableChunks(d) != {} { var i := Pick(D.GrantableChunks(d)); }
    forall i | 0 <= i < D.CHUNKS && D.Grantable(d, i)
      ensures i in D.GrantableChunks(d)
    {
    }
  }

  /** The DONE at the head of a channel names chunks of its connection. */
  lemma ReturnsOwned(s: System, ev: Event)
    requires Safe(s) && D.TablesOk(s.daemon) && Enabled(s, ev) && Returns(s, ev)
    ensures s.links[ev.k].toDaemon[0].slots <= D.Owned(s.daemon, ev.k) && s.links[ev.k].toDaemon[0].slots != {}
  {
    hide LinkInv;
    assert LinkOk(s.daemon, ev.k, s.links[ev.k]);
    D.HeldIsOwned(s.daemon, ev.k);
    DoneIsHeld(D.Held(s.daemon, ev.k), s.links[ev.k]);
  }

  /** What a step does to the server's own state. */
  lemma StepDaemon(s: System, ev: Event)
    requires Shape(s) && Enabled(s, ev)
    ensures var d, e := s.daemon, Step(s, ev).daemon;
            match ev
            case Connect(k) => e == D.Connect(d, k)
            case DaemonDestroy(k) => e == D.Destroy(d, k)
            case DaemonFree(slots) => e == D.FreeChunks(d, slots)
            case DaemonExpand(slots) => e == D.Expand(d, slots, |slots|)
            case DaemonRecv(k) =>
              (match s.links[k].toDaemon[0]
               case BindSingle(_) => e == D.Bind(d, k)
               case Done(slots, n) => e == D.RecvDone(d, k, slots, n)
               case _ => e == d)
            case _ => e == d
  {
    hide D.Bind, D.RecvDone, D.Connect, D.Destroy, D.FreeChunks, D.Expand, Send, ReceiveAtClient, Drained;
  }

  /** A step keeps the tables of the server in agreement if and only if it does not leak. */
  lemma {:induction false} StepKeepsTablesExactly(s: System, ev: Event)
    requires Safe(s) && D.TablesOk(s.daemon) && Enabled(s, ev)
    ensures D.TablesOk(Step(s, ev).daemon) <==> !Leaks(s, ev)
  {
    hide Step, LinkInv, D.Bind, D.RecvDone, D.Destroy, D.Held, D.Safe;
    StepDaemon(s, ev);
    match ev
    case DaemonDestroy(k) => D.DestroyTablesExactly(s.daemon, k);
    case DaemonRecv(k) =>
      if s.links[k].toDaemon[0].BindSingle? { D.BindTables(s.daemon, k); }
      if Returns(s, ev) {
        ReturnsOwned(s, ev);
        D.RecvDoneTables(s.daemon, k, s.links[k].toDaemon[0].slots, s.links[k].toDaemon[0].n);
      }
    case _ =>
  }

  /** A step leaves every connection credited with what it holds if and only if it does not overdraw. */
  lemma {:induction false} StepKeepsCreditExactly(s: System, ev: Event)
    requires Safe(s) && D.Credited(s.daemon) && Enabled(s, ev)
    ensures D.Credited(Step(s, ev).daemon) <==> !Overdraws(s, ev)
    ensures !Leaks(s, ev)
  {
    hide Step, LinkInv, D.Bind, D.RecvDone, D.Destroy, D.Held, D.Safe, D.Connect;
    StepDaemon(s, ev);
    match ev
    case Connect(k) => D.ConnectCredited(s.daemon, k);
    case DaemonDestroy(k) =>
      D.DestroyCredited(s.daemon, k);
      WhereCount(s.daemon.owner, k);
    case DaemonRecv(k) =>
      if s.links[k].toDaemon[0].BindSingle? { D.BindCredited(s.daemon, k); }
      if Returns(s, ev) {
        ReturnsOwned(s, ev);
        D.RecvDoneCreditedExactly(s.daemon, k, s.links[k].toDaemon[0].slots, s.links[k].toDaemon[0].n);
      }
    case _ =>
  }

  /**
   A step keeps the counters right as well if and only if it is neither a bind without a free chunk nor
   a DONE with a wrong count.
   */
  lemma {:induction false} StepKeepsInvExactly(s: System, ev: Event)
    requires Inv(s) && Enabled(s, ev)
    ensures Inv(Step(s, ev)) <==> !BlindBind(s, ev) && !Miscounts(s, ev)
  {
    hide Step, LinkInv, D.Bind, D.RecvDone, D.Destroy, D.Held, D.Safe, D.Connect, D.GrantableChunks;
    StepKeepsSafe(s, ev);
    StepDaemon(s, ev);
    match ev
    case Connect(k) => D.ConnectInv(s.daemon, k);
    case DaemonDestroy(k) => D.DestroyInv(s.daemon, k);
    case DaemonFree(slots) => D.FreeChunksInv(s.daemon, slots);
    case DaemonExpand(slots) => D.ExpandInvExactly(s.daemon, slots, |slots|);
    case DaemonRecv(k) =>
      if s.links[k].toDaemon[0].BindSingle? {
        D.BindInvExactly(s.daemon, k);
        SomeGrantable(s.daemon);
      }
      if Returns(s, ev) {
        ReturnsOwned(s, ev);
        D.RecvDoneInvExactly(s.daemon, k, s.links[k].toDaemon[0].slots, s.links[k].toDaemon[0].n);
      }
    case _ =>
  }

  /** A lost chunk is never lent again and never freed, whatever happens. */
  lemma {:induction false} LostStaysLost(s: System, ev: Event, i: int)
    requires Safe(s) && Enabled(s, ev) && D.Lost(s.daemon, i)
    ensures D.Lost(Step(s, ev).daemon, i) && Step(s, ev).daemon.owner[i] == s.daemon.owner[i]
  {
    hide Step, LinkInv, D.Bind, D.FirstGrantableFrom;
    StepDaemon(s, ev);
    match ev
    case DaemonRecv(k) =>
      assert LinkOk(s.daemon, k, s.links[k]);
      if s.links[k].toDaemon[0].BindSingle? { D.BindParts(s.daemon, k); }
      if Returns(s, ev) {
        DoneIsHeld(D.Held(s.daemon, k), s.links[k]);
        LostNotReturned(s.daemon, k, s.links[k].toDaemon[0].slots, i);
      }
    case DaemonDestroy(k) => assert forall j :: j in D.Held(s.daemon, k) ==>
        D.EntryOk(s.daemon.owner, s.daemon.conns[k], k, j);
    case _ =>
  }

  lemma LostNotReturned(d: D.State, k: int, slots: set<int>, i: int)
    requires D.Safe(d) && 0 <= k < CLIENTS && d.conns[k].state != D.ConnIdle && slots <= D.Held(d, k) && D.Lost(d, i)
    ensures i !in slots
  {
    assert 0 <= i < D.CHUNKS && D.EntryOk(d.owner, d.conns[k], k, i);
  }

  // ---------------------------------------------------------------- runs

  ghost predicate Init(s: System) {
    && |s.links| == CLIENTS && (exists m :: s.daemon == D.Init(m))
    && forall k :: 0 <= k < CLIENTS ==> s.links[k] == DownLink()
  }

  lemma InitInv(s: System)
    requires Init(s)
    ensures Inv(s)
  {
    var m :| s.daemon == D.Init(m);
    D.InitInv(m);
    D.TablesAreSafe(s.daemon);
    forall k | 0 <= k < CLIENTS
      ensures LinkOk(s.daemon, k, s.links[k])
    {
      FreshLink(D.Held(s.daemon, k), false, []);
    }
  }

  ghost predicate IsRun(states: seq<System>, events: seq<Event>) {
    && |states| == |events| + 1 && Init(states[0])
    && forall n :: 0 <= n < |events| ==>
         Shape(states[n]) && Enabled(states[n], events[n]) && states[n + 1] == Step(states[n], events[n])
  }

  lemma {:induction false} RunKeepsSafe(states: seq<System>, events: seq<Event>, n: nat)
    requires IsRun(states, events) && n <= |events|
    ensures Safe(states[n])
  {
    if n == 0 {
      InitInv(states[0]);
    } else {
      RunKeepsSafe(states, events, n - 1);
      StepKeepsSafe(states[n - 1], events[n - 1]);
    }
  }

  /** No connection is destroyed with chunks and without credit. */
  ghost predicate NoLeaks(states: seq<System>, events: seq<Event>)
    requires IsRun(states, events)
  {
    forall n :: 0 <= n < |events| ==> !Leaks(states[n], events[n])
  }

  ghost predicate NoOverdrafts(states: seq<System>, events: seq<Event>)
    requires IsRun(states, events)
  {
    forall n :: 0 <= n < |events| ==> !Overdraws(states[n], events[n])
  }

  /** Every bind finds a chunk, and every DONE is counted right. */
  ghost predicate WellCounted(states: seq<System>, events: seq<Event>)
    requires IsRun(states, events)
  {
    forall n :: 0 <= n < |events| ==> !BlindBind(states[n], events[n]) && !Miscounts(states[n], events[n])
  }

  lemma {:induction false} RunKeepsTables(states: seq<System>, events: seq<Event>, n: nat)
    requires IsRun(states, events) && NoLeaks(states, events) && n <= |events|
    ensures D.TablesOk(states[n].daemon)
  {
    hide Step, Safe, Leaks, Enabled, D.TablesOk;
    if n == 0 {
      InitInv(states[0]);
      InvTables(states[0]);
    } else {
      RunKeepsTables(states, events, n - 1);
      RunKeepsSafe(states, events, n - 1);
      StepKeepsTablesExactly(states[n - 1], events[n - 1]);
    }
  }

  lemma InvTables(s: System)
    requires Inv(s)
    ensures D.TablesOk(s.daemon) && D.Credited(s.daemon)
  {
  }

  /** If no DONE overdraws, no run leaks a chunk. */
  lemma {:induction false} CreditPreventsLeaks(states: seq<System>, events: seq<Event>, n: nat)
    requires IsRun(states, events) && NoOverdrafts(states, events) && n <= |events|
    ensures D.Credited(states[n].daemon)
    ensures n < |events| ==> !Leaks(states[n], events[n])
  {
    hide Step, Safe, Leaks, Overdraws, Enabled, D.Credited;
    if n == 0 {
      InitInv(states[0]);
      InvTables(states[0]);
    } else {
      CreditPreventsLeaks(states, events, n - 1);
      RunKeepsSafe(states, events, n - 1);
      StepKeepsCreditExactly(states[n - 1], events[n - 1]);
    }
    if n < |events| {
      RunKeepsSafe(states, events, n);
      StepKeepsCreditExactly(states[n], events[n]);
    }
  }

  lemma {:induction false} RunKeepsInv(states: seq<System>, events: seq<Event>, n: nat)
    requires IsRun(states, events) && WellCounted(states, events) && n <= |events|
    ensures Inv(states[n])
  {
    hide Step, Inv, BlindBind, Miscounts, Enabled;
    if n == 0 {
      InitInv(states[0]);
    } else {
      RunKeepsInv(states, events, n - 1);
      StepKeepsInvExactly(states[n - 1], events[n - 1]);
    }
  }

  /** Once lost, a chunk is lost to the end of the run. */
  lemma {:induction false} LeakIsForever(states: seq<System>, events: seq<Event>, m: nat, n: nat, i: int)
    requires IsRun(states, events) && m <= n <= |events| && Shape(states[m]) && D.Lost(states[m].daemon, i)
    ensures Shape(states[n]) && D.Lost(states[n].daemon, i) && states[n].daemon.owner[i] == states[m].daemon.owner[i]
    decreases n
  {
    hide Step, D.Lost, Enabled;
    if m < n {
      LeakIsForever(states, events, m, n - 1, i);
      RunKeepsSafe(states, events, n - 1);
      LostStaysLost(states[n - 1], events[n - 1], i);
    }
  }

  /** The client behind connection k may send requests to slot i, or has one outstanding. */
  predicate Uses(l: Link, i: int) { i in l.client.routed || i in l.client.inFlight }

  lemma {:induction false} UsedIsHeld(s: System, k: int, i: int)
    requires Safe(s) && 0 <= k < CLIENTS && Uses(s.links[k], i)
    ensures i in D.Held(s.daemon, k)
    ensures 0 <= i < D.CHUNKS && s.daemon.owner[i] == k && s.daemon.mallocMap[i] == D.MALLOCED
  {
    hide TokensOk, MessagesOk, TokensC, TokensD, InfoClaims, DoneClaims;
    assert LinkOk(s.daemon, k, s.links[k]);
    assert ClaimOk(D.Held(s.daemon, k), s.links[k], i);
    assert D.EntryOk(s.daemon.owner, s.daemon.conns[k], k, i);
  }

  /** In every reachable state, a slot in use is allocated and lent to the connection that uses it. */
  lemma {:induction false} UseImpliesOwned(states: seq<System>, events: seq<Event>, n: nat, k: int, i: int)
    requires IsRun(states, events) && n <= |events| && 0 <= k < CLIENTS && Shape(states[n])
    requires Uses(states[n].links[k], i)
    ensures 0 <= i < D.CHUNKS && states[n].daemon.owner[i] == k && states[n].daemon.mallocMap[i] == D.MALLOCED
  {
    hide Safe, Uses;
    RunKeepsSafe(states, events, n);
    UsedIsHeld(states[n], k, i);
  }

  /** Hence no slot is ever used over two connections at once. */
  lemma {:induction false} UseIsExclusive(states: seq<System>, events: seq<Event>, n: nat, j: int, k: int, i: int)
    requires IsRun(states, events) && n <= |events| && 0 <= j < CLIENTS && 0 <= k < CLIENTS && Shape(states[n])
    requires Uses(states[n].links[j], i) && Uses(states[n].links[k], i)
    ensures j == k
  {
    UseImpliesOwned(states, events, n, j, i);
    UseImpliesOwned(states, events, n, k, i);
  }

  /** No step frees a chunk that a connection uses, or lends it to another. */
  lemma {:induction false} UsedIsKept(s: System, ev: Event, k: int, i: int)
    requires Safe(s) && Enabled(s, ev) && 0 <= k < CLIENTS && Uses(s.links[k], i)
    ensures 0 <= i < D.CHUNKS && Step(s, ev).daemon.mallocMap[i] == D.MALLOCED && Step(s, ev).daemon.owner[i] == k
  {
    hide LinkOk, D.Safe, Uses, Step, LinkInv, D.Bind;
    UsedIsHeld(s, k, i);
    StepDaemon(s, ev);
    match ev
    case DaemonRecv(j) =>
      if s.links[j].toDaemon[0].BindSingle? { D.BindParts(s.daemon, j); }
      if Returns(s, ev) { DoneNotUsed(s, j, k, i); }
    case DaemonDestroy(j) => DownUsesNothing(s, j, k, i);
    case _ =>
  }

  /** A DONE names nothing that any client uses. */
  lemma DoneNotUsed(s: System, j: int, k: int, i: int)
    requires Safe(s) && 0 <= j < CLIENTS && 0 <= k < CLIENTS && Uses(s.links[k], i)
    requires s.links[j].toDaemon != [] && s.links[j].toDaemon[0].Done?
    ensures i !in s.links[j].toDaemon[0].slots
  {
    hide LinkInv, D.Held;
    assert LinkOk(s.daemon, j, s.links[j]);
    DoneIsHeld(D.Held(s.daemon, j), s.links[j]);
    UsedIsHeld(s, k, i);
    if i in D.Held(s.daemon, j) { HeldByOne(s.daemon, j, i); }
  }

  lemma HeldByOne(d: D.State, k: int, i: int)
    requires D.Safe(d) && 0 <= k < CLIENTS && i in D.Held(d, k)
    ensures 0 <= i < D.CHUNKS && d.owner[i] == k
  {
    assert D.EntryOk(d.owner, d.conns[k], k, i);
  }

  /** The client of a connection that can be destroyed uses nothing, and what others use is not in its map. */
  lemma DownUsesNothing(s: System, j: int, k: int, i: int)
    requires Safe(s) && 0 <= j < CLIENTS && 0 <= k < CLIENTS && Uses(s.links[k], i) && !s.links[j].client.up
    ensures j != k && i !in D.Held(s.daemon, j)
  {
    hide TokensOk, MessagesOk, ClaimsOk, FlightsOk, D.Held;
    assert LinkOk(s.daemon, j, s.links[j]);
    UsedIsHeld(s, k, i);
    if i in D.Held(s.daemon, j) { HeldByOne(s.daemon, j, i); }
  }

  /**
   Memory is freed only after the clients have let go of it: when a step releases chunk i, no
   connection routes requests to it or waits for one, before the step or after it.
   */
  lemma {:induction false} FreedIsUnused(states: seq<System>, events: seq<Event>, n: nat, k: int, i: int)
    requires IsRun(states, events) && n < |events| && 0 <= k < CLIENTS && 0 <= i < D.CHUNKS
    requires Shape(states[n]) && Shape(states[n + 1])
    requires states[n].daemon.mallocMap[i] == D.MALLOCED && states[n + 1].daemon.mallocMap[i] == D.EMPTY
    ensures !Uses(states[n].links[k], i) && !Uses(states[n + 1].links[k], i)
  {
    RunKeepsSafe(states, events, n);
    if Uses(states[n + 1].links[k], i) { UseImpliesOwned(states, events, n + 1, k, i); }
    if Uses(states[n].links[k], i) { UsedIsKept(states[n], events[n], k, i); }
  }

  /** A grant names a slot the client neither uses nor is giving up, as the paging model takes for granted. */
  lemma {:induction false} GrantIsFresh(states: seq<System>, events: seq<Event>, n: nat, k: int)
    requires IsRun(states, events) && n <= |events| && 0 <= k < CLIENTS && Shape(states[n])
    requires states[n].links[k].toClient != [] && states[n].links[k].toClient[0].InfoSingle?
    ensures var (l, i) := (states[n].links[k], states[n].links[k].toClient[0].slot);
            i != NONE ==> !Uses(l, i) && !IsStopping(l.client, i)
  {
    hide TokensOk, MessagesOk, TokensC, TokensD, InfoClaims, DoneClaims;
    RunKeepsSafe(states, events, n);
    var l := states[n].links[k];
    assert LinkOk(states[n].daemon, k, l);
    PopC(l.toClient);
    assert ClaimOk(D.Held(states[n].daemon, k), l, l.toClient[0].slot);
  }

  /** Requests in flight are those issued and not yet complete, until the connection ends. */
  lemma {:induction false} FlightsAreCounted(s: System, ev: Event, k: int, i: int)
    requires Shape(s) && Enabled(s, ev) && 0 <= k < CLIENTS
    ensures Step(s, ev).links[k].client.inFlight[i] ==
            if ev == Issue(k, i) then s.links[k].client.inFlight[i] + 1
            else if ev == Complete(k, i) then s.links[k].client.inFlight[i] - 1
            else if ev in {Connect(k), Break(k), DaemonDestroy(k)} then 0
            else s.links[k].client.inFlight[i]
  {
    hide D.Bind, D.RecvDone, D.Connect, D.Destroy, D.FreeChunks, D.Expand, Drained, FreeMem;
  }

  /** A client is told exactly how many chunks can be lent: when it has connected, and when it asks. */
  lemma {:induction false} FreeSizeIsGrantable(s: System, ev: Event)
    requires Inv(s) && Enabled(s, ev)
    ensures ev.DaemonRecv? && s.links[ev.k].toDaemon[0].Query? && s.links[ev.k].client.up ==>
              Step(s, ev).links[ev.k].toClient
              == s.links[ev.k].toClient + [FreeSize(|D.GrantableChunks(s.daemon)|)]
    ensures ev.Connect? ==> Step(s, ev).links[ev.k].toClient == [FreeSize(|D.GrantableChunks(s.daemon)|)]
  {
    hide LinkInv, D.Safe, D.GrantableChunks, D.Connect, Drained, ReceiveAtClient;
    D.AdvertisedIsGrantable(s.daemon);
  }

  // ---------------------------------------------------------------- two clients and one free chunk

  /** A system in which only connections 0 and 1 are used. */
  function Two(d: D.State, a: Link, b: Link): (s: System)
    requires D.Shape(d)
    ensures Shape(s)
  {
    System(d, seq(CLIENTS, k => if k == 0 then a else if k == 1 then b else DownLink()))
  }

  function UpLink(toClient: seq<ToClient>, toDaemon: seq<ToDaemon>): Link {
    Link(Client(true, {}, NotStopping, multiset{}), toClient, toDaemon, Quiet)
  }

  /** A step at connection 0 or 1 of such a system. */
  lemma TwoStep(d: D.State, a: Link, b: Link, ev: Event)
    requires D.Shape(d) && !ev.DaemonFree? && !ev.DaemonExpand? && 0 <= ev.k <= 1
    requires EnabledAt(d, if ev.k == 0 then a else b, ev)
    ensures Enabled(Two(d, a, b), ev)
    ensures var (e, m) := StepAt(d, if ev.k == 0 then a else b, ev);
            D.Shape(e) && Step(Two(d, a, b), ev) == if ev.k == 0 then Two(e, m, b) else Two(e, a, m)
  {
    var l := if ev.k == 0 then a else b;
    StepAtShape(d, l, ev);
    var (e, m) := StepAt(d, l, ev);
    assert Two(d, a, b).links[ev.k := m] == (if ev.k == 0 then Two(e, m, b) else Two(e, a, m)).links;
  }

  /** One chunk, two clients that have connected. */
  function OneChunk(): (d: D.State)
    ensures D.Shape(d)
  {
    D.Connect(D.Connect(D.Init(11), 0), 1)
  }

  lemma OneChunkIs()
    ensures D.Inv(OneChunk()) && OneChunk().sizeGb - OneChunk().mappedSize == 1
    ensures OneChunk().conns[0].state == OneChunk().conns[1].state == D.ConnConnected
    ensures D.FirstGrantableFrom(OneChunk(), 0) == 0 && D.Inv(D.Bind(OneChunk(), 0))
    ensures D.GrantableChunks(D.Bind(OneChunk(), 0)) == {} && D.Bind(OneChunk(), 0).conns[1].state == D.ConnConnected
  {
    var d := OneChunk();
    D.InitInv(11);
    D.ConnectInv(D.Init(11), 0);
    D.ConnectInv(D.Connect(D.Init(11), 0), 1);
    assert D.Grantable(d, 0) && forall i :: 0 < i < D.CHUNKS ==> !D.Grantable(d, i);
    D.BindInvExactly(d, 0);
    var e := D.Bind(d, 0);
    assert forall i :: 0 <= i < D.CHUNKS ==> !D.Grantable(e, i);
  }

  /** Both clients connect and are told that one chunk is free, and both send a bind. */
  function Race(): seq<Event> {
    [Connect(0), Connect(1), ClientRecv(0), ClientRecv(1), ClientSend(0, BindSingle(0)), ClientSend(1, BindSingle(0)),
     DaemonRecv(0), DaemonRecv(1)]
  }

  function RaceState(n: nat): (s: System)
    requires n <= 7
    ensures Shape(s)
  {
    var d := OneChunk();
    match n
    case 0 => Two(D.Init(11), DownLink(), DownLink())
    case 1 => Two(D.Connect(D.Init(11), 0), UpLink([FreeSize(1)], []), DownLink())
    case 2 => Two(d, UpLink([FreeSize(1)], []), UpLink([FreeSize(1)], []))
    case 3 => Two(d, UpLink([], []), UpLink([FreeSize(1)], []))
    case 4 => Two(d, UpLink([], []), UpLink([], []))
    case 5 => Two(d, UpLink([], [BindSingle(0)]), UpLink([], []))
    case 6 => Two(d, UpLink([], [BindSingle(0)]), UpLink([], [BindSingle(0)]))
    case _ => Two(D.Bind(d, 0), UpLink([InfoSingle(0, 0)], []), UpLink([], [BindSingle(0)]))
  }

  lemma OneMessage(m: ToDaemon, n: ToClient)
    ensures [] + [m] == [m] && [m][1..] == [] && [] + [n] == [n] && [n][1..] == []
  {
  }

  lemma FirstFreeMem()
    ensures FreeMem(D.Init(11)) == FreeMem(D.Connect(D.Init(11), 0)) == FreeSize(1)
  {
    hide D.Connect, D.Init;
    D.InitCounters(11);
    D.ConnectCounters(D.Init(11), 0);
  }

  lemma RaceStep(n: nat)
    requires n < 7
    ensures Enabled(RaceState(n), Race()[n]) && Step(RaceState(n), Race()[n]) == RaceState(n + 1)
  {
    hide D.Bind, D.FirstGrantableFrom, D.Inv, Step, Enabled, Two, FreeMem;
    var d, idle, up, told := OneChunk(), DownLink(), UpLink([], []), UpLink([FreeSize(1)], []);
    OneChunkIs();
    FirstFreeMem();
    OneMessage(Query, FreeSize(1));
    OneMessage(BindSingle(0), InfoSingle(0, 0));
    match n
    case 0 => TwoStep(D.Init(11), idle, idle, Connect(0));
    case 1 => TwoStep(D.Connect(D.Init(11), 0), told, idle, Connect(1));
    case 2 => TwoStep(d, told, told, ClientRecv(0));
    case 3 => TwoStep(d, up, told, ClientRecv(1));
    case 4 => TwoStep(d, up, up, ClientSend(0, BindSingle(0)));
    case 5 => TwoStep(d, UpLink([], [BindSingle(0)]), up, ClientSend(1, BindSingle(0)));
    case 6 => TwoStep(d, UpLink([], [BindSingle(0)]), UpLink([], [BindSingle(0)]), DaemonRecv(0));
  }

  /** After the first bind is served the second finds no chunk, and the counters are lost. */
  lemma {:induction false} BlindBindHappens() returns (states: seq<System>)
    ensures IsRun(states, Race()) && states[2].links[0].toClient == states[2].links[1].toClient == [FreeSize(1)]
    ensures Inv(states[7]) && BlindBind(states[7], Race()[7]) && !Inv(states[8])
  {
    hide Step, D.Bind, D.Inv, LinkOk, D.Safe;
    OneChunkIs();
    states := seq(8, n requires 0 <= n < 8 => RaceState(n));
    var events := Race()[..7];
    assert Init(states[0]);
    forall n | 0 <= n < 7
      ensures Shape(states[n]) && Enabled(states[n], events[n]) && states[n + 1] == Step(states[n], events[n])
      ensures !BlindBind(states[n], events[n]) && !Miscounts(states[n], events[n])
    {
      RaceStep(n);
      NotBlind(n);
    }
    RunKeepsInv(states, events, 7);
    StepKeepsInvExactly(states[7], Race()[7]);
    var last := Step(states[7], Race()[7]);
    states := states + [last];
    assert forall n :: 0 <= n < 7 ==> Race()[n] == events[n];
  }

  lemma NotBlind(n: nat)
    requires n < 7
    ensures !BlindBind(RaceState(n), Race()[n]) && !Miscounts(RaceState(n), Race()[n])
  {
    OneChunkIs();
    assert D.Grantable(OneChunk(), 0);
    assert 0 in D.GrantableChunks(OneChunk());
  }
}
