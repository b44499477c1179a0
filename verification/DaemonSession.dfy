/**
 The daemon's global session and the routines that walk it in place
 (framework/infiniswap_daemon/rdma-common.c), proved against the operations of module Daemon.
 */
module DaemonSession {
  import opened Counting
  import opened Daemon

  function HeldBelow(d: State, k: int, n: nat): set<int>
    requires Shape(d) && 0 <= k < CLIENTS && n <= CHUNKS
  {
    set i | 0 <= i < n && d.conns[k].chunkMap[i] == i
  }

  lemma HeldBelowSnoc(d: State, k: int, n: nat)
    requires Shape(d) && 0 <= k < CLIENTS && n < CHUNKS
    ensures HeldBelow(d, k, n + 1)
         == if d.conns[k].chunkMap[n] == n then HeldBelow(d, k, n) + {n} else HeldBelow(d, k, n)
  {
  }

  function Min(a: int, b: int): int { if a <= b then a else b }

  class Session {
    var mallocMap: array<int>
    var connMap: array<int>
    var sizeGb: int
    var mappedSize: int
    var conns: seq<Conn>

    ghost predicate Valid()
      reads this, mallocMap, connMap
    {
      mallocMap != connMap && Shape(View())
    }

    ghost function View(): State
      reads this, mallocMap, connMap
    {
      State(mallocMap[..], connMap[..], sizeGb, mappedSize, conns)
    }

    /** rdma_session_init. */
    constructor (freeMem: int)
      ensures Valid() && View() == Init(freeMem) && fresh(mallocMap) && fresh(connMap)
    {
      var n := InitialChunks(freeMem);
      mallocMap := new int[CHUNKS](i => if i < n then MALLOCED else EMPTY);
      connMap := new int[CHUNKS](_ => NONE);
      sizeGb := n;
      mappedSize := 0;
      conns := seq(CLIENTS, _ => IdleConn());
      new;
      assert mallocMap[..] == Init(freeMem).mallocMap;
      assert connMap[..] == Init(freeMem).owner;
    }

    /** send_single_mr: lend the first allocated chunk that nobody holds. */
    method SendSingleMr(k: int) returns (granted: int)
      requires Valid() && 0 <= k < CLIENTS
      modifies this, connMap
      ensures Valid() && mallocMap == old(mallocMap) && connMap == old(connMap)
      ensures View() == Bind(old(View()), k) && granted == FirstGrantableFrom(old(View()), 0)
    {
      ghost var d := View();
      granted := NONE;
      var i := 0;
      while i < CHUNKS
        invariant 0 <= i <= CHUNKS && View() == d && granted == NONE
        invariant FirstGrantableFrom(d, 0) == FirstGrantableFrom(d, i)
      {
        if mallocMap[i] == MALLOCED && connMap[i] == NONE {
          conns := conns[k := conns[k].(chunkMap := conns[k].chunkMap[i := i])];
          connMap[i] := k;
          granted := i;
          assert View() == Lend(d, k, i);
          break;
        }
        i := i + 1;
      }
      ghost var lent := View();
      assert BumpMapped(lent, k) == Bind(d, k);
      mappedSize := mappedSize + 1;
      conns := conns[k := conns[k].(state := ConnMapped, mapped := conns[k].mapped + 1)];
    }

    /** recv_done: free the chunks a DONE message names, and take its count at its word. */
    method ReceiveDone(k: int, rkey: seq<bool>, n: int)
      requires Valid() && Safe(View()) && 0 <= k < CLIENTS && |rkey| == CHUNKS && conns[k].state != ConnIdle
      requires Flagged(rkey, CHUNKS) <= Held(View(), k)
      modifies this, mallocMap, connMap
      ensures Valid() && mallocMap == old(mallocMap) && connMap == old(connMap)
      ensures View() == RecvDone(old(View()), k, Flagged(rkey, CHUNKS), n)
    {
      ghost var d := View();
      var chunkMap := conns[k].chunkMap;
      FillNothing(d.mallocMap, EMPTY);
      FillNothing(d.owner, NONE);
      FillNothing(chunkMap, NONE);
      assert Flagged(rkey, 0) == {};
      var i := 0;
      while i < CHUNKS
        invariant 0 <= i <= CHUNKS
        invariant mallocMap[..] == Fill(d.mallocMap, Flagged(rkey, i), EMPTY)
        invariant connMap[..] == Fill(d.owner, Flagged(rkey, i), NONE)
        invariant chunkMap == Fill(d.conns[k].chunkMap, Flagged(rkey, i), NONE)
        modifies mallocMap, connMap
      {
        FlaggedSnoc(rkey, i);
        if rkey[i] {
          assert i in Flagged(rkey, CHUNKS);
          FillAdd(d.mallocMap, Flagged(rkey, i), i, EMPTY);
          FillAdd(d.owner, Flagged(rkey, i), i, NONE);
          FillAdd(d.conns[k].chunkMap, Flagged(rkey, i), i, NONE);
          var index := chunkMap[i];
          chunkMap := chunkMap[i := NONE];
          connMap[index] := NONE;
          mallocMap[index] := EMPTY;
        }
        i := i + 1;
      }
      sizeGb := sizeGb - n;
      mappedSize := mappedSize - n;
      var left := conns[k].mapped - n;
      conns := conns[k := Conn(if left == 0 then ConnConnected else conns[k].state, chunkMap, left)];
    }

    /** destroy_connection. */
    method DestroyConnection(k: int)
      requires Valid() && Safe(View()) && 0 <= k < CLIENTS && conns[k].state != ConnIdle
      modifies this, connMap
      ensures Valid() && mallocMap == old(mallocMap) && connMap == old(connMap)
      ensures View() == Destroy(old(View()), k)
    {
      ghost var d := View();
      FillNothing(d.owner, NONE);
      if conns[k].mapped > 0 {
        assert HeldBelow(d, k, 0) == {};
        var i := 0;
        while i < CHUNKS
          invariant 0 <= i <= CHUNKS && connMap[..] == Fill(d.owner, HeldBelow(d, k, i), NONE)
          modifies connMap
        {
          HeldBelowSnoc(d, k, i);
          assert EntryOk(d.owner, d.conns[k], k, i);
          var index := conns[k].chunkMap[i];
          if index != NONE {
            FillAdd(d.owner, HeldBelow(d, k, i), i, NONE);
            connMap[index] := NONE;
          }
          i := i + 1;
        }
        assert HeldBelow(d, k, CHUNKS) == Held(d, k);
        mappedSize := mappedSize - conns[k].mapped;
      }
      conns := conns[k := IdleConn()];
    }

    /** The expand branch of free_mem: it allocates exactly as many chunks as it announces. */
    method ExpandMemory(lastFreeMem: int) returns (expandSize: int)
      requires Valid() && Inv(View()) && lastFreeMem > EXPAND_THRESHOLD
      modifies this, mallocMap
      ensures Valid() && mallocMap == old(mallocMap) && connMap == old(connMap)
      ensures expandSize == Min(lastFreeMem - EXPAND_THRESHOLD, CHUNKS - old(sizeGb))
      ensures sizeGb == old(sizeGb) + expandSize && CountEq(mallocMap[..], MALLOCED) == sizeGb
      ensures Inv(View()) && conns == old(conns) && connMap[..] == old(connMap[..]) && mappedSize == old(mappedSize)
    {
      ghost var d := View();
      expandSize := lastFreeMem - EXPAND_THRESHOLD;
      if expandSize + sizeGb > CHUNKS {
        expandSize := CHUNKS - sizeGb;
      }
      EmptyCount(d.mallocMap);
      ghost var added := AllocateChunks(mallocMap, expandSize);
      sizeGb := sizeGb + expandSize;
      assert View() == Expand(d, added, expandSize);
      ExpandInvExactly(d, added, expandSize);
    }
  }

  function EmptyBelow(m: seq<int>, n: nat): set<int>
    requires n <= |m|
  {
    set i | 0 <= i < n && m[i] == EMPTY
  }

  lemma EmptyBelowSnoc(m: seq<int>, n: nat)
    requires n < |m|
    ensures EmptyBelow(m, n + 1) == if m[n] == EMPTY then EmptyBelow(m, n) + {n} else EmptyBelow(m, n)
    ensures |EmptyBelow(m, n + 1)| == |EmptyBelow(m, n)| + if m[n] == EMPTY then 1 else 0
  {
    assert m[n] == EMPTY ==> EmptyBelow(m, n + 1) == EmptyBelow(m, n) + {n};
    assert m[n] != EMPTY ==> EmptyBelow(m, n + 1) == EmptyBelow(m, n);
  }

  /** The allocation loop: fill the first n empty chunks; there are at least n, and n = 0 only if there are none. */
  method AllocateChunks(m: array<int>, n: int) returns (ghost added: set<int>)
    requires 0 <= n <= CountEq(m[..], EMPTY) && (n == 0 ==> CountEq(m[..], EMPTY) == 0)
    modifies m
    ensures m[..] == Fill(old(m[..]), added, MALLOCED)
    ensures added <= Where(old(m[..]), EMPTY) && |added| == n
  {
    ghost var m0 := m[..];
    added := {};
    FillNothing(m0, MALLOCED);
    WhereCount(m0, EMPTY);
    assert EmptyBelow(m0, 0) == {};
    assert EmptyBelow(m0, |m0|) == Where(m0, EMPTY);
    var i, j := 0, 0;
    while i < m.Length
      invariant 0 <= i <= m.Length && added == EmptyBelow(m0, i) && j == |added|
      invariant j < n || j == 0
      invariant m[..] == Fill(m0, added, MALLOCED)
    {
      EmptyBelowSnoc(m0, i);
      if m[i] == EMPTY {
        FillAdd(m0, added, i, MALLOCED);
        m[i] := MALLOCED;
        added := added + {i};
        j := j + 1;
        if j == n { return; }
      }
      i := i + 1;
    }
  }

  lemma {:induction false} EmptyCount(m: seq<int>)
    requires forall i :: 0 <= i < |m| ==> m[i] == EMPTY || m[i] == MALLOCED
    ensures CountEq(m, EMPTY) + CountEq(m, MALLOCED) == |m|
  {
    if m != [] { EmptyCount(m[..|m| - 1]); }
  }
}
