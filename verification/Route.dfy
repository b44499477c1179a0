/**
 The slot routes of the cluster client: building the table from the masters' slot ranges
 (harvester/producer-cli/hircluster.c:1355-1488) and the two ways to look a slot up
 (hircluster.c:2515-2598).  Nodes are handles.
 */
module Route {
  import opened Optional

  const SLOTS: nat := 16384

  datatype Range = Range(start: nat, end: nat, node: int)

  predicate Contains(r: Range, k: nat) { r.start <= k <= r.end }

  predicate Proper(r: Range) { r.start <= r.end < SLOTS }

  /** How many ranges claim a slot. */
  function Claims(rs: seq<Range>, k: nat): nat {
    if rs == [] then 0 else Claims(rs[..|rs| - 1], k) + if Contains(rs[|rs| - 1], k) then 1 else 0
  }

  /** The node of a range that contains the slot. */
  function Owner(rs: seq<Range>, k: nat): Option<int> {
    if rs == [] then None
    else if Contains(rs[|rs| - 1], k) then Some(rs[|rs| - 1].node)
    else Owner(rs[..|rs| - 1], k)
  }

  ghost predicate ClaimedOnce(rs: seq<Range>) { forall k :: Claims(rs, k) <= 1 }

  /** Every range is proper and no slot is claimed twice. */
  ghost predicate Consistent(rs: seq<Range>) {
    (forall i :: 0 <= i < |rs| ==> Proper(rs[i])) && ClaimedOnce(rs)
  }

  predicate Ordered(rs: seq<Range>) {
    forall i, j :: 0 <= i < j < |rs| ==> rs[i].start <= rs[j].start
  }

  // ---- sorting ----

  /** The place of a range behind those that do not start later. */
  function InsertRange(rs: seq<Range>, r: Range): seq<Range> {
    if rs == [] || rs[|rs| - 1].start <= r.start then rs + [r]
    else InsertRange(rs[..|rs| - 1], r) + [rs[|rs| - 1]]
  }

  /** qsort by start. */
  function SortByStart(rs: seq<Range>): seq<Range> {
    if rs == [] then [] else InsertRange(SortByStart(rs[..|rs| - 1]), rs[|rs| - 1])
  }

  lemma ClaimsSnoc(rs: seq<Range>, r: Range, k: nat)
    ensures Claims(rs + [r], k) == Claims(rs, k) + if Contains(r, k) then 1 else 0
    ensures Owner(rs + [r], k) == if Contains(r, k) then Some(r.node) else Owner(rs, k)
  {
    assert (rs + [r])[..|rs|] == rs;
  }

  lemma {:induction false} ClaimsIsOwned(rs: seq<Range>, k: nat)
    ensures Claims(rs, k) > 0 <==> Owner(rs, k).Some?
  {
    if rs != [] { ClaimsIsOwned(rs[..|rs| - 1], k); }
  }

  lemma {:induction false} InsertHas(rs: seq<Range>, r: Range)
    ensures |InsertRange(rs, r)| == |rs| + 1 && forall x :: x in InsertRange(rs, r) <==> x in rs || x == r
  {
    if rs != [] && rs[|rs| - 1].start > r.start {
      InsertHas(rs[..|rs| - 1], r);
      assert rs == rs[..|rs| - 1] + [rs[|rs| - 1]];
    }
  }

  lemma {:induction false} InsertOrdered(rs: seq<Range>, r: Range)
    requires Ordered(rs)
    ensures Ordered(InsertRange(rs, r))
  {
    if rs == [] || rs[|rs| - 1].start <= r.start {
      OrderedSnoc(rs, r);
    } else {
      var n := |rs| - 1;
      InsertOrdered(rs[..n], r);
      InsertHas(rs[..n], r);
      var s := InsertRange(rs[..n], r);
      forall i | 0 <= i < |s|
        ensures s[i].start <= rs[n].start
      {
        assert s[i] in s;
        if s[i] in rs[..n] { LastIsLatest(rs, s[i]); }
      }
      OrderedSnoc(s, rs[n]);
    }
  }

  lemma LastIsLatest(rs: seq<Range>, x: Range)
    requires Ordered(rs) && rs != [] && x in rs
    ensures x.start <= rs[|rs| - 1].start
  {
    var j :| 0 <= j < |rs| && rs[j] == x;
  }

  lemma OrderedSnoc(rs: seq<Range>, r: Range)
    requires Ordered(rs) && (rs != [] ==> rs[|rs| - 1].start <= r.start)
    ensures Ordered(rs + [r])
  {
  }

  lemma {:induction false} InsertClaims(rs: seq<Range>, r: Range, k: nat)
    ensures Claims(InsertRange(rs, r), k) == Claims(rs, k) + if Contains(r, k) then 1 else 0
    ensures Claims(InsertRange(rs, r), k) <= 1 ==>
              Owner(InsertRange(rs, r), k) == if Contains(r, k) then Some(r.node) else Owner(rs, k)
  {
    if rs == [] || rs[|rs| - 1].start <= r.start {
      ClaimsSnoc(rs, r, k);
    } else {
      var n := |rs| - 1;
      InsertClaims(rs[..n], r, k);
      ClaimsSnoc(InsertRange(rs[..n], r), rs[n], k);
      assert rs == rs[..n] + [rs[n]];
      ClaimsSnoc(rs[..n], rs[n], k);
    }
  }

  lemma {:induction false} SortIs(rs: seq<Range>)
    ensures Ordered(SortByStart(rs))
    ensures |SortByStart(rs)| == |rs| && forall x :: x in SortByStart(rs) <==> x in rs
  {
    if rs != [] {
      var n := |rs| - 1;
      SortIs(rs[..n]);
      assert rs == rs[..n] + [rs[n]];
      InsertHas(SortByStart(rs[..n]), rs[n]);
      InsertOrdered(SortByStart(rs[..n]), rs[n]);
    }
  }

  /** Sorting changes neither the claims nor, if they are unique, the owners. */
  lemma {:induction false} SortKeeps(rs: seq<Range>, k: nat)
    ensures Claims(SortByStart(rs), k) == Claims(rs, k)
    ensures Claims(rs, k) <= 1 ==> Owner(SortByStart(rs), k) == Owner(rs, k)
  {
    if rs != [] {
      var n := |rs| - 1;
      SortKeeps(rs[..n], k);
      InsertClaims(SortByStart(rs[..n]), rs[n], k);
    }
  }

  lemma SortConsistent(rs: seq<Range>)
    ensures Consistent(SortByStart(rs)) <==> Consistent(rs)
  {
    var s := SortByStart(rs);
    SortIs(rs);
    forall k: nat
      ensures Claims(s, k) == Claims(rs, k)
    {
      SortKeeps(rs, k);
    }
    if Consistent(rs) {
      forall i | 0 <= i < |s|
        ensures Proper(s[i])
      {
        assert s[i] in rs;
      }
    }
    if Consistent(s) {
      forall i | 0 <= i < |rs|
        ensures Proper(rs[i])
      {
        assert rs[i] in s;
      }
    }
  }

  lemma {:induction false} ClaimsMonotone(rs: seq<Range>, j: nat, k: nat)
    requires j <= |rs|
    ensures Claims(rs[..j], k) <= Claims(rs, k)
    decreases |rs|
  {
    if j < |rs| {
      ClaimsMonotone(rs[..|rs| - 1], j, k);
      assert rs[..|rs| - 1][..j] == rs[..j];
    } else {
      assert rs[..j] == rs;
    }
  }

  // ---- building ----

  /** One range entered into the table; a slot that is taken stops it. */
  method EnterRange(table: array<Option<int>>, r: Range) returns (ok: bool)
    requires table.Length == SLOTS && Proper(r)
    modifies table
    ensures ok <==> forall k :: r.start <= k <= r.end ==> old(table[k]).None?
    ensures ok ==> forall k :: 0 <= k < SLOTS ==> table[k] == if Contains(r, k) then Some(r.node) else old(table[k])
  {
    var k := r.start;
    while k <= r.end
      invariant r.start <= k <= r.end + 1
      invariant forall i :: r.start <= i < k ==> old(table[i]).None? && table[i] == Some(r.node)
      invariant forall i :: (0 <= i < r.start || k <= i < SLOTS) ==> table[i] == old(table[i])
    {
      if table[k].Some? { return false; }
      table[k] := Some(r.node);
      k := k + 1;
    }
    return true;
  }

  /** The loop over the sorted ranges. */
  method FillTable(rs: seq<Range>) returns (ok: bool, table: array<Option<int>>)
    requires forall i :: 0 <= i < |rs| ==> Proper(rs[i])
    ensures fresh(table) && table.Length == SLOTS && (ok <==> ClaimedOnce(rs))
    ensures ok ==> forall k :: 0 <= k < SLOTS ==> table[k] == Owner(rs, k)
  {
    hide Claims, Owner;
    table := new Option<int>[SLOTS](_ => None);
    NoClaims(rs);
    for j := 0 to |rs|
      invariant forall k :: 0 <= k < SLOTS ==> table[k] == Owner(rs[..j], k)
      invariant ClaimedOnce(rs[..j])
    {
      ghost var before := table[..];
      ok := EnterRange(table, rs[j]);
      if !ok {
        ghost var k :| rs[j].start <= k <= rs[j].end && before[k].Some?;
        ClaimedTwice(rs, j, k);
        return;
      }
      NextClaims(rs, j, before);
    }
    assert rs[..|rs|] == rs;
    return true, table;
  }

  lemma NoClaims(rs: seq<Range>)
    ensures forall k :: Claims(rs[..0], k) == 0 && Owner(rs[..0], k) == None
  {
  }

  lemma ClaimedTwice(rs: seq<Range>, j: nat, k: nat)
    requires j < |rs| && Contains(rs[j], k) && Owner(rs[..j], k).Some?
    ensures Claims(rs, k) > 1
  {
    ClaimsIsOwned(rs[..j], k);
    assert rs[..j + 1] == rs[..j] + [rs[j]];
    ClaimsSnoc(rs[..j], rs[j], k);
    ClaimsMonotone(rs, j + 1, k);
  }

  lemma NextClaims(rs: seq<Range>, j: nat, before: seq<Option<int>>)
    requires j < |rs| && Proper(rs[j]) && |before| == SLOTS
    requires forall k :: 0 <= k < SLOTS ==> before[k] == Owner(rs[..j], k)
    requires ClaimedOnce(rs[..j])
    requires forall k :: rs[j].start <= k <= rs[j].end ==> before[k].None?
    ensures ClaimedOnce(rs[..j + 1])
    ensures forall k :: 0 <= k < SLOTS ==>
            Owner(rs[..j + 1], k) == if Contains(rs[j], k) then Some(rs[j].node) else before[k]
  {
    assert rs[..j + 1] == rs[..j] + [rs[j]];
    forall k: nat
      ensures Claims(rs[..j + 1], k) <= 1
      ensures k < SLOTS ==> Owner(rs[..j + 1], k) == if Contains(rs[j], k) then Some(rs[j].node) else before[k]
    {
      ClaimsSnoc(rs[..j], rs[j], k);
      ClaimsIsOwned(rs[..j], k);
    }
  }

  // ---- the nodes of a reply ----

  /** A node: its role, and its list of ranges if it has one. */
  datatype Master = Master(isMaster: bool, slots: Option<seq<Range>>)

  predicate AllProper(rs: seq<Range>) { forall i :: 0 <= i < |rs| ==> Proper(rs[i]) }

  predicate Fine(m: Master) { m.isMaster && (m.slots.Some? ==> AllProper(m.slots.value)) }

  predicate AllFine(ms: seq<Master>) { forall i :: 0 <= i < |ms| ==> Fine(ms[i]) }

  /** The ranges of all nodes, one list after the other. */
  function RangesOf(ms: seq<Master>): seq<Range> {
    if ms == [] then []
    else RangesOf(ms[..|ms| - 1]) + if ms[|ms| - 1].slots.Some? then ms[|ms| - 1].slots.value else []
  }

  /** The first node that ends the collection. */
  predicate FirstBad(ms: seq<Master>, m: nat) {
    m < |ms| && !Fine(ms[m]) && forall i :: 0 <= i < m ==> Fine(ms[i])
  }

  predicate SomeList(ms: seq<Master>) { exists i :: 0 <= i < |ms| && ms[i].slots.Some? }

  /** A pointer to an iterator: null, to an iterator, or to one that has been released. */
  datatype Handle = Unset | Held | Released

  /** The release of whatever is not null, and whether it was released before. */
  function Release(h: Handle): (Handle, bool) { if h.Unset? then (Unset, false) else (Released, h.Released?) }

  /** The loops that collect the ranges: the list iterator is released behind each list, but not set to null. */
  method Collect(ms: seq<Master>) returns (fine: bool, ranges: seq<Range>, lit: Handle)
    ensures fine <==> AllFine(ms)
    ensures fine ==> ranges == RangesOf(ms) && AllProper(ranges) && lit != Held
    ensures forall m: nat :: FirstBad(ms, m) ==>
              lit == if ms[m].isMaster then Held else if SomeList(ms[..m]) then Released else Unset
  {
    ranges, lit := [], Unset;
    for i := 0 to |ms|
      invariant AllFine(ms[..i]) && ranges == RangesOf(ms[..i]) && AllProper(ranges)
      invariant lit == if SomeList(ms[..i]) then Released else Unset
    {
      RangesNext(ms, i);
      if !ms[i].isMaster {
        OnlyBad(ms, i);
        return false, ranges, lit;
      }
      if ms[i].slots.Some? {
        lit := Held;
        var list := ms[i].slots.value;
        for j := 0 to |list|
          invariant AllProper(list[..j]) && ranges == RangesOf(ms[..i]) + list[..j] && AllProper(ranges)
        {
          if list[j].start > list[j].end || list[j].end >= SLOTS {
            OnlyBad(ms, i);
            return false, ranges, lit;
          }
          assert list[..j + 1] == list[..j] + [list[j]];
          ranges := ranges + [list[j]];
        }
        assert list[..|list|] == list;
        lit := Released;
      }
    }
    assert ms[..|ms|] == ms;
    return true, ranges, lit;
  }

  lemma RangesNext(ms: seq<Master>, i: nat)
    requires i < |ms|
    ensures RangesOf(ms[..i + 1]) == RangesOf(ms[..i]) + if ms[i].slots.Some? then ms[i].slots.value else []
    ensures AllFine(ms[..i + 1]) <==> AllFine(ms[..i]) && Fine(ms[i])
    ensures SomeList(ms[..i + 1]) <==> SomeList(ms[..i]) || ms[i].slots.Some?
  {
    var front, all := ms[..i], ms[..i + 1];
    assert all[..i] == front && all == front + [ms[i]];
    if AllFine(front) && Fine(ms[i]) {
      forall k | 0 <= k < |all| ensures Fine(all[k]) { assert k < i ==> all[k] == front[k]; }
    }
    if AllFine(all) {
      forall k | 0 <= k < i ensures Fine(front[k]) { assert front[k] == all[k]; }
      assert Fine(all[i]);
    }
    if SomeList(front) {
      var k :| 0 <= k < |front| && front[k].slots.Some?;
      assert all[k].slots.Some?;
    }
    if ms[i].slots.Some? { assert all[i].slots.Some?; }
  }

  lemma OnlyBad(ms: seq<Master>, i: nat)
    requires i < |ms| && AllFine(ms[..i]) && !Fine(ms[i])
    ensures !AllFine(ms) && forall m :: FirstBad(ms, m) ==> m == i
  {
    forall k | 0 <= k < i
      ensures Fine(ms[k])
    {
      assert ms[k] == ms[..i][k];
    }
  }

  class Router {
    var slots: Option<seq<Range>>
    var table: seq<Option<int>>
    var version: nat

    /** The route in use, built from some consistent ranges; none before the first. */
    ghost predicate Valid()
      reads this
    {
      && |table| == SLOTS && Ordered(Ranges()) && Consistent(Ranges())
      && forall k :: 0 <= k < SLOTS ==> table[k] == Owner(Ranges(), k)
    }

    /** The ranges of the route in use; none before the first. */
    function Ranges(): seq<Range>
      reads this
    {
      if slots.Some? then slots.value else []
    }

    constructor ()
      ensures Valid() && version == 0 && slots == None
    {
      slots, table, version := None, seq(SLOTS, _ => None), 0;
    }

    /**
     cluster_update_route_by_addr, from the nodes on: all or nothing.  The error path releases whatever
     iterator pointer is not null; `twice` says that one of them had been released before.
     */
    method Update(ms: seq<Master>) returns (ok: bool, twice: bool)
      requires Valid()
      modifies this
      ensures Valid() && (ok <==> AllFine(ms) && ClaimedOnce(RangesOf(ms)))
      ensures ok ==> slots == Some(SortByStart(RangesOf(ms))) && version == old(version) + 1
      ensures ok ==> forall k :: 0 <= k < SLOTS ==> table[k] == Owner(RangesOf(ms), k)
      ensures !ok ==> slots == old(slots) && table == old(table) && version == old(version)
      ensures AllFine(ms) ==> (twice <==> !ClaimedOnce(RangesOf(ms)))
      ensures forall m: nat :: FirstBad(ms, m) ==> (twice <==> !ms[m].isMaster && SomeList(ms[..m]))
    {
      hide Claims, Owner, SortByStart, RangesOf, SomeList;
      var dit := Held;
      var fine, ranges, lit := Collect(ms);
      if fine {
        dit := Release(dit).0;
        var done := BuildRoute(ranges);
        if done { return true, false; }
      }
      var d, l := Release(dit), Release(lit);
      return false, d.1 || l.1;
    }

    /** From the sorting on; a slot that is claimed twice leaves the old route in place. */
    method BuildRoute(ranges: seq<Range>) returns (done: bool)
      requires Valid() && AllProper(ranges)
      modifies this
      ensures Valid() && (done <==> ClaimedOnce(ranges))
      ensures done ==> slots == Some(SortByStart(ranges)) && version == old(version) + 1
      ensures done ==> forall k :: 0 <= k < SLOTS ==> table[k] == Owner(ranges, k)
      ensures !done ==> slots == old(slots) && table == old(table) && version == old(version)
    {
      hide Claims, Owner, SortByStart;
      var sorted := SortByStart(ranges);
      SortIs(ranges);
      SortConsistent(ranges);
      forall i | 0 <= i < |sorted|
        ensures Proper(sorted[i])
      {
        assert sorted[i] in ranges;
      }
      var fits, filled := FillTable(sorted);
      if !fits { return false; }
      forall k: nat | k < SLOTS
        ensures Owner(sorted, k) == Owner(ranges, k)
      {
        SortKeeps(ranges, k);
      }
      slots, table, version := Some(sorted), filled[..], version + 1;
      assert forall k :: 0 <= k < SLOTS ==> filled[k] == Owner(sorted, k) && table[k] == filled[k];
      return true;
    }

    /** node_get_by_table: the owner of the unique range that contains the slot, or null. */
    method NodeByTable(slot: nat) returns (node: Option<int>)
      requires Valid()
      ensures node == if slot < SLOTS then Owner(Ranges(), slot) else None
    {
      if slot >= SLOTS { return None; }
      return table[slot];
    }
  }

  // ---- binary search ----

  lemma {:induction false} ClaimsAt(rs: seq<Range>, i: nat, k: nat)
    requires i < |rs| && Contains(rs[i], k)
    ensures Claims(rs, k) > 0
  {
    if i < |rs| - 1 { ClaimsAt(rs[..|rs| - 1], i, k); }
  }

  /** Consistent ranges in order do not touch. */
  lemma Apart(rs: seq<Range>, i: nat, j: nat)
    requires Ordered(rs) && Consistent(rs) && i < j < |rs|
    ensures rs[i].end < rs[j].start
  {
    if rs[i].end >= rs[j].start {
      var k := rs[j].start;
      ClaimsAt(rs[..j], i, k);
      ClaimsIsOwned(rs[..j], k);
      ClaimedTwice(rs, j, k);
    }
  }

  lemma {:induction false} OwnerAt(rs: seq<Range>, i: nat, k: nat)
    requires Claims(rs, k) <= 1 && i < |rs| && Contains(rs[i], k)
    ensures Owner(rs, k) == Some(rs[i].node)
  {
    if i < |rs| - 1 {
      ClaimsAt(rs[..|rs| - 1], i, k);
      OwnerAt(rs[..|rs| - 1], i, k);
    }
  }

  lemma {:induction false} NoOwner(rs: seq<Range>, k: nat)
    requires forall i :: 0 <= i < |rs| ==> !Contains(rs[i], k)
    ensures Owner(rs, k) == None
  {
    if rs != [] { NoOwner(rs[..|rs| - 1], k); }
  }

  /** Starts grow by at least one, so there are no more ranges than slots. */
  lemma {:induction false} StartsGrow(rs: seq<Range>, i: nat)
    requires Ordered(rs) && Consistent(rs) && i < |rs|
    ensures rs[i].start >= i && |rs| <= SLOTS
  {
    if i > 0 {
      StartsGrow(rs, i - 1);
      Apart(rs, i - 1, i);
      assert Proper(rs[i - 1]);
    }
    if i < |rs| - 1 { StartsUp(rs, i); } else { assert Proper(rs[i]); }
  }

  lemma {:induction false} StartsUp(rs: seq<Range>, i: nat)
    requires Ordered(rs) && Consistent(rs) && i < |rs| && rs[i].start >= i
    ensures |rs| <= SLOTS
    decreases |rs| - i
  {
    assert Proper(rs[i]);
    if i < |rs| - 1 {
      Apart(rs, i, i + 1);
      StartsUp(rs, i + 1);
    }
  }

  datatype Answer = Node(n: int) | Null | OutOfBounds

  /** 32-bit unsigned subtraction of one. */
  function Before(n: nat): nat { if n == 0 then 0xFFFF_FFFF else n - 1 }

  /**
   Whether a search that only goes left meets an interval of two: its middle is then entry 0, and the end
   wraps around.
   */
  predicate Falls(end: nat) { end == 1 || (end >= 2 && Falls(end / 2 - 1)) }

  function OwnerAnswer(rs: seq<Range>, slot: nat): Answer {
    if Owner(rs, slot).Some? then Node(Owner(rs, slot).value) else Null
  }

  /** Nothing is left of start or right of end but ranges that miss the slot. */
  ghost predicate Narrowed(rs: seq<Range>, slot: nat, start: nat, end: nat) {
    && end < |rs| && start <= |rs|
    && (forall i :: 0 <= i < start && i < |rs| ==> rs[i].end < slot)
    && (forall i :: end < i < |rs| ==> slot < rs[i].start)
  }

  lemma LeftMisses(rs: seq<Range>, slot: nat, middle: nat)
    requires Ordered(rs) && Consistent(rs) && middle < |rs| && rs[middle].end < slot
    ensures forall i :: 0 <= i <= middle ==> rs[i].end < slot
  {
    forall i | 0 <= i <= middle
      ensures rs[i].end < slot
    {
      if i < middle {
        Apart(rs, i, middle);
        assert Proper(rs[middle]);
      }
    }
  }

  lemma RightMisses(rs: seq<Range>, slot: nat, middle: nat)
    requires Ordered(rs) && middle < |rs| && slot < rs[middle].start
    ensures forall i :: middle <= i < |rs| ==> slot < rs[i].start
  {
  }

  /**
   node_get_by_slot: for a slot from the first range on, the answer is the owner the table has; for a
   slot before it, there is no owner, and the search says so unless its end wraps around, as it does at
   once in a route without ranges.  Before the first route there is no owner.
   */
  method NodeBySlot(route: Option<seq<Range>>, slot: nat) returns (answer: Answer)
    requires route.Some? ==> Ordered(route.value) && Consistent(route.value)
    ensures slot >= SLOTS || route == None ==> answer == Null
    ensures route.Some? && slot < SLOTS ==> FoundAs(route.value, slot, answer)
  {
    if slot >= SLOTS || route == None { return Null; }
    answer := Search(route.value, slot);
  }

  /** What the search in an array of ranges answers. */
  ghost predicate FoundAs(rs: seq<Range>, slot: nat, answer: Answer) {
    if rs == [] then answer == OutOfBounds
    else if rs[0].start <= slot then answer == OwnerAnswer(rs, slot)
    else answer == if Falls(|rs| - 1) then OutOfBounds else Null
  }

  method Search(rs: seq<Range>, slot: nat) returns (answer: Answer)
    requires Ordered(rs) && Consistent(rs) && slot < SLOTS
    ensures FoundAs(rs, slot, answer)
  {
    if rs != [] { StartsGrow(rs, 0); }
    var start: nat, end: nat, middle: nat := 0, Before(|rs|), 0;
    var stop := false;
    while !stop
      invariant rs == [] ==> !stop && start == 0 && end == 0xFFFF_FFFF
      invariant !stop && rs != [] && rs[0].start <= slot ==> Narrowed(rs, slot, start, end)
      invariant !stop && rs != [] && slot < rs[0].start ==> start == 0 && (end < |rs| || end == 0xFFFF_FFFF)
      invariant !stop && rs != [] && slot < rs[0].start ==> (Falls(|rs| - 1) <==> end == 0xFFFF_FFFF || Falls(end))
      invariant stop ==> forall i :: 0 <= i < |rs| ==> !Contains(rs[i], slot)
      invariant stop && rs != [] && slot < rs[0].start ==> !Falls(|rs| - 1)
      decreases !stop, if end >= |rs| then 0 else 1, if end >= start then end - start + 1 else 0
    {
      if start >= end {
        stop := true;
        middle := end;
      } else {
        middle := start + (end - start) / 2;
      }
      if middle >= |rs| { return OutOfBounds; }
      if rs[middle].start > slot {
        RightMisses(rs, slot, middle);
        end := Before(middle);
      } else if rs[middle].end < slot {
        LeftMisses(rs, slot, middle);
        start := middle + 1;
      } else {
        OwnerAt(rs, middle, slot);
        return Node(rs[middle].node);
      }
    }
    NoOwner(rs, slot);
    return Null;
  }

  /** A route of two ranges on which the search for slot 0 leaves the array, although the table has no owner for it. */
  lemma {:induction false} SearchCanFall()
    ensures var rs := [Range(1, 5, 10), Range(6, 9, 11)];
            Ordered(rs) && Consistent(rs) && 0 < rs[0].start && Owner(rs, 0) == None && Falls(|rs| - 1)
  {
    var a, b := Range(1, 5, 10), Range(6, 9, 11);
    assert [a, b] == [a] + [b] && [a] == [] + [a];
    forall k: nat
      ensures Claims([a, b], k) <= 1 && (k == 0 ==> Owner([a, b], k) == None)
    {
      ClaimsSnoc([], a, k);
      ClaimsSnoc([a], b, k);
    }
  }

  /** Two nodes whose ranges share a slot: the update ends with both iterators released twice. */
  lemma {:induction false} RangesCanOverlap()
    ensures var ms := [Master(true, Some([Range(0, 5, 10)])), Master(true, Some([Range(5, 9, 11)]))];
            AllFine(ms) && !ClaimedOnce(RangesOf(ms))
  {
    var a, b := Range(0, 5, 10), Range(5, 9, 11);
    var m, n := Master(true, Some([a])), Master(true, Some([b]));
    assert [m, n][..1] == [m] && [m][..0] == [];
    assert RangesOf([m]) == [a] && RangesOf([m, n]) == RangesOf([m]) + [b];
    assert [a, b] == [a] + [b] && [a] == [] + [a];
    ClaimsSnoc([], a, 5);
    ClaimsSnoc([a], b, 5);
    assert Claims([a, b], 5) == 2;
  }
}
