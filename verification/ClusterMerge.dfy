/**
 Running the sub-commands of a split command and merging their replies: the list of
 harvester/producer-cli/hircluster.c:3672-3690 and command_post_fragment (hircluster.c:3423-3543).
 The cluster is one map store; the hash slot is an arbitrary function of the key.
 */
module ClusterMerge {
  import opened Optional
  import opened Commands
  import opened Fragment
  import opened Resp

  type Store = map<string, string>

  function Lookup(store: Store, key: string): Option<string> {
    if key in store then Some(store[key]) else None
  }

  // ---- what a server does ----

  /** DEL removes a key; MSET sets it to its value. */
  function Write(store: Store, item: Item): Store {
    if item.value.Some? then store[item.key := item.value.value] else store - {item.key}
  }

  function WriteAll(store: Store, items: seq<Item>): Store {
    if items == [] then store else Write(WriteAll(store, items[..|items| - 1]), items[|items| - 1])
  }

  /** How many of the keys DEL finds. */
  function Removed(store: Store, items: seq<Item>): nat {
    if items == [] then 0
    else
      var n := |items| - 1;
      Removed(store, items[..n]) + if items[n].key in WriteAll(store, items[..n]) then 1 else 0
  }

  function Value(store: Store, key: string): Reply {
    if key in store then Bulk(store[key]) else Nil
  }

  function Values(store: Store, items: seq<Item>): (r: seq<Reply>)
    ensures |r| == |items| && forall i :: 0 <= i < |r| ==> r[i] == Value(store, items[i].key)
  {
    if items == [] then [] else Values(store, items[..|items| - 1]) + [Value(store, items[|items| - 1].key)]
  }

  function StoreAfter(t: CmdType, store: Store, items: seq<Item>): Store {
    if t == Mget then store else WriteAll(store, items)
  }

  function ReplyTo(t: CmdType, store: Store, items: seq<Item>): Reply {
    if t == Mget then Array(|items|, Values(store, items))
    else if t == Del then Integer(Removed(store, items))
    else Status("OK")
  }

  // ---- the sub-commands in slot order ----

  /** The store when the sub-commands of the slots below n have run. */
  function RunSlots(t: CmdType, store: Store, items: seq<Item>, slots: seq<int>, n: nat): Store
    requires |items| == |slots|
  {
    if n == 0 then store else StoreAfter(t, RunSlots(t, store, items, slots, n - 1), Select(items, slots, n - 1))
  }

  /** The reply of the sub-command of slot k. */
  function SlotReply(t: CmdType, store: Store, items: seq<Item>, slots: seq<int>, k: nat): Reply
    requires |items| == |slots|
  {
    ReplyTo(t, RunSlots(t, store, items, slots, k), Select(items, slots, k))
  }

  /** A key's fate depends only on what the store held for it. */
  lemma {:induction false} WriteAllLocal(a: Store, b: Store, items: seq<Item>, key: string)
    requires Lookup(a, key) == Lookup(b, key)
    ensures Lookup(WriteAll(a, items), key) == Lookup(WriteAll(b, items), key)
  {
    if items != [] { WriteAllLocal(a, b, items[..|items| - 1], key); }
  }

  /** A fragment does to the keys of its slot what the whole command does, and nothing to the others. */
  lemma {:induction false} FragmentWrites(store: Store, items: seq<Item>, slots: seq<int>, slotOf: string -> int,
                                          k: int, key: string)
    requires |slots| == |items| && forall i :: 0 <= i < |items| ==> slots[i] == slotOf(items[i].key)
    ensures Lookup(WriteAll(store, Select(items, slots, k)), key)
         == if slotOf(key) == k then Lookup(WriteAll(store, items), key) else Lookup(store, key)
    decreases |items|
  {
    hide WriteAll, Select;
    if items == [] {
      NothingWritten(store, slots, k);
    } else {
      var n := |items| - 1;
      var front, last := items[..n], items[n];
      assert items == front + [last] && slots == slots[..n] + [slots[n]];
      FragmentWrites(store, front, slots[..n], slotOf, k, key);
      SelectSnoc(front, slots[..n], k, last, slots[n]);
      WriteSnoc(store, front, last, key);
      var mine := Select(front, slots[..n], k);
      WriteSnoc(store, mine, last, key);
      assert mine + [] == mine;
    }
  }

  lemma NothingWritten(store: Store, slots: seq<int>, k: int)
    requires slots == []
    ensures Select<Item>([], slots, k) == [] && WriteAll(store, []) == store
  {
  }

  lemma WriteSnoc(store: Store, items: seq<Item>, item: Item, key: string)
    ensures Lookup(WriteAll(store, items + [item]), key)
         == if item.key == key then item.value else Lookup(WriteAll(store, items), key)
  {
    assert (items + [item])[..|items|] == items;
  }

  lemma {:induction false} RunSlotsWrites(t: CmdType, store: Store, items: seq<Item>, slots: seq<int>,
                                          slotOf: string -> int, n: nat, key: string)
    requires t in {Del, Mset} && |slots| == |items| &&
             (forall i :: 0 <= i < |items| ==> slots[i] == slotOf(items[i].key))
    requires 0 <= slotOf(key)
    ensures Lookup(RunSlots(t, store, items, slots, n), key)
         == if slotOf(key) < n then Lookup(WriteAll(store, items), key) else Lookup(store, key)
    decreases n
  {
    hide WriteAll, Select;
    if n > 0 {
      RunSlotsWrites(t, store, items, slots, slotOf, n - 1, key);
      var before := RunSlots(t, store, items, slots, n - 1);
      FragmentWrites(before, items, slots, slotOf, n - 1, key);
      if slotOf(key) == n - 1 { WriteAllLocal(before, store, items, key); }
    }
  }

  lemma {:induction false} ReadsKeepStore(store: Store, items: seq<Item>, slots: seq<int>, n: nat)
    requires |slots| == |items|
    ensures RunSlots(Mget, store, items, slots, n) == store
  {
    if n > 0 { ReadsKeepStore(store, items, slots, n - 1); }
  }

  /** Split by slot or not, the store ends the same; keys given twice are resolved the same way. */
  lemma {:induction false} SplitKeepsStore(t: CmdType, store: Store, items: seq<Item>, slotOf: string -> int)
    requires t in {Mget, Del, Mset} && forall key :: 0 <= slotOf(key) < SLOTS
    ensures RunSlots(t, store, items, SlotsOf(slotOf, items), SLOTS) == StoreAfter(t, store, items)
  {
    hide WriteAll, Select, RunSlots, SlotsOf;
    var slots := SlotsOf(slotOf, items);
    if t == Mget {
      ReadsKeepStore(store, items, slots, SLOTS);
    } else {
      var a, b := RunSlots(t, store, items, slots, SLOTS), WriteAll(store, items);
      forall key
        ensures Lookup(a, key) == Lookup(b, key)
      {
        RunSlotsWrites(t, store, items, slots, slotOf, SLOTS, key);
      }
      SameLookups(a, b);
    }
  }

  lemma SameLookups(a: Store, b: Store)
    requires forall key :: Lookup(a, key) == Lookup(b, key)
    ensures a == b
  {
    forall key
      ensures key in a <==> key in b
      ensures key in a ==> a[key] == b[key]
    {
      assert Lookup(a, key) == Lookup(b, key);
    }
  }

  // ---- DEL ----

  /** The keys removed are those the store has lost. */
  lemma {:induction false} RemovedIsLost(store: Store, items: seq<Item>)
    requires Plain(items)
    ensures Removed(store, items) + |WriteAll(store, items)| == |store|
    decreases |items|
  {
    if items != [] {
      var n := |items| - 1;
      RemovedIsLost(store, items[..n]);
      var s, key := WriteAll(store, items[..n]), items[n].key;
      if key in s {
        assert (s - {key}).Keys == s.Keys - {key};
        assert |s.Keys - {key}| == |s.Keys| - 1;
      } else {
        assert s - {key} == s;
      }
    }
  }

  /** The sum of the counts of the first n slots. */
  function RemovedBySlots(store: Store, items: seq<Item>, slots: seq<int>, n: nat): nat
    requires |items| == |slots|
  {
    if n == 0 then 0
    else RemovedBySlots(store, items, slots, n - 1)
         + Removed(RunSlots(Del, store, items, slots, n - 1), Select(items, slots, n - 1))
  }

  lemma SelectPlain(items: seq<Item>, slots: seq<int>, k: int)
    requires Plain(items) && |slots| == |items|
    ensures Plain(Select(items, slots, k))
  {
    hide Select;
    var mine := Select(items, slots, k);
    forall j | 0 <= j < |mine|
      ensures mine[j].value.None?
    {
      var i := SelectFrom(items, slots, k, j);
    }
  }

  lemma {:induction false} RemovedBySlotsIsLost(store: Store, items: seq<Item>, slots: seq<int>, n: nat)
    requires Plain(items) && |slots| == |items|
    ensures RemovedBySlots(store, items, slots, n) + |RunSlots(Del, store, items, slots, n)| == |store|
    decreases n
  {
    hide WriteAll, Select, Removed;
    if n > 0 {
      RemovedBySlotsIsLost(store, items, slots, n - 1);
      SelectPlain(items, slots, n - 1);
      RemovedIsLost(RunSlots(Del, store, items, slots, n - 1), Select(items, slots, n - 1));
    }
  }

  /** The counts of the fragments add up to the count of the whole DEL. */
  lemma {:induction false} SplitKeepsCount(store: Store, items: seq<Item>, slotOf: string -> int)
    requires Plain(items) && forall key :: 0 <= slotOf(key) < SLOTS
    ensures RemovedBySlots(store, items, SlotsOf(slotOf, items), SLOTS) == Removed(store, items)
  {
    hide WriteAll, Select, RunSlots, SlotsOf, RemovedBySlots, Removed;
    RemovedBySlotsIsLost(store, items, SlotsOf(slotOf, items), SLOTS);
    RemovedIsLost(store, items);
    SplitKeepsStore(Del, store, items, slotOf);
  }

  // ---- merging ----

  /** What the replies of the sub-commands, in list order, stop the merge with: none, an error reply, or nothing. */
  datatype Stop = Stop(result: Option<Reply>)

  predicate Expected(t: CmdType, r: Reply) {
    match t
    case Mget => r.Array?
    case Del => r.Integer?
    case _ => r == Status("OK")
  }

  function FirstStop(t: CmdType, rs: seq<Option<Reply>>): Option<Stop> {
    if rs == [] then None
    else if rs[0].None? then Some(Stop(None))
    else if rs[0].value.Error? then Some(Stop(rs[0]))
    else if !Expected(t, rs[0].value) then Some(Stop(None))
    else FirstStop(t, rs[1..])
  }

  function Total(rs: seq<Option<Reply>>): int {
    if rs == [] then 0
    else Total(rs[..|rs| - 1]) + if rs[|rs| - 1].Some? && rs[|rs| - 1].value.Integer? then rs[|rs| - 1].value.n else 0
  }

  lemma {:induction false} FirstStopFrom(t: CmdType, rs: seq<Option<Reply>>, i: nat)
    requires i <= |rs| && forall j :: 0 <= j < i ==> rs[j].Some? && Expected(t, rs[j].value) && !rs[j].value.Error?
    ensures FirstStop(t, rs) == FirstStop(t, rs[i..])
    decreases i
  {
    if i > 0 {
      FirstStopFrom(t, rs, i - 1);
      assert rs[i - 1..][1..] == rs[i..];
    } else {
      assert rs[0..] == rs;
    }
  }

  /** The list loop of command_post_fragment: every reply is checked, and counts are added up. */
  method CheckReplies(t: CmdType, rs: seq<Option<Reply>>) returns (stop: Option<Stop>, count: int)
    ensures stop == FirstStop(t, rs)
    ensures stop.None? ==> count == Total(rs) && forall i :: 0 <= i < |rs| ==> rs[i].Some? && Expected(t, rs[i].value)
  {
    hide FirstStop, Total;
    count := 0;
    TotalStart(rs);
    for i := 0 to |rs|
      invariant forall j :: 0 <= j < i ==> rs[j].Some? && Expected(t, rs[j].value) && !rs[j].value.Error?
      invariant count == Total(rs[..i])
    {
      StopAt(t, rs, i);
      TotalNext(rs, i);
      if rs[i].None? { return Some(Stop(None)), count; }
      if rs[i].value.Error? { return Some(Stop(rs[i])), count; }
      if !Expected(t, rs[i].value) { return Some(Stop(None)), count; }
      if rs[i].value.Integer? { count := count + rs[i].value.n; }
    }
    StopAt(t, rs, |rs|);
    assert rs[..|rs|] == rs;
    return None, count;
  }

  lemma TotalNext(rs: seq<Option<Reply>>, i: nat)
    requires i < |rs|
    ensures Total(rs[..i + 1]) == Total(rs[..i]) + if rs[i].Some? && rs[i].value.Integer? then rs[i].value.n else 0
  {
    assert rs[..i + 1][..i] == rs[..i];
  }

  lemma TotalStart(rs: seq<Option<Reply>>)
    ensures Total(rs[..0]) == 0
  {
  }

  /** What the reply at i decides, when all before it are in order. */
  lemma StopAt(t: CmdType, rs: seq<Option<Reply>>, i: nat)
    requires i <= |rs| && forall j :: 0 <= j < i ==> rs[j].Some? && Expected(t, rs[j].value) && !rs[j].value.Error?
    ensures i == |rs| ==> FirstStop(t, rs) == None
    ensures i < |rs| && rs[i].None? ==> FirstStop(t, rs) == Some(Stop(None))
    ensures i < |rs| && rs[i].Some? && rs[i].value.Error? ==> FirstStop(t, rs) == Some(Stop(rs[i]))
    ensures i < |rs| && rs[i].Some? && !rs[i].value.Error? && !Expected(t, rs[i].value) ==>
            FirstStop(t, rs) == Some(Stop(None))
  {
    FirstStopFrom(t, rs, i);
  }

  /** How many keys from the i-th on have slot k. */
  function Behind(slots: seq<int>, i: nat, k: int): nat
    requires i <= |slots|
  {
    RankMonotone(slots, i, |slots|, k);
    Rank(slots, |slots|, k) - Rank(slots, i, k)
  }

  /** Key i is given the element with as many behind it as there are later keys of its slot. */
  ghost predicate Given(slots: seq<int>, elements: map<int, seq<Reply>>, i: nat, r: Reply)
    requires i < |slots|
  {
    && slots[i] in elements && Behind(slots, i, slots[i]) <= |elements[slots[i]]|
    && 0 < Behind(slots, i, slots[i]) && r == elements[slots[i]][|elements[slots[i]]| - Behind(slots, i, slots[i])]
  }

  /**
   The key loop of an MGET merge: each key, from the last to the first, takes the last element left in
   its fragment's reply.
   */
  method TakeFromEnds(slots: seq<int>, elements: map<int, seq<Reply>>) returns (ok: bool, merged: seq<Reply>)
    requires forall i :: 0 <= i < |slots| ==> slots[i] in elements
    ensures ok <==> forall k :: k in slots ==> Rank(slots, |slots|, k) <= |elements[k]|
    ensures ok ==> |merged| == |slots| && forall i :: 0 <= i < |slots| ==> Given(slots, elements, i, merged[i])
  {
    hide Rank, Behind, Given;
    var left := map k | k in elements :: |elements[k]|;
    merged := seq(|slots|, _ => Nil);
    var i := |slots|;
    NoneBehind(slots);
    while i > 0
      invariant 0 <= i <= |slots| && |merged| == |slots| && left.Keys == elements.Keys
      invariant forall k :: k in elements ==> 0 <= left[k] == |elements[k]| - Behind(slots, i, k)
      invariant forall j :: i <= j < |slots| ==> Given(slots, elements, j, merged[j])
    {
      i := i - 1;
      var k := slots[i];
      BehindStep(slots, i);
      if left[k] == 0 {
        BehindAll(slots, i, k);
        assert k in slots && Rank(slots, |slots|, k) > |elements[k]|;
        return false, [];
      }
      GivenNow(slots, elements, i);
      merged := merged[i := elements[k][left[k] - 1]];
      left := left[k := left[k] - 1];
    }
    forall k | k in slots
      ensures Rank(slots, |slots|, k) <= |elements[k]|
    {
      BehindAll(slots, 0, k);
      assert k in elements;
    }
    return true, merged;
  }

  lemma NoneBehind(slots: seq<int>)
    ensures forall k :: Behind(slots, |slots|, k) == 0
  {
  }

  lemma BehindStep(slots: seq<int>, i: nat)
    requires i < |slots|
    ensures forall k :: Behind(slots, i, k) == Behind(slots, i + 1, k) + if slots[i] == k then 1 else 0
  {
    hide Rank;
    RankStep(slots, i);
  }

  lemma BehindAll(slots: seq<int>, i: nat, k: int)
    requires i <= |slots|
    ensures Behind(slots, i, k) <= Rank(slots, |slots|, k)
    ensures i == 0 ==> Behind(slots, i, k) == Rank(slots, |slots|, k)
  {
  }

  lemma GivenNow(slots: seq<int>, elements: map<int, seq<Reply>>, i: nat)
    requires i < |slots| && slots[i] in elements && 0 < Behind(slots, i, slots[i]) <= |elements[slots[i]]|
    ensures var e := elements[slots[i]]; Given(slots, elements, i, e[|e| - Behind(slots, i, slots[i])])
  {
  }

  lemma RankStep(slots: seq<int>, i: nat)
    requires i < |slots|
    ensures forall k :: Rank(slots, i + 1, k) == Rank(slots, i, k) + if slots[i] == k then 1 else 0
  {
  }

  /** The elements of the array replies. */
  function ElementsOf(replies: map<int, Option<Reply>>): map<int, seq<Reply>> {
    map k | k in replies :: if replies[k].Some? && replies[k].value.Array? then replies[k].value.items else []
  }

  /** What the merge of these replies is. */
  ghost predicate MergedTo(t: CmdType, order: seq<int>, replies: map<int, Option<Reply>>, slots: seq<int>,
                           reply: Option<Reply>) {
    var rs := InOrder(order, replies);
    var stop := FirstStop(t, rs);
    if stop.Some? then reply == stop.value.result
    else if t == Del then reply == Some(Integer(Total(rs)))
    else if t == Mset then reply == Some(Status("OK"))
    else
      && (reply.Some? <==>
            forall k :: k in slots ==> k in replies && Rank(slots, |slots|, k) <= |ElementsOf(replies)[k]|)
      && (reply.Some? ==>
            && reply.value.Array? && reply.value.count == |reply.value.items| == |slots|
            && forall i :: 0 <= i < |slots| ==> Given(slots, ElementsOf(replies), i, reply.value.items[i]))
  }

  /**
   command_post_fragment: the first reply out of order ends it; otherwise MGET hands each key its
   value, DEL the sum, and MSET a status.  order lists the slots that were sent to.
   */
  method PostFragment(t: CmdType, order: seq<int>, replies: map<int, Option<Reply>>, fragSeq: seq<int>)
    returns (reply: Option<Reply>)
    requires t in {Mget, Del, Mset}
    requires forall k :: k in order <==> k in replies
    requires forall i :: 0 <= i < |fragSeq| ==> fragSeq[i] in order
    ensures MergedTo(t, order, replies, fragSeq, reply)
  {
    hide Rank, Given, FirstStop, Total;
    var stop, count := CheckReplies(t, InOrder(order, replies));
    if stop.Some? { return stop.value.result; }
    if t == Mget {
      forall i | 0 <= i < |fragSeq|
        ensures fragSeq[i] in ElementsOf(replies)
      {
        var k := fragSeq[i];
        assert k in order;
      }
      var ok, merged := TakeFromEnds(fragSeq, ElementsOf(replies));
      return if ok then Some(Array(|fragSeq|, merged)) else None;
    } else if t == Del {
      return Some(Integer(count));
    } else {
      return Some(Status("OK"));
    }
  }

  function InOrder(order: seq<int>, replies: map<int, Option<Reply>>): (rs: seq<Option<Reply>>)
    ensures |rs| == |order|
  {
    if order == [] then []
    else
      var k := order[|order| - 1];
      InOrder(order[..|order| - 1], replies) + [if k in replies then replies[k] else None]
  }

  // ---- the split command as a whole ----

  /** The slots sent to, in list order. */
  function Order(slots: seq<int>, n: nat): seq<int> {
    if n == 0 then [] else Order(slots, n - 1) + if n - 1 in slots then [n - 1] else []
  }

  lemma {:induction false} OrderHas(slots: seq<int>, n: nat, k: int)
    ensures k in Order(slots, n) <==> 0 <= k < n && k in slots
  {
    if n > 0 { OrderHas(slots, n - 1, k); }
  }

  /** The replies the servers give to the fragments. */
  ghost function Replies(t: CmdType, store: Store, items: seq<Item>, slots: seq<int>): map<int, Option<Reply>>
    requires |items| == |slots|
  {
    map k | k in slots && 0 <= k :: Some(SlotReply(t, store, items, slots, k))
  }

  lemma {:induction false} NoStop(t: CmdType, rs: seq<Option<Reply>>)
    requires forall i :: 0 <= i < |rs| ==> rs[i].Some? && !rs[i].value.Error? && Expected(t, rs[i].value)
    ensures FirstStop(t, rs) == None
  {
    if rs != [] { NoStop(t, rs[1..]); }
  }

  lemma MgetElements(store: Store, items: seq<Item>, slots: seq<int>, k: int)
    requires |items| == |slots| && k in slots && 0 <= k
    ensures k in ElementsOf(Replies(Mget, store, items, slots))
    ensures ElementsOf(Replies(Mget, store, items, slots))[k] == Values(store, Select(items, slots, k))
  {
    hide Select;
    ReadsKeepStore(store, items, slots, k);
  }

  /** What the merge gives key i of an MGET is what the unsplit MGET gives it. */
  lemma {:induction false} GivenIsValue(store: Store, items: seq<Item>, slots: seq<int>, i: nat, r: Reply)
    requires |items| == |slots| && (forall j :: 0 <= j < |slots| ==> 0 <= slots[j]) && i < |items|
    requires Given(slots, ElementsOf(Replies(Mget, store, items, slots)), i, r)
    ensures r == Value(store, items[i].key)
  {
    hide Select, Rank, RunSlots, Replies;
    var k := slots[i];
    MgetElements(store, items, slots, k);
    SelectLength(items, slots, k);
    SelectAt(items, slots, i);
    RankMonotone(slots, i, |slots|, k);
  }

  lemma EnoughValues(store: Store, items: seq<Item>, slots: seq<int>, k: int)
    requires |items| == |slots| && k in slots && 0 <= k
    ensures Rank(slots, |slots|, k) <= |ElementsOf(Replies(Mget, store, items, slots))[k]|
  {
    hide Select, Rank, RunSlots, Replies, ElementsOf;
    MgetElements(store, items, slots, k);
    SelectLength(items, slots, k);
  }

  lemma {:induction false} TotalIsRemoved(store: Store, items: seq<Item>, slots: seq<int>, n: nat)
    requires |items| == |slots|
    ensures Total(InOrder(Order(slots, n), Replies(Del, store, items, slots))) == RemovedBySlots(store, items, slots, n)
    decreases n
  {
    hide Select, RunSlots, Removed, Total, InOrder, Replies;
    var replies := Replies(Del, store, items, slots);
    if n == 0 {
      NoTotal(replies);
    } else {
      var order := Order(slots, n - 1);
      TotalIsRemoved(store, items, slots, n - 1);
      SelectNothing(items, slots, n - 1);
      NoneRemoved(RunSlots(Del, store, items, slots, n - 1));
      if n - 1 in slots {
        DelReply(store, items, slots, n - 1);
        TotalSnoc(order, replies, n - 1);
      } else {
        assert order + [] == order;
      }
    }
  }

  lemma NoTotal(replies: map<int, Option<Reply>>)
    ensures Total(InOrder([], replies)) == 0
  {
  }

  lemma DelReply(store: Store, items: seq<Item>, slots: seq<int>, k: nat)
    requires |items| == |slots| && k in slots
    ensures var replies := Replies(Del, store, items, slots);
            && k in replies
            && replies[k] == Some(Integer(Removed(RunSlots(Del, store, items, slots, k), Select(items, slots, k))))
  {
    hide Select, RunSlots, Removed;
  }

  lemma TotalSnoc(order: seq<int>, replies: map<int, Option<Reply>>, k: int)
    requires k in replies && replies[k].Some? && replies[k].value.Integer?
    ensures Total(InOrder(order + [k], replies)) == Total(InOrder(order, replies)) + replies[k].value.n
  {
    var rs := InOrder(order, replies);
    assert (order + [k])[..|order|] == order;
    assert InOrder(order + [k], replies) == rs + [replies[k]];
    assert (rs + [replies[k]])[..|rs|] == rs;
  }

  lemma NoneRemoved(store: Store)
    ensures Removed(store, []) == 0
  {
  }

  lemma {:induction false} InOrderFrom(order: seq<int>, replies: map<int, Option<Reply>>, i: nat)
    requires i < |order|
    ensures InOrder(order, replies)[i] == if order[i] in replies then replies[order[i]] else None
    decreases |order|
  {
    if i < |order| - 1 { InOrderFrom(order[..|order| - 1], replies, i); }
  }

  /** The servers answer every fragment in kind, so nothing stops the merge. */
  lemma NothingStops(t: CmdType, store: Store, items: seq<Item>, slots: seq<int>)
    requires t in {Mget, Del, Mset} && |items| == |slots| && forall i :: 0 <= i < |slots| ==> 0 <= slots[i] < SLOTS
    ensures forall k :: k in Order(slots, SLOTS) <==> k in Replies(t, store, items, slots)
    ensures forall i :: 0 <= i < |slots| ==> slots[i] in Order(slots, SLOTS)
    ensures FirstStop(t, InOrder(Order(slots, SLOTS), Replies(t, store, items, slots))) == None
  {
    hide FirstStop, Order, RunSlots, Select, Removed, InOrder;
    var order, replies := Order(slots, SLOTS), Replies(t, store, items, slots);
    forall k
      ensures k in order <==> k in replies
      ensures k in slots ==> k in order
    {
      OrderHas(slots, SLOTS, k);
    }
    forall i | 0 <= i < |order|
      ensures InOrder(order, replies)[i].Some? && Expected(t, InOrder(order, replies)[i].value)
      ensures !InOrder(order, replies)[i].value.Error?
    {
      InOrderFrom(order, replies, i);
      assert order[i] in order;
    }
    NoStop(t, InOrder(order, replies));
  }

  lemma MgetMerges(store: Store, items: seq<Item>, slots: seq<int>, reply: Option<Reply>)
    requires |items| == |slots| && forall j :: 0 <= j < |slots| ==> 0 <= slots[j]
    requires var e := ElementsOf(Replies(Mget, store, items, slots));
             && (forall k :: k in slots ==> k in e)
             && (reply.Some? <==> forall k :: k in slots ==> Rank(slots, |slots|, k) <= |e[k]|)
             && (reply.Some? ==>
                   && reply.value.Array? && reply.value.count == |reply.value.items| == |slots|
                   && forall i :: 0 <= i < |slots| ==> Given(slots, e, i, reply.value.items[i]))
    ensures reply == Some(Array(|items|, Values(store, items)))
  {
    hide Rank, Given, Replies, ElementsOf;
    forall k | k in slots
      ensures Rank(slots, |slots|, k) <= |ElementsOf(Replies(Mget, store, items, slots))[k]|
    {
      EnoughValues(store, items, slots, k);
    }
    forall i | 0 <= i < |slots|
      ensures reply.value.items[i] == Value(store, items[i].key)
    {
      GivenIsValue(store, items, slots, i, reply.value.items[i]);
    }
    assert reply.value.items == Values(store, items);
  }

  lemma SlotsFit(slotOf: string -> int, items: seq<Item>)
    requires forall key :: 0 <= slotOf(key) < SLOTS
    ensures forall i :: 0 <= i < |items| ==> 0 <= SlotsOf(slotOf, items)[i] < SLOTS
  {
  }

  /**
   Split by slot, run in slot order and merged, a multi-key command leaves the store and gives the
   reply of the same command unsplit, for every key list, every slot function and every store.
   */
  lemma {:induction false} SplitEqualsWhole(t: CmdType, store: Store, items: seq<Item>, slotOf: string -> int,
                                            reply: Option<Reply>)
    requires t in {Mget, Del, Mset} && (t == Del ==> Plain(items)) && forall key :: 0 <= slotOf(key) < SLOTS
    requires var slots := SlotsOf(slotOf, items);
             MergedTo(t, Order(slots, SLOTS), Replies(t, store, items, slots), slots, reply)
    ensures reply == Some(ReplyTo(t, store, items))
    ensures RunSlots(t, store, items, SlotsOf(slotOf, items), SLOTS) == StoreAfter(t, store, items)
  {
    hide Rank, Given, Select, RunSlots, WriteAll, SlotsOf, Removed, RemovedBySlots, Total, FirstStop, Order, InOrder,
         Replies, StoreAfter;
    var slots := SlotsOf(slotOf, items);
    SlotsFit(slotOf, items);
    SplitKeepsStore(t, store, items, slotOf);
    NothingStops(t, store, items, slots);
    if t == Mget {
      MgetMerges(store, items, slots, reply);
    } else if t == Del {
      TotalIsRemoved(store, items, slots, SLOTS);
      SplitKeepsCount(store, items, slotOf);
    }
  }
}
