/**
 One command sent to the cluster, from bytes to reply: redisClusterFormattedCommand
 (harvester/producer-cli/hircluster.c:3552-3700).  A server reads the bytes it is sent with the meaning of
 the command automaton; the cluster is one map store, and every sub-command is answered.
 */
module ClusterCommand {
  import opened Optional
  import opened Commands
  import opened CommandParser
  import opened Fragment
  import opened ClusterMerge
  import opened Resp
  import CommandFormat
  import Decimal

  // ---- a server, from bytes ----

  /** The argument printed at position p. */
  function ArgumentAt(s: string, p: nat): string {
    if p >= |s| then ""
    else match ReadNumber(s, p + 1, 0)
      case Found(n, at) => if at + 2 + n <= |s| then s[at + 2..at + 2 + n] else ""
      case _ => ""
  }

  /** The key at a position, for MSET with the argument behind it. */
  function ItemAt(s: string, t: CmdType, k: KeyPos): Item {
    Item(if k.start <= k.end <= |s| then s[k.start..k.end] else "",
         if t == Mset then Some(ArgumentAt(s, k.end + 2)) else None)
  }

  function ItemsAt(s: string, t: CmdType, keys: seq<KeyPos>): (r: seq<Item>)
    ensures |r| == |keys| && forall i :: 0 <= i < |r| ==> r[i] == ItemAt(s, t, keys[i])
  {
    if keys == [] then [] else ItemsAt(s, t, keys[..|keys| - 1]) + [ItemAt(s, t, keys[|keys| - 1])]
  }

  datatype Served = Served(store: Store, reply: Reply)

  /** What a server does with these bytes. */
  function Serve(store: Store, s: string): Served {
    var o := Parse(s);
    if o.Accepted? && o.t in {Mget, Del, Mset} then
      var items := ItemsAt(s, o.t, o.keys);
      Served(StoreAfter(o.t, store, items), ReplyTo(o.t, store, items))
    else Served(store, Error("ERR unknown command"))
  }

  lemma ItemIsAt(s: string, t: CmdType, k: KeyPos, item: Item)
    requires Stands(s, k, item) && (t == Mset <==> item.value.Some?)
    ensures ItemAt(s, t, k) == item
  {
    hide Decimal.Digits, CommandFormat.Bulk, ReadNumber;
    if t == Mset {
      var v, p := item.value.value, k.end + 2;
      assert s[p..p + |CommandFormat.Bulk(v)|] == s[k.end..k.end + |Tail(item)|][2..];
      CommandFormat.InPlaceText(s, p, v);
      CommandFormat.ReadDigits(s, p + 1, |v|);
    }
  }

  lemma ItemsAreAt(s: string, t: CmdType, keys: seq<KeyPos>, items: seq<Item>)
    requires StandAll(s, keys, items) && (if t == Mset then Paired(items) else Plain(items))
    ensures ItemsAt(s, t, keys) == items
  {
    hide Stands, ItemAt, ItemsAt;
    forall i | 0 <= i < |items|
      ensures ItemAt(s, t, keys[i]) == items[i]
    {
      ItemIsAt(s, t, keys[i], items[i]);
    }
  }

  /** A command of the given type over the given items. */
  ghost predicate Is(t: CmdType, items: seq<Item>) {
    items != [] && ((t in {Mget, Del} && Plain(items)) || (t == Mset && Paired(items)))
  }

  /** The bytes of a printed command are served as the command they print. */
  lemma {:induction false} CommandServed(store: Store, name: string, t: CmdType, items: seq<Item>)
    requires Is(t, items) && TypeOf(name) == Some(t)
    ensures Serve(store, CommandFormat.Format([name] + Flat(items)))
         == Served(StoreAfter(t, store, items), ReplyTo(t, store, items))
  {
    hide Parse, CommandFormat.Format, TypeOf, Flat, ReplyTo, StoreAfter, ItemsAt;
    CommandStands(name, t, items);
    var s := CommandFormat.Format([name] + Flat(items));
    ItemsAreAt(s, t, Parse(s).keys, items);
  }

  /** And so are the bytes of a fragment that fits. */
  lemma {:induction false} FragmentServed(store: Store, t: CmdType, items: seq<Item>)
    requires Is(t, items) && Fits(items)
    ensures Serve(store, FragmentText(NameOf(t), 1 + |Flat(items)|, items))
         == Served(StoreAfter(t, store, items), ReplyTo(t, store, items))
  {
    hide Parse, TypeOf, Flat, ReplyTo, StoreAfter, FragmentText, NameOf, Exact, ItemsAt;
    FragmentParsesBack(t, items);
    var s := FragmentText(NameOf(t), 1 + |Flat(items)|, items);
    ItemsAreAt(s, t, Parse(s).keys, items);
  }

  // ---- the pieces, in list order ----

  datatype Sent = Sent(store: Store, replies: map<int, Option<Reply>>)

  /** The pieces are sent one after the other, and each reply is kept with its sub-command. */
  function ServeAll(store: Store, pieces: seq<Piece>): Sent {
    if pieces == [] then Sent(store, map[])
    else
      var last := pieces[|pieces| - 1];
      var before := ServeAll(store, pieces[..|pieces| - 1]);
      var answer := Serve(before.store, last.bytes);
      Sent(answer.store, before.replies[last.slot := Some(answer.reply)])
  }

  lemma ServeAllSnoc(store: Store, pieces: seq<Piece>, piece: Piece)
    ensures var before := ServeAll(store, pieces); var answer := Serve(before.store, piece.bytes);
            ServeAll(store, pieces + [piece]) == Sent(answer.store, before.replies[piece.slot := Some(answer.reply)])
  {
    hide Serve;
    assert (pieces + [piece])[..|pieces|] == pieces;
  }

  function SlotsIn(pieces: seq<Piece>): (r: seq<int>)
    ensures |r| == |pieces| && forall i :: 0 <= i < |r| ==> r[i] == pieces[i].slot
  {
    seq(|pieces|, i requires 0 <= i < |pieces| => pieces[i].slot)
  }

  /** The replies to the sub-commands of the slots below n. */
  ghost function RepliesBelow(t: CmdType, store: Store, items: seq<Item>, slots: seq<int>, n: nat)
    : map<int, Option<Reply>>
    requires |items| == |slots|
  {
    map k | k in slots && 0 <= k < n :: Some(SlotReply(t, store, items, slots, k))
  }

  lemma PieceServed(t: CmdType, store: Store, items: seq<Item>, slots: seq<int>, k: nat)
    requires Is(t, items) && |items| == |slots| && k in slots && Fits(Select(items, slots, k))
    ensures var mine := Select(items, slots, k); var piece := PieceFor(t, items, slots, k);
            piece.slot == k && Serve(store, piece.bytes) == Served(StoreAfter(t, store, mine), ReplyTo(t, store, mine))
  {
    hide Serve, FragmentText, Flat, NameOf, Fits, StoreAfter, ReplyTo, Select;
    var mine := Select(items, slots, k);
    SelectNothing(items, slots, k);
    forall j | 0 <= j < |mine|
      ensures Plain(items) ==> mine[j].value.None?
      ensures Paired(items) ==> mine[j].value.Some?
    {
      var i := SelectFrom(items, slots, k, j);
    }
    FragmentServed(store, t, mine);
  }

  /** Sending the bytes of the pieces runs the fragments slot by slot. */
  lemma {:induction false} PiecesServed(t: CmdType, store: Store, items: seq<Item>, slots: seq<int>, n: nat)
    requires Is(t, items) && |items| == |slots| && AllFit(items, slots, n)
    ensures ServeAll(store, Pieces(t, items, slots, n))
         == Sent(RunSlots(t, store, items, slots, n), RepliesBelow(t, store, items, slots, n))
    ensures SlotsIn(Pieces(t, items, slots, n)) == Order(slots, n)
    decreases n
  {
    hide Serve, ServeAll, PieceFor, Fits, StoreAfter, ReplyTo, Select;
    if n == 0 {
      NothingServed(store);
    } else {
      var pieces, k := Pieces(t, items, slots, n - 1), n - 1;
      PiecesServed(t, store, items, slots, k);
      if k in slots {
        var piece := PieceFor(t, items, slots, k);
        ServeAllSnoc(store, pieces, piece);
        PieceServed(t, RunSlots(t, store, items, slots, k), items, slots, k);
        assert RepliesBelow(t, store, items, slots, n)
            == RepliesBelow(t, store, items, slots, k)[k := Some(SlotReply(t, store, items, slots, k))];
        assert SlotsIn(pieces + [piece]) == SlotsIn(pieces) + [k];
      } else {
        assert pieces + [] == pieces;
        SelectNothing(items, slots, k);
        NothingRun(t, RunSlots(t, store, items, slots, k));
        assert RepliesBelow(t, store, items, slots, n) == RepliesBelow(t, store, items, slots, k);
      }
    }
  }

  lemma NothingServed(store: Store)
    ensures ServeAll(store, []) == Sent(store, map[])
  {
  }

  lemma NothingRun(t: CmdType, store: Store)
    ensures StoreAfter(t, store, []) == store
  {
  }

  // ---- the whole call ----

  /** A write behind a buffer, an error of the client's own, or the reply with the store it leaves. */
  datatype Answer = Undefined | Failed(store: Store) | Answered(store: Store, reply: Option<Reply>)

  lemma AllReplies(t: CmdType, store: Store, items: seq<Item>, slotOf: string -> int)
    requires forall key :: 0 <= slotOf(key) < SLOTS
    ensures var slots := SlotsOf(slotOf, items);
            RepliesBelow(t, store, items, slots, SLOTS) == Replies(t, store, items, slots)
  {
    hide SlotReply;
    var slots := SlotsOf(slotOf, items);
    SlotsFit(slotOf, items);
    assert forall k :: k in slots ==> 0 <= k < SLOTS;
  }

  /**
   A printed MGET, DEL or MSET given to the cluster: parsed, split by slot, each piece served from its bytes,
   and the replies merged.  It has the reply and the store of the unsplit bytes served at once, and leaves
   a buffer if and only if it has several keys and some fragment does not fit.
   */
  method FormattedCommand(store: Store, s: string, slotOf: string -> int,
                          ghost name: string, ghost t: CmdType, ghost items: seq<Item>)
    returns (r: Answer)
    requires s == CommandFormat.Format([name] + Flat(items)) && TypeOf(name) == Some(t) && Is(t, items)
    requires ShortLengths(items) && forall key :: 0 <= slotOf(key) < SLOTS
    ensures r.Undefined? <==> |items| > 1 && !AllFit(items, SlotsOf(slotOf, items), SLOTS)
    ensures !r.Undefined? ==> r == Answered(Serve(store, s).store, Some(Serve(store, s).reply))
  {
    hide *;
    IsKind(t, items);
    CommandStands(name, t, items);
    StandCount(s, Parse(s).keys, items);
    var o := ParseCommand(s);
    if !o.Accepted? || o.keys == [] { return Failed(store); }
    var whole := Serve(store, s);
    if |o.keys| == 1 { return Answered(whole.store, Some(whole.reply)); }
    var split := PreFragment(s, o.t, o.keys, slotOf, items);
    if split.Overrun? { return Undefined; }
    if split.BadSlot? { return Failed(store); }
    if split.commands == [] { return Answered(whole.store, Some(whole.reply)); }
    var sent := Sent(store, map[]);
    NothingServed(store);
    for i := 0 to |split.commands|
      invariant sent == ServeAll(store, split.commands[..i])
    {
      var piece := split.commands[i];
      var answer := Serve(sent.store, piece.bytes);
      ServeAllSnoc(store, split.commands[..i], piece);
      assert split.commands[..i + 1] == split.commands[..i] + [piece];
      sent := Sent(answer.store, sent.replies[piece.slot := Some(answer.reply)]);
    }
    assert split.commands[..|split.commands|] == split.commands;
    PiecesServed(t, store, items, split.fragSeq, SLOTS);
    AllReplies(t, store, items, slotOf);
    SlotsSent(t, store, items, slotOf);
    var reply := PostFragment(o.t, SlotsIn(split.commands), sent.replies, split.fragSeq);
    SplitEqualsWhole(t, store, items, slotOf, reply);
    CommandServed(store, name, t, items);
    return Answered(sent.store, reply);
  }

  lemma IsKind(t: CmdType, items: seq<Item>)
    requires Is(t, items)
    ensures t in {Mget, Del, Mset} && items != [] && (t == Del ==> Plain(items))
    ensures if t == Mset then Paired(items) else Plain(items)
  {
  }

  lemma StandCount(s: string, keys: seq<KeyPos>, items: seq<Item>)
    requires StandAll(s, keys, items)
    ensures |keys| == |items|
  {
  }

  lemma SlotsSent(t: CmdType, store: Store, items: seq<Item>, slotOf: string -> int)
    requires t in {Mget, Del, Mset} && forall key :: 0 <= slotOf(key) < SLOTS
    ensures var slots := SlotsOf(slotOf, items);
            && (forall k :: k in Order(slots, SLOTS) <==> k in Replies(t, store, items, slots))
            && forall i :: 0 <= i < |slots| ==> slots[i] in Order(slots, SLOTS)
  {
    hide Order, Replies, InOrder, FirstStop;
    SlotsFit(slotOf, items);
    NothingStops(t, store, items, SlotsOf(slotOf, items));
  }
}
