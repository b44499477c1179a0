/**
 Splitting a multi-key command by hash slot: command_pre_fragment
 (harvester/producer-cli/hircluster.c:3148-3421).  The hash slot is an arbitrary function of the key.
 */
module Fragment {
  import opened Decimal
  import opened Optional
  import opened Commands
  import opened CommandParser
  import opened CommandFormat

  const SLOTS: nat := 16384

  // ---- order-preserving selection ----

  /** The elements whose slot is k, in their order. */
  function Select<T>(xs: seq<T>, slots: seq<int>, k: int): seq<T>
    requires |xs| == |slots|
  {
    if xs == [] then []
    else
      var n := |xs| - 1;
      Select(xs[..n], slots[..n], k) + if slots[n] == k then [xs[n]] else []
  }

  /** How many of the first i slots are k. */
  function Rank(slots: seq<int>, i: nat, k: int): nat
    requires i <= |slots|
  {
    if i == 0 then 0 else Rank(slots, i - 1, k) + if slots[i - 1] == k then 1 else 0
  }

  lemma {:induction false} RankPrefix(slots: seq<int>, i: nat, n: nat, k: int)
    requires i <= n <= |slots|
    ensures Rank(slots[..n], i, k) == Rank(slots, i, k)
  {
    if i > 0 { RankPrefix(slots, i - 1, n, k); }
  }

  lemma {:induction false} RankMonotone(slots: seq<int>, i: nat, j: nat, k: int)
    requires i <= j <= |slots|
    ensures Rank(slots, i, k) <= Rank(slots, j, k)
    decreases j
  {
    if i < j { RankMonotone(slots, i, j - 1, k); }
  }

  lemma {:induction false} SelectLength<T>(xs: seq<T>, slots: seq<int>, k: int)
    requires |xs| == |slots|
    ensures |Select(xs, slots, k)| == Rank(slots, |slots|, k)
  {
    if xs != [] {
      var n := |xs| - 1;
      SelectLength(xs[..n], slots[..n], k);
      RankPrefix(slots, n, n, k);
    }
  }

  /** Every element is in the fragment of its slot, at the place its order among that slot's elements gives. */
  lemma {:induction false} SelectAt<T>(xs: seq<T>, slots: seq<int>, i: nat)
    requires i < |xs| == |slots|
    ensures Rank(slots, i, slots[i]) < |Select(xs, slots, slots[i])|
    ensures Select(xs, slots, slots[i])[Rank(slots, i, slots[i])] == xs[i]
  {
    var n, k := |xs| - 1, slots[i];
    SelectLength(xs[..n], slots[..n], k);
    if i < n {
      SelectAt(xs[..n], slots[..n], i);
      RankPrefix(slots, i, n, k);
    } else {
      RankPrefix(slots, n, n, k);
    }
  }

  /** And every element of a fragment comes from one key of that slot: the fragments partition the keys. */
  lemma {:induction false} SelectFrom<T>(xs: seq<T>, slots: seq<int>, k: int, j: nat) returns (i: nat)
    requires |xs| == |slots| && j < |Select(xs, slots, k)|
    ensures i < |xs| && slots[i] == k && Rank(slots, i, k) == j && xs[i] == Select(xs, slots, k)[j]
  {
    var n := |xs| - 1;
    SelectLength(xs[..n], slots[..n], k);
    RankPrefix(slots, n, n, k);
    if j < |Select(xs[..n], slots[..n], k)| {
      i := SelectFrom(xs[..n], slots[..n], k, j);
      RankPrefix(slots, i, n, k);
    } else {
      i := n;
    }
  }

  lemma SelectSnoc<T>(xs: seq<T>, slots: seq<int>, k: int, x: T, slot: int)
    requires |xs| == |slots|
    ensures Select(xs + [x], slots + [slot], k) == Select(xs, slots, k) + if slot == k then [x] else []
  {
    assert (xs + [x])[..|xs|] == xs && (slots + [slot])[..|slots|] == slots;
  }

  // ---- what a fragment says ----

  /** A key of the command, for MSET with its value. */
  datatype Item = Item(key: string, value: Option<string>)

  /** The bytes behind the key: a line end, and the value as the command has it. */
  function Tail(item: Item): string { "\r\n" + if item.value.Some? then Bulk(item.value.value) else "" }

  /** The text hi_itoa leaves in a buffer that held another number: zero overwrites one digit only. */
  function NumText(before: string, n: nat): (r: string)
    requires before != ""
    ensures r != ""
  {
    DigitsSpell(n);
    if n == 0 then "0" + before[1..] else Digits(n)
  }

  function ItemText(number: string, item: Item): string { "$" + number + "\r\n" + item.key + Tail(item) }

  /** The bytes written for the keys, with the number printed before them. */
  function Written(before: string, items: seq<Item>): string
    requires before != ""
    decreases items
  {
    if items == [] then ""
    else
      var number := NumText(before, |items[0].key|);
      ItemText(number, items[0]) + Written(number, items[1..])
  }

  function Opening(name: string, narg: nat): string { "*" + Digits(narg) + "\r\n" + Bulk(name) }

  /** All bytes written for one fragment. */
  function FragmentText(name: string, narg: nat, items: seq<Item>): string {
    Opening(name, narg) + Written(NumText("0", narg), items)
  }

  /** The length reserved for one item. */
  function ItemLength(item: Item): nat { 3 + |Digits(|item.key|)| + |item.key| + |Tail(item)| }

  function ItemsLength(items: seq<Item>): nat {
    if items == [] then 0 else ItemsLength(items[..|items| - 1]) + ItemLength(items[|items| - 1])
  }

  /** clen when the buffer is allocated. */
  function FragmentLength(name: string, narg: nat, items: seq<Item>): nat { |Opening(name, narg)| + ItemsLength(items) }

  /** Every empty key follows a number of one digit. */
  predicate Exact(before: string, items: seq<Item>)
    requires before != ""
    decreases items
  {
    items == [] ||
    ((items[0].key == "" ==> |before| == 1) && Exact(NumText(before, |items[0].key|), items[1..]))
  }

  lemma {:induction false} ItemsLengthCons(items: seq<Item>)
    requires items != []
    ensures ItemsLength(items) == ItemLength(items[0]) + ItemsLength(items[1..])
  {
    var n := |items| - 1;
    if n > 0 {
      assert items[..n][1..] == items[1..][..n - 1];
      ItemsLengthCons(items[..n]);
    } else {
      assert items[..0] == [] && items[1..] == [];
    }
  }

  /**
   The bytes written are never fewer than reserved, and as many if and only if every empty key follows a
   one-digit number.
   */
  lemma {:induction false} WrittenLength(before: string, items: seq<Item>)
    requires before != ""
    ensures |Written(before, items)| >= ItemsLength(items)
    ensures |Written(before, items)| == ItemsLength(items) <==> Exact(before, items)
    decreases items
  {
    if items != [] {
      ItemsLengthCons(items);
      WrittenLength(NumText(before, |items[0].key|), items[1..]);
    }
  }

  lemma {:induction false} NonEmptyIsExact(before: string, items: seq<Item>)
    requires before != "" && forall i :: 0 <= i < |items| ==> items[i].key != ""
    ensures Exact(before, items)
    decreases items
  {
    if items != [] {
      NonEmptyIsExact(NumText(before, |items[0].key|), items[1..]);
    }
  }

  /** An empty key after a key of ten bytes is announced as 00 and overruns the reserved bytes by one. */
  lemma {:induction false} EmptyKeyOverruns()
    ensures var items := [Item("0123456789", None), Item("", None)];
            |FragmentText("mget", 3, items)| == FragmentLength("mget", 3, items) + 1
  {
    var a, b := Item("0123456789", None), Item("", None);
    assert Digits(3) == "3" && Digits(10) == "10" && Digits(0) == "0";
    assert [a, b][1..] == [b] && [b][1..] == [];
    assert Written("10", [b]) == ItemText("00", b) + Written("00", []);
    assert Written("3", [a, b]) == ItemText("10", a) + Written("10", [b]);
    ItemsLengthCons([a, b]);
    ItemsLengthCons([b]);
  }

  // ---- what a fragment means ----

  function ItemArgs(item: Item): seq<string> {
    [item.key] + if item.value.Some? then [item.value.value] else []
  }

  /** The arguments of the fragment behind its name. */
  function Flat(items: seq<Item>): seq<string> {
    if items == [] then [] else ItemArgs(items[0]) + Flat(items[1..])
  }

  lemma {:induction false} BulksConcat(xs: seq<string>, ys: seq<string>)
    ensures Bulks(xs + ys) == Bulks(xs) + Bulks(ys)
  {
    hide Bulks, Bulk;
    NoBulks([]);
    if ys == [] {
      assert xs + ys == xs && Bulks(xs) + "" == Bulks(xs);
    } else {
      var n := |ys| - 1;
      BulksConcat(xs, ys[..n]);
      BulksSnoc(xs + ys[..n], ys[n]);
      BulksSnoc(ys[..n], ys[n]);
      assert xs + ys[..n] + [ys[n]] == xs + ys && ys[..n] + [ys[n]] == ys;
      assert Bulks(xs) + Bulks(ys[..n]) + Bulk(ys[n]) == Bulks(xs) + (Bulks(ys[..n]) + Bulk(ys[n]));
    }
  }

  lemma BulksSnoc(xs: seq<string>, x: string)
    ensures Bulks(xs + [x]) == Bulks(xs) + Bulk(x)
  {
    assert (xs + [x])[..|xs|] == xs;
  }

  lemma BulksOne(x: string)
    ensures Bulks([x]) == Bulk(x)
  {
    assert [x][..0] == [];
  }

  lemma ItemIsBulks(item: Item)
    ensures Bulks(ItemArgs(item)) == ItemText(Digits(|item.key|), item)
  {
    hide Digits, Bulks;
    BulksOne(item.key);
    if item.value.Some? {
      BulksOne(item.value.value);
      BulksConcat([item.key], [item.value.value]);
    } else {
      assert [item.key] + [] == [item.key];
    }
  }

  lemma {:induction false} WrittenIsBulks(before: string, items: seq<Item>)
    requires before != "" && Exact(before, items)
    ensures Written(before, items) == Bulks(Flat(items))
    decreases items
  {
    hide Digits, Bulk;
    if items != [] {
      var number := NumText(before, |items[0].key|);
      ItemIsBulks(items[0]);
      ZeroIs();
      WrittenIsBulks(number, items[1..]);
      BulksConcat(ItemArgs(items[0]), Flat(items[1..]));
      assert "0" + before[1..] == "0" || items[0].key != "";
    }
  }

  lemma ZeroIs()
    ensures Digits(0) == "0"
  {
  }

  lemma {:induction false} BulksLength(items: seq<Item>)
    ensures |Bulks(Flat(items))| == ItemsLength(items)
  {
    hide Digits, Bulk, Bulks;
    if items == [] {
      NoBulks([]);
    } else {
      ItemIsBulks(items[0]);
      ItemsLengthCons(items);
      BulksLength(items[1..]);
      BulksConcat(ItemArgs(items[0]), Flat(items[1..]));
    }
  }

  /**
   A fragment is the printed command of its name, keys and values if and only if its empty keys follow
   one-digit numbers.
   */
  lemma {:induction false} FragmentIsFormat(name: string, items: seq<Item>)
    ensures FragmentText(name, 1 + |Flat(items)|, items) == Format([name] + Flat(items))
       <==> Exact(NumText("0", 1 + |Flat(items)|), items)
    ensures |Format([name] + Flat(items))| == FragmentLength(name, 1 + |Flat(items)|, items)
  {
    hide Digits, Bulk, Written, Exact, Bulks, ItemsLength, Flat;
    var narg := 1 + |Flat(items)|;
    var number := NumText("0", narg);
    BulksOne(name);
    BulksConcat([name], Flat(items));
    BulksLength(items);
    WrittenLength(number, items);
    if Exact(number, items) {
      WrittenIsBulks(number, items);
      assert Header(narg) + Bulk(name) + Bulks(Flat(items)) == Header(narg) + (Bulk(name) + Bulks(Flat(items)));
    }
  }

  ghost predicate Plain(items: seq<Item>) { forall i :: 0 <= i < |items| ==> items[i].value.None? }

  ghost predicate Paired(items: seq<Item>) { forall i :: 0 <= i < |items| ==> items[i].value.Some? }

  function KeysIn(items: seq<Item>): (ks: seq<string>)
    ensures |ks| == |items| && forall i :: 0 <= i < |items| ==> ks[i] == items[i].key
  {
    if items == [] then [] else [items[0].key] + KeysIn(items[1..])
  }

  lemma {:induction false} FlatPlain(items: seq<Item>)
    requires Plain(items)
    ensures Flat(items) == KeysIn(items)
  {
    if items != [] { FlatPlain(items[1..]); }
  }

  lemma {:induction false} FlatPaired(items: seq<Item>, before: seq<string>)
    requires Paired(items)
    ensures |Flat(items)| == 2 * |items| && Every(before + Flat(items), |before|, 2) == KeysIn(items)
    decreases items
  {
    var argv := before + Flat(items);
    if items != [] {
      var more := before + ItemArgs(items[0]);
      FlatPaired(items[1..], more);
      assert more + Flat(items[1..]) == argv;
      assert argv[|before|] == items[0].key;
    }
  }

  /** A fragment parses back to a command of the same type with the fragment's keys and values, in their order. */
  lemma {:induction false} FragmentParsesBack(t: CmdType, items: seq<Item>)
    requires items != [] && Exact(NumText("0", 1 + |Flat(items)|), items)
    requires (t in {Mget, Del} && Plain(items)) || (t == Mset && Paired(items))
    ensures var s := FragmentText(NameOf(t), 1 + |Flat(items)|, items);
            && Parse(s).Accepted? && Parse(s).t == t && TextsAt(s, Parse(s).keys) == KeysIn(items)
            && StandAll(s, Parse(s).keys, items)
            && |s| == FragmentLength(NameOf(t), 1 + |Flat(items)|, items)
  {
    hide *;
    var argv := [NameOf(t)] + Flat(items);
    FragmentIsFormat(NameOf(t), items);
    NameFits(t);
    if t == Mset {
      FlatPaired(items, [NameOf(t)]);
    } else {
      FlatPlain(items);
      assert argv[1..] == KeysIn(items);
    }
    LegalFragment(t, argv);
    KeysExtracted(argv);
    CommandStands(NameOf(t), t, items);
  }

  lemma LegalFragment(t: CmdType, argv: seq<string>)
    requires t in {Mget, Del, Mset} && |argv| >= 2 && (t == Mset ==> |argv| % 2 == 1)
    ensures Legal(ArityOf(t), argv)
    ensures KeyArguments(ArityOf(t), argv) == if t == Mset then Every(argv, 1, 2) else argv[1..]
  {
  }

  lemma NameFits(t: CmdType)
    requires t in {Mget, Del, Mset}
    ensures TypeOf(NameOf(t)) == Some(t)
  {
    hide LowerAll, TypeOf;
    var name := NameOf(t);
    assert forall i :: 0 <= i < |name| ==> Lower(name[i]) == name[i];
    assert LowerAll(name) == name;
    SplitNamesRecognised(name, t);
  }

  // ---- the loops ----

  /** A sub-command's struct keypos. */
  datatype FragKey = FragKey(pos: KeyPos, remain: nat)

  /** A sub-command before its bytes are written. */
  datatype Sub = Sub(narg: nat, keys: seq<FragKey>, clen: nat)

  /** Where an item stands in the command buffer. */
  ghost predicate Stands(s: string, k: KeyPos, item: Item) {
    && k.start <= k.end && k.end + |Tail(item)| <= |s|
    && s[k.start..k.end] == item.key && s[k.end..k.end + |Tail(item)|] == Tail(item)
  }

  ghost predicate StandAll(s: string, keys: seq<KeyPos>, items: seq<Item>) {
    |keys| == |items| && forall i :: 0 <= i < |items| ==> Stands(s, keys[i], items[i])
  }

  function RemainOf(item: Item): nat { if item.value.Some? then |Tail(item)| else 0 }

  /** The scan for the value of an MSET key: skip to its length, read it, and count to the end of the value. */
  method RemainLength(s: string, k: KeyPos, ghost item: Item) returns (len: nat)
    requires Stands(s, k, item) && item.value.Some?
    ensures len == |Tail(item)|
  {
    hide Value, Digits, Tail, Stands, Bulk;
    ghost var n := |item.value.value|;
    ghost var a, z := k.end + 3, k.end + 3 + |Digits(n)|;
    TailBytes(s, k, item);
    var p := k.end + 1;
    while !IsDigit(s[p])
      invariant k.end + 1 <= p <= a
      decreases a - p
    {
      p := p + 1;
    }
    assert p == a;
    len := 0;
    assert s[a..a] == "";
    EmptyValue();
    while IsDigit(s[p])
      invariant a <= p <= z && len == Value(s[a..p])
      decreases z - p
    {
      assert s[a..p + 1] == s[a..p] + [s[p]];
      ValueSnoc(s[a..p], s[p]);
      len := len * 10 + DigitValue(s[p]);
      p := p + 1;
    }
    assert p == z;
    len := len + 2 * 2;
    len := len + (p - k.end);
  }

  lemma TailBytes(s: string, k: KeyPos, item: Item)
    requires Stands(s, k, item) && item.value.Some?
    ensures var n := |item.value.value|; var a := k.end + 3; var z := a + |Digits(n)|;
            && |Tail(item)| == 3 + |Digits(n)| + 2 + n + 2 && a < z < |s| && Value(s[a..z]) == n
            && s[k.end + 1] == '\n' && s[k.end + 2] == '$' && s[z] == '\r'
            && forall i :: a <= i < z ==> IsDigit(s[i])
  {
    hide Digits, Bulk, Value;
    var v, t := item.value.value, s[k.end..k.end + |Tail(item)|];
    DigitsSpell(|v|);
    assert t[1] == '\n' && t[2..] == Bulk(v);
    assert s[k.end + 2..k.end + 2 + |Bulk(v)|] == t[2..];
    InPlaceText(s, k.end + 2, v);
    var a, z := k.end + 3, k.end + 3 + |Digits(|v|)|;
    forall i | a <= i < z
      ensures IsDigit(s[i])
    {
      assert s[i] == s[a..z][i - a];
    }
  }

  function LengthOf(k: KeyPos): nat { if k.start <= k.end then k.end - k.start else 0 }

  function KeyBytes(keys: seq<FragKey>): nat {
    if keys == [] then 0
    else
      var k := keys[|keys| - 1];
      KeyBytes(keys[..|keys| - 1]) + LengthOf(k.pos) + |Digits(LengthOf(k.pos))| + k.remain
  }

  /** The sub-command that holds these keys. */
  function SubOf(keys: seq<FragKey>): Sub { Sub(|keys|, keys, KeyBytes(keys)) }

  ghost function FragKeys(keys: seq<KeyPos>, items: seq<Item>): (r: seq<FragKey>)
    requires |keys| == |items|
    ensures |r| == |keys| && forall i :: 0 <= i < |r| ==> r[i] == FragKey(keys[i], RemainOf(items[i]))
  {
    seq(|keys|, i requires 0 <= i < |keys| => FragKey(keys[i], RemainOf(items[i])))
  }

  lemma {:induction false} SelectNothing<T>(xs: seq<T>, slots: seq<int>, k: int)
    requires |xs| == |slots|
    ensures k !in slots <==> Select(xs, slots, k) == []
  {
    if xs != [] {
      var n := |xs| - 1;
      assert slots == slots[..n] + [slots[n]];
      SelectNothing(xs[..n], slots[..n], k);
    }
  }

  /** The sub-commands gathered so far. */
  ghost predicate Gathered(subs: map<int, Sub>, keys: seq<FragKey>, slots: seq<int>) {
    && |keys| == |slots|
    && forall k :: k in slots || k in subs ==> k in slots && k in subs && subs[k] == SubOf(Select(keys, slots, k))
  }

  lemma GatherOne(subs: map<int, Sub>, keys: seq<FragKey>, slots: seq<int>, key: FragKey, slot: int)
    requires Gathered(subs, keys, slots)
    ensures var sub := if slot in subs then subs[slot] else SubOf([]);
            var sub' := Sub(sub.narg + 1, sub.keys + [key],
                            sub.clen + LengthOf(key.pos) + |Digits(LengthOf(key.pos))| + key.remain);
            Gathered(subs[slot := sub'], keys + [key], slots + [slot])
  {
    hide Digits, Select;
    var sub := if slot in subs then subs[slot] else SubOf([]);
    SelectNothing(keys, slots, slot);
    assert sub == SubOf(Select(keys, slots, slot));
    assert (sub.keys + [key])[..|sub.keys|] == sub.keys;
    var sub' := SubOf(sub.keys + [key]);
    forall k | k in slots + [slot] || k in subs[slot := sub']
      ensures k in slots + [slot] && k in subs[slot := sub']
           && subs[slot := sub'][k] == SubOf(Select(keys + [key], slots + [slot], k))
    {
      SelectSnoc(keys, slots, k, key, slot);
      if k != slot { assert Select(keys, slots, k) + [] == Select(keys, slots, k); }
    }
  }

  /** The slot of every key. */
  ghost function SlotsOf(slotOf: string -> int, items: seq<Item>): (r: seq<int>)
    ensures |r| == |items| && forall i :: 0 <= i < |items| ==> r[i] == slotOf(items[i].key)
  {
    seq(|items|, i requires 0 <= i < |items| => slotOf(items[i].key))
  }

  /**
   The first loop of command_pre_fragment: each key goes to the sub-command of its slot; a slot out of
   range is an error.
   */
  method SplitKeys(s: string, t: CmdType, keys: seq<KeyPos>, slotOf: string -> int, ghost items: seq<Item>)
    returns (ok: bool, subs: map<int, Sub>, fragSeq: seq<int>)
    requires StandAll(s, keys, items) && (if t == Mset then Paired(items) else Plain(items))
    ensures ok <==> forall i :: 0 <= i < |items| ==> 0 <= slotOf(items[i].key) < SLOTS
    ensures ok ==> fragSeq == SlotsOf(slotOf, items)
    ensures ok ==> Gathered(subs, FragKeys(keys, items), fragSeq)
  {
    hide Digits, Select, Gathered, Tail, Stands, SlotsOf;
    ghost var all := FragKeys(keys, items);
    subs, fragSeq := map[], [];
    NoneGathered();
    for i := 0 to |keys|
      invariant |fragSeq| == i
      invariant forall j :: 0 <= j < i ==> fragSeq[j] == slotOf(items[j].key) && 0 <= slotOf(items[j].key) < SLOTS
      invariant Gathered(subs, all[..i], fragSeq)
    {
      var k := keys[i];
      KeyStands(s, k, items[i]);
      var slot := slotOf(s[k.start..k.end]);
      if slot < 0 || slot >= SLOTS { return false, subs, fragSeq; }
      subs := JoinSub(s, t, k, slot, subs, items[i], all[..i], fragSeq);
      assert all[..i + 1] == all[..i] + [FragKey(k, RemainOf(items[i]))];
      fragSeq := fragSeq + [slot];
    }
    assert all[..|keys|] == all;
    return true, subs, fragSeq;
  }

  /** One key joins the sub-command of its slot. */
  method JoinSub(s: string, t: CmdType, k: KeyPos, slot: int, subs: map<int, Sub>,
                 ghost item: Item, ghost before: seq<FragKey>, ghost slots: seq<int>)
    returns (subs': map<int, Sub>)
    requires Stands(s, k, item) && (t == Mset <==> item.value.Some?) && Gathered(subs, before, slots)
    ensures Gathered(subs', before + [FragKey(k, RemainOf(item))], slots + [slot])
  {
    hide Digits, Select, Gathered, Tail, Stands;
    KeyStands(s, k, item);
    var sub := if slot in subs then subs[slot] else SubOf([]);
    var digits := UintLen(k.end - k.start);
    var remain := 0;
    if t == Mset { remain := RemainLength(s, k, item); }
    var key := FragKey(k, remain);
    GatherOne(subs, before, slots, key, slot);
    return subs[slot := Sub(sub.narg + 1, sub.keys + [key], sub.clen + (k.end - k.start) + digits + remain)];
  }

  lemma KeyStands(s: string, k: KeyPos, item: Item)
    requires Stands(s, k, item)
    ensures k.start <= k.end <= |s| && s[k.start..k.end] == item.key
  {
  }

  lemma NoneGathered()
    ensures Gathered(map[], [], [])
  {
  }

  // ---- printing a sub-command ----

  /** The bytes of a sub-command fit what is reserved for them. */
  predicate Fits(items: seq<Item>) { Exact(NumText("0", 1 + |Flat(items)|), items) }

  /** Argument counts and key lengths have at most ten digits, as 32-bit ones do. */
  predicate ShortLengths(items: seq<Item>) {
    |Digits(1 + 2 * |items|)| <= 10 && forall i :: 0 <= i < |items| ==> |Digits(|items[i].key|)| <= 10
  }

  /** A C string in a buffer. */
  ghost predicate HoldsText(buf: array<char>, text: string)
    reads buf
  {
    |text| < buf.Length && buf[..|text|] == text && buf[|text|] == '\0' && '\0' !in text
  }

  lemma NumTextHasNoNul(before: string, n: nat)
    requires before != "" && '\0' !in before
    ensures '\0' !in NumText(before, n)
  {
    hide Digits;
    DigitsSpell(n);
  }

  /** What hi_itoa leaves in a buffer that held another number. */
  lemma TextLeft(was: string, now: string, before: string, n: nat)
    requires |was| == |now| && before != "" && |Digits(n)| < |now| && now[..|Digits(n)|] == Digits(n)
    requires n == 0 ==> |before| < |was| && was[..|before|] == before && was[|before|] == '\0' && now[1..] == was[1..]
    requires n != 0 ==> now[|Digits(n)|] == '\0'
    ensures var text := NumText(before, n); |text| < |now| && now[..|text|] == text && now[|text|] == '\0'
  {
    hide Digits;
    ZeroIs();
    if n == 0 {
      assert now[0] == '0' && now[|before|] == now[1..][|before| - 1];
      forall i | 1 <= i < |before|
        ensures now[i] == before[i]
      {
        assert now[i] == now[1..][i - 1] && was[i] == was[..|before|][i];
      }
    }
  }

  /** hi_itoa and strlen. */
  method PrintNumber(buf: array<char>, n: nat, ghost before: string) returns (len: nat)
    requires before != "" && '\0' !in before && (n == 0 ==> HoldsText(buf, before)) && |Digits(n)| + 1 < buf.Length
    modifies buf
    ensures HoldsText(buf, NumText(before, n)) && len == |NumText(before, n)|
  {
    hide Digits, NumText;
    ghost var was, text := buf[..], NumText(before, n);
    Itoa(buf, n);
    TextLeft(was, buf[..], before, n);
    NumTextHasNoNul(before, n);
    len := 0;
    while buf[len] != '\0'
      invariant len <= |text| && forall i :: 0 <= i < |text| ==> buf[i] == text[i] != '\0'
      decreases |text| - len
    {
      len := len + 1;
    }
  }

  lemma {:induction false} ClenIs(keys: seq<KeyPos>, items: seq<Item>)
    requires |keys| == |items| && (Plain(items) || Paired(items))
    requires forall i :: 0 <= i < |items| ==> LengthOf(keys[i]) == |items[i].key|
    ensures KeyBytes(FragKeys(keys, items)) + (if Plain(items) then 5 else 3) * |items| == ItemsLength(items)
    decreases |items|
  {
    hide Digits;
    if items != [] {
      var n := |items| - 1;
      ClenIs(keys[..n], items[..n]);
      assert FragKeys(keys, items)[..n] == FragKeys(keys[..n], items[..n]);
      assert Paired(items) && n == 0 ==> KeyBytes(FragKeys(keys[..n], items[..n])) == 0;
    }
  }

  /** The key of an item, with the bytes behind it. */
  method PutKey(cmd: array<char>, idx: nat, s: string, t: CmdType, k: FragKey, ghost item: Item) returns (idx': nat)
    requires Stands(s, k.pos, item) && k.remain == RemainOf(item) && (t == Mset <==> item.value.Some?)
    requires idx + |item.key| + |Tail(item)| <= cmd.Length
    modifies cmd
    ensures idx' == idx + |item.key| + |Tail(item)| && cmd[..idx'] == old(cmd[..idx]) + (item.key + Tail(item))
  {
    hide Bulk;
    var start, end := k.pos.start, k.pos.end;
    if t == Mset {
      assert s[start..end + k.remain] == s[start..end] + s[end..end + k.remain];
      idx' := Put(cmd, idx, s[start..end + k.remain]);
    } else {
      idx' := Put(cmd, idx, s[start..end]);
      idx' := Put(cmd, idx', "\r\n");
    }
  }

  /** One key of a fragment: its length is printed, and the key copied, if the buffer has room for them. */
  method PutItem(cmd: array<char>, idx: nat, s: string, t: CmdType, k: FragKey, num: array<char>,
                 ghost before: string, ghost item: Item)
    returns (fits: bool, idx': nat)
    requires Stands(s, k.pos, item) && k.remain == RemainOf(item) && (t == Mset <==> item.value.Some?)
    requires num != cmd && before != "" && HoldsText(num, before) && |Digits(|item.key|)| + 1 < num.Length
    modifies cmd, num
    ensures HoldsText(num, NumText(before, |item.key|))
    ensures fits <==> idx + |ItemText(NumText(before, |item.key|), item)| <= cmd.Length
    ensures fits ==> idx' == idx + |ItemText(NumText(before, |item.key|), item)|
    ensures fits ==> cmd[..idx'] == old(cmd[..Room(cmd, idx)]) + ItemText(NumText(before, |item.key|), item)
  {
    hide Digits, NumText, Tail, Bulk, Stands, HoldsText, ItemText;
    ghost var number, done := NumText(before, |item.key|), cmd[..Room(cmd, idx)];
    ItemTextLength(number, item);
    KeyStands(s, k.pos, item);
    var keyLen := k.pos.end - k.pos.start;
    BeforeHasNoNul(num, before);
    var len := PrintNumber(num, keyLen, before);
    HeldText(num, number);
    var tail := if t == Mset then k.remain else 2;
    if cmd.Length < idx + 1 + len + 2 + keyLen + tail { return false, idx; }
    fits := true;
    idx' := Put(cmd, idx, "$" + num[..len] + "\r\n");
    idx' := PutKey(cmd, idx', s, t, k, item);
    ItemTextParts(done, number, item);
  }

  lemma BeforeHasNoNul(buf: array<char>, text: string)
    requires HoldsText(buf, text)
    ensures '\0' !in text
  {
  }

  /** The room an item takes. */
  lemma ItemTextLength(number: string, item: Item)
    ensures |ItemText(number, item)| == 1 + |number| + 2 + |item.key| + |Tail(item)|
    ensures |Tail(item)| == if item.value.Some? then RemainOf(item) else 2
  {
  }

  lemma ItemTextParts(done: string, number: string, item: Item)
    ensures done + ("$" + number + "\r\n") + (item.key + Tail(item)) == done + ItemText(number, item)
  {
    hide Tail;
  }

  ghost function Room(cmd: array<char>, idx: nat): (r: nat)
    ensures r <= cmd.Length && (idx <= cmd.Length ==> r == idx)
  {
    if idx <= cmd.Length then idx else cmd.Length
  }

  /** The loop over the keys of a sub-command; it stops where the next key would leave the buffer. */
  method PutItems(cmd: array<char>, idx0: nat, s: string, t: CmdType, fragKeys: seq<FragKey>, num: array<char>,
                  ghost before: string, ghost keys: seq<KeyPos>, ghost items: seq<Item>)
    returns (fits: bool, idx: nat)
    requires StandAll(s, keys, items) && fragKeys == FragKeys(keys, items)
    requires if t == Mset then Paired(items) else Plain(items)
    requires num != cmd && before != "" && HoldsText(num, before) && num.Length == 12
    requires idx0 <= cmd.Length && forall i :: 0 <= i < |items| ==> |Digits(|items[i].key|)| <= 10
    modifies cmd, num
    ensures fits <==> idx0 + |Written(before, items)| <= cmd.Length
    ensures fits ==> idx == idx0 + |Written(before, items)| && cmd[..idx] == old(cmd[..idx0]) + Written(before, items)
  {
    hide Digits, Written, NumText, Stands, Tail, ItemText;
    ghost var number, all := before, old(cmd[..idx0]) + Written(before, items);
    idx := idx0;
    assert items[0..] == items;
    for j := 0 to |fragKeys|
      invariant number != "" && HoldsText(num, number)
      invariant idx <= cmd.Length && idx + |Written(number, items[j..])| == |all|
      invariant cmd[..idx] + Written(number, items[j..]) == all
    {
      WrittenStep(number, items, j);
      assert Stands(s, keys[j], items[j]);
      ghost var done, next := cmd[..idx], NumText(number, |items[j].key|);
      fits, idx := PutItem(cmd, idx, s, t, fragKeys[j], num, number, items[j]);
      if !fits { return; }
      assert done + (ItemText(next, items[j]) + Written(next, items[j + 1..]))
          == cmd[..idx] + Written(next, items[j + 1..]);
      number := next;
    }
    NoneWritten(number, items);
    assert cmd[..idx] + "" == cmd[..idx];
    fits := true;
  }

  /** One sub-command written into its buffer, which it fills exactly or, after an empty key, leaves. */
  method WriteFragment(s: string, t: CmdType, sub: Sub, ghost keys: seq<KeyPos>, ghost items: seq<Item>)
    returns (fits: bool, cmd: array<char>)
    requires t in {Mget, Del, Mset} && items != [] && StandAll(s, keys, items) && sub == SubOf(FragKeys(keys, items))
    requires (if t == Mset then Paired(items) else Plain(items)) && ShortLengths(items)
    ensures fresh(cmd) && cmd.Length == FragmentLength(NameOf(t), 1 + |Flat(items)|, items)
    ensures fits <==> Fits(items)
    ensures fits ==> cmd[..] == FragmentText(NameOf(t), 1 + |Flat(items)|, items)
  {
    hide *;
    FragmentPlan(s, t, keys, items, sub);
    ghost var total := 1 + |Flat(items)|;
    ghost var number := NumText("0", total);
    ghost var opening := "*" + number + OpeningText(t);
    var num := new char[12];
    var idx;
    cmd, idx := OpenFragment(t, sub, num, total);
    fits, idx := PutItems(cmd, idx, s, t, sub.keys, num, number, keys, items);
    if fits {
      assert cmd[..idx] == opening + Written(number, items);
      assert cmd[..idx] == cmd[..];
    }
  }

  /** The buffer of a sub-command, with its header. */
  method OpenFragment(t: CmdType, sub: Sub, num: array<char>, ghost total: nat) returns (cmd: array<char>, idx: nat)
    requires t in {Mget, Del, Mset} && num.Length == 12 && total == (if t == Mset then 2 else 1) * sub.narg + 1
    requires |Digits(total)| <= 10
    modifies num
    ensures HoldsText(num, NumText("0", total)) && fresh(cmd) && cmd != num
    ensures cmd.Length
         == sub.clen + (if t == Mset then 3 else 5) * sub.narg + |NumText("0", total)| + if t == Del then 12 else 13
    ensures idx == |"*" + NumText("0", total) + OpeningText(t)| <= cmd.Length
    ensures cmd[..idx] == "*" + NumText("0", total) + OpeningText(t)
  {
    hide Digits, HoldsText, OpeningText;
    PlanText(t, total, []);
    var clen := sub.clen + (if t == Mset then 3 else 5) * sub.narg;
    var len := PrintNumber(num, (if t == Mset then 2 else 1) * sub.narg + 1, "0");
    HeldText(num, NumText("0", total));
    clen := clen + len + if t == Del then 12 else 13;
    cmd := new char[clen];
    assert cmd[..0] == [];
    idx := Put(cmd, 0, "*" + num[..len] + OpeningText(t));
  }

  lemma HeldText(buf: array<char>, text: string)
    requires HoldsText(buf, text)
    ensures |text| < buf.Length && buf[..|text|] == text
  {
  }

  /** What is computed before a sub-command is written adds up. */
  lemma FragmentPlan(s: string, t: CmdType, keys: seq<KeyPos>, items: seq<Item>, sub: Sub)
    requires t in {Mget, Del, Mset} && items != [] && StandAll(s, keys, items) && sub == SubOf(FragKeys(keys, items))
    requires (if t == Mset then Paired(items) else Plain(items)) && ShortLengths(items)
    ensures |Digits(1 + |Flat(items)|)| <= 10 && forall i :: 0 <= i < |items| ==> |Digits(|items[i].key|)| <= 10
    ensures var total := 1 + |Flat(items)|; var number := NumText("0", total);
            && sub.keys == FragKeys(keys, items) && total == (if t == Mset then 2 else 1) * sub.narg + 1
            && number == Digits(total) && '\0' !in "0" && "0" != ""
            && FragmentText(NameOf(t), total, items) == "*" + number + OpeningText(t) + Written(number, items)
            && |Written(number, items)| >= ItemsLength(items)
            && (|Written(number, items)| == ItemsLength(items) <==> Fits(items))
            && |"*" + number + OpeningText(t)| + ItemsLength(items) == FragmentLength(NameOf(t), total, items)
            && FragmentLength(NameOf(t), total, items)
               == sub.clen + (if t == Mset then 3 else 5) * sub.narg + |number| + if t == Del then 12 else 13
  {
    hide Written, Flat, Exact, KeyBytes, ItemsLength, NameOf, Bulk, Digits, OpeningText, FragKeys, FragmentText,
         FragmentLength, Opening, NumText, Tail, StandAll, Plain, Paired, SubOf, ShortLengths;
    var total := 1 + |Flat(items)|;
    PlanNarg(s, t, keys, items, sub);
    SubLength(s, t, keys, items, sub);
    PlanText(t, total, items);
    WrittenLength(NumText("0", total), items);
  }

  /** The number of arguments, and the lengths that are printed. */
  lemma PlanNarg(s: string, t: CmdType, keys: seq<KeyPos>, items: seq<Item>, sub: Sub)
    requires items != [] && StandAll(s, keys, items) && sub == SubOf(FragKeys(keys, items))
    requires (if t == Mset then Paired(items) else Plain(items)) && ShortLengths(items)
    ensures sub.keys == FragKeys(keys, items) && 1 + |Flat(items)| == (if t == Mset then 2 else 1) * sub.narg + 1
    ensures |Digits(1 + |Flat(items)|)| <= 10 && forall i :: 0 <= i < |items| ==> |Digits(|items[i].key|)| <= 10
  {
    hide Digits, Flat, KeyBytes, Stands;
    NargIs(items);
    assert items[0].value.Some? || items[0].value.None?;
    FewerDigits(1 + |Flat(items)|, 1 + 2 * |items|);
  }

  /** The bytes of a fragment and the length of its opening. */
  lemma PlanText(t: CmdType, total: nat, items: seq<Item>)
    requires t in {Mget, Del, Mset} && total > 0
    ensures var number := NumText("0", total);
            && number == Digits(total)
            && FragmentText(NameOf(t), total, items) == "*" + number + OpeningText(t) + Written(number, items)
            && |"*" + number + OpeningText(t)| == |number| + (if t == Del then 12 else 13)
            && FragmentLength(NameOf(t), total, items) == |"*" + number + OpeningText(t)| + ItemsLength(items)
  {
    hide Written, ItemsLength, NameOf, Bulk, Digits, OpeningText, Opening;
    OpeningIs(t, total);
  }

  /** The bytes of the header behind the argument count. */
  function OpeningText(t: CmdType): string {
    if t == Mget then "\r\n$4\r\nmget\r\n" else if t == Del then "\r\n$3\r\ndel\r\n" else "\r\n$4\r\nmset\r\n"
  }

  lemma OpeningIs(t: CmdType, narg: nat)
    requires t in {Mget, Del, Mset}
    ensures Opening(NameOf(t), narg) == "*" + Digits(narg) + OpeningText(t)
    ensures |Opening(NameOf(t), narg)| == |Digits(narg)| + if t == Del then 12 else 13
  {
    hide Digits, Bulk;
    BulkOfName(t);
    assert "*" + Digits(narg) + "\r\n" + Bulk(NameOf(t)) == "*" + Digits(narg) + ("\r\n" + Bulk(NameOf(t)));
  }

  lemma BulkOfName(t: CmdType)
    requires t in {Mget, Del, Mset}
    ensures "\r\n" + Bulk(NameOf(t)) == OpeningText(t) && |OpeningText(t)| == if t == Del then 11 else 12
  {
    assert Digits(4) == "4" && Digits(3) == "3";
  }

  lemma NargIs(items: seq<Item>)
    requires Plain(items) || Paired(items)
    ensures |Flat(items)| == if items != [] && Paired(items) then 2 * |items| else |items|
  {
    if Paired(items) { FlatPaired(items, []); } else { FlatPlain(items); }
  }

  lemma SubLength(s: string, t: CmdType, keys: seq<KeyPos>, items: seq<Item>, sub: Sub)
    requires items != [] && StandAll(s, keys, items) && sub == SubOf(FragKeys(keys, items))
    requires if t == Mset then Paired(items) else Plain(items)
    ensures sub.clen + (if t == Mset then 3 else 5) * sub.narg == ItemsLength(items)
    ensures !(Plain(items) && Paired(items))
  {
    hide KeyBytes, ItemsLength, Tail;
    ClenIs(keys, items);
    assert items[0].value.Some? || items[0].value.None?;
  }

  lemma WrittenStep(number: string, items: seq<Item>, j: nat)
    requires number != "" && j < |items|
    ensures var next := NumText(number, |items[j].key|);
            Written(number, items[j..]) == ItemText(next, items[j]) + Written(next, items[j + 1..])
  {
    assert items[j..][1..] == items[j + 1..];
  }

  lemma NoneWritten(number: string, items: seq<Item>)
    requires number != ""
    ensures Written(number, items[|items|..]) == ""
  {
  }

  // ---- all sub-commands ----

  /** A sub-command as it is sent. */
  datatype Piece = Piece(slot: int, bytes: string)

  function PieceFor(t: CmdType, items: seq<Item>, slots: seq<int>, k: int): Piece
    requires |items| == |slots|
  {
    var mine := Select(items, slots, k);
    Piece(k, FragmentText(NameOf(t), 1 + |Flat(mine)|, mine))
  }

  /** The sub-commands of the slots below n, in slot order. */
  function Pieces(t: CmdType, items: seq<Item>, slots: seq<int>, n: nat): seq<Piece>
    requires |items| == |slots|
  {
    if n == 0 then []
    else Pieces(t, items, slots, n - 1) + if n - 1 in slots then [PieceFor(t, items, slots, n - 1)] else []
  }

  lemma SelectStands(s: string, keys: seq<KeyPos>, items: seq<Item>, slots: seq<int>, k: int)
    requires StandAll(s, keys, items) && |slots| == |items|
    ensures StandAll(s, Select(keys, slots, k), Select(items, slots, k))
    ensures FragKeys(Select(keys, slots, k), Select(items, slots, k)) == Select(FragKeys(keys, items), slots, k)
    ensures Plain(items) ==> Plain(Select(items, slots, k))
    ensures Paired(items) ==> Paired(Select(items, slots, k))
  {
    hide Stands, Select, FragKeys, RemainOf;
    SelectLength(keys, slots, k);
    SelectLength(items, slots, k);
    SelectLength(FragKeys(keys, items), slots, k);
    var ks, mine, fks := Select(keys, slots, k), Select(items, slots, k), Select(FragKeys(keys, items), slots, k);
    forall j | 0 <= j < |mine|
      ensures Stands(s, ks[j], mine[j]) && fks[j] == FragKey(ks[j], RemainOf(mine[j]))
      ensures Plain(items) ==> mine[j].value.None?
      ensures Paired(items) ==> mine[j].value.Some?
    {
      var i := SelectFrom(items, slots, k, j);
      SelectAt(keys, slots, i);
      SelectAt(FragKeys(keys, items), slots, i);
    }
  }

  /** What becomes of a command: a slot out of range, a sub-command that leaves its buffer, or its pieces. */
  datatype Split = BadSlot | Overrun | Split(commands: seq<Piece>, fragSeq: seq<int>)

  /** command_pre_fragment: one printed sub-command per slot, in slot order; none at all if one slot has every key. */
  method PreFragment(s: string, t: CmdType, keys: seq<KeyPos>, slotOf: string -> int, ghost items: seq<Item>)
    returns (r: Split)
    requires t in {Mget, Del, Mset} && StandAll(s, keys, items) && (if t == Mset then Paired(items) else Plain(items))
    requires ShortLengths(items)
    ensures r.BadSlot? <==> exists i :: 0 <= i < |items| && !(0 <= slotOf(items[i].key) < SLOTS)
    ensures !r.BadSlot? ==> (r.Overrun? <==> !AllFit(items, SlotsOf(slotOf, items), SLOTS))
    ensures r.Split? ==> r.fragSeq == SlotsOf(slotOf, items)
    ensures r.Split? ==>
              r.commands == var ps := Pieces(t, items, r.fragSeq, SLOTS); if |ps| == 1 then [] else ps
  {
    hide Fits, Select, Stands, Paired, Plain, FragmentText, Flat, NameOf, Gathered, SlotsOf, PieceFor, ShortLengths,
         AllFit;
    var commands: seq<Piece> := [];
    var ok, subs, fragSeq := SplitKeys(s, t, keys, slotOf, items);
    if !ok { return BadSlot; }
    NoneFits(items, fragSeq);
    for i := 0 to SLOTS
      invariant commands == Pieces(t, items, fragSeq, i) && AllFit(items, fragSeq, i)
    {
      GatheredSub(subs, keys, items, fragSeq, i);
      FitNext(items, fragSeq, i);
      if i in subs {
        ghost var mine := Select(items, fragSeq, i);
        SelectStands(s, keys, items, fragSeq, i);
        SelectShort(items, fragSeq, i);
        var fits, cmd := WriteFragment(s, t, subs[i], Select(keys, fragSeq, i), mine);
        if !fits { return Overrun; }
        PieceIs(t, items, fragSeq, i);
        commands := commands + [Piece(i, cmd[..])];
      }
    }
    if |commands| == 1 { commands := []; }
    return Split(commands, fragSeq);
  }

  /** The sub-commands of the slots below n all fit. */
  predicate AllFit(items: seq<Item>, slots: seq<int>, n: nat)
    requires |items| == |slots|
  {
    forall k :: 0 <= k < n && k in slots ==> Fits(Select(items, slots, k))
  }

  lemma NoneFits(items: seq<Item>, slots: seq<int>)
    requires |items| == |slots|
    ensures AllFit(items, slots, 0)
  {
  }

  lemma FitNext(items: seq<Item>, slots: seq<int>, n: nat)
    requires |items| == |slots| && n < SLOTS
    ensures AllFit(items, slots, n + 1) <==> AllFit(items, slots, n) && (n in slots ==> Fits(Select(items, slots, n)))
    ensures AllFit(items, slots, SLOTS) ==> AllFit(items, slots, n + 1)
  {
    hide Fits, Select;
  }

  lemma SelectShort(items: seq<Item>, slots: seq<int>, k: int)
    requires |items| == |slots| && ShortLengths(items)
    ensures ShortLengths(Select(items, slots, k))
  {
    hide Digits;
    var mine := Select(items, slots, k);
    SelectLength(items, slots, k);
    RankBound(slots, |slots|, k);
    FewerDigits(1 + 2 * |mine|, 1 + 2 * |items|);
    forall j | 0 <= j < |mine|
      ensures |Digits(|mine[j].key|)| <= 10
    {
      var i := SelectFrom(items, slots, k, j);
    }
  }

  lemma PieceIs(t: CmdType, items: seq<Item>, slots: seq<int>, k: int)
    requires |items| == |slots|
    ensures var mine := Select(items, slots, k);
            PieceFor(t, items, slots, k) == Piece(k, FragmentText(NameOf(t), 1 + |Flat(mine)|, mine))
  {
  }

  lemma GatheredSub(subs: map<int, Sub>, keys: seq<KeyPos>, items: seq<Item>, slots: seq<int>, k: int)
    requires |keys| == |items| && Gathered(subs, FragKeys(keys, items), slots)
    ensures k in subs <==> k in slots
    ensures k in subs ==> subs[k] == SubOf(Select(FragKeys(keys, items), slots, k)) && Select(items, slots, k) != []
  {
    hide Select;
    SelectNothing(items, slots, k);
  }

  // ---- the commands a caller prints ----

  /** Non-empty keys always fit. */
  lemma {:induction false} NonEmptyKeysFit(items: seq<Item>, slots: seq<int>, n: nat)
    requires |slots| == |items| && forall i :: 0 <= i < |items| ==> items[i].key != ""
    ensures AllFit(items, slots, n)
  {
    hide Digits, Flat, Exact;
    forall k | 0 <= k < n && k in slots
      ensures Fits(Select(items, slots, k))
    {
      var mine := Select(items, slots, k);
      forall j | 0 <= j < |mine|
        ensures mine[j].key != ""
      {
        var i := SelectFrom(items, slots, k, j);
      }
      NonEmptyIsExact(NumText("0", 1 + |Flat(mine)|), mine);
    }
  }

  lemma {:induction false} RankBound(slots: seq<int>, i: nat, k: int)
    requires i <= |slots|
    ensures Rank(slots, i, k) <= i
  {
    if i > 0 { RankBound(slots, i - 1, k); }
  }

  lemma TwoSlices(s: string, p: nat, b: string)
    requires p + 2 + |b| <= |s| && s[p..p + 2] == "\r\n" && s[p + 2..p + 2 + |b|] == b
    ensures s[p..p + 2 + |b|] == "\r\n" + b
  {
    assert s[p..p + 2 + |b|] == s[p..p + 2] + s[p + 2..p + 2 + |b|];
  }

  /** Behind an argument come a line end and the next argument. */
  lemma PlaceTail(argv: seq<string>, i: nat, item: Item)
    requires i < |argv| && item.key == argv[i]
    requires item.value.Some? ==> i + 1 < |argv| && item.value.value == argv[i + 1]
    ensures Stands(Format(argv), Place(argv, i), item)
  {
    hide Digits, Format, Bulk, Offset;
    var s, k := Format(argv), Place(argv, i);
    PlaceHolds(argv, i);
    PrintedAt(argv, i);
    InPlaceText(s, Offset(argv, i), argv[i]);
    assert s[k.end..k.end + 2] == "\r\n";
    if item.value.Some? {
      PrintedAt(argv, i + 1);
      TwoSlices(s, k.end, Bulk(argv[i + 1]));
    } else {
      assert "\r\n" + "" == "\r\n";
    }
  }

  /** Item i of the command is its argument 1 + step * i, with the one after it as value. */
  lemma {:induction false} FlatAt(items: seq<Item>, i: nat)
    requires i < |items| && (Plain(items) || Paired(items))
    ensures var at := if Paired(items) then 2 * i else i;
            && at < |Flat(items)| && Flat(items)[at] == items[i].key
            && (items[i].value.Some? ==> at + 1 < |Flat(items)| && Flat(items)[at + 1] == items[i].value.value)
    decreases i
  {
    if i > 0 {
      assert Paired(items[1..]) ==> items[1].value.Some? && items[0].value.Some? && Paired(items) by {
        assert items[1] == items[1..][0];
      }
      FlatAt(items[1..], i - 1);
    }
  }

  lemma {:induction false} PlacesAt(argv: seq<string>, i: nat, step: nat, j: nat)
    requires 1 <= step <= 2 && j < |PlacesFrom(argv, i, step)|
    ensures i + step * j < |argv| && PlacesFrom(argv, i, step)[j] == Place(argv, i + step * j)
    decreases j
  {
    hide Place;
    if j > 0 {
      PlacesAt(argv, i + step, step, j - 1);
      assert (if step == 1 then i + step + j - 1 == i + j else i + step + 2 * (j - 1) == i + 2 * j);
    }
  }

  lemma {:induction false} PlacesCount(argv: seq<string>, i: nat, step: nat)
    requires step > 0
    ensures |PlacesFrom(argv, i, step)| == |Every(argv, i, step)|
    decreases |argv| - i
  {
    hide Place;
    if i < |argv| { PlacesCount(argv, i + step, step); }
  }

  /** The keys of a printed command, every one or every other argument, stand where the splitter needs them. */
  lemma {:induction false} PlacesStand(name: string, items: seq<Item>, step: nat)
    requires items != [] && if step == 2 then Paired(items) else step == 1 && Plain(items)
    requires |PlacesFrom([name] + Flat(items), 1, step)| == |items|
    ensures StandAll(Format([name] + Flat(items)), PlacesFrom([name] + Flat(items), 1, step), items)
  {
    hide Format, Place, Flat, PlacesFrom, Stands;
    var argv := [name] + Flat(items);
    var keys := PlacesFrom(argv, 1, step);
    assert items[0].value.Some? || items[0].value.None?;
    NargIs(items);
    forall i | 0 <= i < |items|
      ensures Stands(Format(argv), keys[i], items[i])
    {
      PlacesAt(argv, 1, step, i);
      FlatAt(items, i);
      PlaceTail(argv, 1 + step * i, items[i]);
    }
  }

  lemma {:induction false} PairsStand(name: string, items: seq<Item>)
    requires items != [] && TypeOf(name) == Some(Mset) && Paired(items)
    ensures var s := Format([name] + Flat(items));
            Parse(s).Accepted? && Parse(s).t == Mset && StandAll(s, Parse(s).keys, items)
  {
    hide Parse, Format, Every, TypeOf, Place, Flat, PlacesFrom, StandAll;
    var argv := [name] + Flat(items);
    ParseFormatted(argv);
    NargIs(items);
    PlacesCount(argv, 1, 2);
    FlatPaired(items, [name]);
    PlacesStand(name, items, 2);
  }

  lemma {:induction false} TailStands(name: string, t: CmdType, items: seq<Item>)
    requires items != [] && TypeOf(name) == Some(t) && t in {Mget, Del} && Plain(items)
    ensures var s := Format([name] + Flat(items));
            Parse(s).Accepted? && Parse(s).t == t && StandAll(s, Parse(s).keys, items)
  {
    hide Parse, Format, Every, TypeOf, Place, Flat, PlacesFrom, StandAll;
    var argv := [name] + Flat(items);
    ParseFormatted(argv);
    assert items[0].value.None?;
    NargIs(items);
    PlacesCount(argv, 1, 1);
    FlatPlain(items);
    EveryOne(argv, 1);
    PlacesStand(name, items, 1);
  }

  /** In a printed MGET, DEL or MSET the keys found by the automaton stand where the splitter needs them. */
  lemma {:induction false} CommandStands(name: string, t: CmdType, items: seq<Item>)
    requires items != [] && TypeOf(name) == Some(t)
    requires (t in {Mget, Del} && Plain(items)) || (t == Mset && Paired(items))
    ensures var s := Format([name] + Flat(items));
            Parse(s).Accepted? && Parse(s).t == t && StandAll(s, Parse(s).keys, items)
  {
    hide *;
    if t == Mset { PairsStand(name, items); } else { TailStands(name, t, items); }
  }
}
