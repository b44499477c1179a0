/**
 The hash table of harvester/producer-cli/dict.c as it lies in memory: chains of entries linked by their
 next fields, relinked and unlinked in place.  What the chains hold is a table of module Dict.
 That no entry is in two chains follows from the keys, which no entry ever changes.
 */
module HashTable {
  import opened Optional
  import opened Dict

  /** A dictEntry. */
  class Node {
    const key: string
    var value: int
    var next: Node?

    constructor (key: string, value: int, next: Node?)
      ensures this.key == key && this.value == value && this.next == next
    {
      this.key, this.value, this.next := key, value, next;
    }
  }

  // ---- chains in memory ----

  /** From one pointer to another through these nodes, which hold these entries. */
  ghost predicate Path(from: Node?, ns: seq<Node>, es: seq<Entry>, to: Node?)
    reads ns
  {
    && |ns| == |es|
    && if ns == [] then from == to
       else from == ns[0] && es[0] == Entry(ns[0].key, ns[0].value) && Path(ns[0].next, ns[1..], es[1..], to)
  }

  ghost function Start(ns: seq<Node>, i: nat, to: Node?): Node? { if i < |ns| then ns[i] else to }

  /** A path can be cut at any node. */
  lemma {:induction false} PathAt(from: Node?, ns: seq<Node>, es: seq<Entry>, to: Node?, i: nat)
    requires Path(from, ns, es, to) && i <= |ns|
    ensures Path(from, ns[..i], es[..i], Start(ns, i, to)) && Path(Start(ns, i, to), ns[i..], es[i..], to)
    decreases i
  {
    if i == 0 {
      assert ns[0..] == ns && es[0..] == es;
    } else {
      PathAt(ns[0].next, ns[1..], es[1..], to, i - 1);
      assert ns[..i][1..] == ns[1..][..i - 1] && es[..i][1..] == es[1..][..i - 1];
      assert ns[1..][i - 1..] == ns[i..] && es[1..][i - 1..] == es[i..];
    }
  }

  lemma {:induction false} PathJoin(from: Node?, a: seq<Node>, ea: seq<Entry>, mid: Node?, b: seq<Node>,
                                    eb: seq<Entry>, to: Node?)
    requires Path(from, a, ea, mid) && Path(mid, b, eb, to)
    ensures Path(from, a + b, ea + eb, to)
    decreases |a|
  {
    if a == [] {
      assert a + b == b && ea + eb == eb;
    } else {
      PathJoin(a[0].next, a[1..], ea[1..], mid, b, eb, to);
      assert (a + b)[1..] == a[1..] + b && (ea + eb)[1..] == ea[1..] + eb;
    }
  }

  /** What one sees at a node of a path. */
  lemma {:induction false} PathNext(from: Node?, ns: seq<Node>, es: seq<Entry>, to: Node?, i: nat)
    requires Path(from, ns, es, to) && i < |ns|
    ensures |es| == |ns| && es[i] == Entry(ns[i].key, ns[i].value) && ns[i].next == Start(ns, i + 1, to)
  {
    if i == 0 {
      assert ns[1..] != [] ==> ns[1..][0] == ns[1];
    } else {
      PathNext(ns[0].next, ns[1..], es[1..], to, i - 1);
      assert ns[1..][i - 1] == ns[i] && es[1..][i - 1] == es[i];
    }
  }

  lemma {:induction false} PathStart(from: Node?, ns: seq<Node>, es: seq<Entry>, to: Node?)
    requires Path(from, ns, es, to)
    ensures |es| == |ns| && from == Start(ns, 0, to)
  {
  }

  /** A node with another key is not on a path. */
  lemma {:induction false} OffPath(x: Node, from: Node?, ns: seq<Node>, es: seq<Entry>, to: Node?)
    requires Path(from, ns, es, to) && forall i :: 0 <= i < |es| ==> es[i].key != x.key
    ensures x !in ns
  {
    if x in ns {
      var i :| 0 <= i < |ns| && ns[i] == x;
      PathNext(from, ns, es, to, i);
    }
  }

  lemma {:induction false} PathOne(n: Node, to: Node?)
    requires n.next == to
    ensures Path(n, [n], [Entry(n.key, n.value)], to)
  {
    assert [n][1..] == [] && [Entry(n.key, n.value)][1..] == [];
  }

  /** A node in front of a path. */
  lemma {:induction false} PathCons(n: Node, ns: seq<Node>, es: seq<Entry>, to: Node?)
    requires Path(n.next, ns, es, to)
    ensures Path(n, [n] + ns, [Entry(n.key, n.value)] + es, to)
  {
    assert ([n] + ns)[1..] == ns && ([Entry(n.key, n.value)] + es)[1..] == es;
  }

  /** Nodes with distinct keys before and behind a node are other nodes. */
  lemma {:induction false} PathApart(from: Node?, ns: seq<Node>, es: seq<Entry>, to: Node?, i: nat)
    requires Path(from, ns, es, to) && i < |ns| && DistinctKeys(es)
    ensures ns[i] !in ns[..i] && ns[i] !in ns[i + 1..]
  {
    PathNext(from, ns, es, to, i);
    forall j | 0 <= j < |ns| && j != i
      ensures ns[j] != ns[i]
    {
      PathNext(from, ns, es, to, j);
      if j < i { assert es[j].key != es[i].key; } else { assert es[i].key != es[j].key; }
    }
  }

  // ---- one chain ----

  /** dictFind along a chain. */
  method FindNode(head: Node?, key: string, ghost ns: seq<Node>, ghost es: seq<Entry>)
    returns (he: Node?, ghost at: nat)
    requires Path(head, ns, es, null)
    ensures at <= |ns| == |es| && he == Start(ns, at, null)
    ensures forall j :: 0 <= j < at ==> es[j].key != key
    ensures he != null ==> at < |ns| && he.key == key && es[at] == Entry(key, he.value)
  {
    hide Path;
    he, at := head, 0;
    PathStart(head, ns, es, null);
    while he != null
      invariant at <= |ns| && he == Start(ns, at, null)
      invariant forall j :: 0 <= j < at ==> es[j].key != key
      decreases |ns| - at
    {
      PathNext(head, ns, es, null, at);
      if he.key == key { return; }
      he := he.next;
      at := at + 1;
    }
  }

  /** The unlinking of dictDelete behind the first node of a chain. */
  method UnlinkBehind(prev: Node, de: Node, ghost head: Node?, ghost ns: seq<Node>, ghost es: seq<Entry>, ghost i: nat)
    requires Path(head, ns, es, null) && 0 < i < |ns| && prev == ns[i - 1] && de == ns[i] && DistinctKeys(es)
    modifies prev`next
    ensures Path(head, ns[..i] + ns[i + 1..], es[..i] + es[i + 1..], null)
  {
    hide Path;
    PathAt(head, ns, es, null, i - 1);
    PathAt(head, ns, es, null, i + 1);
    PathNext(head, ns, es, null, i - 1);
    PathNext(head, ns, es, null, i);
    PathApart(head, ns, es, null, i - 1);
    prev.next := de.next;
    PathOne(prev, de.next);
    PathJoin(head, ns[..i - 1], es[..i - 1], prev, [prev], [Entry(prev.key, prev.value)], de.next);
    assert ns[..i - 1] + [prev] == ns[..i] && es[..i - 1] + [Entry(prev.key, prev.value)] == es[..i];
    PathJoin(head, ns[..i], es[..i], de.next, ns[i + 1..], es[i + 1..], null);
  }

  /** The value of an entry is set where it is. */
  method SetValue(he: Node, value: int, ghost head: Node?, ghost ns: seq<Node>, ghost es: seq<Entry>, ghost i: nat)
    requires Path(head, ns, es, null) && i < |ns| == |es| && he == ns[i] && DistinctKeys(es)
    modifies he`value
    ensures Path(head, ns, es[i := Entry(he.key, value)], null)
  {
    hide Path;
    PathAt(head, ns, es, null, i);
    PathAt(head, ns, es, null, i + 1);
    PathNext(head, ns, es, null, i);
    PathApart(head, ns, es, null, i);
    he.value := value;
    PathOne(he, he.next);
    PathJoin(head, ns[..i], es[..i], he, [he], [Entry(he.key, value)], he.next);
    PathJoin(head, ns[..i] + [he], es[..i] + [Entry(he.key, value)], he.next, ns[i + 1..], es[i + 1..], null);
    assert ns[..i] + [he] + ns[i + 1..] == ns;
    assert es[..i] + [Entry(he.key, value)] + es[i + 1..] == es[i := Entry(he.key, value)];
  }

  // ---- the buckets ----

  ghost predicate Chain(head: Node?, ns: seq<Node>, es: seq<Entry>, nodes: set<Node>)
    reads nodes
  {
    (forall n :: n in ns ==> n in nodes) && Path(head, ns, es, null)
  }

  /** From bucket b on, the heads lead through these chains, which hold these entries. */
  ghost predicate HeadsFrom(heads: seq<Node?>, chains: seq<seq<Node>>, view: Buckets, nodes: set<Node>, b: nat)
    reads nodes
  {
    |heads| == |chains| == |view| && forall c :: b <= c < |heads| ==> Chain(heads[c], chains[c], view[c], nodes)
  }

  ghost predicate Heads(heads: seq<Node?>, chains: seq<seq<Node>>, view: Buckets, nodes: set<Node>)
    reads nodes
  {
    HeadsFrom(heads, chains, view, nodes, 0)
  }

  /** An entry whose key is not in its bucket is in no chain at all. */
  lemma {:induction false} OffBucket(x: Node, hash: string -> nat, head: Node?, ns: seq<Node>, view: Buckets, b: nat)
    requires Good(view, hash) && b < |view| && Path(head, ns, view[b], null)
    requires hash(x.key) % |view| != b || Get(view, hash, x.key) == None
    ensures x !in ns
  {
    hide Path, Search;
    assert GoodChain(view[b], hash, b, |view|);
    SearchFails(view[b], x.key);
    OffPath(x, head, ns, view[b], null);
  }

  /** An entry is put in front of the chain of its bucket. */
  method PushFront(table: array<Node?>, he: Node, h: nat, hash: string -> nat,
                   ghost chains: seq<seq<Node>>, ghost view: Buckets, ghost nodes: set<Node>)
    requires Heads(table[..], chains, view, nodes) && Good(view, hash) && he in nodes
    requires table.Length > 0 && h == hash(he.key) % |view| && Get(view, hash, he.key) == None
    modifies he`next, table
    ensures Heads(table[..], chains[h := [he] + chains[h]], Push(view, hash, Entry(he.key, he.value)), nodes)
    ensures table[..] == old(table[..])[h := he] && |chains| == table.Length
  {
    hide Path, Good, Get;
    ghost var heads, e := table[..], Entry(he.key, he.value);
    forall b | 0 <= b < |heads|
      ensures he !in chains[b]
    {
      assert Chain(heads[b], chains[b], view[b], nodes);
      OffBucket(he, hash, heads[b], chains[b], view, b);
    }
    assert Chain(heads[h], chains[h], view[h], nodes) && heads[h] == table[h];
    he.next := table[h];
    table[h] := he;
    PathCons(he, chains[h], view[h], null);
    ghost var chains' := chains[h := [he] + chains[h]];
    forall b | 0 <= b < |heads|
      ensures Chain(table[..][b], chains'[b], Push(view, hash, e)[b], nodes)
    {
      if b != h { assert old(Chain(heads[b], chains[b], view[b], nodes)); }
    }
  }

  // ---- the table ----

  /** The entries that a dictExpand has moved when it has come to entry j of bucket i. */
  function MovedBefore(view: Buckets, i: nat, j: nat): seq<Entry>
    requires i < |view| && j <= |view[i]|
  {
    Flat(view[..i]) + view[i][..j]
  }

  /** An entry that is still to be moved has a key that was not moved yet. */
  lemma {:induction false} NotMovedYet(view: Buckets, hash: string -> nat, i: nat, j: nat, n: nat)
    requires Good(view, hash) && i < |view| && j < |view[i]| && n > 0
    ensures var es := MovedBefore(view, i, j); var r := Moved(Empty(n), hash, es);
            Good(r, hash) && |r| == n && Get(r, hash, view[i][j].key) == None
  {
    hide Good, Get, Moved, Search, Flat;
    var es, key := MovedBefore(view, i, j), view[i][j].key;
    FlatNext(view, i);
    FlatDistinct(view, hash, i + 1);
    var all := Flat(view[..i + 1]);
    var m := |Flat(view[..i])| + j;
    assert all[m] == view[i][j] && es == all[..m];
    MovedIs(n, hash, es);
    SearchFails(es, key);
  }

  /** The entry at hand is in no chain that is still to be moved. */
  lemma {:induction false} OffRest(heads: seq<Node?>, chains: seq<seq<Node>>, view: Buckets, nodes: set<Node>,
                                   hash: string -> nat, i: nat, x: Node)
    requires HeadsFrom(heads, chains, view, nodes, i + 1) && Good(view, hash) && i < |view| && hash(x.key) % |view| == i
    ensures forall b :: i < b < |chains| ==> x !in chains[b]
  {
    hide Path, Good, Get;
    forall b | i < b < |chains|
      ensures x !in chains[b]
    {
      assert Chain(heads[b], chains[b], view[b], nodes);
      OffBucket(x, hash, heads[b], chains[b], view, b);
    }
  }

  /** A chain of the old table, node by node, into the new one. */
  method MoveChain(t: array<Node?>, i: nat, n: array<Node?>, hash: string -> nat, left0: int,
      ghost chains: seq<seq<Node>>,
                   ghost view: Buckets, ghost nodes: set<Node>, ghost nc0: seq<seq<Node>>, ghost nv0: Buckets)
    returns (left: int, ghost nc: seq<seq<Node>>, ghost nv: Buckets)
    requires t != n && i < t.Length && HeadsFrom(t[..], chains, view, nodes, i) && Good(view, hash)
    requires n.Length > 0 && Heads(n[..], nc0, nv0, nodes) && nv0 == Moved(Empty(n.Length), hash, Flat(view[..i]))
    modifies nodes`next, n
    ensures HeadsFrom(t[..], chains, view, nodes, i + 1)
    ensures Heads(n[..], nc, nv, nodes) && nv == Moved(Empty(n.Length), hash, Flat(view[..i + 1]))
    ensures left == left0 - |view[i]|
  {
    hide Path, Good, Get, Moved, Flat, Heads;
    var he := t[i];
    ghost var j, ns := 0, chains[i];
    left, nc, nv := left0, nc0, nv0;
    assert Chain(t[..][i], ns, view[i], nodes);
    PathStart(he, ns, view[i], null);
    assert ns[0..] == ns && view[i][0..] == view[i];
    FlatNext(view, i);
    while he != null
      invariant j <= |ns| == |view[i]| && he == Start(ns, j, null) && Path(he, ns[j..], view[i][j..], null)
      invariant HeadsFrom(t[..], chains, view, nodes, i + 1) && forall x :: x in ns ==> x in nodes
      invariant Heads(n[..], nc, nv, nodes) && nv == Moved(Empty(n.Length), hash, MovedBefore(view, i, j))
      invariant left == left0 - j
      decreases |ns| - j
    {
      NotMovedYet(view, hash, i, j, n.Length);
      ghost var es := MovedBefore(view, i, j);
      NodeAtHand(he, ns, view, hash, i, j);
      OffRest(t[..], chains, view, nodes, hash, i, he);
      assert forall b :: i < b < |chains| ==> Chain(t[..][b], chains[b], view[b], nodes);
      var nextHe := he.next;
      var h := hash(he.key) % n.Length;
      PushFront(n, he, h, hash, nc, nv, nodes);
      MovedNext(Empty(n.Length), hash, es, view[i][j]);
      assert MovedBefore(view, i, j + 1) == es + [view[i][j]];
      nc, nv := nc[h := [he] + nc[h]], Push(nv, hash, view[i][j]);
      left := left - 1;
      he := nextHe;
      j := j + 1;
    }
    assert view[i][..j] == view[i];
  }

  /** The node at position j of a chain: its entry, the rest of the chain, and that it is not in the rest. */
  lemma {:induction false} NodeAtHand(he: Node, ns: seq<Node>, view: Buckets, hash: string -> nat, i: nat, j: nat)
    requires Good(view, hash) && i < |view| && j < |ns| == |view[i]| && he == ns[j]
    requires Path(he, ns[j..], view[i][j..], null)
    ensures view[i][j] == Entry(he.key, he.value) && hash(he.key) % |view| == i
    ensures he.next == Start(ns, j + 1, null) && Path(he.next, ns[j + 1..], view[i][j + 1..], null)
    ensures he !in ns[j + 1..]
  {
    hide Path;
    var rest, es := ns[j..], view[i][j..];
    PathNext(he, rest, es, null, 0);
    PathAt(he, rest, es, null, 1);
    assert GoodChain(view[i], hash, i, |view|);
    PathApart(he, rest, es, null, 0);
    assert rest[1..] == ns[j + 1..] && es[1..] == view[i][j + 1..];
  }

  // ---- the dictionary ----

  /** What the buckets stand for: a finite map, with its size in `used`. */
  ghost predicate Refines(view: Buckets, hash: string -> nat, used: int, model: map<string, int>) {
    && Good(view, hash) && (|view| == 0 || TableSize(|view|))
    && used == Total(view) == |model| && used <= |view|
    && forall k :: Get(view, hash, k) == Lookup(model, k)
  }

  lemma RefinesFacts(view: Buckets, hash: string -> nat, used: int, model: map<string, int>)
    requires Refines(view, hash, used, model)
    ensures Good(view, hash) && (|view| == 0 || TableSize(|view|)) && 0 <= used == Total(view) <= |view|
    ensures forall k :: Get(view, hash, k) == Lookup(model, k)
  {
  }

  lemma HeadsShape(heads: seq<Node?>, chains: seq<seq<Node>>, view: Buckets, nodes: set<Node>)
    requires Heads(heads, chains, view, nodes)
    ensures |heads| == |chains| == |view|
    ensures forall b :: 0 <= b < |heads| ==> Path(heads[b], chains[b], view[b], null)
    ensures forall b, n :: 0 <= b < |heads| && n in chains[b] ==> n in nodes
  {
    hide Path;
    forall b | 0 <= b < |heads|
      ensures Path(heads[b], chains[b], view[b], null) && forall n :: n in chains[b] ==> n in nodes
    {
      assert Chain(heads[b], chains[b], view[b], nodes);
    }
  }

  /** The loops of dictExpand, which stop when the count has run down. */
  method MoveAll(t: array<Node?>, n: array<Node?>, hash: string -> nat, used: int,
                 ghost chains: seq<seq<Node>>, ghost view: Buckets, ghost nodes: set<Node>)
    returns (ghost nc: seq<seq<Node>>, ghost nv: Buckets)
    requires t != n && Heads(t[..], chains, view, nodes) && Good(view, hash) && used == Total(view)
    requires n.Length > 0 && forall b :: 0 <= b < n.Length ==> n[b] == null
    modifies nodes`next, n
    ensures Heads(n[..], nc, nv, nodes) && nv == Moved(Empty(n.Length), hash, Flat(view))
  {
    hide Path, Good, Get, Moved, Flat, Heads, HeadsFrom;
    var left := used;
    nc, nv := seq(n.Length, _ => []), Empty(n.Length);
    HeadsShape(t[..], chains, view, nodes);
    EmptyHeads(n[..], nc, n.Length, nodes);
    NothingMoved(view, n.Length, hash);
    AllToCome(t[..], chains, view, nodes);
    FlatTotal(view);
    var i := 0;
    while i < t.Length && left > 0
      invariant 0 <= i <= t.Length && HeadsFrom(t[..], chains, view, nodes, i)
      invariant Heads(n[..], nc, nv, nodes) && nv == Moved(Empty(n.Length), hash, Flat(view[..i]))
      invariant left + |Flat(view[..i])| == used
    {
      FlatNext(view, i);
      left, nc, nv := MoveChain(t, i, n, hash, left, chains, view, nodes, nc, nv);
      i := i + 1;
    }
    AllMoved(view, i, Flat(view[..i]));
    assert left == 0;
  }

  class Dictionary {
    const hash: string -> nat
    var table: array<Node?>
    var used: int
    /** The nodes of each chain, the entries they hold, all nodes ever linked, and the map. */
    ghost var chains: seq<seq<Node>>
    ghost var view: Buckets
    ghost var nodes: set<Node>
    ghost var model: map<string, int>

    ghost predicate Valid()
      reads this, table, nodes
    {
      Heads(table[..], chains, view, nodes) && Refines(view, hash, used, model)
    }

    /** dictCreate. */
    constructor (hash: string -> nat)
      ensures Valid() && model == map[] && this.hash == hash && fresh(table) && nodes == {}
    {
      this.hash, used := hash, 0;
      table := new Node?[0];
      chains, view, nodes, model := [], [], {}, map[];
    }

    /** dictExpand: every entry is relinked into a table of the next size; the old count runs down to zero. */
    method Expand(size: nat) returns (ok: bool)
      requires Valid()
      modifies this`table, this`chains, this`view, nodes`next
      ensures Valid() && (ok <==> used <= size)
      ensures ok ==> fresh(table) && |view| >= size && (|view| == INITIAL_SIZE || |view| / 2 < size)
      ensures !ok ==> table == old(table) && view == old(view) && chains == old(chains)
    {
      hide Path, Good, Get, Moved, Flat, Heads, HeadsFrom, Refines;
      RefinesFacts(view, hash, used, model);
      HeadsShape(table[..], chains, view, nodes);
      if used > size { return false; }
      var realsize := NextPower(size);
      DoubleSize(realsize);
      var n := new Node?[realsize](_ => null);
      ghost var nc, nv;
      nc, nv := MoveAll(table, n, hash, used, chains, view, nodes);
      ResizeKeeps(view, hash, realsize);
      Resized(view, nv, hash, used, model, realsize);
      table, chains, view := n, nc, nv;
      return true;
    }

    /** _dictExpandIfNeeded. */
    method ExpandIfNeeded()
      requires Valid()
      modifies this`table, this`chains, this`view, nodes`next
      ensures Valid() && used < |view| && (table == old(table) || fresh(table))
      ensures 0 < old(|view|) && used < old(|view|) ==> table == old(table) && view == old(view)
    {
      hide Path, Good, Get, Heads, HeadsFrom, Refines;
      RefinesFacts(view, hash, used, model);
      HeadsShape(table[..], chains, view, nodes);
      if table.Length == 0 {
        var _ := Expand(INITIAL_SIZE);
      } else if used == table.Length {
        DoubleSize(|view|);
        var _ := Expand(table.Length * 2);
      }
    }

    /** dictFind: the entry itself. */
    method Find(key: string) returns (he: Node?)
      requires Valid()
      ensures (he != null ==> he.key == key && he in nodes)
      ensures Lookup(model, key) == if he == null then None else Some(he.value)
    {
      hide Path, Good, Get, Heads, HeadsFrom, Refines, Search;
      RefinesFacts(view, hash, used, model);
      HeadsShape(table[..], chains, view, nodes);
      if table.Length == 0 {
        NoBuckets(view, hash, key);
        return null;
      }
      ghost var at;
      he, at := FindInBucket(key);
    }

    /** The walk along the chain of a key. */
    method FindInBucket(key: string) returns (he: Node?, ghost at: nat)
      requires Valid() && |view| > 0
      ensures var h := hash(key) % |view|;
              && h < |chains| && at <= |chains[h]| == |view[h]| && he == Start(chains[h], at, null)
              && (he != null ==> at < |chains[h]| && he in nodes && he.key == key)
              && (he != null ==> view[h][at] == Entry(key, he.value))
              && (forall j :: 0 <= j < at ==> view[h][j].key != key)
              && Get(view, hash, key) == if he == null then None else Some(he.value)
    {
      hide Path, Good, Heads, HeadsFrom, Refines;
      HeadsShape(table[..], chains, view, nodes);
      var h := hash(key) % table.Length;
      assert table[h] == table[..][h];
      he, at := FindNode(table[h], key, chains[h], view[h]);
      PathStart(table[h], chains[h], view[h], null);
      SearchFirst(view[h], key, at);
    }

    /** dictAdd: refused if the key is there, after the table may have grown. */
    method Add(key: string, value: int) returns (ok: bool)
      requires Valid()
      modifies this, table, nodes
      ensures Valid() && (ok <==> key !in old(model))
      ensures model == if ok then old(model)[key := value] else old(model)
      ensures (table == old(table) || fresh(table)) && forall n :: n in nodes ==> n in old(nodes) || fresh(n)
    {
      hide Path, Good, Get, Heads, HeadsFrom, Refines, Search;
      ExpandIfNeeded();
      RefinesFacts(view, hash, used, model);
      HeadsShape(table[..], chains, view, nodes);
      var he;
      ghost var at;
      he, at := FindInBucket(key);
      if he != null { return false; }
      LinkNew(key, value);
      return true;
    }

    /** A new entry in front of its chain. */
    method LinkNew(key: string, value: int)
      requires Valid() && used < |view| && Get(view, hash, key) == None
      modifies this`used, this`chains, this`view, this`nodes, this`model, table
      ensures Valid() && key !in old(model) && model == old(model)[key := value]
      ensures forall n :: n in nodes ==> n in old(nodes) || fresh(n)
    {
      hide Path, Good, Get, Heads, HeadsFrom, Refines, Push;
      RefinesFacts(view, hash, used, model);
      HeadsShape(table[..], chains, view, nodes);
      var entry := new Node(key, value, null);
      MoreNodes(table[..], chains, view, nodes, entry);
      var h := hash(key) % table.Length;
      PushFront(table, entry, h, hash, chains, view, nodes + {entry});
      Pushed(view, hash, used, model, Entry(key, value));
      used := used + 1;
      chains, view := chains[h := [entry] + chains[h]], Push(view, hash, Entry(key, value));
      nodes, model := nodes + {entry}, model[key := value];
    }

    /** dictDelete: the entry is unlinked, behind the one before it or at the head of its chain. */
    method Delete(key: string) returns (ok: bool)
      requires Valid()
      modifies this, table, nodes
      ensures Valid() && (ok <==> key in old(model)) && model == old(model) - {key}
      ensures table == old(table) && nodes == old(nodes)
      ensures |view| == old(|view|) && (|view| > 0 ==> view == Cut(old(view), hash, key))
      ensures var b := hash(key); |view| > 0 ==> ChainsCut(old(chains), old(view), b % |view|, key, chains)
      ensures !ok ==> chains == old(chains)
    {
      hide Path, Good, Get, Heads, HeadsFrom, Refines, Search, Without;
      RefinesFacts(view, hash, used, model);
      HeadsShape(table[..], chains, view, nodes);
      if table.Length == 0 {
        NoBuckets(view, hash, key);
        assert model - {key} == model;
        return false;
      }
      var h := hash(key) % table.Length;
      var de, prev;
      ghost var at;
      de, prev, at := FindBehind(key);
      if de == null {
        CutNothing(view, hash, used, model, key, h, at);
        return false;
      }
      CutDone(view, hash, used, model, key, h, at);
      UnlinkAt(h, prev, de, at);
      used := used - 1;
      chains := chains[h := chains[h][..at] + chains[h][at + 1..]];
      view, model := Cut(view, hash, key), model - {key};
      return true;
    }

    /** The walk of dictDelete, which keeps the entry before the one at hand. */
    method FindBehind(key: string) returns (de: Node?, prev: Node?, ghost at: nat)
      requires Valid() && |view| > 0
      ensures var h := hash(key) % |view|;
              && h < |chains| && at <= |chains[h]| == |view[h]| && de == Start(chains[h], at, null)
              && prev == (if at == 0 then null else chains[h][at - 1])
              && (de != null ==> at < |chains[h]| && view[h][at].key == key)
              && forall j :: 0 <= j < at ==> view[h][j].key != key
    {
      hide Path, Good, Get, Heads, HeadsFrom, Refines;
      HeadsShape(table[..], chains, view, nodes);
      var h := hash(key) % table.Length;
      ghost var head := table[..][h];
      de, prev, at := table[h], null, 0;
      PathStart(head, chains[h], view[h], null);
      while de != null
        invariant at <= |chains[h]| == |view[h]| && de == Start(chains[h], at, null)
        invariant prev == if at == 0 then null else chains[h][at - 1]
        invariant forall j :: 0 <= j < at ==> view[h][j].key != key
        decreases |chains[h]| - at
      {
        PathNext(head, chains[h], view[h], null, at);
        if de.key == key { return; }
        prev := de;
        de := de.next;
        at := at + 1;
      }
    }

    /** The links that change when node `at` of bucket h goes. */
    method UnlinkAt(h: nat, prev: Node?, de: Node, ghost at: nat)
      requires Valid() && h < table.Length == |chains| && at < |chains[h]| && de == chains[h][at]
      requires prev == if at == 0 then null else chains[h][at - 1]
      modifies table, nodes`next
      ensures Heads(table[..], chains[h := chains[h][..at] + chains[h][at + 1..]],
                    view[h := view[h][..at] + view[h][at + 1..]], nodes)
    {
      hide Path, Good, Get, Refines;
      RefinesFacts(view, hash, used, model);
      HeadsShape(table[..], chains, view, nodes);
      ghost var heads, ns, es := table[..], chains[h], view[h];
      assert heads[h] == table[h] && GoodBucket(view, hash, h);
      PathNext(heads[h], ns, es, null, at);
      if prev != null {
        PathNext(heads[h], ns, es, null, at - 1);
        ghost var x: Node := prev;
        forall b | 0 <= b < |heads| && b != h
          ensures x !in chains[b]
        {
          BucketKey(view, hash, h, at - 1);
          OffBucket(x, hash, heads[b], chains[b], view, b);
        }
        UnlinkBehind(prev, de, heads[h], ns, es, at);
      } else {
        PathAt(heads[h], ns, es, null, 1);
        assert ns[..0] + ns[1..] == ns[1..] && es[..0] + es[1..] == es[1..];
        table[h] := de.next;
      }
      ghost var chains', view' := chains[h := ns[..at] + ns[at + 1..]], view[h := es[..at] + es[at + 1..]];
      forall b | 0 <= b < |heads|
        ensures Chain(table[..][b], chains'[b], view'[b], nodes)
      {
        assert old(Path(heads[b], chains[b], view[b], null));
      }
    }

    /** dictReplace: adds the key, or sets the value of its entry in place. */
    method Replace(key: string, value: int) returns (added: bool)
      requires Valid()
      modifies this, table, nodes
      ensures Valid() && (added <==> key !in old(model)) && model == old(model)[key := value]
      ensures (table == old(table) || fresh(table)) && forall n :: n in nodes ==> n in old(nodes) || fresh(n)
    {
      hide Path, Good, Get, Heads, HeadsFrom, Refines, Search, SetFirst;
      added := Add(key, value);
      if added { return; }
      RefinesFacts(view, hash, used, model);
      HeadsShape(table[..], chains, view, nodes);
      NoBuckets(view, hash, key);
      var he;
      ghost var at;
      he, at := FindInBucket(key);
      ghost var h := hash(key) % |view|;
      SetInBucket(h, he, value, at);
      ValueSet(view, hash, used, model, key, value, at);
      view := view[h := view[h][at := Entry(key, value)]];
      model := model[key := value];
    }

    /** The value of node `at` of bucket h is set. */
    method SetInBucket(ghost h: nat, he: Node, value: int, ghost at: nat)
      requires Valid() && h < table.Length == |chains| == |view| && at < |chains[h]| && he == chains[h][at]
      modifies nodes`value
      ensures |view[h]| == |chains[h]|
      ensures Heads(table[..], chains, view[h := view[h][at := Entry(he.key, value)]], nodes)
    {
      hide Path, Good, Get, Refines;
      RefinesFacts(view, hash, used, model);
      HeadsShape(table[..], chains, view, nodes);
      ghost var heads, ns, es := table[..], chains[h], view[h];
      assert GoodBucket(view, hash, h);
      PathNext(heads[h], ns, es, null, at);
      forall b | 0 <= b < |heads| && b != h
        ensures he !in chains[b]
      {
        BucketKey(view, hash, h, at);
        OffBucket(he, hash, heads[b], chains[b], view, b);
      }
      SetValue(he, value, heads[h], ns, es, at);
      ghost var view' := view[h := es[at := Entry(he.key, value)]];
      forall b | 0 <= b < |heads|
        ensures Chain(table[..][b], chains[b], view'[b], nodes)
      {
        assert old(Path(heads[b], chains[b], view[b], null));
      }
    }
  }

  ghost predicate GoodBucket(view: Buckets, hash: string -> nat, h: nat)
    requires h < |view|
  {
    GoodChain(view[h], hash, h, |view|)
  }

  lemma BucketKey(view: Buckets, hash: string -> nat, h: nat, i: nat)
    requires Good(view, hash) && h < |view| && i < |view[h]|
    ensures hash(view[h][i].key) % |view| == h
  {
    assert GoodChain(view[h], hash, h, |view|);
  }

  lemma EmptyHeads(heads: seq<Node?>, chains: seq<seq<Node>>, n: nat, nodes: set<Node>)
    requires |heads| == |chains| == n && forall b :: 0 <= b < n ==> heads[b] == null && chains[b] == []
    ensures Heads(heads, chains, Empty(n), nodes)
  {
  }

  lemma AllToCome(heads: seq<Node?>, chains: seq<seq<Node>>, view: Buckets, nodes: set<Node>)
    requires Heads(heads, chains, view, nodes)
    ensures HeadsFrom(heads, chains, view, nodes, 0)
  {
  }

  lemma MoreNodes(heads: seq<Node?>, chains: seq<seq<Node>>, view: Buckets, nodes: set<Node>, n: Node)
    requires Heads(heads, chains, view, nodes)
    ensures Heads(heads, chains, view, nodes + {n})
  {
    hide Path;
    forall b | 0 <= b < |heads|
      ensures Chain(heads[b], chains[b], view[b], nodes + {n})
    {
      assert Chain(heads[b], chains[b], view[b], nodes);
    }
  }

  /** The first entry with a key, found at a position. */
  lemma {:induction false} SearchFirst(es: seq<Entry>, key: string, at: nat)
    requires at <= |es| && (forall j :: 0 <= j < at ==> es[j].key != key) && (at < |es| ==> es[at].key == key)
    ensures Search(es, key) == if at < |es| then Some(es[at].value) else None
  {
    if at > 0 { SearchFirst(es[1..], key, at - 1); }
  }

  lemma Resized(view: Buckets, nv: Buckets, hash: string -> nat, used: int, model: map<string, int>, n: nat)
    requires Refines(view, hash, used, model) && TableSize(n) && used <= n && |nv| == n
    requires Good(nv, hash) && Total(nv) == Total(view) && forall k :: Get(nv, hash, k) == Get(view, hash, k)
    ensures Refines(nv, hash, used, model)
  {
  }

  lemma Pushed(view: Buckets, hash: string -> nat, used: int, model: map<string, int>, e: Entry)
    requires Refines(view, hash, used, model) && used < |view| && Get(view, hash, e.key) == None
    ensures Refines(Push(view, hash, e), hash, used + 1, model[e.key := e.value])
    ensures |Push(view, hash, e)| == |view| && e.key !in model
  {
    hide Good, Get;
    PushIs(view, hash, e);
    assert Lookup(model, e.key) == None;
  }

  /** Where a chain loses the node of a key. */
  ghost predicate ChainsCut(chains: seq<seq<Node>>, view: Buckets, h: nat, key: string, after: seq<seq<Node>>) {
    h < |chains| == |view| && |chains[h]| == |view[h]| &&
    forall n :: 0 <= n < |view[h]| && view[h][n].key == key ==>
        after == chains[h := chains[h][..n] + chains[h][n + 1..]]
  }

  lemma CutDone(view: Buckets, hash: string -> nat, used: int, model: map<string, int>, key: string, h: nat, at: nat)
    requires Refines(view, hash, used, model) && |view| > 0 && h == hash(key) % |view|
    requires at < |view[h]| && view[h][at].key == key
    ensures Refines(Cut(view, hash, key), hash, used - 1, model - {key}) && key in model
    ensures Cut(view, hash, key) == view[h := view[h][..at] + view[h][at + 1..]]
    ensures forall n :: 0 <= n < |view[h]| && view[h][n].key == key ==> n == at
  {
    hide Good, Search, Without;
    assert GoodChain(view[h], hash, h, |view|) by { BucketIs(view, hash, h); }
    SearchAt(view[h], at);
    CutIs(view, hash, key);
    WithoutAt(view[h], at);
    assert Lookup(model, key).Some?;
    ModelShrinks(model, key);
  }

  lemma BucketIs(view: Buckets, hash: string -> nat, h: nat)
    requires Good(view, hash) && h < |view|
    ensures GoodChain(view[h], hash, h, |view|)
  {
  }

  lemma CutNothing(view: Buckets, hash: string -> nat, used: int, model: map<string, int>, key: string, h: nat, at: nat)
    requires Refines(view, hash, used, model) && |view| > 0 && h == hash(key) % |view|
    requires at == |view[h]| && forall j :: 0 <= j < at ==> view[h][j].key != key
    ensures key !in model && model - {key} == model && Cut(view, hash, key) == view
  {
    hide Good;
    SearchFirst(view[h], key, at);
    SameChain(view[h], key);
    assert Lookup(model, key) == None;
  }

  lemma ValueSet(view: Buckets, hash: string -> nat, used: int, model: map<string, int>, key: string, value: int,
      at: nat)
    requires Refines(view, hash, used, model) && |view| > 0
    requires var h := hash(key) % |view|;
             at < |view[h]| && view[h][at].key == key && forall j :: 0 <= j < at ==> view[h][j].key != key
    ensures var h := hash(key) % |view|;
            Refines(view[h := view[h][at := Entry(key, value)]], hash, used, model[key := value])
  {
    hide Good, SetFirst;
    var h := hash(key) % |view|;
    SearchFirst(view[h], key, at);
    SetFirstAt(view[h], key, value, at);
    SetIs(view, hash, key, value);
    assert Lookup(model, key).Some?;
    assert model[key := value].Keys == model.Keys;
  }

  lemma {:induction false} SetFirstAt(es: seq<Entry>, key: string, value: int, at: nat)
    requires at < |es| && es[at].key == key && forall j :: 0 <= j < at ==> es[j].key != key
    ensures SetFirst(es, key, value) == es[at := Entry(key, value)]
  {
    if at > 0 {
      SetFirstAt(es[1..], key, value, at - 1);
      assert [es[0]] + es[1..][at - 1 := Entry(key, value)] == es[at := Entry(key, value)];
    }
  }

  // ---- iteration ----

  /**
   A dictIterator: a bucket, the entry last returned, and the one behind it, saved before the caller may
   delete it.
   */
  class Iterator {
    const d: Dictionary
    var index: int
    var entry: Node?
    var nextEntry: Node?
    /** The saved end of the chain, node by node and entry by entry. */
    ghost var rest: seq<Node>
    ghost var restEntries: seq<Entry>

    ghost predicate Valid()
      reads this, d
    {
      && -1 <= index && |d.chains| == |d.view|
      && (entry != null ==> index < |d.view| && SavedEnd(rest, restEntries, d.chains, d.view, index, nextEntry))
    }

    ghost function Remaining(): seq<Entry>
      reads this, d
    {
      (if entry != null then restEntries else []) + Later(d.view, index)
    }

    /** dictGetIterator. */
    constructor (d: Dictionary)
      requires d.Valid()
      ensures Valid() && this.d == d && Remaining() == Flat(d.view)
    {
      this.d, index, entry, nextEntry := d, -1, null, null;
      rest, restEntries := [], [];
      new;
      HeadsShape(d.table[..], d.chains, d.view, d.nodes);
      LaterStep(d.view, -1);
    }

    /** dictNext: the remaining entries one by one. */
    method Next() returns (he: Node?)
      requires Valid() && d.Valid()
      modifies this
      ensures Valid() && entry == he
      ensures he == null ==> old(Remaining()) == []
      ensures he != null ==> old(Remaining()) == [Entry(he.key, he.value)] + Remaining()
      ensures he != null ==> 0 <= index < |d.view| && EndOf([Entry(he.key, he.value)] + restEntries, d.view[index])
    {
      hide Path, Heads, HeadsFrom, Refines, Later, EndOf, Flat;
      ghost var all := Remaining();
      HeadsShape(d.table[..], d.chains, d.view, d.nodes);
      while true
        invariant Valid() && Remaining() == all && d.Valid()
        decreases d.table.Length - index, if entry != null then 1 else 0
      {
        ghost var ns, es := rest, restEntries;
        if entry == null {
          LaterStep(d.view, index);
          assert [] + Later(d.view, index) == Later(d.view, index);
          index := index + 1;
          if index >= d.table.Length { return null; }
          entry := d.table[index];
          ns, es := d.chains[index], d.view[index];
          assert entry == d.table[..][index];
          WholeChain(ns, es, d.chains, d.view, index, entry, d.table[..][index]);
        } else {
          entry := nextEntry;
        }
        if entry != null {
          EndStep(ns, es, d.chains, d.view, index, entry, d.table[..][index]);
          assert [es[0]] + (es[1..] + Later(d.view, index)) == es + Later(d.view, index);
          nextEntry := entry.next;
          rest, restEntries := ns[1..], es[1..];
          return entry;
        }
        NothingSaved(ns, es, d.chains, d.view, index);
        assert [] + Later(d.view, index) == Later(d.view, index);
      }
    }
  }

  /** The saved end of the chain of a bucket. */
  ghost predicate SavedEnd(ns: seq<Node>, es: seq<Entry>, chains: seq<seq<Node>>, view: Buckets, index: int,
      next: Node?)
    requires |chains| == |view|
  {
    && 0 <= index < |view| && |ns| == |es| && next == Start(ns, 0, null)
    && EndOf(ns, chains[index]) && EndOf(es, view[index])
  }

  lemma WholeChain(ns: seq<Node>, es: seq<Entry>, chains: seq<seq<Node>>, view: Buckets, index: int, next: Node?,
                   head: Node?)
    requires 0 <= index < |chains| == |view| && ns == chains[index] && es == view[index] && next == head
    requires Path(head, ns, es, null)
    ensures SavedEnd(ns, es, chains, view, index, next)
  {
    PathStart(head, ns, es, null);
  }

  /** The next node of a saved end: its entry, and the end behind it. */
  lemma EndStep(ns: seq<Node>, es: seq<Entry>, chains: seq<seq<Node>>, view: Buckets, index: int, next: Node,
      head: Node?)
    requires |chains| == |view| && SavedEnd(ns, es, chains, view, index, next)
    requires Path(head, chains[index], view[index], null)
    ensures |ns| == |es| > 0 && es[0] == Entry(next.key, next.value)
    ensures SavedEnd(ns[1..], es[1..], chains, view, index, next.next)
    ensures EndOf([es[0]] + es[1..], view[index])
  {
    hide Path;
    var m := |chains[index]| - |ns|;
    PathStart(head, chains[index], view[index], null);
    PathNext(head, chains[index], view[index], null, m);
    assert chains[index][m..][0] == ns[0] && view[index][m..][0] == es[0];
    assert chains[index][m + 1..] == ns[1..] && view[index][m + 1..] == es[1..];
    assert [es[0]] + es[1..] == es;
  }

  lemma NothingSaved(ns: seq<Node>, es: seq<Entry>, chains: seq<seq<Node>>, view: Buckets, index: int)
    requires |chains| == |view| && SavedEnd(ns, es, chains, view, index, null)
    ensures es == []
  {
  }

  /** The caller deletes the entry just returned, or does not. */
  method DeleteReturned(it: Iterator, he: Node, drop: bool)
    requires it.d.Valid() && it.Valid() && it.entry == he && 0 <= it.index < |it.d.view|
    requires EndOf([Entry(he.key, he.value)] + it.restEntries, it.d.view[it.index])
    modifies it.d, it.d.table, it.d.nodes
    ensures it.d.Valid() && it.Valid() && it.Remaining() == old(it.Remaining())
    ensures it.d.table == old(it.d.table) && it.d.nodes == old(it.d.nodes)
    ensures it.d.model == old(it.d.model) - if drop then {he.key} else {}
  {
    hide Path, Heads, HeadsFrom, Refines, Good, Get, Later, EndOf, Cut;
    var d := it.d;
    if drop {
      RefinesFacts(d.view, d.hash, d.used, d.model);
      HeadsShape(d.table[..], d.chains, d.view, d.nodes);
      ghost var e, chains, view := Entry(he.key, he.value), d.chains, d.view;
      CutBehind(view, d.hash, it.index, e, it.restEntries);
      var _ := d.Delete(he.key);
      EndAfterCut(it.rest, it.restEntries, chains, view, d.hash, it.index, e, it.nextEntry, d.chains);
    } else {
      assert d.model - {} == d.model;
    }
  }

  /** Deleting the entry just returned leaves the saved end of the chain as it is. */
  lemma EndAfterCut(ns: seq<Node>, es: seq<Entry>, chains: seq<seq<Node>>, view: Buckets, hash: string -> nat,
      index: int,
                    e: Entry, next: Node?, after: seq<seq<Node>>)
    requires |chains| == |view| && SavedEnd(ns, es, chains, view, index, next) && Good(view, hash)
    requires EndOf([e] + es, view[index]) && ChainsCut(chains, view, hash(e.key) % |view|, e.key, after)
    ensures |after| == |Cut(view, hash, e.key)| && SavedEnd(ns, es, after, Cut(view, hash, e.key), index, next)
  {
    hide Without, Search;
    CutBehind(view, hash, index, e, es);
    var n := |view[index]| - |es| - 1;
    assert view[index][n..][0] == e;
    assert GoodChain(view[index], hash, index, |view|);
    assert after == chains[index := chains[index][..n] + chains[index][n + 1..]];
  }

  /**
   A full iteration returns each entry once, in bucket order, even if the caller deletes entries as they
   are returned.
   */
  method VisitAll(d: Dictionary, drop: string -> bool) returns (visited: seq<Entry>)
    requires d.Valid()
    modifies d, d.table, d.nodes
    ensures d.Valid() && visited == old(Flat(d.view)) && d.model == old(d.model) - KeysOf(visited, drop)
  {
    hide *;
    ghost var all, m := Flat(d.view), d.model;
    visited := [];
    var it := new Iterator(d);
    var he := it.Next();
    NoKeys(drop, m);
    while he != null
      invariant fresh(it) && it.d == d && d.Valid() && it.Valid() && it.entry == he
      invariant d.table == old(d.table) && d.nodes == old(d.nodes)
      invariant he != null ==> visited + ([Entry(he.key, he.value)] + it.Remaining()) == all
      invariant he == null ==> visited == all
      invariant he != null ==>
                  0 <= it.index < |d.view| && EndOf([Entry(he.key, he.value)] + it.restEntries, d.view[it.index])
      invariant d.model == m - KeysOf(visited, drop)
      decreases |all| - |visited|, if he != null then 1 else 0
    {
      var e := Entry(he.key, he.value);
      ghost var before, remaining, removed := visited, it.Remaining(), KeysOf(visited, drop);
      DeleteReturned(it, he, drop(e.key));
      visited := visited + [e];
      KeysNext(before, e, drop);
      RemoveMore(m, removed, if drop(e.key) then {e.key} else {});
      assert before + ([e] + remaining) == visited + remaining;
      he := it.Next();
      assert visited + [] == visited;
    }
  }
}
