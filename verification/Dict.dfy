/**
 What the chained hash table of harvester/producer-cli/dict.c holds, for any hash function, and that it
 stands for a finite map.  Chains are sequences here; module HashTable links them in memory.  The mask
 of a power of two is the remainder by it.
 */
module Dict {
  import opened Optional

  /** Keys are strings; values are handles. */
  datatype Entry = Entry(key: string, value: int)

  const INITIAL_SIZE: nat := 4

  // ---- chains ----

  /** The entry a chain holds for a key: the first one found. */
  function Search(chain: seq<Entry>, key: string): Option<int> {
    if chain == [] then None else if chain[0].key == key then Some(chain[0].value) else Search(chain[1..], key)
  }

  /** The chain without the first entry of a key. */
  function Without(chain: seq<Entry>, key: string): seq<Entry> {
    if chain == [] then [] else if chain[0].key == key then chain[1..] else [chain[0]] + Without(chain[1..], key)
  }

  predicate DistinctKeys(chain: seq<Entry>) {
    forall i, j :: 0 <= i < j < |chain| ==> chain[i].key != chain[j].key
  }

  lemma {:induction false} SearchAt(chain: seq<Entry>, i: nat)
    requires DistinctKeys(chain) && i < |chain|
    ensures Search(chain, chain[i].key) == Some(chain[i].value)
  {
    if i > 0 { SearchAt(chain[1..], i - 1); }
  }

  lemma {:induction false} SearchFails(chain: seq<Entry>, key: string)
    ensures Search(chain, key) == None <==> forall i :: 0 <= i < |chain| ==> chain[i].key != key
  {
    if chain != [] {
      SearchFails(chain[1..], key);
      if Search(chain, key) == None {
        forall i | 0 <= i < |chain|
          ensures chain[i].key != key
        {
          if i > 0 { assert chain[i] == chain[1..][i - 1]; }
        }
      }
    }
  }

  lemma {:induction false} SearchAppend(a: seq<Entry>, b: seq<Entry>, key: string)
    ensures Search(a + b, key) == if Search(a, key).Some? then Search(a, key) else Search(b, key)
  {
    if a == [] {
      assert a + b == b;
    } else {
      assert (a + b)[1..] == a[1..] + b;
      SearchAppend(a[1..], b, key);
    }
  }

  lemma {:induction false} WithoutIs(chain: seq<Entry>, key: string)
    requires DistinctKeys(chain)
    ensures DistinctKeys(Without(chain, key))
    ensures forall k :: Search(Without(chain, key), k) == if k == key then None else Search(chain, k)
    ensures |Without(chain, key)| == |chain| - if Search(chain, key).Some? then 1 else 0
    ensures forall e :: e in Without(chain, key) ==> e in chain
  {
    if chain != [] {
      WithoutIs(chain[1..], key);
      if chain[0].key == key {
        SearchFails(chain[1..], key);
      } else {
        var rest := Without(chain[1..], key);
        forall i | 0 <= i < |rest|
          ensures rest[i].key != chain[0].key
        {
          assert rest[i] in chain[1..];
        }
      }
    }
  }

  // ---- tables ----

  type Buckets = seq<seq<Entry>>

  /** Every entry is in the bucket of its masked hash, and no key is in a chain twice. */
  ghost predicate Good(t: Buckets, hash: string -> nat) {
    forall b :: 0 <= b < |t| ==> GoodChain(t[b], hash, b, |t|)
  }

  ghost predicate GoodChain(chain: seq<Entry>, hash: string -> nat, b: nat, n: nat) {
    n > 0 && DistinctKeys(chain) && forall i :: 0 <= i < |chain| ==> hash(chain[i].key) % n == b
  }

  function Get(t: Buckets, hash: string -> nat, key: string): Option<int> {
    if |t| == 0 then None else Search(t[hash(key) % |t|], key)
  }

  function Total(t: Buckets): nat {
    if t == [] then 0 else Total(t[..|t| - 1]) + |t[|t| - 1]|
  }

  lemma {:induction false} TotalUpdate(t: Buckets, b: nat, chain: seq<Entry>)
    requires b < |t|
    ensures Total(t[b := chain]) == Total(t) - |t[b]| + |chain|
  {
    var n := |t| - 1;
    if b < n {
      TotalUpdate(t[..n], b, chain);
      assert t[b := chain][..n] == t[..n][b := chain];
    } else {
      assert t[b := chain][..n] == t[..n];
    }
  }

  /** A new entry goes in front of its chain. */
  function Push(t: Buckets, hash: string -> nat, e: Entry): Buckets
    requires |t| > 0
  {
    var b := hash(e.key) % |t|;
    t[b := [e] + t[b]]
  }

  lemma {:induction false} PushIs(t: Buckets, hash: string -> nat, e: Entry)
    requires |t| > 0 && Good(t, hash) && Get(t, hash, e.key) == None
    ensures Good(Push(t, hash, e), hash) && Total(Push(t, hash, e)) == Total(t) + 1
    ensures forall k :: Get(Push(t, hash, e), hash, k) == if k == e.key then Some(e.value) else Get(t, hash, k)
  {
    var b := hash(e.key) % |t|;
    assert GoodChain(t[b], hash, b, |t|);
    SearchFails(t[b], e.key);
    TotalUpdate(t, b, [e] + t[b]);
    assert ([e] + t[b])[1..] == t[b];
    assert GoodChain([e] + t[b], hash, b, |t|);
  }

  /** The table with one bucket's chain cut by a key. */
  function Cut(t: Buckets, hash: string -> nat, key: string): Buckets
    requires |t| > 0
  {
    var b := hash(key) % |t|;
    t[b := Without(t[b], key)]
  }

  lemma {:induction false} CutIs(t: Buckets, hash: string -> nat, key: string)
    requires |t| > 0 && Good(t, hash)
    ensures Good(Cut(t, hash, key), hash)
    ensures Total(Cut(t, hash, key)) == Total(t) - if Get(t, hash, key).Some? then 1 else 0
    ensures forall k :: Get(Cut(t, hash, key), hash, k) == if k == key then None else Get(t, hash, k)
  {
    var b := hash(key) % |t|;
    assert GoodChain(t[b], hash, b, |t|);
    WithoutIs(t[b], key);
    TotalUpdate(t, b, Without(t[b], key));
    var chain := Without(t[b], key);
    forall i | 0 <= i < |chain|
      ensures hash(chain[i].key) % |t| == b
    {
      assert chain[i] in t[b];
    }
    assert GoodChain(chain, hash, b, |t|);
  }

  // ---- all entries, in the order of the buckets ----

  function Flat(t: Buckets): seq<Entry> {
    if t == [] then [] else Flat(t[..|t| - 1]) + t[|t| - 1]
  }

  lemma {:induction false} FlatTotal(t: Buckets)
    ensures |Flat(t)| == Total(t)
  {
    if t != [] { FlatTotal(t[..|t| - 1]); }
  }

  lemma {:induction false} FlatSearch(t: Buckets, hash: string -> nat, m: nat, key: string)
    requires Good(t, hash) && m <= |t|
    ensures Search(Flat(t[..m]), key) == if m > 0 && hash(key) % |t| < m then Get(t, hash, key) else None
    decreases m
  {
    hide Good, Search, Get;
    if m == 0 {
      NoneFound(t, key);
    } else {
      assert t[..m][..m - 1] == t[..m - 1];
      FlatSearch(t, hash, m - 1, key);
      SearchAppend(Flat(t[..m - 1]), t[m - 1], key);
      InBucket(t, hash, m - 1, key);
    }
  }

  lemma NoneFound(t: Buckets, key: string)
    ensures Search(Flat(t[..0]), key) == None
  {
  }

  lemma InBucket(t: Buckets, hash: string -> nat, b: nat, key: string)
    requires Good(t, hash) && b < |t|
    ensures Search(t[b], key) == if hash(key) % |t| == b then Get(t, hash, key) else None
  {
    assert GoodChain(t[b], hash, b, |t|);
    SearchFails(t[b], key);
  }

  /** A key found nowhere in a list, said with indices. */
  lemma NotFound(es: seq<Entry>, key: string, i: nat)
    requires Search(es, key) == None && i < |es|
    ensures es[i].key != key
  {
    SearchFails(es, key);
  }

  lemma {:induction false} FlatDistinct(t: Buckets, hash: string -> nat, m: nat)
    requires Good(t, hash) && m <= |t|
    ensures DistinctKeys(Flat(t[..m]))
    decreases m
  {
    if m > 0 {
      var a, b := Flat(t[..m - 1]), t[m - 1];
      assert t[..m][..m - 1] == t[..m - 1];
      FlatDistinct(t, hash, m - 1);
      assert GoodChain(b, hash, m - 1, |t|);
      var es := a + b;
      forall i, j | 0 <= i < j < |es|
        ensures es[i].key != es[j].key
      {
        if i < |a| <= j {
          assert es[j] == b[j - |a|];
          FlatSearch(t, hash, m - 1, es[j].key);
          NotFound(a, es[j].key, i);
        } else if |a| <= i {
          assert es[i] == b[i - |a|] && es[j] == b[j - |a|];
        }
      }
    }
  }

  // ---- resizing ----

  function Empty(n: nat): Buckets { seq(n, _ => []) }

  /** Entries relinked one by one into a table. */
  function Moved(t: Buckets, hash: string -> nat, es: seq<Entry>): (r: Buckets)
    requires |t| > 0
    ensures |r| == |t|
  {
    if es == [] then t else Push(Moved(t, hash, es[..|es| - 1]), hash, es[|es| - 1])
  }

  lemma {:induction false} EmptyIs(n: nat, hash: string -> nat)
    ensures Total(Empty(n)) == 0 && (n > 0 ==> Good(Empty(n), hash) && forall k :: Get(Empty(n), hash, k) == None)
  {
    if n > 0 {
      EmptyIs(n - 1, hash);
      assert Empty(n)[..n - 1] == Empty(n - 1);
      assert forall b :: 0 <= b < n ==> GoodChain(Empty(n)[b], hash, b, n);
    }
  }

  lemma {:induction false} MovedIs(n: nat, hash: string -> nat, es: seq<Entry>)
    requires n > 0 && DistinctKeys(es)
    ensures Good(Moved(Empty(n), hash, es), hash) && Total(Moved(Empty(n), hash, es)) == |es|
    ensures forall k :: Get(Moved(Empty(n), hash, es), hash, k) == Search(es, k)
  {
    hide Good;
    EmptyIs(n, hash);
    if es != [] {
      var m := |es| - 1;
      var front, last := es[..m], es[m];
      MovedIs(n, hash, front);
      SearchFails(front, last.key);
      PushIs(Moved(Empty(n), hash, front), hash, last);
      forall k
        ensures Search(es, k) == if k == last.key then Some(last.value) else Search(front, k)
      {
        assert es == front + [last];
        SearchAppend(front, [last], k);
        assert [last][1..] == [];
      }
    }
  }

  /** Resizing keeps every entry. */
  lemma {:induction false} ResizeKeeps(t: Buckets, hash: string -> nat, n: nat)
    requires n > 0 && Good(t, hash)
    ensures var r := Moved(Empty(n), hash, Flat(t));
            Good(r, hash) && Total(r) == Total(t) && forall k :: Get(r, hash, k) == Get(t, hash, k)
  {
    hide Good, Get, Moved;
    assert t[..|t|] == t;
    FlatDistinct(t, hash, |t|);
    FlatTotal(t);
    MovedIs(n, hash, Flat(t));
    forall k
      ensures Search(Flat(t), k) == Get(t, hash, k)
    {
      FlatSearch(t, hash, |t|, k);
      NoBuckets(t, hash, k);
    }
  }

  lemma NoBuckets(t: Buckets, hash: string -> nat, k: string)
    ensures |t| == 0 ==> Get(t, hash, k) == None
  {
  }

  /** A table size: the initial one, doubled any number of times. */
  predicate TableSize(n: nat) { n == INITIAL_SIZE || (n > INITIAL_SIZE && n % 2 == 0 && TableSize(n / 2)) }

  lemma {:induction false} DoubleSize(n: nat)
    requires TableSize(n)
    ensures TableSize(2 * n) && n >= INITIAL_SIZE
  {
    if n != INITIAL_SIZE { DoubleSize(n / 2); }
    assert 2 * n / 2 == n;
  }

  /** _dictNextPower: the smallest table size that is large enough. */
  method NextPower(size: nat) returns (i: nat)
    ensures TableSize(i) && i >= size
    ensures i == INITIAL_SIZE || i / 2 < size
  {
    i := INITIAL_SIZE;
    while i < size
      invariant TableSize(i) && i > 0 && (i == INITIAL_SIZE || i / 2 < size)
      decreases if i < size then size - i else 0
    {
      DoubleSize(i);
      i := i * 2;
    }
  }

  // ---- the map it stands for ----

  function Lookup(m: map<string, int>, key: string): Option<int> { if key in m then Some(m[key]) else None }

  lemma ModelShrinks(m: map<string, int>, key: string)
    requires key in m
    ensures |m - {key}| == |m| - 1
  {
    assert (m - {key}).Keys == m.Keys - {key};
  }

  lemma SameChain(chain: seq<Entry>, key: string)
    requires Search(chain, key) == None
    ensures Without(chain, key) == chain
  {
    if chain != [] { SameChain(chain[1..], key); }
  }

  lemma NothingMoved(t: Buckets, n: nat, hash: string -> nat)
    requires n > 0
    ensures Flat(t[..0]) == [] && Moved(Empty(n), hash, []) == Empty(n)
  {
  }

  lemma FlatNext(t: Buckets, i: nat)
    requires i < |t|
    ensures Flat(t[..i + 1]) == Flat(t[..i]) + t[i]
    ensures t[i][..|t[i]|] == t[i] && Flat(t[..i]) + t[i][..0] == Flat(t[..i])
  {
    assert t[..i + 1][..i] == t[..i];
  }

  lemma MovedNext(t: Buckets, hash: string -> nat, es: seq<Entry>, e: Entry)
    requires |t| > 0
    ensures Moved(t, hash, es + [e]) == Push(Moved(t, hash, es), hash, e)
  {
    assert (es + [e])[..|es|] == es;
  }

  /** When the count has run down, the remaining buckets are empty. */
  lemma {:induction false} AllMoved(t: Buckets, i: nat, es: seq<Entry>)
    requires i <= |t| && es == Flat(t[..i]) && (i == |t| || |es| >= Total(t))
    ensures es == Flat(t)
    decreases |t| - i
  {
    if i < |t| {
      FlatPrefix(t, i);
      FlatTotal(t);
    } else {
      assert t[..i] == t;
    }
  }

  lemma {:induction false} FlatPrefix(t: Buckets, i: nat)
    requires i <= |t|
    ensures |Flat(t[..i])| <= |Flat(t)| && Flat(t)[..|Flat(t[..i])|] == Flat(t[..i])
    decreases |t|
  {
    if i < |t| {
      FlatPrefix(t[..|t| - 1], i);
      assert t[..|t| - 1][..i] == t[..i];
    } else {
      assert t[..i] == t;
    }
  }

  /** The chain with the value of a key's first entry set. */
  function SetFirst(chain: seq<Entry>, key: string, value: int): seq<Entry> {
    if chain == [] then [] else if chain[0].key == key then [Entry(key, value)] + chain[1..]
    else [chain[0]] + SetFirst(chain[1..], key, value)
  }

  lemma {:induction false} SetFirstIs(chain: seq<Entry>, key: string, value: int)
    requires Search(chain, key).Some?
    ensures |SetFirst(chain, key, value)| == |chain|
    ensures forall i :: 0 <= i < |chain| ==> SetFirst(chain, key, value)[i].key == chain[i].key
    ensures forall k :: Search(SetFirst(chain, key, value), k) == if k == key then Some(value) else Search(chain, k)
  {
    if chain[0].key != key { SetFirstIs(chain[1..], key, value); }
  }

  lemma SetIs(t: Buckets, hash: string -> nat, key: string, value: int)
    requires |t| > 0 && Good(t, hash) && Get(t, hash, key).Some?
    ensures var h := hash(key) % |t|; var r := t[h := SetFirst(t[h], key, value)];
            && Good(r, hash) && Total(r) == Total(t)
            && forall k :: Get(r, hash, k) == if k == key then Some(value) else Get(t, hash, k)
  {
    var h := hash(key) % |t|;
    var chain := SetFirst(t[h], key, value);
    SetFirstIs(t[h], key, value);
    TotalUpdate(t, h, chain);
    assert GoodChain(t[h], hash, h, |t|);
    assert GoodChain(chain, hash, h, |t|);
  }

  // ---- iteration ----

  /** The entries of the buckets behind one. */
  function Later(t: Buckets, index: int): seq<Entry> {
    if -1 <= index < |t| then Flat(t[index + 1..]) else []
  }

  lemma {:induction false} FlatConcat(a: Buckets, b: Buckets)
    ensures Flat(a + b) == Flat(a) + Flat(b)
  {
    if b == [] {
      assert a + b == a;
    } else {
      var n := |b| - 1;
      assert (a + b)[..|a| + n] == a + b[..n];
      FlatConcat(a, b[..n]);
    }
  }

  lemma LaterStep(t: Buckets, index: int)
    requires -1 <= index
    ensures index + 1 < |t| ==> Later(t, index) == t[index + 1] + Later(t, index + 1)
    ensures index + 1 >= |t| ==> Later(t, index) == []
    ensures Later(t, -1) == Flat(t)
  {
    hide Flat, Later;
    LaterEnds(t);
    if index + 1 < |t| { LaterBucket(t, index); }
  }

  lemma LaterEnds(t: Buckets)
    ensures forall i :: i + 1 >= |t| ==> Later(t, i) == []
    ensures Later(t, -1) == Flat(t)
  {
    hide Flat;
    FlatOne([]);
    assert t[0..] == t && t[|t|..] == [];
  }

  lemma LaterBucket(t: Buckets, index: int)
    requires -1 <= index < |t| - 1
    ensures Later(t, index) == t[index + 1] + Later(t, index + 1)
  {
    hide Flat;
    var b, rest := t[index + 1], t[index + 2..];
    assert t[index + 1..] == [b] + rest;
    FlatConcat([b], rest);
    FlatOne(b);
  }

  lemma FlatOne(b: seq<Entry>)
    ensures Flat([b]) == b && Flat([]) == []
  {
    assert [b][..0] == [];
  }

  ghost predicate EndOf<T>(rest: seq<T>, chain: seq<T>) {
    |rest| <= |chain| && chain[|chain| - |rest|..] == rest
  }

  /** Deleting the entry just returned leaves the saved rest and the later buckets as they are. */
  lemma CutBehind(t: Buckets, hash: string -> nat, index: int, e: Entry, rest: seq<Entry>)
    requires Good(t, hash) && 0 <= index < |t| && EndOf([e] + rest, t[index])
    ensures var r := Cut(t, hash, e.key);
            |r| == |t| && EndOf(rest, r[index]) && Later(r, index) == Later(t, index)
            && Get(t, hash, e.key) == Some(e.value)
  {
    var chain := t[index];
    var n := |chain| - |rest| - 1;
    assert GoodChain(chain, hash, index, |t|);
    assert chain[n] == chain[n..][0] == e && chain[n + 1..] == chain[n..][1..] == rest;
    SearchAt(chain, n);
    WithoutAt(chain, n);
    assert Cut(t, hash, e.key)[index + 1..] == t[index + 1..];
  }

  lemma {:induction false} WithoutAt(chain: seq<Entry>, n: nat)
    requires DistinctKeys(chain) && n < |chain|
    ensures Without(chain, chain[n].key) == chain[..n] + chain[n + 1..]
  {
    if n > 0 {
      WithoutAt(chain[1..], n - 1);
      assert chain[1..][..n - 1] == chain[1..n] && chain[1..][n..] == chain[n + 1..];
    }
  }

  function KeysOf(es: seq<Entry>, drop: string -> bool): set<string> {
    if es == [] then {} else KeysOf(es[..|es| - 1], drop) + if drop(es[|es| - 1].key) then {es[|es| - 1].key} else {}
  }

  lemma RemoveMore(m: map<string, int>, a: set<string>, b: set<string>)
    ensures m - a - b == m - (a + b)
  {
  }

  lemma NoKeys(drop: string -> bool, m: map<string, int>)
    ensures KeysOf([], drop) == {} && m - {} == m
  {
  }

  lemma KeysNext(es: seq<Entry>, e: Entry, drop: string -> bool)
    ensures KeysOf(es + [e], drop) == KeysOf(es, drop) + if drop(e.key) then {e.key} else {}
  {
    assert (es + [e])[..|es|] == es;
  }

  /** Each key is visited once: the entries in bucket order have distinct keys, and are those of the map. */
  lemma {:induction false} VisitedOnce(t: Buckets, hash: string -> nat, key: string)
    requires Good(t, hash)
    ensures DistinctKeys(Flat(t)) && Search(Flat(t), key) == Get(t, hash, key)
  {
    assert t[..|t|] == t;
    FlatDistinct(t, hash, |t|);
    FlatSearch(t, hash, |t|, key);
  }
}
