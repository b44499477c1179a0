/** Counting the entries of a table, and how a count moves when one entry changes. */
module Counting {

  function CountEq(s: seq<int>, v: int): (n: nat)
    ensures n <= |s|
  {
    if s == [] then 0
    else CountEq(s[..|s| - 1], v) + if s[|s| - 1] == v then 1 else 0
  }

  lemma {:induction false} CountUpdate(s: seq<int>, i: int, w: int, v: int)
    requires 0 <= i < |s|
    ensures CountEq(s[i := w], v) == CountEq(s, v) - (if s[i] == v then 1 else 0) + (if w == v then 1 else 0)
  {
    var n := |s| - 1;
    if i == n {
      assert s[i := w][..n] == s[..n];
    } else {
      CountUpdate(s[..n], i, w, v);
      assert s[i := w][..n] == s[..n][i := w];
    }
  }

  /** The indices at which v stands. */
  function Where(s: seq<int>, v: int): set<int> {
    set i | 0 <= i < |s| && s[i] == v
  }

  lemma {:induction false} WhereCount(s: seq<int>, v: int)
    ensures |Where(s, v)| == CountEq(s, v)
  {
    if s == [] {
      assert Where(s, v) == {};
    } else {
      var n := |s| - 1;
      WhereCount(s[..n], v);
      if s[n] == v {
        assert Where(s, v) == Where(s[..n], v) + {n};
      } else {
        assert Where(s, v) == Where(s[..n], v);
      }
    }
  }

  /** Overwrite the entries whose index lies in a set. */
  function Fill(table: seq<int>, at: set<int>, v: int): (r: seq<int>)
    ensures |r| == |table|
    ensures forall k :: 0 <= k < |table| ==> r[k] == if k in at then v else table[k]
  {
    seq(|table|, k requires 0 <= k < |table| => if k in at then v else table[k])
  }

  lemma FillNothing(table: seq<int>, v: int)
    ensures Fill(table, {}, v) == table
  {
  }

  lemma FillAdd(table: seq<int>, at: set<int>, g: int, v: int)
    requires 0 <= g < |table|
    ensures Fill(table, at, v)[g := v] == Fill(table, at + {g}, v)
  {
  }

  lemma Pick(xs: set<int>) returns (x: int)
    requires xs != {}
    ensures x in xs
  {
    if forall y :: y !in xs {
      assert false;
    } else {
      x :| x in xs;
    }
  }

  /** Filling m entries that all held u with another value moves m from one count to the other. */
  lemma {:induction false} CountFill(s: seq<int>, at: set<int>, u: int, w: int, v: int)
    requires u != w && forall i :: i in at ==> 0 <= i < |s| && s[i] == u
    ensures CountEq(Fill(s, at, w), v) ==
            CountEq(s, v) - (if u == v then |at| else 0) + (if w == v then |at| else 0)
    decreases at
  {
    if |at| == 0 {
      assert Fill(s, at, w) == s;
    } else {
      var i := Pick(at);
      CountFill(s, at - {i}, u, w, v);
      assert Fill(s, at, w) == Fill(s, at - {i}, w)[i := w];
      CountUpdate(Fill(s, at - {i}, w), i, w, v);
    }
  }

  lemma SubsetCard(xs: set<int>, ys: set<int>)
    requires xs <= ys
    ensures |xs| <= |ys|
    ensures |xs| == |ys| ==> xs == ys
  {
    assert ys == xs + (ys - xs);
  }

  /** The set a message or a handler encodes as one flag per index. */
  function Flagged(flags: seq<bool>, n: nat): set<int>
    requires n <= |flags|
  {
    set i | 0 <= i < n && flags[i]
  }

  lemma FlaggedSnoc(flags: seq<bool>, n: nat)
    requires n < |flags|
    ensures Flagged(flags, n + 1) == if flags[n] then Flagged(flags, n) + {n} else Flagged(flags, n)
  {
  }
}
