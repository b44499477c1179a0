/**
 The pure side of the order-statistic AVL tree of control_loop/avl_tree.h: the shape of a tree as a
 value, rotations and rebalancing on such values, and what they keep.  Module AvlTree proves that
 the pointer code computes exactly these values.
 */
module AvlShape {

  /** The linked nodes.  Points are compared by their performance alone, so a node's key is a number. */
  class Node {
    var value: real
    var left: Node?
    var right: Node?
    var parent: Node?
    var height: int
    var size: int

    constructor (value: real, parent: Node?)
      ensures this.value == value && this.parent == parent && left == null && right == null && height == 1 && size == 1
    {
      this.value, this.parent := value, parent;
      left, right, height, size := null, null, 1, 1;
    }
  }

  /** A snapshot of a linked tree: each node with the contents of its fields. */
  datatype Tree = Leaf | Branch(n: Node, h: int, c: int, l: Tree, r: Tree)

  /** A path from a subtree up to the root, with the sibling hanging off each step. */
  datatype Context =
    | Top
    | InLeft(p: Node, h: int, c: int, sib: Tree, up: Context)
    | InRight(p: Node, h: int, c: int, sib: Tree, up: Context)

  ghost function Max(a: int, b: int): int { if a >= b then a else b }

  ghost function Min(a: int, b: int): int { if a <= b then a else b }

  ghost function Height(t: Tree): nat { if t.Leaf? then 0 else 1 + Max(Height(t.l), Height(t.r)) }
  ghost function Size(t: Tree): nat { if t.Leaf? then 0 else Size(t.l) + 1 + Size(t.r) }
  ghost function InOrder(t: Tree): seq<Node> { if t.Leaf? then [] else InOrder(t.l) + [t.n] + InOrder(t.r) }
  ghost function Nodes(t: Tree): set<Node> { if t.Leaf? then {} else Nodes(t.l) + {t.n} + Nodes(t.r) }
  ghost function Root(t: Tree): Node? { if t.Leaf? then null else t.n }

  /** No node occurs twice. */
  ghost predicate Distinct(t: Tree) {
    t.Branch? ==> Distinct(t.l) && Distinct(t.r) && t.n !in Nodes(t.l) && t.n !in Nodes(t.r) && Nodes(t.l) !! Nodes(t.r)
  }

  /** Cached heights and sizes are right. */
  ghost predicate MetaOk(t: Tree) {
    t.Branch? ==> MetaOk(t.l) && MetaOk(t.r) && t.h == Height(t) && t.c == Size(t)
  }

  ghost predicate Balanced(t: Tree) {
    t.Branch? ==> Balanced(t.l) && Balanced(t.r) && -1 <= Height(t.l) - Height(t.r) <= 1
  }

  ghost predicate Avl(t: Tree) { MetaOk(t) && Balanced(t) }

  // ---------------------------------------------------------------- contexts

  ghost function Attach(x: Context, t: Tree): Tree
    requires !x.Top?
  {
    if x.InLeft? then Branch(x.p, x.h, x.c, t, x.sib) else Branch(x.p, x.h, x.c, x.sib, t)
  }

  ghost function Plug(x: Context, t: Tree): Tree {
    if x.Top? then t else Plug(x.up, Attach(x, t))
  }

  ghost function ContextNodes(x: Context): set<Node> {
    if x.Top? then {} else ContextNodes(x.up) + {x.p} + Nodes(x.sib)
  }

  ghost function Above(x: Context): Node? { if x.Top? then null else x.p }

  /** The nodes to the left and to the right of the hole. */
  ghost function NodesBefore(x: Context): seq<Node> {
    match x
    case Top => []
    case InLeft(_, _, _, _, up) => NodesBefore(up)
    case InRight(p, _, _, sib, up) => NodesBefore(up) + InOrder(sib) + [p]
  }

  ghost function NodesAfter(x: Context): seq<Node> {
    match x
    case Top => []
    case InLeft(p, _, _, sib, up) => [p] + InOrder(sib) + NodesAfter(up)
    case InRight(_, _, _, _, up) => NodesAfter(up)
  }

  lemma RegroupRight(a: seq<Node>, t: seq<Node>, p: seq<Node>, s: seq<Node>, b: seq<Node>)
    ensures a + (t + p + s) + b == a + t + (p + s + b)
  {
  }

  lemma RegroupLeft(a: seq<Node>, s: seq<Node>, p: seq<Node>, t: seq<Node>, b: seq<Node>)
    ensures a + (s + p + t) + b == (a + s + p) + t + b
  {
  }

  lemma {:induction false} PlugInOrder(x: Context, t: Tree)
    ensures InOrder(Plug(x, t)) == NodesBefore(x) + InOrder(t) + NodesAfter(x)
  {
    if !x.Top? {
      PlugInOrder(x.up, Attach(x, t));
      var a, b := NodesBefore(x.up), NodesAfter(x.up);
      if x.InLeft? {
        RegroupRight(a, InOrder(t), [x.p], InOrder(x.sib), b);
      } else {
        RegroupLeft(a, InOrder(x.sib), [x.p], InOrder(t), b);
      }
    }
  }

  lemma {:induction false} PlugNodes(x: Context, t: Tree)
    ensures Nodes(Plug(x, t)) == ContextNodes(x) + Nodes(t)
  {
    if !x.Top? { PlugNodes(x.up, Attach(x, t)); }
  }

  /** The context has no node twice, and shares none with the subtree. */
  ghost predicate Apart(x: Context, ns: set<Node>) {
    !x.Top? ==>
      && Distinct(x.sib) && x.p !in Nodes(x.sib) && x.p !in ns && Nodes(x.sib) !! ns
      && Apart(x.up, ns + {x.p} + Nodes(x.sib))
  }

  lemma {:induction false} ApartDisjoint(x: Context, ns: set<Node>)
    requires Apart(x, ns)
    ensures ContextNodes(x) !! ns
  {
    if !x.Top? { ApartDisjoint(x.up, ns + {x.p} + Nodes(x.sib)); }
  }

  lemma {:induction false} PlugDistinct(x: Context, t: Tree)
    ensures Distinct(Plug(x, t)) <==> Distinct(t) && Apart(x, Nodes(t))
  {
    if !x.Top? {
      PlugDistinct(x.up, Attach(x, t));
      assert Nodes(Attach(x, t)) == Nodes(t) + {x.p} + Nodes(x.sib);
    }
  }

  lemma {:induction false} InOrderSize(t: Tree)
    ensures |InOrder(t)| == Size(t)
  {
    if t.Branch? { InOrderSize(t.l); InOrderSize(t.r); }
  }

  lemma {:induction false} PlugAvl(x: Context, t: Tree)
    requires Avl(Plug(x, t))
    ensures Avl(t)
  {
    if !x.Top? { PlugAvl(x.up, Attach(x, t)); }
  }

  // ---------------------------------------------------------------- rebalancing

  ghost function CachedHeight(t: Tree): int { if t.Leaf? then 0 else t.h }
  ghost function CachedSize(t: Tree): int { if t.Leaf? then 0 else t.c }

  ghost function Update(t: Tree): (u: Tree)
    requires t.Branch?
    ensures u.Branch?
  {
    t.(h := 1 + Max(0, Max(CachedHeight(t.l), CachedHeight(t.r))), c := 1 + CachedSize(t.l) + CachedSize(t.r))
  }

  ghost function BalanceFactor(t: Tree): int
    requires t.Branch?
  {
    CachedHeight(t.l) - CachedHeight(t.r)
  }

  ghost function RotateRight(t: Tree): (u: Tree)
    requires t.Branch? && t.l.Branch?
    ensures u.Branch? && u.r.Branch?
  {
    Update(t.l.(r := Update(t.(l := t.l.r))))
  }

  ghost function RotateLeft(t: Tree): (u: Tree)
    requires t.Branch? && t.r.Branch?
    ensures u.Branch? && u.l.Branch?
  {
    Update(t.r.(l := Update(t.(r := t.r.l))))
  }

  /** The rotations can follow the child pointers they rely on. */
  ghost predicate Fixable(t: Tree) {
    && t.Branch?
    && (BalanceFactor(t) < -1 ==> t.r.Branch? && (BalanceFactor(t.r) == -1 || BalanceFactor(t.r) == 0 || t.r.l.Branch?))
    && (BalanceFactor(t) > 1 ==> t.l.Branch? && (BalanceFactor(t.l) == 0 || BalanceFactor(t.l) == 1 || t.l.r.Branch?))
  }

  /** One iteration of balance: refresh the node, and rotate if it leans by two. */
  ghost function Fix(t: Tree): (u: Tree)
    requires Fixable(t)
    ensures u.Branch?
  {
    var s := Update(t);
    if BalanceFactor(s) < -1 then
      if BalanceFactor(s.r) == -1 || BalanceFactor(s.r) == 0 then RotateLeft(s)
      else RotateLeft(s.(r := RotateRight(s.r)))
    else if BalanceFactor(s) > 1 then
      if BalanceFactor(s.l) == 0 || BalanceFactor(s.l) == 1 then RotateRight(s)
      else RotateRight(s.(l := RotateLeft(s.l)))
    else s
  }

  /** Two AVL subtrees whose heights differ by at most two. */
  ghost predicate NearlyAvl(t: Tree) {
    t.Branch? && Avl(t.l) && Avl(t.r) && -2 <= Height(t.l) - Height(t.r) <= 2
  }

  lemma CachedOk(t: Tree)
    requires MetaOk(t)
    ensures CachedHeight(t) == Height(t) && CachedSize(t) == Size(t)
  {
  }

  lemma AvlParts(t: Tree)
    requires Avl(t) && t.Branch?
    ensures Avl(t.l) && Avl(t.r) && -1 <= Height(t.l) - Height(t.r) <= 1 &&
            Height(t) == 1 + Max(Height(t.l), Height(t.r))
  {
  }

  lemma NearlyFixable(t: Tree)
    requires NearlyAvl(t)
    ensures Fixable(t)
  {
    CachedOk(t.l);
    CachedOk(t.r);
    if t.r.Branch? { CachedOk(t.r.l); CachedOk(t.r.r); }
    if t.l.Branch? { CachedOk(t.l.l); CachedOk(t.l.r); }
  }

  lemma UpdateAvl(t: Tree)
    requires t.Branch? && Avl(t.l) && Avl(t.r) && -1 <= Height(t.l) - Height(t.r) <= 1
    ensures Avl(Update(t)) && Height(Update(t)) == 1 + Max(Height(t.l), Height(t.r))
  {
    CachedOk(t.l);
    CachedOk(t.r);
  }

  lemma RotateLeftAvl(t: Tree)
    requires NearlyAvl(t) && t.r.Branch? && Height(t.r) == Height(t.l) + 2 && Height(t.r.l) <= Height(t.r.r)
    ensures Avl(RotateLeft(t)) && Height(t.r) <= Height(RotateLeft(t)) <= Height(t.r) + 1
  {
    UpdateAvl(t.(r := t.r.l));
    UpdateAvl(t.r.(l := Update(t.(r := t.r.l))));
  }

  lemma RotateRightAvl(t: Tree)
    requires NearlyAvl(t) && t.l.Branch? && Height(t.l) == Height(t.r) + 2 && Height(t.l.r) <= Height(t.l.l)
    ensures Avl(RotateRight(t)) && Height(t.l) <= Height(RotateRight(t)) <= Height(t.l) + 1
  {
    UpdateAvl(t.(l := t.l.r));
    UpdateAvl(t.l.(r := Update(t.(l := t.l.r))));
  }

  lemma DoubleLeftAvl(t: Tree)
    requires NearlyAvl(t) && t.r.Branch? && t.r.l.Branch? && Height(t.r) == Height(t.l) + 2 &&
             Height(t.r.l) == Height(t.r.r) + 1
    ensures Avl(RotateLeft(t.(r := RotateRight(t.r)))) && Height(RotateLeft(t.(r := RotateRight(t.r)))) == Height(t.r)
  {
    var m := t.r.l;
    AvlParts(t.r);
    AvlParts(m);
    var right := Update(t.r.(l := m.r));
    UpdateAvl(t.r.(l := m.r));
    var left := Update(t.(r := m.l));
    UpdateAvl(t.(r := m.l));
    UpdateAvl(m.(l := left, r := right));
    assert RotateRight(t.r) == Update(m.(r := right));
    assert RotateLeft(t.(r := RotateRight(t.r))) == Update(m.(l := left, r := right));
  }

  lemma DoubleRightAvl(t: Tree)
    requires NearlyAvl(t) && t.l.Branch? && t.l.r.Branch? && Height(t.l) == Height(t.r) + 2 &&
             Height(t.l.r) == Height(t.l.l) + 1
    ensures Avl(RotateRight(t.(l := RotateLeft(t.l)))) && Height(RotateRight(t.(l := RotateLeft(t.l)))) == Height(t.l)
  {
    var m := t.l.r;
    AvlParts(t.l);
    AvlParts(m);
    var left := Update(t.l.(r := m.l));
    UpdateAvl(t.l.(r := m.l));
    var right := Update(t.(l := m.r));
    UpdateAvl(t.(l := m.r));
    UpdateAvl(m.(l := left, r := right));
    assert RotateLeft(t.l) == Update(m.(l := left));
    assert RotateRight(t.(l := RotateLeft(t.l))) == Update(m.(l := left, r := right));
  }

  /** Fixing a node between AVL subtrees yields an AVL tree, as high as the higher subtree or one more. */
  lemma {:induction false} FixAvl(t: Tree)
    requires NearlyAvl(t)
    ensures Fixable(t) && Avl(Fix(t))
    ensures Max(Height(t.l), Height(t.r)) <= Height(Fix(t)) <= Max(Height(t.l), Height(t.r)) + 1
    ensures -1 <= Height(t.l) - Height(t.r) <= 1 ==> Height(Fix(t)) == 1 + Max(Height(t.l), Height(t.r))
  {
    NearlyFixable(t);
    CachedOk(t.l);
    CachedOk(t.r);
    var s := Update(t);
    if BalanceFactor(s) < -1 {
      CachedOk(t.r.l);
      CachedOk(t.r.r);
      if BalanceFactor(s.r) == 1 { DoubleLeftAvl(s); } else { RotateLeftAvl(s); }
    } else if BalanceFactor(s) > 1 {
      CachedOk(t.l.l);
      CachedOk(t.l.r);
      if BalanceFactor(s.l) == -1 { DoubleRightAvl(s); } else { RotateRightAvl(s); }
    } else {
      UpdateAvl(t);
    }
  }

  lemma Regroup<T>(a: seq<T>, x: T, b: seq<T>, y: T, c: seq<T>)
    ensures a + [x] + (b + [y] + c) == (a + [x] + b) + [y] + c
  {
  }

  lemma RotateRightInOrder(t: Tree)
    requires t.Branch? && t.l.Branch?
    ensures InOrder(RotateRight(t)) == InOrder(t)
  {
    Regroup(InOrder(t.l.l), t.l.n, InOrder(t.l.r), t.n, InOrder(t.r));
    assert InOrder(RotateRight(t).r) == InOrder(t.l.r) + [t.n] + InOrder(t.r);
  }

  lemma RotateLeftInOrder(t: Tree)
    requires t.Branch? && t.r.Branch?
    ensures InOrder(RotateLeft(t)) == InOrder(t)
  {
    Regroup(InOrder(t.l), t.n, InOrder(t.r.l), t.r.n, InOrder(t.r.r));
    assert InOrder(RotateLeft(t).l) == InOrder(t.l) + [t.n] + InOrder(t.r.l);
  }

  lemma {:induction false} FixInOrder(t: Tree)
    requires Fixable(t)
    ensures InOrder(Fix(t)) == InOrder(t)
  {
    var s := Update(t);
    assert InOrder(s) == InOrder(t);
    if BalanceFactor(s) < -1 {
      if BalanceFactor(s.r) == -1 || BalanceFactor(s.r) == 0 {
        RotateLeftInOrder(s);
      } else {
        RotateRightInOrder(s.r);
        RotateLeftInOrder(s.(r := RotateRight(s.r)));
      }
    } else if BalanceFactor(s) > 1 {
      if BalanceFactor(s.l) == 0 || BalanceFactor(s.l) == 1 {
        RotateRightInOrder(s);
      } else {
        RotateLeftInOrder(s.l);
        RotateRightInOrder(s.(l := RotateLeft(s.l)));
      }
    }
  }

  /** Rotations move nodes about; they neither lose nor duplicate one. */
  lemma RotateNodes(t: Tree)
    requires t.Branch? && Distinct(t)
    ensures t.l.Branch? ==> Nodes(RotateRight(t)) == Nodes(t) && Distinct(RotateRight(t))
    ensures t.r.Branch? ==> Nodes(RotateLeft(t)) == Nodes(t) && Distinct(RotateLeft(t))
  {
  }

  lemma FixNodes(t: Tree)
    requires Fixable(t) && Distinct(t)
    ensures Nodes(Fix(t)) == Nodes(t) && Distinct(Fix(t))
  {
    var s := Update(t);
    assert Nodes(s) == Nodes(t) && Distinct(s);
    RotateNodes(s);
    if BalanceFactor(s) < -1 {
      RotateNodes(s.r);
      RotateNodes(s.(r := if s.r.l.Branch? then RotateRight(s.r) else s.r));
    } else if BalanceFactor(s) > 1 {
      RotateNodes(s.l);
      RotateNodes(s.(l := if s.l.r.Branch? then RotateLeft(s.l) else s.l));
    }
  }

  // ---------------------------------------------------------------- the whole path

  /** The path above can be rebalanced step by step once s takes the place of the hole. */
  ghost predicate Climbable(x: Context, s: Tree) {
    !x.Top? ==> Fixable(Attach(x, s)) && Climbable(x.up, Fix(Attach(x, s)))
  }

  /** balance, from the parent of a repaired subtree up to the root. */
  ghost function Climb(x: Context, s: Tree): Tree
    requires Climbable(x, s)
  {
    if x.Top? then s else Climb(x.up, Fix(Attach(x, s)))
  }

  /** Replacing a subtree by an AVL tree of about the same height, and climbing, gives an AVL tree. */
  lemma {:induction false} ClimbAvl(x: Context, was: Tree, s: Tree)
    requires Avl(Plug(x, was)) && Avl(s) && -1 <= Height(s) - Height(was) <= 1
    ensures Climbable(x, s) && Avl(Climb(x, s))
    decreases x
  {
    if !x.Top? {
      var t0, t := Attach(x, was), Attach(x, s);
      PlugAvl(x.up, t0);
      AvlParts(t0);
      assert NearlyAvl(t);
      FixAvl(t);
      ClimbAvl(x.up, t0, Fix(t));
    }
  }

  lemma AttachInOrder(x: Context, s: Tree)
    requires !x.Top?
    ensures NodesBefore(x.up) + InOrder(Attach(x, s)) + NodesAfter(x.up) == NodesBefore(x) + InOrder(s) + NodesAfter(x)
  {
    if x.InLeft? {
      assert InOrder(Attach(x, s)) == InOrder(s) + ([x.p] + InOrder(x.sib));
    } else {
      assert InOrder(Attach(x, s)) == (InOrder(x.sib) + [x.p]) + InOrder(s);
    }
  }

  lemma NothingAround(s: Tree)
    ensures NodesBefore(Top) + InOrder(s) + NodesAfter(Top) == InOrder(s)
  {
  }

  lemma {:induction false} ClimbInOrder(x: Context, s: Tree)
    requires Climbable(x, s)
    ensures InOrder(Climb(x, s)) == NodesBefore(x) + InOrder(s) + NodesAfter(x)
    decreases x
  {
    hide InOrder, NodesBefore, NodesAfter, Fix;
    if x.Top? {
      NothingAround(s);
    } else {
      FixInOrder(Attach(x, s));
      ClimbInOrder(x.up, Fix(Attach(x, s)));
      AttachInOrder(x, s);
    }
  }

  lemma {:induction false} ClimbNodes(x: Context, s: Tree)
    requires Climbable(x, s) && Distinct(s) && Apart(x, Nodes(s))
    ensures Nodes(Climb(x, s)) == ContextNodes(x) + Nodes(s) && Distinct(Climb(x, s))
    decreases x
  {
    if !x.Top? {
      var t := Attach(x, s);
      assert Nodes(t) == Nodes(s) + {x.p} + Nodes(x.sib);
      FixNodes(t);
      ClimbNodes(x.up, Fix(t));
    }
  }

  // ---------------------------------------------------------------- how high a tree can be

  ghost function Fib(n: nat): nat { if n < 2 then n else Fib(n - 1) + Fib(n - 2) }

  lemma FibMonotone(n: nat)
    ensures Fib(n) <= Fib(n + 1)
  {
  }

  lemma FibUnfold(h: nat)
    ensures Fib(h + 3) == Fib(h + 2) + Fib(h + 1) && Fib(h + 1) <= Fib(h + 2)
  {
    FibMonotone(h + 1);
  }

  lemma FibTwo()
    ensures Fib(2) == 1
  {
  }

  /** A tree of height h has at least Fib(h + 2) - 1 nodes. */
  lemma {:induction false} SizeBound(t: Tree)
    requires Balanced(t)
    ensures Size(t) >= Fib(Height(t) + 2) - 1
  {
    hide Fib;
    if t.Branch? {
      SizeBound(t.l);
      SizeBound(t.r);
      var h, m := Max(Height(t.l), Height(t.r)), Min(Height(t.l), Height(t.r));
      FibUnfold(h);
      assert Height(t) + 2 == h + 3 && (m == h || m == h - 1);
      assert Size(t) == Size(t.l) + 1 + Size(t.r);
    } else {
      FibTwo();
    }
  }
}
