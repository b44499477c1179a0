/**
 The in-order iterator of control_loop/avl_tree.h:282-349, which finds successors through child and
 parent links.
 */
module TreeIterator {
  import opened AvlShape
  import opened AvlTree

  /** The node at a position of the in-order sequence, or null past its end. */
  ghost function NodeAt(t: Tree, k: nat): Node? {
    if k < |InOrder(t)| then InOrder(t)[k] else null
  }

  /** Every position of a subtree is the root of some smaller subtree. */
  lemma {:induction false} Locate(x: Context, t: Tree, k: int) returns (y: Context, u: Tree)
    requires Lo(x) <= k < Lo(x) + |InOrder(t)|
    ensures Plug(y, u) == Plug(x, t) && u.Branch? && Mid(y, u) == k
    decreases t
  {
    Position(x, t);
    if k < Mid(x, t) {
      y, u := Locate(DownLeft(x, t), t.l, k);
    } else if k > Mid(x, t) {
      y, u := Locate(DownRight(x, t), t.r, k);
    } else {
      y, u := x, t;
    }
  }

  /** Leftmost node of a non-empty subtree. */
  method Leftmost(s: SearchTree, start: Node, ghost x: Context, ghost t: Tree) returns (n: Node)
    requires s.Valid() && InPlace(x, t, s.root) && Plug(x, t) == s.tree && t.Branch? && t.n == start
    ensures s.Valid() && n == NodeAt(s.tree, Lo(x)) && Lo(x) < |s.keys|
  {
    hide *;
    n := start;
    ghost var y, u := x, t;
    while n.left != null
      invariant s.Valid() && InPlace(y, u, s.root) && Plug(y, u) == s.tree && u.Branch? && u.n == n && Lo(y) == Lo(x)
      decreases u
    {
      s.Visit(y, u);
      RootIsNull(u.l);
      n := n.left;
      y, u := DownLeft(y, u), u.l;
    }
    s.Visit(y, u);
    RootIsNull(u.l);
    FirstOf(s.tree, y, u);
  }

  lemma RootIsNull(t: Tree)
    ensures Root(t) == null <==> t.Leaf?
    ensures t.Branch? ==> Root(t) == t.n
  {
  }

  lemma FirstOf(tree: Tree, y: Context, u: Tree)
    requires Plug(y, u) == tree && u.Branch? && u.l.Leaf?
    ensures NodeAt(tree, Lo(y)) == u.n
  {
    Position(y, u);
  }

  /** The node above a left subtree is the next in order. */
  lemma NextAbove(y: Context, u: Tree)
    requires y.InLeft?
    ensures NodeAt(Plug(y, u), Lo(y) + |InOrder(u)|) == y.p
  {
    hide InOrder, Plug;
    PlugInOrder(y, u);
  }

  lemma StepsOut(y: Context, u: Tree)
    requires y.InRight?
    ensures Lo(y.up) + |InOrder(Attach(y, u))| == Lo(y) + |InOrder(u)|
  {
  }

  /** What one sees when climbing out of a subtree. */
  lemma ClimbOut(s: SearchTree, y: Context, u: Tree)
    requires s.Valid() && InPlace(y, u, s.root) && Plug(y, u) == s.tree && u.Branch?
    ensures u.n.parent == Above(y)
    ensures y.Top? ==> Lo(y) + |InOrder(u)| == |s.keys|
    ensures y.InLeft? ==> y.p.right != u.n && NodeAt(s.tree, Lo(y) + |InOrder(u)|) == y.p
    ensures y.InRight? ==>
              && y.p.right == u.n && InPlace(y.up, Attach(y, u), s.root) && Plug(y.up, Attach(y, u)) == s.tree
              && Lo(y.up) + |InOrder(Attach(y, u))| == Lo(y) + |InOrder(u)|
  {
    hide InOrder, NodeAt, Sorted, HaveKeys, Avl, SearchTree.Valid;
    s.Facts();
    Position(y, u);
    if !y.Top? {
      var t := Attach(y, u);
      InPlacePlug(y, u, s.root);
      InPlacePlug(y.up, t, s.root);
      RootInside(y.sib);
      RootInside(u);
      if y.InLeft? { NextAbove(y, u); } else { StepsOut(y, u); }
    }
  }

  /** The successor of a node without right child: the first ancestor reached from its left. */
  method ClimbToNext(s: SearchTree, cur: Node, ghost x: Context, ghost t: Tree) returns (next: Node?)
    requires s.Valid() && InPlace(x, t, s.root) && Plug(x, t) == s.tree && t.Branch? && t.n == cur
    ensures s.Valid() && next == NodeAt(s.tree, Lo(x) + |InOrder(t)|)
  {
    hide *;
    var prev := cur;
    ghost var y, u := x, t;
    ClimbOut(s, y, u);
    next := prev.parent;
    while next != null && prev == next.right
      invariant s.Valid() && InPlace(y, u, s.root) && Plug(y, u) == s.tree && u.Branch? && u.n == prev &&
                next == Above(y)
      invariant Lo(y) + |InOrder(u)| == Lo(x) + |InOrder(t)|
      decreases y
    {
      AboveIs(y);
      ClimbOut(s, y, u);
      AttachIs(y, u);
      prev := next;
      y, u := y.up, Attach(y, u);
      ClimbOut(s, y, u);
      next := next.parent;
    }
    AboveIs(y);
    ClimbOut(s, y, u);
    PastEnd(s, Lo(y) + |InOrder(u)|);
  }

  lemma AboveIs(y: Context)
    ensures if y.Top? then Above(y) == null else Above(y) == y.p
  {
  }

  lemma AttachIs(y: Context, u: Tree)
    requires !y.Top?
    ensures Attach(y, u).Branch? && Attach(y, u).n == y.p
  {
  }

  lemma PastEnd(s: SearchTree, k: nat)
    requires s.Valid()
    ensures k >= |s.keys| ==> NodeAt(s.tree, k) == null
  {
  }

  lemma StartOf(s: SearchTree)
    requires s.Valid()
    ensures InPlace(Top, s.tree, s.root) && Plug(Top, s.tree) == s.tree && Lo(Top) == 0 && |InOrder(s.tree)| == |s.keys|
    ensures s.root == Root(s.tree) && (s.root == null <==> |s.keys| == 0)
  {
  }

  /** An iterator stands at a position of the in-order sequence of its tree, with the next one at hand. */
  class Iterator {
    const tree: SearchTree
    var cur: Node?
    var next: Node?
    ghost var pos: nat

    ghost predicate Valid()
      reads this, tree, Nodes(tree.tree), InOrder(tree.tree)
    {
      tree.Valid() && pos <= |tree.keys| && cur == NodeAt(tree.tree, pos) && next == NodeAt(tree.tree, pos + 1)
    }

    /** iterator(tree), with init: start at the first node. */
    constructor (tree: SearchTree)
      requires tree.Valid()
      ensures Valid() && this.tree == tree && pos == 0
    {
      this.tree := tree;
      pos := 0;
      cur := tree.root;
      next := null;
      new;
      StartOf(tree);
      assert allocated(Nodes(tree.tree)) && allocated(InOrder(tree.tree));
      hide Linked, LinkedContext, InPlace, InOrder, Nodes, NodeAt, SearchTree.Valid, Root;
      PastEnd(tree, 0);
      PastEnd(tree, 1);
      RootIsNull(tree.tree);
      if cur != null {
        var first := Leftmost(tree, cur, Top, tree.tree);
        cur := first;
        var second := FindNext(tree, cur, 0);
        next := second;
      }
    }

    /** operator*. */
    method Value() returns (v: real)
      requires Valid() && pos < |tree.keys|
      ensures Valid() && v == tree.keys[pos]
    {
      tree.Facts();
      v := cur.value;
    }

    /** operator bool: exactly the positions before the end are dereferenceable. */
    method HasValue() returns (b: bool)
      requires Valid()
      ensures Valid() && pos <= |tree.keys| && (b <==> pos < |tree.keys|)
    {
      tree.Facts();
      b := cur != null;
    }

    /** operator++: one position on; a full traversal takes as many steps as there are nodes. */
    method Advance()
      requires Valid() && pos < |tree.keys|
      modifies this
      ensures Valid() && pos == old(pos) + 1
    {
      tree.Facts();
      assert allocated(Nodes(tree.tree)) && allocated(InOrder(tree.tree));
      cur := next;
      pos := pos + 1;
      assert tree.Valid();
      if cur == null {
        next := null;
      } else {
        var after := FindNext(tree, cur, pos);
        next := after;
      }
    }
  }

  /** find_next: the successor in the order of the tree. */
  method FindNext(s: SearchTree, cur: Node, ghost k: nat) returns (next: Node?)
    requires s.Valid() && k < |InOrder(s.tree)| && cur == NodeAt(s.tree, k)
    ensures s.Valid() && next == NodeAt(s.tree, k + 1)
  {
    ghost var x, t := Locate(Top, s.tree, k);
    assert Plug(Top, s.tree) == s.tree;
    InPlacePlug(x, t, s.root);
    InPlacePlug(Top, s.tree, s.root);
    Position(x, t);
    s.Visit(x, t);
    if cur.right != null {
      next := Leftmost(s, cur.right, DownRight(x, t), t.r);
    } else {
      next := ClimbToNext(s, cur, x, t);
    }
  }
}
