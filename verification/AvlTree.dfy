/**
 The pointer code of control_loop/avl_tree.h: nodes with parent links and cached heights and sizes,
 updated in place.  Every operation is proved to leave behind the tree that module AvlShape
 computes, so a reachable tree is always a balanced, correctly cached, sorted one.
 */
module AvlTree {
  import opened AvlShape

  /** The heap holds exactly this tree, hanging below p. */
  ghost predicate Linked(t: Tree, p: Node?)
    reads Nodes(t)`left, Nodes(t)`right, Nodes(t)`parent, Nodes(t)`height, Nodes(t)`size
  {
    t.Branch? ==>
      && t.n.height == t.h && t.n.size == t.c
      && t.n.left == Root(t.l) && t.n.right == Root(t.r) && t.n.parent == p
      && Linked(t.l, t.n) && Linked(t.r, t.n)
  }

  /** The heap holds exactly this path, from a hole whose root is child up to the root of the tree. */
  ghost predicate LinkedContext(x: Context, child: Node?, root: Node?)
    reads ContextNodes(x)`left, ContextNodes(x)`right, ContextNodes(x)`parent, ContextNodes(x)`height,
          ContextNodes(x)`size
  {
    if x.Top? then root == child
    else
      && x.p.height == x.h && x.p.size == x.c && x.p.parent == Above(x.up)
      && x.p.left == (if x.InLeft? then child else Root(x.sib))
      && x.p.right == (if x.InLeft? then Root(x.sib) else child)
      && Linked(x.sib, x.p) && LinkedContext(x.up, x.p, root)
  }

  lemma {:induction false} LinkedPlug(x: Context, t: Tree, root: Node?)
    ensures Linked(Plug(x, t), null) && root == Root(Plug(x, t))
            <==> Linked(t, Above(x)) && LinkedContext(x, Root(t), root)
  {
    if !x.Top? { LinkedPlug(x.up, Attach(x, t), root); }
  }

  /** A subtree in its place: linked below the path, and sharing no node with it. */
  ghost predicate InPlace(x: Context, t: Tree, root: Node?)
    reads (Nodes(t) + ContextNodes(x))`left, (Nodes(t) + ContextNodes(x))`right, (Nodes(t) + ContextNodes(x))`parent,
          (Nodes(t) + ContextNodes(x))`height, (Nodes(t) + ContextNodes(x))`size
  {
    Linked(t, Above(x)) && LinkedContext(x, Root(t), root) && Distinct(t) && Apart(x, Nodes(t))
  }

  lemma InPlacePlug(x: Context, t: Tree, root: Node?)
    ensures InPlace(x, t, root) <==> Linked(Plug(x, t), null) && root == Root(Plug(x, t)) && Distinct(Plug(x, t))
  {
    LinkedPlug(x, t, root);
    PlugDistinct(x, t);
  }

  /** Refresh the cached height and size of a node from its children (update_meta). */
  method UpdateMeta(node: Node, ghost t: Tree, ghost p: Node?)
    requires t.Branch? && t.n == node && Linked(t, p) && Distinct(t)
    modifies node`height, node`size
    ensures Linked(Update(t), p)
  {
    var childrenHeight := 0;
    if node.left != null && node.left.height > childrenHeight { childrenHeight := node.left.height; }
    if node.right != null && node.right.height > childrenHeight { childrenHeight := node.right.height; }
    var size := 1;
    if node.left != null { size := size + node.left.size; }
    if node.right != null { size := size + node.right.size; }
    node.height := childrenHeight + 1;
    node.size := size;
  }

  method GetBalanceFactor(node: Node, ghost t: Tree, ghost p: Node?) returns (b: int)
    requires t.Branch? && t.n == node && Linked(t, p)
    ensures b == BalanceFactor(t)
  {
    b := (if node.left != null then node.left.height else 0) - (if node.right != null then node.right.height else 0);
  }

  ghost function Just(n: Node?): set<Node> { if n == null then {} else {n} }

  /** A subtree and the node above it. */
  ghost function Around(x: Context, t: Tree): set<Node> { Nodes(t) + Just(Above(x)) }

  /** The nodes a rotation writes to: the two that turn, the subtree that changes sides, the parent. */
  ghost function Touched(x: Context, t: Tree, child: Tree, moved: Tree): set<Node>
    requires t.Branch? && child.Branch?
  {
    {t.n, child.n} + Just(Root(moved)) + Just(Above(x))
  }

  lemma RootInside(t: Tree)
    ensures Just(Root(t)) <= Nodes(t)
    ensures t.Branch? ==> Nodes(t.l) <= Nodes(t) && Nodes(t.r) <= Nodes(t)
  {
  }

  lemma TouchedInside(x: Context, t: Tree)
    requires t.Branch?
    ensures t.l.Branch? ==> Touched(x, t, t.l, t.l.r) <= Around(x, t)
    ensures t.r.Branch? ==> Touched(x, t, t.r, t.r.l) <= Around(x, t)
  {
    RootInside(t);
    if t.l.Branch? { RootInside(t.l); RootInside(t.l.r); }
    if t.r.Branch? { RootInside(t.r); RootInside(t.r.l); }
  }

  /** Hang a subtree below another node. */
  method Reparent(child: Node?, p: Node?, ghost t: Tree, ghost was: Node)
    requires Linked(t, was) && Distinct(t) && child == Root(t)
    modifies Just(child)`parent
    ensures Linked(t, p)
  {
    if child != null { child.parent := p; }
  }

  /** The links of a tree are those of its root and of its subtrees. */
  lemma LinkedParts(t: Tree, p: Node?)
    requires t.Branch?
    ensures Linked(t, p) <==>
            && t.n.height == t.h && t.n.size == t.c
            && t.n.left == Root(t.l) && t.n.right == Root(t.r) && t.n.parent == p
            && Linked(t.l, t.n) && Linked(t.r, t.n)
  {
  }

  /** The links of the tree after a turn, before the cached data is refreshed. */
  method RelinkRight(node: Node, left: Node, ghost t: Tree, ghost p: Node?)
    requires Linked(t, p) && Distinct(t) && t.Branch? && t.n == node && t.l.Branch? && t.l.n == left
    modifies Touched(Top, t, t.l, t.l.r)`left, Touched(Top, t, t.l, t.l.r)`right, Touched(Top, t, t.l, t.l.r)`parent
    ensures Linked(t.l.(r := t.(l := t.l.r)), p)
  {
    hide Linked;
    ghost var low := t.(l := t.l.r);
    ghost var high := t.l.(r := low);
    assert allocated(Nodes(t));
    LinkedParts(t, p);
    LinkedParts(t.l, node);
    left.parent := node.parent;
    node.left := left.right;
    Reparent(node.left, node, t.l.r, left);
    left.right := node;
    node.parent := left;
    LinkedParts(low, left);
    LinkedParts(high, p);
  }

  method RelinkLeft(node: Node, right: Node, ghost t: Tree, ghost p: Node?)
    requires Linked(t, p) && Distinct(t) && t.Branch? && t.n == node && t.r.Branch? && t.r.n == right
    modifies Touched(Top, t, t.r, t.r.l)`left, Touched(Top, t, t.r, t.r.l)`right, Touched(Top, t, t.r, t.r.l)`parent
    ensures Linked(t.r.(l := t.(r := t.r.l)), p)
  {
    hide Linked;
    ghost var low := t.(r := t.r.l);
    ghost var high := t.r.(l := low);
    assert allocated(Nodes(t));
    LinkedParts(t, p);
    LinkedParts(t.r, node);
    right.parent := node.parent;
    node.right := right.left;
    Reparent(node.right, node, t.r.l, right);
    right.left := node;
    node.parent := right;
    LinkedParts(low, right);
    LinkedParts(high, p);
  }

  /** The rest of right_rotate: relink the two nodes and the subtree between them. */
  method TurnRight(node: Node, ghost t: Tree, ghost p: Node?)
    requires Linked(t, p) && Distinct(t) && t.Branch? && t.n == node && t.l.Branch?
    modifies Touched(Top, t, t.l, t.l.r)`left, Touched(Top, t, t.l, t.l.r)`right, Touched(Top, t, t.l, t.l.r)`parent,
             Touched(Top, t, t.l, t.l.r)`height, Touched(Top, t, t.l, t.l.r)`size
    ensures Linked(RotateRight(t), p)
  {
    assert allocated(Nodes(t));
    var left := node.left;
    RelinkRight(node, left, t, p);
    ghost var low := t.(l := t.l.r);
    UpdateMeta(node, low, left);
    ghost var high := t.l.(r := Update(low));
    assert Linked(high, p);
    UpdateMeta(left, high, p);
  }

  method TurnLeft(node: Node, ghost t: Tree, ghost p: Node?)
    requires Linked(t, p) && Distinct(t) && t.Branch? && t.n == node && t.r.Branch?
    modifies Touched(Top, t, t.r, t.r.l)`left, Touched(Top, t, t.r, t.r.l)`right, Touched(Top, t, t.r, t.r.l)`parent,
             Touched(Top, t, t.r, t.r.l)`height, Touched(Top, t, t.r, t.r.l)`size
    ensures Linked(RotateLeft(t), p)
  {
    assert allocated(Nodes(t));
    var right := node.right;
    RelinkLeft(node, right, t, p);
    ghost var low := t.(r := t.r.l);
    UpdateMeta(node, low, right);
    ghost var high := t.r.(l := Update(low));
    assert Linked(high, p);
    UpdateMeta(right, high, p);
  }

  lemma LinkedRoot(t: Tree, p: Node?)
    requires Linked(t, p) && t.Branch?
    ensures t.n.parent == p && t.n.left == Root(t.l) && t.n.right == Root(t.r)
  {
  }

  /** Moving the hole down to a child changes nothing. */
  lemma Descend(x: Context, t: Tree, root: Node?)
    requires t.Branch?
    ensures InPlace(x, t, root) <==> InPlace(DownLeft(x, t), t.l, root)
    ensures InPlace(x, t, root) <==> InPlace(DownRight(x, t), t.r, root)
    ensures Plug(DownLeft(x, t), t.l) == Plug(x, t) && Plug(DownRight(x, t), t.r) == Plug(x, t)
  {
    InPlacePlug(x, t, root);
    InPlacePlug(DownLeft(x, t), t.l, root);
    InPlacePlug(DownRight(x, t), t.r, root);
  }

  ghost function DownLeft(x: Context, t: Tree): Context
    requires t.Branch?
  {
    InLeft(t.n, t.h, t.c, t.r, x)
  }

  ghost function DownRight(x: Context, t: Tree): Context
    requires t.Branch?
  {
    InRight(t.n, t.h, t.c, t.l, x)
  }

  ghost predicate Sorted(ks: seq<real>) {
    forall i, j :: 0 <= i < j < |ks| ==> ks[i] <= ks[j]
  }

  ghost predicate HaveKeys(ns: seq<Node>, ks: seq<real>)
    reads ns`value
  {
    |ns| == |ks| && forall i :: 0 <= i < |ns| ==> ns[i].value == ks[i]
  }

  /** Everything before index lo is at most the value, everything from hi on at least. */
  ghost predicate Between(ks: seq<real>, lo: int, hi: int, value: real) {
    && 0 <= lo <= hi <= |ks| && (forall k :: 0 <= k < lo ==> ks[k] <= value)
    && (forall k :: hi <= k < |ks| ==> value <= ks[k])
  }

  /** Everything before index lo is below the value, everything from hi on above. */
  ghost predicate Strictly(ks: seq<real>, lo: int, hi: int, value: real) {
    && 0 <= lo <= hi <= |ks| && (forall k :: 0 <= k < lo ==> ks[k] < value)
    && (forall k :: hi <= k < |ks| ==> value < ks[k])
  }

  lemma NarrowStrictly(ks: seq<real>, lo: int, hi: int, mid: int, value: real)
    requires Sorted(ks) && Strictly(ks, lo, hi, value) && lo <= mid < hi
    ensures value > ks[mid] ==> Strictly(ks, mid + 1, hi, value)
    ensures value < ks[mid] ==> Strictly(ks, lo, mid, value)
  {
  }

  lemma Narrow(ks: seq<real>, lo: int, hi: int, mid: int, value: real)
    requires Sorted(ks) && Between(ks, lo, hi, value) && lo <= mid < hi
    ensures value >= ks[mid] ==> Between(ks, mid + 1, hi, value)
    ensures value <= ks[mid] ==> Between(ks, lo, mid, value)
  {
  }

  /** A value may be inserted before index i. */
  ghost predicate SplitAt(ks: seq<real>, i: int, value: real) { Between(ks, i, i, value) }

  lemma InsertSorted(ks: seq<real>, i: int, value: real)
    requires Sorted(ks) && SplitAt(ks, i, value)
    ensures Sorted(ks[..i] + [value] + ks[i..])
  {
  }

  lemma RemoveSorted(ks: seq<real>, i: int)
    requires Sorted(ks) && 0 <= i < |ks|
    ensures Sorted(ks[..i] + ks[i + 1..])
  {
  }

  /** Index of the root of t, and of the first node in the hole, in the order of the whole tree. */
  ghost function Lo(x: Context): nat { |NodesBefore(x)| }
  ghost function Mid(x: Context, t: Tree): nat
    requires t.Branch?
  {
    Lo(x) + |InOrder(t.l)|
  }

  lemma Position(x: Context, t: Tree)
    ensures Lo(x) + |InOrder(t)| + |NodesAfter(x)| == |InOrder(Plug(x, t))|
    ensures t.Branch? ==>
              && Mid(x, t) < |InOrder(Plug(x, t))| && InOrder(Plug(x, t))[Mid(x, t)] == t.n
              && Lo(DownLeft(x, t)) == Lo(x) && Lo(DownRight(x, t)) == Mid(x, t) + 1
              && Mid(x, t) + 1 + |InOrder(t.r)| == Lo(x) + |InOrder(t)|
  {
    PlugInOrder(x, t);
  }

  lemma {:induction false} InOrderNodes(t: Tree)
    ensures (set n | n in InOrder(t)) == Nodes(t)
  {
    if t.Branch? { InOrderNodes(t.l); InOrderNodes(t.r); }
  }

  class SearchTree {
    var root: Node?
    var count: int
    ghost var tree: Tree        // the shape in the heap
    ghost var keys: seq<real>   // the keys, in order

    ghost predicate Valid()
      reads this, Nodes(tree), InOrder(tree)
    {
      && InPlace(Top, tree, root) && Avl(tree) && count == Size(tree)
      && HaveKeys(InOrder(tree), keys) && Sorted(keys)
    }

    constructor ()
      ensures Valid() && keys == [] && Nodes(tree) == {}
    {
      root, count, tree, keys := null, 0, Leaf, [];
    }

    /** The descent of insert: find the leaf position for a value, going left on ties. */
    method FindSlot(value: real) returns (cur: Node, ghost x: Context, ghost t: Tree)
      requires Valid() && root != null
      ensures InPlace(x, t, root) && Plug(x, t) == tree && t.Branch? && t.n == cur
      ensures value > cur.value ==> t.r.Leaf? && SplitAt(keys, Lo(DownRight(x, t)), value)
      ensures value <= cur.value ==> t.l.Leaf? && SplitAt(keys, Lo(DownLeft(x, t)), value)
      ensures Valid()
    {
      hide Valid, InPlace, Linked, LinkedContext, InOrder, NodesBefore, Sorted;
      Facts();
      StartBetween(value);
      cur := root;
      x, t := Top, tree;
      while true
        invariant Valid() && InPlace(x, t, root) && Plug(x, t) == tree && t.Branch? && t.n == cur
        invariant Between(keys, Lo(x), Lo(x) + |InOrder(t)|, value)
        decreases t
      {
        ghost var mid := Mid(x, t);
        Visit(x, t);
        Narrow(keys, Lo(x), Lo(x) + |InOrder(t)|, mid, value);
        NoLeaves();
        if value > cur.value {
          if cur.right == null { break; }
          cur := cur.right;
          x, t := DownRight(x, t), t.r;
        } else {
          if cur.left == null { break; }
          cur := cur.left;
          x, t := DownLeft(x, t), t.l;
        }
      }
    }

    lemma StartBetween(value: real)
      requires Valid()
      ensures Between(keys, Lo(Top), Lo(Top) + |InOrder(tree)|, value)
      ensures Strictly(keys, Lo(Top), Lo(Top) + |InOrder(tree)|, value)
      ensures InPlace(Top, tree, root) && Root(tree) == root
    {
    }

    lemma NoLeaves()
      ensures |InOrder(Leaf)| == 0
    {
    }

    /** What one sees at a node of the tree. */
    lemma Visit(x: Context, t: Tree)
      requires Valid() && InPlace(x, t, root) && Plug(x, t) == tree && t.Branch?
      ensures Lo(x) <= Mid(x, t) < Lo(x) + |InOrder(t)| <= |keys| && keys[Mid(x, t)] == t.n.value
      ensures t.n.left == Root(t.l) && t.n.right == Root(t.r) && t.n.size == t.c && t.c == Size(t)
      ensures InPlace(DownLeft(x, t), t.l, root) && Plug(DownLeft(x, t), t.l) == tree
      ensures InPlace(DownRight(x, t), t.r, root) && Plug(DownRight(x, t), t.r) == tree
      ensures Lo(DownLeft(x, t)) == Lo(x) && Lo(x) + |InOrder(t.l)| == Mid(x, t)
      ensures Lo(DownRight(x, t)) == Mid(x, t) + 1 && Mid(x, t) + 1 + |InOrder(t.r)| == Lo(x) + |InOrder(t)|
    {
      Position(x, t);
      Descend(x, t, root);
      PlugAvl(x, t);
      assert InOrder(tree)[Mid(x, t)].value == keys[Mid(x, t)];
    }

    /** Make a new node the child of the parent in the place of an old one. */
    method Redirect(node: Node, child: Node?, ghost x: Context, ghost t: Tree)
      requires t.Branch? && t.n == node && node.parent == Above(x) && LinkedContext(x, node, root) && Apart(x, Nodes(t))
      modifies this`root, Just(Above(x))`left, Just(Above(x))`right
      ensures LinkedContext(x, child, root)
    {
      if !x.Top? { ApartDisjoint(x.up, Nodes(t) + {x.p} + Nodes(x.sib)); }
      if node.parent != null {
        if node == node.parent.left {
          node.parent.left := child;
        } else {
          node.parent.right := child;
        }
      } else {
        root := child;
      }
    }

    /** right_rotate. */
    method RightRotate(node: Node, ghost x: Context, ghost t: Tree)
      requires InPlace(x, t, root) && t.Branch? && t.n == node && t.l.Branch?
      modifies this`root, Touched(x, t, t.l, t.l.r)`left, Touched(x, t, t.l, t.l.r)`right,
               Touched(x, t, t.l, t.l.r)`parent, Touched(x, t, t.l, t.l.r)`height, Touched(x, t, t.l, t.l.r)`size
      ensures InPlace(x, RotateRight(t), root)
    {
      hide Linked, LinkedContext, Apart;
      ApartDisjoint(x, Nodes(t));
      RotateNodes(t);
      LinkedRoot(t, Above(x));
      AboveInside(x);
      assert allocated(Nodes(t)) && allocated(ContextNodes(x));
      Redirect(node, node.left, x, t);
      TurnRight(node, t, Above(x));
    }

    /** left_rotate. */
    method LeftRotate(node: Node, ghost x: Context, ghost t: Tree)
      requires InPlace(x, t, root) && t.Branch? && t.n == node && t.r.Branch?
      modifies this`root, Touched(x, t, t.r, t.r.l)`left, Touched(x, t, t.r, t.r.l)`right,
               Touched(x, t, t.r, t.r.l)`parent, Touched(x, t, t.r, t.r.l)`height, Touched(x, t, t.r, t.r.l)`size
      ensures InPlace(x, RotateLeft(t), root)
    {
      hide Linked, LinkedContext, Apart;
      ApartDisjoint(x, Nodes(t));
      RotateNodes(t);
      LinkedRoot(t, Above(x));
      AboveInside(x);
      assert allocated(Nodes(t)) && allocated(ContextNodes(x));
      Redirect(node, node.right, x, t);
      TurnLeft(node, t, Above(x));
    }

    /** The right child leans left: turn it first, then the node. */
    method DoubleLeft(node: Node, ghost x: Context, ghost t: Tree)
      requires InPlace(x, t, root) && t.Branch? && t.n == node && t.r.Branch? && t.r.l.Branch?
      modifies this`root, Around(x, t)`left, Around(x, t)`right, Around(x, t)`parent, Around(x, t)`height,
               Around(x, t)`size
      ensures InPlace(x, RotateLeft(t.(r := RotateRight(t.r))), root)
    {
      ghost var x' := DownRight(x, t);
      Descend(x, t, root);
      TouchedInside(x', t.r);
      RightRotate(node.right, x', t.r);
      ghost var u := t.(r := RotateRight(t.r));
      assert Attach(x', u.r) == u;
      Descend(x, u, root);
      RotateNodes(t.r);
      LeftRotate(node, x, u);
    }

    method DoubleRight(node: Node, ghost x: Context, ghost t: Tree)
      requires InPlace(x, t, root) && t.Branch? && t.n == node && t.l.Branch? && t.l.r.Branch?
      modifies this`root, Around(x, t)`left, Around(x, t)`right, Around(x, t)`parent, Around(x, t)`height,
               Around(x, t)`size
      ensures InPlace(x, RotateRight(t.(l := RotateLeft(t.l))), root)
    {
      ghost var x' := DownLeft(x, t);
      Descend(x, t, root);
      TouchedInside(x', t.l);
      LeftRotate(node.left, x', t.l);
      ghost var u := t.(l := RotateLeft(t.l));
      assert Attach(x', u.l) == u;
      Descend(x, u, root);
      RotateNodes(t.l);
      RightRotate(node, x, u);
    }

    /** One iteration of the loop in balance. */
    method FixNode(node: Node, ghost x: Context, ghost t: Tree)
      requires InPlace(x, t, root) && Fixable(t) && t.n == node
      modifies this`root, Around(x, t)`left, Around(x, t)`right, Around(x, t)`parent, Around(x, t)`height,
               Around(x, t)`size
      ensures InPlace(x, Fix(t), root)
    {
      hide LinkedContext;
      ApartDisjoint(x, Nodes(t));
      assert allocated(Nodes(t)) && allocated(ContextNodes(x));
      UpdateMeta(node, t, Above(x));
      ghost var s := Update(t);
      assert Nodes(s) == Nodes(t) && Distinct(s);
      assert InPlace(x, s, root);
      Rebalance(node, x, t, s);
    }

    /** The rotations of fix_node, the node's own cached values being right. */
    method Rebalance(node: Node, ghost x: Context, ghost t: Tree, ghost s: Tree)
      requires Fixable(t) && s == Update(t) && InPlace(x, s, root) && s.n == node
      modifies this`root, Around(x, s)`left, Around(x, s)`right, Around(x, s)`parent, Around(x, s)`height,
               Around(x, s)`size
      ensures InPlace(x, Fix(t), root)
    {
      hide LinkedContext;
      ApartDisjoint(x, Nodes(s));
      assert allocated(Nodes(s)) && allocated(ContextNodes(x));
      TouchedInside(x, s);
      var balance := GetBalanceFactor(node, s, Above(x));
      if balance < -1 {
        var rightBalance := GetBalanceFactor(node.right, s.r, node);
        if rightBalance == -1 || rightBalance == 0 {
          LeftRotate(node, x, s);
        } else {
          DoubleLeft(node, x, s);
        }
      } else if balance > 1 {
        var leftBalance := GetBalanceFactor(node.left, s.l, node);
        if leftBalance == 0 || leftBalance == 1 {
          RightRotate(node, x, s);
        } else {
          DoubleRight(node, x, s);
        }
      }
    }

    /** The same, seen from the repaired subtree below. */
    method FixParent(node: Node, ghost x: Context, ghost s: Tree, ghost all: set<Node>)
      requires InPlace(x, s, root) && !x.Top? && x.p == node && Fixable(Attach(x, s)) &&
               ContextNodes(x) + Nodes(s) == all
      modifies this`root, all`left, all`right, all`parent, all`height, all`size
      ensures InPlace(x.up, Fix(Attach(x, s)), root) && ContextNodes(x.up) + Nodes(Fix(Attach(x, s))) == all
    {
      ghost var t := Attach(x, s);
      assert Plug(x.up, t) == Plug(x, s);
      InPlacePlug(x, s, root);
      InPlacePlug(x.up, t, root);
      FixNodes(t);
      assert Around(x.up, t) <= all;
      FixNode(node, x.up, t);
    }

    /** balance: repair every node from this one up to the root. */
    method Balance(start: Node?, ghost x: Context, ghost s: Tree)
      requires InPlace(x, s, root) && start == Above(x) && Climbable(x, s)
      modifies this`root, (ContextNodes(x) + Nodes(s))`left, (ContextNodes(x) + Nodes(s))`right,
               (ContextNodes(x) + Nodes(s))`parent, (ContextNodes(x) + Nodes(s))`height,
               (ContextNodes(x) + Nodes(s))`size
      ensures InPlace(Top, Climb(x, s), root)
    {
      ghost var y, u := x, s;
      ghost var all := ContextNodes(x) + Nodes(s);
      var node := start;
      while node != null
        invariant InPlace(y, u, root) && node == Above(y) && Climbable(y, u) && Climb(y, u) == Climb(x, s)
        invariant ContextNodes(y) + Nodes(u) == all
        decreases y
      {
        var parent := node.parent;
        FixParent(node, y, u, all);
        y, u := y.up, Fix(Attach(y, u));
        node := parent;
      }
    }

    /** Hang a new leaf below a node that has no child on that side. */
    method Grow(cur: Node, value: real, toRight: bool, ghost x: Context, ghost t: Tree)
      returns (n: Node, ghost y: Context)
      requires InPlace(x, t, root) && t.Branch? && t.n == cur && (if toRight then t.r.Leaf? else t.l.Leaf?)
      modifies cur`left, cur`right
      ensures fresh(n) && n.value == value && y == (if toRight then DownRight(x, t) else DownLeft(x, t))
      ensures InPlace(y, Branch(n, 1, 1, Leaf, Leaf), root)
    {
      assert allocated(Nodes(t)) && allocated(ContextNodes(x));
      Descend(x, t, root);
      y := if toRight then DownRight(x, t) else DownLeft(x, t);
      ApartDisjoint(y.up, Nodes(Leaf) + {y.p} + Nodes(y.sib));
      n := new Node(value, cur);
      if toRight { cur.right := n; } else { cur.left := n; }
      ApartFresh(y, n);
      assert Nodes(Branch(n, 1, 1, Leaf, Leaf)) == {n};
    }

    lemma ApartFresh(y: Context, n: Node)
      requires Apart(y, {}) && n !in ContextNodes(y)
      ensures Apart(y, {n})
    {
      ApartMore(y, {}, {n});
      assert {} + {n} == {n};
    }

    lemma {:induction false} ApartMore(y: Context, a: set<Node>, b: set<Node>)
      requires Apart(y, a) && b !! ContextNodes(y)
      ensures Apart(y, a + b)
      decreases y
    {
      if !y.Top? {
        ApartMore(y.up, a + {y.p} + Nodes(y.sib), b);
        assert a + {y.p} + Nodes(y.sib) + b == a + b + {y.p} + Nodes(y.sib);
      }
    }

    /** Rebalance after a subtree has been replaced, and take stock. */
    method Install(start: Node?, ghost y: Context, ghost was: Tree, ghost s: Tree, ghost ks: seq<real>)
      requires InPlace(y, s, root) && start == Above(y)
      requires Avl(Plug(y, was)) && Avl(s) && -1 <= Height(s) - Height(was) <= 1
      requires HaveKeys(NodesBefore(y) + InOrder(s) + NodesAfter(y), ks) && Sorted(ks) && count == |ks|
      modifies this, (ContextNodes(y) + Nodes(s))`left, (ContextNodes(y) + Nodes(s))`right,
               (ContextNodes(y) + Nodes(s))`parent, (ContextNodes(y) + Nodes(s))`height,
               (ContextNodes(y) + Nodes(s))`size
      ensures Valid() && keys == ks && Nodes(tree) == ContextNodes(y) + Nodes(s)
    {
      hide Linked, Avl, Sorted, Height, Nodes, ContextNodes, InOrder, NodesBefore, NodesAfter;
      ghost var ns := NodesBefore(y) + InOrder(s) + NodesAfter(y);
      assert allocated(NodesBefore(y)) && allocated(InOrder(s)) && allocated(NodesAfter(y));
      ClimbAvl(y, was, s);
      ClimbNodes(y, s);
      ClimbInOrder(y, s);
      InOrderSize(Climb(y, s));
      Balance(start, y, s);
      assert HaveKeys(ns, ks);
      ghost var u := Climb(y, s);
      assert InOrder(u) == ns && allocated(Nodes(u));
      tree, keys := u, ks;
      assert Linked(u, null);
    }

    lemma NodesAllocated(x: Context, t: Tree)
      requires Plug(x, t) == tree
      ensures Nodes(tree) == ContextNodes(x) + Nodes(t)
      ensures t.Branch? ==> t.n in Nodes(tree)
    {
      PlugNodes(x, t);
    }

    lemma InsertedKeys(y: Context, n: Node, ks: seq<real>)
      requires HaveKeys(InOrder(Plug(y, Leaf)), ks)
      ensures Lo(y) <= |ks| && HaveKeys(NodesBefore(y) + [n] + NodesAfter(y), ks[..Lo(y)] + [n.value] + ks[Lo(y)..])
    {
      PlugInOrder(y, Leaf);
      var ns, ms := InOrder(Plug(y, Leaf)), NodesBefore(y) + [n] + NodesAfter(y);
      forall i | 0 <= i < |ms| ensures ms[i].value == (ks[..Lo(y)] + [n.value] + ks[Lo(y)..])[i] {
        assert i < Lo(y) ==> ms[i] == ns[i];
        assert i > Lo(y) ==> ms[i] == ns[i - 1];
      }
    }

    method InsertFirst(value: real)
      requires Valid() && root == null
      modifies this
      ensures Valid() && keys == [value] && old(keys) == [] && fresh(Nodes(tree))
    {
      root := new Node(value, null);
      count := count + 1;
      tree, keys := Branch(root, 1, 1, Leaf, Leaf), [value];
      assert Height(tree) == 1 && Avl(tree.l) && Avl(tree.r);
    }

    /** What Valid says, piece by piece. */
    lemma Facts()
      requires Valid()
      ensures InPlace(Top, tree, root) && Avl(tree) && Distinct(tree) && |InOrder(tree)| == |keys| == count
      ensures HaveKeys(InOrder(tree), keys) && Sorted(keys)
    {
      InOrderSize(tree);
    }

    lemma SingleNode(n: Node)
      ensures var s := Branch(n, 1, 1, Leaf, Leaf);
              Avl(s) && Height(s) == 1 && Height(Leaf) == 0 && InOrder(s) == [n] && Nodes(s) == {n} && Nodes(Leaf) == {}
    {
      assert Height(Leaf) == 0;
    }

    /** insert. */
    method Insert(value: real) returns (ghost at: int)
      requires Valid()
      modifies this, Nodes(tree)
      ensures Valid() && 0 <= at <= |old(keys)| && keys == old(keys)[..at] + [value] + old(keys)[at..]
      ensures fresh(Nodes(tree) - old(Nodes(tree)))
    {
      hide Valid, InPlace, Linked, LinkedContext, Avl, Nodes, InOrder, ContextNodes, HaveKeys, Sorted, Height;
      if root == null {
        at := 0;
        InsertFirst(value);
        return;
      }
      var cur: Node;
      ghost var x, t;
      cur, x, t := FindSlot(value);
      Facts();
      NodesAllocated(x, t);
      assert allocated(InOrder(tree));
      var n;
      ghost var y;
      n, y := Grow(cur, value, value > cur.value, x, t);
      count := count + 1;
      at := Lo(y);
      InsertSorted(keys, at, value);
      assert Plug(y, Leaf) == tree;
      NodesAllocated(y, Leaf);
      InsertedKeys(y, n, keys);
      SingleNode(n);
      Install(cur, y, Leaf, Branch(n, 1, 1, Leaf, Leaf), keys[..at] + [value] + keys[at..]);
    }

    /** The search of remove; with duplicates it may stop at any of the equal keys. */
    method FindKey(value: real) returns (cur: Node?, ghost x: Context, ghost t: Tree)
      requires Valid()
      ensures Valid() && InPlace(x, t, root) && Plug(x, t) == tree && cur == Root(t)
      ensures cur != null ==> cur.value == value
      ensures cur == null <==> value !in keys
    {
      hide Valid, InPlace, Linked, LinkedContext, InOrder, NodesBefore, Sorted;
      Facts();
      StartBetween(value);
      cur := root;
      x, t := Top, tree;
      while cur != null
        invariant Valid() && InPlace(x, t, root) && Plug(x, t) == tree && cur == Root(t)
        invariant Strictly(keys, Lo(x), Lo(x) + |InOrder(t)|, value)
        decreases t
      {
        ghost var mid := Mid(x, t);
        Visit(x, t);
        NarrowStrictly(keys, Lo(x), Lo(x) + |InOrder(t)|, mid, value);
        if value == cur.value {
          assert keys[mid] in keys;
          break;
        } else if value < cur.value {
          cur := cur.left;
          x, t := DownLeft(x, t), t.l;
        } else {
          cur := cur.right;
          x, t := DownRight(x, t), t.r;
        }
      }
      NoLeaves();
    }

    /** The predecessor of a node with a left child: the last node of its left subtree. */
    method FindPredecessor(cur: Node, ghost x: Context, ghost t: Tree)
      returns (pred: Node, ghost y: Context, ghost u: Tree)
      requires Valid() && InPlace(x, t, root) && Plug(x, t) == tree && t.Branch? && t.n == cur && t.l.Branch?
      ensures Valid() && InPlace(y, u, root) && Plug(y, u) == tree && u.Branch? && u.n == pred && u.r.Leaf?
      ensures Mid(y, u) + 1 == Mid(x, t)
    {
      Visit(x, t);
      pred := cur.left;
      y, u := DownLeft(x, t), t.l;
      Visit(y, u);
      while pred.right != null
        invariant Valid() && InPlace(y, u, root) && Plug(y, u) == tree && u.Branch? && u.n == pred
        invariant Lo(y) + |InOrder(u)| == Mid(x, t)
        decreases u
      {
        Visit(y, u);
        pred := pred.right;
        y, u := DownRight(y, u), u.r;
      }
      Visit(y, u);
    }

    /** Take a node with at most one child out of the tree. */
    method Unlink(node: Node, ghost y: Context, ghost u: Tree) returns (ghost c: Tree)
      requires InPlace(y, u, root) && u.Branch? && u.n == node && (u.l.Leaf? || u.r.Leaf?)
      modifies this`root, Just(Above(y))`left, Just(Above(y))`right, Nodes(u)`parent
      ensures c == (if u.l.Branch? then u.l else u.r) && InPlace(y, c, root) && node.parent == Above(y)
    {
      assert allocated(Nodes(u)) && allocated(ContextNodes(y));
      ApartDisjoint(y, Nodes(u));
      RootInside(u.l);
      RootInside(u.r);
      var child := if node.left != null then node.left else node.right;
      c := if u.l.Branch? then u.l else u.r;
      Redirect(node, child, y, u);
      Reparent(child, node.parent, c, node);
      ApartLess(y, Nodes(u), Nodes(c));
    }

    lemma {:induction false} ApartLess(y: Context, a: set<Node>, b: set<Node>)
      requires Apart(y, a) && b <= a
      ensures Apart(y, b)
      decreases y
    {
      if !y.Top? {
        ApartLess(y.up, a + {y.p} + Nodes(y.sib), b + {y.p} + Nodes(y.sib));
      }
    }

    lemma ChildHeight(u: Tree)
      requires Avl(u) && u.Branch? && (u.l.Leaf? || u.r.Leaf?)
      ensures var c := if u.l.Branch? then u.l else u.r; Avl(c) && Height(c) + 1 == Height(u) && Nodes(c) <= Nodes(u)
    {
      AvlParts(u);
    }

    /** The keys that are left when the node at the root of u, with at most one child, goes. */
    lemma RemainingKeys(y: Context, u: Tree, ks: seq<real>)
      requires u.Branch? && (u.l.Leaf? || u.r.Leaf?) && HaveKeys(InOrder(Plug(y, u)), ks)
      ensures var c := if u.l.Branch? then u.l else u.r;
              && Mid(y, u) < |ks|
              && HaveKeys(NodesBefore(y) + InOrder(c) + NodesAfter(y), ks[..Mid(y, u)] + ks[Mid(y, u) + 1..])
    {
      Position(y, u);
      PlugInOrder(y, u);
      Gap(NodesBefore(y), InOrder(u.l), u.n, InOrder(u.r), NodesAfter(y));
      DropKey(InOrder(Plug(y, u)), ks, Mid(y, u));
    }

    lemma Gap(a: seq<Node>, l: seq<Node>, n: Node, r: seq<Node>, b: seq<Node>)
      ensures var all, m := a + (l + [n] + r) + b, |a| + |l|;
              && all[..m] + all[m + 1..] == a + (l + r) + b
              && l + [] == l && [] + r == r
    {
      var all, m := a + (l + [n] + r) + b, |a| + |l|;
      assert all[..m] == a + l && all[m + 1..] == r + b;
    }

    lemma DropKey(ns: seq<Node>, ks: seq<real>, m: int)
      requires HaveKeys(ns, ks) && 0 <= m < |ns|
      ensures HaveKeys(ns[..m] + ns[m + 1..], ks[..m] + ks[m + 1..])
    {
    }

    /** The second half of remove: unlink a node with at most one child and rebalance. */
    method RemoveNode(node: Node, ghost y: Context, ghost u: Tree, ghost ks: seq<real>)
      requires InPlace(y, u, root) && u.Branch? && u.n == node && (u.l.Leaf? || u.r.Leaf?)
      requires Plug(y, u) == tree && Avl(tree) && HaveKeys(InOrder(tree), ks) && count == |ks|
      requires Mid(y, u) < |ks| && Sorted(ks[..Mid(y, u)] + ks[Mid(y, u) + 1..])
      modifies this, Nodes(tree)
      ensures Valid() && keys == ks[..Mid(y, u)] + ks[Mid(y, u) + 1..] && Nodes(tree) <= old(Nodes(tree))
    {
      hide InPlace, Linked, LinkedContext, Avl, Nodes, InOrder, ContextNodes, Sorted, Height, Valid, NodesBefore,
           NodesAfter, Apart;
      PlugNodes(y, u);
      PlugAvl(y, u);
      ChildHeight(u);
      RemainingKeys(y, u, ks);
      AboveInside(y);
      ghost var c := if u.l.Branch? then u.l else u.r;
      ghost var ns := NodesBefore(y) + InOrder(c) + NodesAfter(y);
      assert allocated(NodesBefore(y)) && allocated(InOrder(c)) && allocated(NodesAfter(y));
      c := Unlink(node, y, u);
      assert HaveKeys(ns, ks[..Mid(y, u)] + ks[Mid(y, u) + 1..]);
      count := count - 1;
      Install(node.parent, y, u, c, ks[..Mid(y, u)] + ks[Mid(y, u) + 1..]);
    }

    lemma AboveInside(y: Context)
      ensures Just(Above(y)) <= ContextNodes(y)
    {
    }

    lemma SwappedKeys(ks: seq<real>, k: int)
      requires 0 < k < |ks|
      ensures var sw := ks[k - 1 := ks[k]][k := ks[k - 1]];
              sw[..k - 1] + sw[k..] == ks[..k] + ks[k + 1..]
    {
    }

    /** swap_node: exchange the keys of a node and its predecessor. */
    method SwapKeys(cur: Node, pred: Node, ghost k: int)
      requires HaveKeys(InOrder(tree), keys) && Distinct(tree) && 0 < k < |keys|
      requires InOrder(tree)[k] == cur && InOrder(tree)[k - 1] == pred
      modifies cur`value, pred`value
      ensures HaveKeys(InOrder(tree), keys[k - 1 := keys[k]][k := keys[k - 1]])
    {
      InOrderDistinct(tree);
      var value := cur.value;
      cur.value := pred.value;
      pred.value := value;
    }

    lemma {:induction false} InOrderDistinct(t: Tree)
      requires Distinct(t)
      ensures forall i, j :: 0 <= i < j < |InOrder(t)| ==> InOrder(t)[i] != InOrder(t)[j]
    {
      if t.Branch? {
        InOrderDistinct(t.l);
        InOrderDistinct(t.r);
        InOrderNodes(t.l);
        InOrderNodes(t.r);
        var a, b := InOrder(t.l), InOrder(t.r);
        assert forall i :: 0 <= i < |a| ==> a[i] in Nodes(t.l);
        assert forall i :: 0 <= i < |b| ==> b[i] in Nodes(t.r);
      }
    }

    /** remove: exactly one occurrence of the value goes, if there is one. */
    method Remove(value: real) returns (ghost at: int)
      requires Valid()
      modifies this, Nodes(tree)
      ensures Valid() && Nodes(tree) <= old(Nodes(tree))
      ensures value !in old(keys) ==> keys == old(keys)
      ensures value in old(keys) ==>
                0 <= at < |old(keys)| && old(keys)[at] == value && keys == old(keys)[..at] + old(keys)[at + 1..]
    {
      hide Valid, InPlace, Linked, LinkedContext, Avl, Nodes, InOrder, ContextNodes, HaveKeys, Sorted;
      at := 0;
      var cur;
      ghost var x, t;
      cur, x, t := FindKey(value);
      if cur == null { return; }
      Visit(x, t);
      Facts();
      NodesAllocated(x, t);
      at := Mid(x, t);
      RemoveSorted(keys, at);
      if cur.left != null && cur.right != null {
        var pred;
        ghost var y, u;
        pred, y, u := FindPredecessor(cur, x, t);
        Visit(y, u);
        NodesAllocated(y, u);
        Position(x, t);
        Position(y, u);
        SwappedKeys(keys, at);
        assert allocated(Nodes(tree));
        SwapKeys(cur, pred, at);
        RemoveNode(pred, y, u, keys[at - 1 := keys[at]][at := keys[at - 1]]);
      } else {
        RemoveNode(cur, x, t, keys);
      }
    }

    /** count_less. */
    method CountLess(value: real, withEqual: bool) returns (counter: int)
      requires Valid()
      ensures Valid()
      ensures !withEqual || value !in keys ==> counter == NumBelow(keys, value)
      ensures withEqual && value in keys ==> 0 < counter <= |keys| && keys[counter - 1] == value
      ensures withEqual && value in keys ==> NumBelow(keys, value) < counter <= NumAtMost(keys, value)
      ensures withEqual ==> counter == NumAtMost(keys, value) - Missed(tree, value)
    {
      hide Valid, InPlace, Linked, LinkedContext, InOrder, NodesBefore, Sorted, NumBelow, NumAtMost, Split, Missed;
      Facts();
      StartSplit(value, withEqual);
      counter := 0;
      var cur := root;
      ghost var x, t := Top, tree;
      while cur != null
        invariant Valid() && InPlace(x, t, root) && Plug(x, t) == tree && cur == Root(t) && counter == Lo(x)
        invariant Split(keys, Lo(x), Lo(x) + |InOrder(t)|, value, withEqual)
        invariant Missed(tree, value) == Missed(t, value) || !withEqual
        decreases t
      {
        CountVisit(x, t, value, withEqual);
        if value == cur.value {
          if withEqual {
            FoundCount(x, t, value);
            counter := counter + 1 + if cur.left != null then cur.left.size else 0;
            RankBounds(keys, counter, value);
            return;
          } else {
            cur := cur.left;
            x, t := DownLeft(x, t), t.l;
          }
        } else if value > cur.value {
          counter := counter + 1 + if cur.left != null then cur.left.size else 0;
          cur := cur.right;
          x, t := DownRight(x, t), t.r;
        } else {
          cur := cur.left;
          x, t := DownLeft(x, t), t.l;
        }
      }
      LeafEnds(value);
      SplitCount(keys, Lo(x), value, withEqual);
    }

    /** What the count learns at a node. */
    lemma CountVisit(x: Context, t: Tree, value: real, withEqual: bool)
      requires Valid() && InPlace(x, t, root) && Plug(x, t) == tree && t.Branch?
      requires Split(keys, Lo(x), Lo(x) + |InOrder(t)|, value, withEqual)
      ensures Lo(x) + |InOrder(t)| <= |keys| && Mid(x, t) < |keys| && keys[Mid(x, t)] == t.n.value
      ensures t.n.value in keys && t.n.left == Root(t.l) && t.n.right == Root(t.r)
      ensures InPlace(DownLeft(x, t), t.l, root) && Plug(DownLeft(x, t), t.l) == tree
      ensures InPlace(DownRight(x, t), t.r, root) && Plug(DownRight(x, t), t.r) == tree
      ensures Lo(DownLeft(x, t)) == Lo(x) && Lo(DownRight(x, t)) == Mid(x, t) + 1
      ensures Mid(x, t) == Lo(x) + if t.n.left == null then 0 else t.n.left.size
      ensures value > t.n.value ==>
                && Split(keys, Mid(x, t) + 1, Mid(x, t) + 1 + |InOrder(t.r)|, value, withEqual)
                && Missed(t, value) == Missed(t.r, value)
      ensures value < t.n.value || (value == t.n.value && !withEqual) ==>
                Split(keys, Lo(x), Lo(x) + |InOrder(t.l)|, value, withEqual)
      ensures value < t.n.value ==> Missed(t, value) == Missed(t.l, value)
    {
      hide Valid, InPlace, Linked, LinkedContext, InOrder, NodesBefore, Sorted, Split, Missed;
      Visit(x, t);
      Facts();
      NarrowSplit(keys, Lo(x), Lo(x) + |InOrder(t)|, Mid(x, t), value, withEqual);
      LeftSize(x, t);
      MissedBelow(x, t, value);
      assert keys[Mid(x, t)] in keys;
    }

    /** The keys of a subtree stand together. */
    lemma SegmentKeys(x: Context, t: Tree)
      requires Valid() && InPlace(x, t, root) && Plug(x, t) == tree
      ensures Lo(x) + |InOrder(t)| <= |keys| && HaveKeys(InOrder(t), keys[Lo(x)..Lo(x) + |InOrder(t)|])
    {
      hide InPlace, Linked, LinkedContext, Valid, InOrder, NodesBefore, NodesAfter, Sorted, Avl;
      Position(x, t);
      Facts();
      PlugInOrder(x, t);
      SliceKeys(NodesBefore(x), InOrder(t), NodesAfter(x), keys);
    }

    /** Below a node with another key, the side that cannot hold the value misses nothing. */
    lemma MissedBelow(x: Context, t: Tree, value: real)
      requires Valid() && InPlace(x, t, root) && Plug(x, t) == tree && t.Branch?
      ensures value > t.n.value ==> Missed(t, value) == Missed(t.r, value)
      ensures value < t.n.value ==> Missed(t, value) == Missed(t.l, value)
    {
      hide Valid, InPlace, Linked, LinkedContext, InOrder, NodesBefore, Equals, NumEqual;
      Visit(x, t);
      Facts();
      var lo, mid := Lo(x), Mid(x, t);
      SegmentKeys(DownLeft(x, t), t.l);
      SegmentKeys(DownRight(x, t), t.r);
      if value > t.n.value {
        EqualsInOrder(t.l, value, keys[lo..mid]);
        NumEqualIs(keys[lo..mid], 0, value);
        MissedIsEqual(t.l, value);
      } else if value < t.n.value {
        EqualsInOrder(t.r, value, keys[mid + 1..lo + |InOrder(t)|]);
        NumEqualIs(keys[mid + 1..lo + |InOrder(t)|], 0, value);
        MissedIsEqual(t.r, value);
      }
    }

    /** The count at the topmost node with the value. */
    lemma FoundCount(x: Context, t: Tree, value: real)
      requires Valid() && InPlace(x, t, root) && Plug(x, t) == tree && t.Branch? && t.n.value == value
      requires Split(keys, Lo(x), Lo(x) + |InOrder(t)|, value, true)
      ensures Mid(x, t) + 1 + Missed(t, value) == NumAtMost(keys, value)
    {
      hide Valid, InPlace, Linked, LinkedContext, InOrder, NodesBefore, NumAtMost, Equals, NumEqual;
      Visit(x, t);
      Facts();
      SegmentKeys(DownRight(x, t), t.r);
      EqualsInOrder(t.r, value, keys[Mid(x, t) + 1..Lo(x) + |InOrder(t)|]);
      CountOnwards(keys, Mid(x, t), Lo(x) + |InOrder(t)|, value);
    }

    lemma LeafEnds(value: real)
      ensures |InOrder(Leaf)| == 0 && Missed(Leaf, value) == 0
    {
    }

    lemma StartSplit(value: real, withEqual: bool)
      requires Valid()
      ensures Lo(Top) == 0 && Sorted(keys) && Split(keys, 0, |InOrder(tree)|, value, withEqual)
      ensures InPlace(Top, tree, root) && Root(tree) == root
    {
    }

    lemma LeftSize(x: Context, t: Tree)
      requires Valid() && InPlace(x, t, root) && Plug(x, t) == tree && t.Branch?
      ensures |InOrder(t.l)| == if t.n.left == null then 0 else t.n.left.size
    {
      PlugAvl(x, t);
      AvlParts(t);
      CachedOk(t.l);
      InOrderSize(t.l);
      assert Linked(t.l, t.n);
    }
  }

  /** How many nodes of the tree have this key. */
  ghost function Equals(t: Tree, v: real): nat
    reads Nodes(t)`value
  {
    if t.Leaf? then 0 else Equals(t.l, v) + Equals(t.r, v) + if t.n.value == v then 1 else 0
  }

  /** How many of them are to the right of the topmost one. */
  ghost function Missed(t: Tree, v: real): nat
    reads Nodes(t)`value
  {
    if t.Leaf? then 0 else if t.n.value == v then Equals(t.r, v) else Missed(t.l, v) + Missed(t.r, v)
  }

  lemma SliceKeys(a: seq<Node>, b: seq<Node>, c: seq<Node>, ks: seq<real>)
    requires HaveKeys(a + b + c, ks)
    ensures HaveKeys(b, ks[|a|..|a| + |b|])
  {
    forall i | 0 <= i < |b|
      ensures b[i].value == ks[|a| + i]
    {
      assert (a + b + c)[|a| + i] == b[i];
    }
  }

  lemma {:induction false} MissedIsEqual(t: Tree, v: real)
    ensures Missed(t, v) <= Equals(t, v)
  {
    if t.Branch? {
      MissedIsEqual(t.l, v);
      MissedIsEqual(t.r, v);
    }
  }

  ghost function NumEqual(ks: seq<real>, v: real): nat {
    if ks == [] then 0 else NumEqual(ks[..|ks| - 1], v) + if ks[|ks| - 1] == v then 1 else 0
  }

  lemma {:induction false} NumEqualConcat(a: seq<real>, b: seq<real>, v: real)
    ensures NumEqual(a + b, v) == NumEqual(a, v) + NumEqual(b, v)
  {
    if b == [] {
      assert a + b == a;
    } else {
      NumEqualConcat(a, b[..|b| - 1], v);
      assert (a + b)[..|a + b| - 1] == a + b[..|b| - 1];
    }
  }

  lemma {:induction false} NumEqualIs(ks: seq<real>, m: nat, v: real)
    requires m <= |ks| && (forall k :: 0 <= k < m ==> ks[k] == v) && (forall k :: m <= k < |ks| ==> ks[k] != v)
    ensures NumEqual(ks, v) == m
  {
    if ks != [] {
      var n := |ks| - 1;
      NumEqualIs(ks[..n], if m <= n then m else n, v);
    }
  }

  /** Behind an occurrence of a value, the keys at most the value are those equal to it. */
  lemma {:induction false} CountOnwards(ks: seq<real>, mid: nat, hi: nat, v: real)
    requires Sorted(ks) && mid < hi <= |ks| && ks[mid] == v && forall k :: hi <= k < |ks| ==> v < ks[k]
    ensures NumAtMost(ks, v) == mid + 1 + NumEqual(ks[mid + 1..hi], v)
  {
    hide NumAtMost, NumEqual;
    var h := FirstAbove(ks, v);
    NumAtMostIs(ks, h, v);
    assert mid < h && (h < |ks| ==> v < ks[h]);
    assert hi < |ks| ==> v < ks[hi];
    NumEqualIs(ks[mid + 1..hi], h - mid - 1, v);
  }

  lemma {:induction false} EqualsInOrder(t: Tree, v: real, ks: seq<real>)
    requires HaveKeys(InOrder(t), ks)
    ensures Equals(t, v) == NumEqual(ks, v)
  {
    hide NumEqual;
    if t.Branch? {
      var m, ns := |InOrder(t.l)|, InOrder(t);
      assert forall i :: 0 <= i < m ==> ns[i] == InOrder(t.l)[i];
      assert ns[m] == t.n;
      assert forall i :: 0 <= i < |InOrder(t.r)| ==> ns[m + 1 + i] == InOrder(t.r)[i];
      var a, b := ks[..m], ks[m + 1..];
      EqualsInOrder(t.l, v, a);
      EqualsInOrder(t.r, v, b);
      assert ks == a + [t.n.value] + b;
      NumEqualConcat(a + [t.n.value], b, v);
      NumEqualConcat(a, [t.n.value], v);
      NumEqualIs([t.n.value], if t.n.value == v then 1 else 0, v);
    } else {
      NumEqualIs(ks, 0, v);
    }
  }

  /** How many keys are below a value, and how many are at most the value. */
  ghost function NumBelow(ks: seq<real>, v: real): nat {
    if ks == [] then 0 else NumBelow(ks[..|ks| - 1], v) + if ks[|ks| - 1] < v then 1 else 0
  }

  ghost function NumAtMost(ks: seq<real>, v: real): nat {
    if ks == [] then 0 else NumAtMost(ks[..|ks| - 1], v) + if ks[|ks| - 1] <= v then 1 else 0
  }

  lemma {:induction false} NumBelowIs(ks: seq<real>, i: int, v: real)
    requires 0 <= i <= |ks| && (forall k :: 0 <= k < i ==> ks[k] < v) && (forall k :: i <= k < |ks| ==> v <= ks[k])
    ensures NumBelow(ks, v) == i
  {
    if ks != [] {
      var n := |ks| - 1;
      NumBelowIs(ks[..n], if i <= n then i else n, v);
    }
  }

  lemma {:induction false} NumAtMostIs(ks: seq<real>, i: int, v: real)
    requires 0 <= i <= |ks| && (forall k :: 0 <= k < i ==> ks[k] <= v) && (forall k :: i <= k < |ks| ==> v < ks[k])
    ensures NumAtMost(ks, v) == i
  {
    if ks != [] {
      var n := |ks| - 1;
      NumAtMostIs(ks[..n], if i <= n then i else n, v);
    }
  }

  /** Below lo the keys are smaller than the value; from hi on they are not, or even larger. */
  ghost predicate Split(ks: seq<real>, lo: int, hi: int, value: real, withEqual: bool) {
    && 0 <= lo <= hi <= |ks| && (forall k :: 0 <= k < lo ==> ks[k] < value)
    && (forall k :: hi <= k < |ks| ==> value <= ks[k] && (withEqual ==> value != ks[k]))
  }

  lemma NarrowSplit(ks: seq<real>, lo: int, hi: int, mid: int, value: real, withEqual: bool)
    requires Sorted(ks) && Split(ks, lo, hi, value, withEqual) && lo <= mid < hi
    ensures value > ks[mid] ==> Split(ks, mid + 1, hi, value, withEqual)
    ensures value < ks[mid] || (value == ks[mid] && !withEqual) ==> Split(ks, lo, mid, value, withEqual)
  {
  }

  lemma SplitCount(ks: seq<real>, i: int, value: real, withEqual: bool)
    requires Split(ks, i, i, value, withEqual)
    ensures NumBelow(ks, value) == i && (withEqual ==> value !in ks && NumAtMost(ks, value) == i)
  {
    NumBelowIs(ks, i, value);
    if withEqual { NumAtMostIs(ks, i, value); }
  }

  /**
   The rank that count_less(value, true) returns for a present value lies between the number of
   smaller keys plus one and the number of keys at most the value; with distinct keys it is the latter.
   */
  lemma {:induction false} RankBounds(ks: seq<real>, n: int, value: real)
    requires Sorted(ks) && 0 < n <= |ks| && ks[n - 1] == value
    ensures NumBelow(ks, value) + 1 <= n <= NumAtMost(ks, value)
    ensures n == NumAtMost(ks, value) <==> n == |ks| || ks[n] > value
    ensures (forall i, j :: 0 <= i < j < |ks| ==> ks[i] != ks[j]) ==> n == NumAtMost(ks, value)
  {
    var lo := FirstAtLeast(ks, value);
    NumBelowIs(ks, lo, value);
    var hi := FirstAbove(ks, value);
    NumAtMostIs(ks, hi, value);
  }

  lemma {:induction false} FirstAtLeast(ks: seq<real>, v: real) returns (i: int)
    requires Sorted(ks)
    ensures 0 <= i <= |ks| && (forall k :: 0 <= k < i ==> ks[k] < v) && (forall k :: i <= k < |ks| ==> v <= ks[k])
  {
    if ks == [] || ks[|ks| - 1] < v {
      i := |ks|;
    } else {
      i := FirstAtLeast(ks[..|ks| - 1], v);
    }
  }

  lemma {:induction false} FirstAbove(ks: seq<real>, v: real) returns (i: int)
    requires Sorted(ks)
    ensures 0 <= i <= |ks| && (forall k :: 0 <= k < i ==> ks[k] <= v) && (forall k :: i <= k < |ks| ==> v < ks[k])
  {
    if ks == [] || ks[|ks| - 1] <= v {
      i := |ks|;
    } else {
      i := FirstAbove(ks[..|ks| - 1], v);
    }
  }

  lemma ThreeNodes(t: Tree)
    requires Avl(t) && Size(t) == 3
    ensures t.Branch? && Size(t.r) == 1
  {
    assert Size(t) == Size(t.l) + 1 + Size(t.r);
    TallEnough(t.l);
    TallEnough(t.r);
    assert MetaOk(t.l) && Balanced(t);
  }

  lemma {:induction false} TallEnough(t: Tree)
    ensures Size(t) >= 2 ==> Height(t) >= 2
    ensures Size(t) == 0 <==> t.Leaf?
    ensures t.Leaf? ==> Height(t) == 0
  {
    if t.Branch? {
      TallEnough(t.l);
      TallEnough(t.r);
      assert t.l.Branch? ==> Height(t.l) >= 1;
      assert t.r.Branch? ==> Height(t.r) >= 1;
    }
  }

  /** Of three equal keys, one is to the right of the root. */
  lemma OneIsMissed(s: SearchTree)
    requires s.Valid() && s.count == 3 && forall i :: 0 <= i < |s.keys| ==> s.keys[i] == 1.0
    ensures Missed(s.tree, 1.0) == 1
  {
    hide NumEqual, Equals;
    ThreeNodes(s.tree);
    InOrderSize(s.tree.r);
    var m, ns := |InOrder(s.tree.l)|, InOrder(s.tree);
    assert ns[m] == s.tree.n && ns[m + 1] == InOrder(s.tree.r)[0];
    EqualsInOrder(s.tree.r, 1.0, [1.0]);
    NumEqualIs([1.0], 1, 1.0);
  }

  /** With three equal values, count_less(v, true) finds the root and its left subtree, and answers two. */
  method CountLessMissesDuplicates() returns (s: SearchTree, counted: int)
    ensures s.Valid() && s.keys == [1.0, 1.0, 1.0] && counted == 2 && NumAtMost(s.keys, 1.0) == 3
  {
    hide *;
    s := new SearchTree();
    ghost var at := s.Insert(1.0);
    assert s.keys == [1.0];
    at := s.Insert(1.0);
    assert s.keys == [1.0, 1.0];
    at := s.Insert(1.0);
    assert s.keys == [1.0, 1.0, 1.0];
    counted := s.CountLess(1.0, true);
    s.Facts();
    OneIsMissed(s);
    NumAtMostIs(s.keys, 3, 1.0);
  }
}
