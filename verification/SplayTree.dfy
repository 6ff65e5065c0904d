// The top-down splay tree of compat/tree.h, which fdm uses as a sorted set of unique ids.
//
// The abstract value of a tree is the sequence of its nodes from left to right. Splaying rewrites the links of
// the whole tree and keeps that sequence; everything else follows from it, because a search tree is ordered
// exactly if the sequence is.

module Keys {
  /** strcmp, up to the size of a non-zero result. */
  function Cmp(a: string, b: string): int {
    if a == "" then if b == "" then 0 else -1
    else if b == "" then 1
    else if a[0] != b[0] then if a[0] < b[0] then -1 else 1
    else Cmp(a[1..], b[1..])
  }

  predicate Less(a: string, b: string) {
    Cmp(a, b) < 0
  }

  /** Up to the first byte that differs; an end comes before any byte. */
  ghost predicate Before(a: string, b: string, i: nat) {
    i <= |a| && i < |b| && a[..i] == b[..i] && (i == |a| || a[i] < b[i])
  }

  /** One key is less than another if its first byte that differs is, or if it ends where the other goes on. */
  lemma {:induction false} LessMeans(a: string, b: string)
    ensures Less(a, b) <==> exists i: nat :: Before(a, b, i)
  {
    if a == "" || b == "" || a[0] != b[0] {
      assert Before(a, b, 0) <==> Less(a, b);
      assert forall i: nat :: Before(a, b, i) && i > 0 ==> a[..i][0] == b[..i][0];
    } else {
      LessMeans(a[1..], b[1..]);
      forall i: nat ensures Before(a[1..], b[1..], i) <==> Before(a, b, i + 1) {
        BeforeMore(a, b, i);
      }
      if i: nat :| Before(a, b, i) {
        assert i > 0;
        assert Before(a[1..], b[1..], i - 1);
      }
    }
  }

  lemma BeforeMore(a: string, b: string, i: nat)
    requires a != "" && b != "" && a[0] == b[0]
    ensures Before(a[1..], b[1..], i) <==> Before(a, b, i + 1)
  {
    if i < |a| && i < |b| {
      assert a[..i + 1] == [a[0]] + a[1..][..i] && b[..i + 1] == [b[0]] + b[1..][..i];
      assert a[..i + 1][1..] == a[1..][..i] && b[..i + 1][1..] == b[1..][..i];
    }
  }

  lemma {:induction false} CmpSwap(a: string, b: string)
    ensures Cmp(a, b) == -Cmp(b, a)
    ensures Cmp(a, b) == 0 <==> a == b
  {
    if a != "" && b != "" && a[0] == b[0] {
      CmpSwap(a[1..], b[1..]);
      assert a == [a[0]] + a[1..] && b == [b[0]] + b[1..];
    }
  }

  lemma {:induction false} LessTransitive(a: string, b: string, c: string)
    requires Less(a, b) && Less(b, c)
    ensures Less(a, c)
  {
    if a != "" && a[0] == b[0] && b[0] == c[0] {
      LessTransitive(a[1..], b[1..], c[1..]);
    }
  }
}

module SplayTree {
  import opened Keys

  class Node {
    const key: string
    var left: Node?
    var right: Node?

    constructor (key: string)
      ensures this.key == key && left == null && right == null
    {
      this.key := key;
      left, right := null, null;
    }
  }

  /** The shape of a linked tree. */
  datatype Tree = Leaf | Bin(l: Tree, n: Node, r: Tree)

  ghost function Nodes(t: Tree): set<Node> {
    if t.Leaf? then {} else Nodes(t.l) + {t.n} + Nodes(t.r)
  }

  ghost function Inorder(t: Tree): seq<Node> {
    if t.Leaf? then [] else Inorder(t.l) + [t.n] + Inorder(t.r)
  }

  /** The nodes reachable from n are linked in the shape t. */
  ghost predicate Models(n: Node?, t: Tree)
    reads Nodes(t)
  {
    match t
    case Leaf => n == null
    case Bin(l, m, r) =>
      && n == m && m !in Nodes(l) && m !in Nodes(r) && Nodes(l) !! Nodes(r)
      && Models(m.left, l) && Models(m.right, r)
  }

  ghost predicate Sorted(s: seq<Node>) {
    forall i, j :: 0 <= i < j < |s| ==> Less(s[i].key, s[j].key)
  }

  ghost predicate Apart(n: Node, a: set<Node>, b: set<Node>, c: set<Node>) {
    n !in a && n !in b && n !in c && a !! b && a !! c && b !! c
  }

  lemma {:induction false} InorderNodes(t: Tree, n: Node)
    ensures n in Nodes(t) <==> n in Inorder(t)
  {
    if t.Bin? {
      InorderNodes(t.l, n);
      InorderNodes(t.r, n);
    }
  }

  // ---------------------------------------------------------------- the two side trees of a splay

  /** A side tree under construction: its inner edge, outermost node first, with the slot at the end open. */
  datatype Spine = Top | Snoc(rest: Spine, n: Node, side: Tree)

  ghost function SpineNodes(s: Spine): set<Node> {
    if s.Top? then {} else SpineNodes(s.rest) + {s.n} + Nodes(s.side)
  }

  /** The node whose slot is open; the dummy while the side tree is empty. */
  ghost function End(dummy: Node, s: Spine): Node {
    if s.Top? then dummy else s.n
  }

  /** The left side tree hangs off the dummy's right link and is open at its right edge. */
  ghost predicate LeftSpine(dummy: Node, s: Spine)
    reads dummy`right, SpineNodes(s)
  {
    s.Snoc? ==>
      && LeftSpine(dummy, s.rest) && End(dummy, s.rest).right == s.n && Models(s.n.left, s.side)
      && s.n !in Nodes(s.side) && {s.n} + Nodes(s.side) !! {dummy} + SpineNodes(s.rest)
  }

  /** The right side tree hangs off the dummy's left link and is open at its left edge. */
  ghost predicate RightSpine(dummy: Node, s: Spine)
    reads dummy`left, SpineNodes(s)
  {
    s.Snoc? ==>
      && RightSpine(dummy, s.rest) && End(dummy, s.rest).left == s.n && Models(s.n.right, s.side)
      && s.n !in Nodes(s.side) && {s.n} + Nodes(s.side) !! {dummy} + SpineNodes(s.rest)
  }

  ghost function LeftOrder(s: Spine): seq<Node> {
    if s.Top? then [] else LeftOrder(s.rest) + Inorder(s.side) + [s.n]
  }

  ghost function RightOrder(s: Spine): seq<Node> {
    if s.Top? then [] else [s.n] + Inorder(s.side) + RightOrder(s.rest)
  }

  ghost function PlugLeft(s: Spine, t: Tree): Tree {
    if s.Top? then t else PlugLeft(s.rest, Bin(s.side, s.n, t))
  }

  ghost function PlugRight(s: Spine, t: Tree): Tree {
    if s.Top? then t else PlugRight(s.rest, Bin(t, s.n, s.side))
  }

  lemma {:induction false} PlugLeftShape(s: Spine, t: Tree)
    ensures Inorder(PlugLeft(s, t)) == LeftOrder(s) + Inorder(t)
    ensures Nodes(PlugLeft(s, t)) == SpineNodes(s) + Nodes(t)
  {
    if s.Snoc? {
      PlugLeftShape(s.rest, Bin(s.side, s.n, t));
    }
  }

  lemma {:induction false} PlugRightShape(s: Spine, t: Tree)
    ensures Inorder(PlugRight(s, t)) == Inorder(t) + RightOrder(s)
    ensures Nodes(PlugRight(s, t)) == SpineNodes(s) + Nodes(t)
  {
    if s.Snoc? {
      PlugRightShape(s.rest, Bin(t, s.n, s.side));
    }
  }

  /** Filling the open slot of the left side tree completes it. */
  lemma {:induction false} PlugLeftModels(dummy: Node, s: Spine, t: Tree)
    requires LeftSpine(dummy, s) && Models(End(dummy, s).right, t)
    requires Nodes(t) !! {dummy} + SpineNodes(s)
    ensures Models(dummy.right, PlugLeft(s, t))
  {
    if s.Snoc? {
      PlugLeftModels(dummy, s.rest, Bin(s.side, s.n, t));
    }
  }

  lemma {:induction false} PlugRightModels(dummy: Node, s: Spine, t: Tree)
    requires RightSpine(dummy, s) && Models(End(dummy, s).left, t)
    requires Nodes(t) !! {dummy} + SpineNodes(s)
    ensures Models(dummy.left, PlugRight(s, t))
  {
    if s.Snoc? {
      PlugRightModels(dummy, s.rest, Bin(t, s.n, s.side));
    }
  }

  ghost predicate AllBelow(s: seq<Node>, key: string) {
    forall i :: 0 <= i < |s| ==> Less(s[i].key, key)
  }

  ghost predicate AllAbove(s: seq<Node>, key: string) {
    forall i :: 0 <= i < |s| ==> Less(key, s[i].key)
  }

  lemma LastBelow(s: seq<Node>, key: string)
    requires Sorted(s) && (s != [] ==> Less(s[|s| - 1].key, key))
    ensures AllBelow(s, key)
  {
    hide Cmp;
    forall i | 0 <= i < |s| - 1 ensures Less(s[i].key, key) {
      LessTransitive(s[i].key, s[|s| - 1].key, key);
    }
  }

  lemma FirstAbove(s: seq<Node>, key: string)
    requires Sorted(s) && (s != [] ==> Less(key, s[0].key))
    ensures AllAbove(s, key)
  {
    hide Cmp;
    forall i | 0 < i < |s| ensures Less(key, s[i].key) {
      LessTransitive(key, s[0].key, s[i].key);
    }
  }

  lemma SortedParts(a: seq<Node>, n: Node, b: seq<Node>)
    requires Sorted(a + [n] + b)
    ensures Sorted(a) && Sorted(b) && AllBelow(a, n.key) && AllAbove(b, n.key)
  {
    var s := a + [n] + b;
    assert forall i :: 0 <= i < |a| ==> s[i] == a[i];
    assert forall i :: 0 <= i < |b| ==> s[|a| + 1 + i] == b[i];
    assert s[|a|] == n;
  }

  /** A splay for key may stop here: the root has it, or has nothing on the side where it would be. */
  ghost predicate Stops(t: Tree, key: string)
    requires t.Bin?
  {
    var comp := Cmp(key, t.n.key);
    comp == 0 || (comp < 0 && t.l == Leaf) || (comp > 0 && t.r == Leaf)
  }

  /** A key just below n: above everything before n and below everything after it. */
  lemma JustBelow(a: seq<Node>, n: Node, b: seq<Node>, key: string)
    requires Sorted(a + [n] + b) && Less(key, n.key) && (a != [] ==> Less(a[|a| - 1].key, key))
    ensures AllBelow(a, key) && AllAbove(b, key)
  {
    hide Cmp, Less;
    SortedParts(a, n, b);
    LastBelow(a, key);
    forall i | 0 <= i < |b| ensures Less(key, b[i].key) {
      LessTransitive(key, n.key, b[i].key);
    }
  }

  lemma JustAbove(a: seq<Node>, n: Node, b: seq<Node>, key: string)
    requires Sorted(a + [n] + b) && Less(n.key, key) && (b != [] ==> Less(key, b[0].key))
    ensures AllBelow(a, key) && AllAbove(b, key)
  {
    hide Cmp, Less;
    SortedParts(a, n, b);
    FirstAbove(b, key);
    forall i | 0 <= i < |a| ensures Less(a[i].key, key) {
      LessTransitive(a[i].key, n.key, key);
    }
  }

  /** Where the splay stops, everything left of the root is below the key and everything right of it above. */
  lemma StopsBetween(t: Tree, ls: Spine, rs: Spine, key: string)
    requires t.Bin? && Stops(t, key)
    requires Sorted(LeftOrder(ls) + Inorder(t) + RightOrder(rs))
    requires ls.Snoc? ==> Less(ls.n.key, key)
    requires rs.Snoc? ==> Less(key, rs.n.key)
    ensures AllBelow(LeftOrder(ls) + Inorder(t.l), key)
    ensures AllAbove(Inorder(t.r) + RightOrder(rs), key)
  {
    hide Cmp;
    var a, b := LeftOrder(ls) + Inorder(t.l), Inorder(t.r) + RightOrder(rs);
    Regroup(LeftOrder(ls), Inorder(t.l), [t.n], Inorder(t.r), RightOrder(rs));
    CmpSwap(key, t.n.key);
    if Cmp(key, t.n.key) < 0 {
      assert a == LeftOrder(ls);
      JustBelow(a, t.n, b, key);
    } else if Cmp(key, t.n.key) > 0 {
      assert b == RightOrder(rs);
      JustAbove(a, t.n, b, key);
    } else {
      SortedParts(a, t.n, b);
    }
  }

  function Count(t: Tree): nat {
    if t.Leaf? then 0 else Count(t.l) + 1 + Count(t.r)
  }

  lemma AssembledOrder(t: Tree, ls: Spine, rs: Spine)
    requires t.Bin?
    ensures Inorder(Bin(PlugLeft(ls, t.l), t.n, PlugRight(rs, t.r))) == LeftOrder(ls) + Inorder(t) + RightOrder(rs)
  {
    hide PlugLeft, PlugRight, SpineNodes, LeftOrder, RightOrder, Nodes;
    PlugLeftShape(ls, t.l);
    PlugRightShape(rs, t.r);
    Regroup(LeftOrder(ls), Inorder(t.l), [t.n], Inorder(t.r), RightOrder(rs));
  }

  lemma AssembledNodes(dummy: Node, t: Tree, ls: Spine, rs: Spine)
    requires t.Bin? && t.n !in Nodes(t.l) && t.n !in Nodes(t.r) && Nodes(t.l) !! Nodes(t.r)
    requires Apart(dummy, SpineNodes(ls), Nodes(t), SpineNodes(rs))
    ensures Apart(t.n, {dummy}, Nodes(PlugLeft(ls, t.l)), Nodes(PlugRight(rs, t.r)))
    ensures Apart(dummy, Nodes(PlugLeft(ls, t.l)), Nodes(t) - Nodes(t.l), SpineNodes(rs))
    ensures Nodes(Bin(PlugLeft(ls, t.l), t.n, PlugRight(rs, t.r))) == SpineNodes(ls) + Nodes(t) + SpineNodes(rs)
  {
    hide PlugLeft, PlugRight, SpineNodes, LeftOrder, RightOrder, Inorder;
    PlugLeftShape(ls, t.l);
    PlugRightShape(rs, t.r);
  }

  lemma Regroup<T>(a: seq<T>, b: seq<T>, c: seq<T>, d: seq<T>, e: seq<T>)
    ensures a + b + c + (d + e) == a + (b + c + d) + e
  {
  }

  /** A root that splits the tree at a key has that key exactly if some node has. */
  lemma RootHasKey(t: Tree, key: string)
    requires t.Bin? && AllBelow(Inorder(t.l), key) && AllAbove(Inorder(t.r), key)
    ensures t.n.key == key <==> exists n :: n in Nodes(t) && n.key == key
  {
    hide Cmp, AllBelow, AllAbove;
    NotInSide(t.l, key);
    NotInSide(t.r, key);
    assert t.n in Nodes(t);
  }

  lemma NotInSide(t: Tree, key: string)
    requires AllBelow(Inorder(t), key) || AllAbove(Inorder(t), key)
    ensures forall n :: n in Nodes(t) ==> n.key != key
  {
    CmpSwap(key, key);
    var s := Inorder(t);
    forall n | n in Nodes(t) ensures n.key != key {
      InorderNodes(t, n);
      var i :| 0 <= i < |s| && s[i] == n;
    }
  }

  /** The three parts of a tree during a splay: what is still to be searched, and the two side trees. */
  datatype Parts = Parts(t: Tree, ls: Spine, rs: Spine)

  /** The parts hold these nodes in this order. */
  ghost predicate Together(p: Parts, order: seq<Node>, nodes: set<Node>) {
    && SpineNodes(p.ls) + Nodes(p.t) + SpineNodes(p.rs) == nodes
    && LeftOrder(p.ls) + Inorder(p.t) + RightOrder(p.rs) == order
  }

  /** The parts still hold all the nodes in their order, and the side trees are on their sides of the key. */
  ghost predicate Ordered(p: Parts, key: string, order: seq<Node>, nodes: set<Node>) {
    && Together(p, order, nodes)
    && (p.ls.Snoc? ==> Less(p.ls.n.key, key))
    && (p.rs.Snoc? ==> Less(key, p.rs.n.key))
  }

  lemma RotationKeepsOrder(l: Tree, m: Node, c: Tree, n: Node, r: Tree)
    ensures Inorder(Bin(Bin(l, m, c), n, r)) == Inorder(Bin(l, m, Bin(c, n, r)))
    ensures Nodes(Bin(Bin(l, m, c), n, r)) == Nodes(Bin(l, m, Bin(c, n, r)))
    ensures Count(Bin(Bin(l, m, c), n, r)) == Count(Bin(l, m, Bin(c, n, r)))
  {
    Regroup(Inorder(l), [m], Inorder(c), [n], Inorder(r));
  }

  lemma LinkLeftKeepsOrder(p: Parts, order: seq<Node>, nodes: set<Node>)
    requires p.t.Bin? && Together(p, order, nodes)
    ensures Together(Parts(p.t.l, p.ls, Snoc(p.rs, p.t.n, p.t.r)), order, nodes)
  {
    hide LeftOrder;
    Regroup(LeftOrder(p.ls), Inorder(p.t.l), [p.t.n], Inorder(p.t.r), RightOrder(p.rs));
    assert LeftOrder(p.ls) + Inorder(p.t.l) + ([p.t.n] + Inorder(p.t.r) + RightOrder(p.rs)) ==
           LeftOrder(p.ls) + Inorder(p.t.l) + [p.t.n] + (Inorder(p.t.r) + RightOrder(p.rs));
  }

  lemma LinkRightKeepsOrder(p: Parts, order: seq<Node>, nodes: set<Node>)
    requires p.t.Bin? && Together(p, order, nodes)
    ensures Together(Parts(p.t.r, Snoc(p.ls, p.t.n, p.t.l), p.rs), order, nodes)
  {
    hide RightOrder;
    Regroup(LeftOrder(p.ls), Inorder(p.t.l), [p.t.n], Inorder(p.t.r), RightOrder(p.rs));
    assert LeftOrder(p.ls) + Inorder(p.t.l) + [p.t.n] + Inorder(p.t.r) + RightOrder(p.rs) ==
           LeftOrder(p.ls) + Inorder(p.t.l) + [p.t.n] + (Inorder(p.t.r) + RightOrder(p.rs));
  }

  lemma BelowSorted(t: Tree, elm: Node)
    requires t.Bin? && Sorted(Inorder(t)) && AllBelow(Inorder(t.l), elm.key) && Less(elm.key, t.n.key)
    ensures Sorted(Inorder(t.l) + [elm] + ([t.n] + Inorder(t.r)))
  {
    var b := [t.n] + Inorder(t.r);
    SortedParts(Inorder(t.l), t.n, Inorder(t.r));
    SortedJoin([], t.n, Inorder(t.r));
    assert [] + b == b;
    FirstAbove(b, elm.key);
    SortedJoin(Inorder(t.l), elm, b);
  }

  lemma AboveSorted(t: Tree, elm: Node)
    requires t.Bin? && Sorted(Inorder(t)) && AllAbove(Inorder(t.r), elm.key) && Less(t.n.key, elm.key)
    ensures Sorted(Inorder(t.l) + [t.n] + [elm] + Inorder(t.r))
  {
    var a := Inorder(t.l) + [t.n];
    SortedParts(Inorder(t.l), t.n, Inorder(t.r));
    SortedJoin(Inorder(t.l), t.n, []);
    assert a + [] == a;
    LastBelow(a, elm.key);
    SortedJoin(a, elm, Inorder(t.r));
  }

  /** If all of a tree is below a key and its right side above it, there is no right side. */
  lemma NothingBetween(t: Tree, key: string)
    requires t.Bin? && AllBelow(Inorder(t), key) && AllAbove(Inorder(t.r), key)
    ensures t.r == Leaf && Inorder(t) == Inorder(t.l) + [t.n] + []
  {
    if t.r.Bin? {
      var i := |Inorder(t.l)| + 1;
      assert Inorder(t.r) != [];
      assert Inorder(t)[i] == Inorder(t.r)[0];
      CmpSwap(key, Inorder(t)[i].key);
    }
  }

  lemma InsertShapes(l: Tree, n: Node, r: Tree, elm: Node)
    ensures Nodes(Bin(l, elm, Bin(Leaf, n, r))) == Nodes(Bin(l, n, r)) + {elm}
    ensures Nodes(Bin(Bin(l, n, Leaf), elm, r)) == Nodes(Bin(l, n, r)) + {elm}
    ensures Inorder(Bin(l, elm, Bin(Leaf, n, r))) == Inorder(l) + [elm] + ([n] + Inorder(r))
    ensures Inorder(Bin(Bin(l, n, Leaf), elm, r)) == Inorder(l) + [n] + [elm] + Inorder(r)
  {
    assert Nodes(Bin(Leaf, n, r)) == {n} + Nodes(r);
    assert Nodes(Bin(l, n, Leaf)) == Nodes(l) + {n};
    assert Inorder(Bin(Leaf, n, r)) == [n] + Inorder(r);
    assert Inorder(Bin(l, n, Leaf)) == Inorder(l) + [n];
  }

  lemma LeastFirst(t: Tree)
    requires t.Bin? && t.l == Leaf
    ensures Inorder(t) != [] && Inorder(t)[0] == t.n
  {
  }

  lemma StartOrdered(t: Tree, key: string)
    ensures Ordered(Parts(t, Top, Top), key, Inorder(t), Nodes(t))
  {
    assert [] + Inorder(t) + [] == Inorder(t);
  }

  /** In a sorted sequence a key occurs once. */
  lemma KeysDistinct(s: seq<Node>, i: nat, j: nat)
    requires Sorted(s) && i < |s| && j < |s| && s[i].key == s[j].key
    ensures i == j
  {
    CmpSwap(s[i].key, s[j].key);
  }

  lemma SortedJoin(a: seq<Node>, n: Node, b: seq<Node>)
    requires Sorted(a) && Sorted(b) && AllBelow(a, n.key) && AllAbove(b, n.key)
    ensures Sorted(a + [n] + b)
  {
    hide Cmp, Less;
    var s := a + [n] + b;
    forall i, j | 0 <= i < j < |s| ensures Less(s[i].key, s[j].key) {
      if i < |a| && j > |a| {
        LessTransitive(a[i].key, n.key, b[j - |a| - 1].key);
      }
    }
  }

  class Splay {
    var root: Node?
    ghost var tree: Tree
    ghost var repr: set<Node>

    ghost predicate Valid()
      reads this, Nodes(tree)
    {
      Models(root, tree) && Sorted(Inorder(tree)) && repr == Nodes(tree)
    }

    constructor ()
      ensures Valid() && tree == Leaf
    {
      root, tree, repr := null, Leaf, {};
    }

    // ---- the macros the splay loop is built from

    /** Half way through a splay the nodes are linked in three disjoint parts. */
    ghost predicate Linked(dummy: Node, left: Node, right: Node, p: Parts)
      reads this, dummy, SpineNodes(p.ls), Nodes(p.t), SpineNodes(p.rs)
    {
      && p.t.Bin? && Models(root, p.t)
      && LeftSpine(dummy, p.ls) && left == End(dummy, p.ls)
      && RightSpine(dummy, p.rs) && right == End(dummy, p.rs)
      && Apart(dummy, SpineNodes(p.ls), Nodes(p.t), SpineNodes(p.rs))
    }

    method RotateRight(tmp: Node, dummy: Node, left: Node, right: Node, ghost p: Parts) returns (ghost q: Parts)
      requires Linked(dummy, left, right, p) && p.t.l.Bin? && tmp == p.t.l.n
      modifies this`root, p.t.n`left, tmp`right
      ensures q == p.(t := Bin(p.t.l.l, tmp, Bin(p.t.l.r, p.t.n, p.t.r))) && Linked(dummy, left, right, q)
    {
      assert Models(root.left, p.t.l);
      root.left := tmp.right;
      tmp.right := root;
      root := tmp;
      q := p.(t := Bin(p.t.l.l, tmp, Bin(p.t.l.r, p.t.n, p.t.r)));
    }

    method RotateLeft(tmp: Node, dummy: Node, left: Node, right: Node, ghost p: Parts) returns (ghost q: Parts)
      requires Linked(dummy, left, right, p) && p.t.r.Bin? && tmp == p.t.r.n
      modifies this`root, p.t.n`right, tmp`left
      ensures q == p.(t := Bin(Bin(p.t.l, p.t.n, p.t.r.l), tmp, p.t.r.r)) && Linked(dummy, left, right, q)
    {
      assert Models(root.right, p.t.r);
      root.right := tmp.left;
      tmp.left := root;
      root := tmp;
      q := p.(t := Bin(Bin(p.t.l, p.t.n, p.t.r.l), tmp, p.t.r.r));
    }

    /** Move the root and its right subtree to the open slot of the right side tree. */
    method LinkLeft(dummy: Node, left: Node, right: Node, ghost p: Parts) returns (end: Node, ghost q: Parts)
      requires Linked(dummy, left, right, p) && p.t.l.Bin?
      modifies this`root, right`left
      ensures q == Parts(p.t.l, p.ls, Snoc(p.rs, p.t.n, p.t.r)) && Linked(dummy, left, end, q)
    {
      right.left := root;
      end := root;
      root := root.left;
      q := Parts(p.t.l, p.ls, Snoc(p.rs, p.t.n, p.t.r));
    }

    /** Move the root and its left subtree to the open slot of the left side tree. */
    method LinkRight(dummy: Node, left: Node, right: Node, ghost p: Parts) returns (end: Node, ghost q: Parts)
      requires Linked(dummy, left, right, p) && p.t.r.Bin?
      modifies this`root, left`right
      ensures q == Parts(p.t.r, Snoc(p.ls, p.t.n, p.t.l), p.rs) && Linked(dummy, end, right, q)
    {
      left.right := root;
      end := root;
      root := root.right;
      q := Parts(p.t.r, Snoc(p.ls, p.t.n, p.t.l), p.rs);
    }

    method CloseLeft(dummy: Node, left: Node, ghost t: Tree, ghost ls: Spine, ghost rs: Spine)
      requires t.Bin? && Models(root, t)
      requires LeftSpine(dummy, ls) && RightSpine(dummy, rs) && left == End(dummy, ls)
      requires Apart(dummy, SpineNodes(ls), Nodes(t), SpineNodes(rs))
      modifies left`right
      ensures Models(root, t) && RightSpine(dummy, rs) && Models(dummy.right, PlugLeft(ls, t.l))
    {
      left.right := root.left;
      PlugLeftModels(dummy, ls, t.l);
    }

    method CloseRight(dummy: Node, right: Node, ghost t: Tree, ghost l: Tree, ghost rs: Spine)
      requires t.Bin? && Models(root, t) && Models(dummy.right, l)
      requires RightSpine(dummy, rs) && right == End(dummy, rs)
      requires Apart(dummy, Nodes(l), Nodes(t) - Nodes(t.l), SpineNodes(rs)) && Nodes(t) !! SpineNodes(rs)
      modifies right`left
      ensures root == t.n && Models(dummy.right, l) && Models(dummy.left, PlugRight(rs, t.r))
    {
      right.left := root.right;
      PlugRightModels(dummy, rs, t.r);
    }

    method Hang(dummy: Node, ghost top: Node, ghost l: Tree, ghost r: Tree)
      requires root == top && Models(dummy.right, l) && Models(dummy.left, r)
      requires Apart(top, {dummy}, Nodes(l), Nodes(r))
      modifies top`left, top`right, this`tree
      ensures tree == Bin(l, top, r) && Models(root, tree)
    {
      root.left := dummy.right;
      root.right := dummy.left;
      tree := Bin(l, top, r);
    }

    /** Hang the two side trees under the root. */
    method Assemble(dummy: Node, left: Node, right: Node, ghost t: Tree, ghost ls: Spine, ghost rs: Spine)
      requires t.Bin? && Models(root, t)
      requires LeftSpine(dummy, ls) && RightSpine(dummy, rs) && left == End(dummy, ls) && right == End(dummy, rs)
      requires Apart(dummy, SpineNodes(ls), Nodes(t), SpineNodes(rs))
      modifies left`right, right`left, t.n`left, t.n`right, this`tree
      ensures tree == Bin(PlugLeft(ls, t.l), t.n, PlugRight(rs, t.r)) && Models(root, tree)
      ensures Inorder(tree) == LeftOrder(ls) + Inorder(t) + RightOrder(rs)
      ensures Nodes(tree) == SpineNodes(ls) + Nodes(t) + SpineNodes(rs)
    {
      hide LeftSpine, RightSpine, PlugLeft, PlugRight, LeftOrder, RightOrder, Inorder, Nodes;
      AssembledOrder(t, ls, rs);
      AssembledNodes(dummy, t, ls, rs);
      CloseLeft(dummy, left, t, ls, rs);
      CloseRight(dummy, right, t, PlugLeft(ls, t.l), rs);
      Hang(dummy, t.n, PlugLeft(ls, t.l), PlugRight(rs, t.r));
    }

    // ---- the splay itself

    /** One round of the loop for a key below the root's. */
    method SplayLeft(dummy: Node, left: Node, right: Node, key: string, ghost p: Parts, ghost order: seq<Node>,
                     ghost nodes: set<Node>)
      returns (stop: bool, end: Node, ghost q: Parts)
      requires Linked(dummy, left, right, p) && Ordered(p, key, order, nodes) && Less(key, p.t.n.key)
      modifies this`root, nodes`left, nodes`right, dummy`left
      ensures Linked(dummy, left, end, q) && Ordered(q, key, order, nodes)
      ensures if stop then Stops(q.t, key) else Count(q.t) < Count(p.t)
    {
      hide Cmp, LeftSpine, RightSpine, LeftOrder, RightOrder, Inorder;
      stop, end, q := false, right, p;
      var tmp := root.left;
      assert Models(tmp, p.t.l);
      if tmp == null {
        return true, end, q;
      }
      if Cmp(key, tmp.key) < 0 {
        RotationKeepsOrder(p.t.l.l, p.t.l.n, p.t.l.r, p.t.n, p.t.r);
        q := RotateRight(tmp, dummy, left, right, p);
        assert Models(root.left, q.t.l);
        if root.left == null {
          return true, end, q;
        }
      }
      LinkLeftKeepsOrder(q, order, nodes);
      end, q := LinkLeft(dummy, left, right, q);
    }

    /** One round of the loop for a key above the root's. */
    method SplayRight(dummy: Node, left: Node, right: Node, key: string, ghost p: Parts, ghost order: seq<Node>,
                      ghost nodes: set<Node>)
      returns (stop: bool, end: Node, ghost q: Parts)
      requires Linked(dummy, left, right, p) && Ordered(p, key, order, nodes) && Less(p.t.n.key, key)
      modifies this`root, nodes`left, nodes`right, dummy`right
      ensures Linked(dummy, end, right, q) && Ordered(q, key, order, nodes)
      ensures if stop then Stops(q.t, key) else Count(q.t) < Count(p.t)
    {
      hide Cmp, LeftSpine, RightSpine, LeftOrder, RightOrder, Inorder;
      stop, end, q := false, left, p;
      CmpSwap(key, root.key);
      var tmp := root.right;
      assert Models(tmp, p.t.r);
      if tmp == null {
        return true, end, q;
      }
      CmpSwap(key, tmp.key);
      if Cmp(key, tmp.key) > 0 {
        RotationKeepsOrder(p.t.l, p.t.n, p.t.r.l, p.t.r.n, p.t.r.r);
        q := RotateLeft(tmp, dummy, left, right, p);
        assert Models(root.right, q.t.r);
        if root.right == null {
          return true, end, q;
        }
      }
      LinkRightKeepsOrder(q, order, nodes);
      end, q := LinkRight(dummy, left, right, q);
    }

    /** The search loop: ends with the three parts of the tree where a splay for the key stops. */
    method Search(dummy: Node, key: string, ghost p0: Parts, ghost order: seq<Node>, ghost nodes: set<Node>)
      returns (left: Node, right: Node, ghost p: Parts)
      requires Linked(dummy, dummy, dummy, p0) && Ordered(p0, key, order, nodes)
      modifies this`root, nodes`left, nodes`right, dummy
      ensures Linked(dummy, left, right, p) && Ordered(p, key, order, nodes) && Stops(p.t, key)
    {
      hide Cmp, LeftSpine, RightSpine, LeftOrder, RightOrder, Inorder, Ordered;
      left, right, p := dummy, dummy, p0;
      var comp := Cmp(key, root.key);
      while comp != 0
        invariant Linked(dummy, left, right, p) && Ordered(p, key, order, nodes)
        invariant comp == Cmp(key, root.key)
        decreases Count(p.t)
      {
        var stop;
        if comp < 0 {
          stop, right, p := SplayLeft(dummy, left, right, key, p, order, nodes);
        } else {
          CmpSwap(key, root.key);
          stop, left, p := SplayRight(dummy, left, right, key, p, order, nodes);
        }
        if stop {
          return;
        }
        comp := Cmp(key, root.key);
      }
    }

    method SplayParts(dummy: Node, key: string, ghost p0: Parts, ghost order: seq<Node>, ghost nodes: set<Node>)
      requires Linked(dummy, dummy, dummy, p0) && Ordered(p0, key, order, nodes) && Sorted(order)
      modifies this`root, this`tree, nodes`left, nodes`right, dummy
      ensures Models(root, tree) && tree.Bin? && Inorder(tree) == order && Nodes(tree) == nodes
      ensures AllBelow(Inorder(tree.l), key) && AllAbove(Inorder(tree.r), key)
    {
      hide LeftSpine, RightSpine, PlugLeft, PlugRight, LeftOrder, RightOrder, Inorder, Cmp;
      var left, right;
      ghost var p;
      left, right, p := Search(dummy, key, p0, order, nodes);
      StopsBetween(p.t, p.ls, p.rs, key);
      PlugLeftShape(p.ls, p.t.l);
      PlugRightShape(p.rs, p.t.r);
      Assemble(dummy, left, right, p.t, p.ls, p.rs);
    }

    /**
     * Move the node closest to the key to the root. The nodes and their order stay as they are, and the root
     * splits them at the key; so the key is at the root exactly if it is in the tree.
     */
    method Splay(key: string)
      requires Valid() && root != null
      modifies this, repr`left, repr`right
      ensures Valid() && tree.Bin?
      ensures Inorder(tree) == old(Inorder(tree)) && repr == old(repr)
      ensures AllBelow(Inorder(tree.l), key) && AllAbove(Inorder(tree.r), key)
      ensures root.key == key <==> exists n :: n in repr && n.key == key
    {
      ghost var order, nodes := Inorder(tree), repr;
      var dummy := new Node("");
      assert dummy !in nodes;
      ghost var p := Parts(tree, Top, Top);
      StartOrdered(tree, key);
      SplayParts(dummy, key, p, order, nodes);
      RootHasKey(tree, key);
    }

    ghost predicate Has(key: string)
      reads this, repr
    {
      exists n :: n in repr && n.key == key
    }

    method Find(key: string) returns (found: Node?)
      requires Valid()
      modifies this, repr`left, repr`right
      ensures Valid() && Inorder(tree) == old(Inorder(tree)) && repr == old(repr)
      ensures if Has(key) then found != null && found in repr && found.key == key else found == null
    {
      if root == null {
        return null;
      }
      Splay(key);
      CmpSwap(key, root.key);
      found := if Cmp(key, root.key) == 0 then root else null;
    }

    /** The splayed root goes to the right of the new node, without its left subtree. */
    method PutBelowRoot(elm: Node)
      requires Valid() && root != null && elm !in repr && AllBelow(Inorder(tree.l), elm.key) && Less(elm.key, root.key)
      modifies elm, root`left, this
      ensures Valid() && root == elm && repr == old(repr) + {elm}
    {
      ghost var t := tree;
      BelowSorted(t, elm);
      InsertShapes(t.l, t.n, t.r, elm);
      elm.left := root.left;
      elm.right := root;
      root.left := null;
      root := elm;
      tree := Bin(t.l, elm, Bin(Leaf, t.n, t.r));
      repr := repr + {elm};
    }

    /** The splayed root goes to the left of the new node, without its right subtree. */
    method PutAboveRoot(elm: Node)
      requires Valid() && root != null && elm !in repr && AllAbove(Inorder(tree.r), elm.key) && Less(root.key, elm.key)
      modifies elm, root`right, this
      ensures Valid() && root == elm && repr == old(repr) + {elm}
    {
      ghost var t := tree;
      AboveSorted(t, elm);
      InsertShapes(t.l, t.n, t.r, elm);
      elm.right := root.right;
      elm.left := root;
      root.right := null;
      root := elm;
      tree := Bin(Bin(t.l, t.n, Leaf), elm, t.r);
      repr := repr + {elm};
    }

    /** Add a node unless its key is there already; if it is, return the node that has it. */
    method Insert(elm: Node) returns (existing: Node?)
      requires Valid() && elm !in repr
      modifies this, elm, repr`left, repr`right
      ensures Valid() && (existing == null <==> !old(Has(elm.key)))
      ensures existing == null ==> repr == old(repr) + {elm}
      ensures existing != null ==> existing in repr && existing.key == elm.key && Inorder(tree) == old(Inorder(tree))
                                   && repr == old(repr)
    {
      hide Cmp;
      if root == null {
        elm.left, elm.right := null, null;
        root, tree, repr := elm, Bin(Leaf, elm, Leaf), {elm};
        return null;
      }
      Splay(elm.key);
      assert Models(root, tree);
      CmpSwap(elm.key, root.key);
      var comp := Cmp(elm.key, root.key);
      if comp < 0 {
        PutBelowRoot(elm);
      } else if comp > 0 {
        PutAboveRoot(elm);
      } else {
        return root;
      }
      existing := null;
    }

    /** Take out the node with this key, if there is one. */
    method Remove(key: string) returns (removed: bool)
      requires Valid()
      modifies this, repr`left, repr`right
      ensures Valid() && removed == old(Has(key))
      ensures repr == set n | n in old(repr) && n.key != key
      ensures !removed ==> Inorder(tree) == old(Inorder(tree))
    {
      hide Cmp;
      if root == null {
        return false;
      }
      Splay(key);
      CmpSwap(key, root.key);
      if Cmp(key, root.key) != 0 {
        return false;
      }
      NotInSide(tree.l, key);
      NotInSide(tree.r, key);
      DropRoot(key);
      removed := true;
    }

    /** Join the two sides of the root: after a second splay the left side has no right subtree. */
    method DropRoot(key: string)
      requires Valid() && root != null && root.key == key
      requires AllBelow(Inorder(tree.l), key) && AllAbove(Inorder(tree.r), key)
      modifies this, repr`left, repr`right
      ensures Valid() && repr == old(repr) - {old(root)}
    {
      hide Cmp;
      ghost var t := tree;
      SortedParts(Inorder(t.l), t.n, Inorder(t.r));
      assert Models(root.left, t.l);
      assert Nodes(t) - {t.n} == Nodes(t.l) + Nodes(t.r);
      if root.left == null {
        root := root.right;
        tree, repr := t.r, Nodes(t.r);
      } else {
        var tmp := root.right;
        root := root.left;
        tree, repr := t.l, Nodes(t.l);
        Splay(key);
        Graft(tmp, t.r, key);
      }
    }

    /** The second splay has left nothing above the key, so the right slot of the root is free. */
    method Graft(tmp: Node?, ghost r: Tree, ghost key: string)
      requires Valid() && root != null && Models(tmp, r) && repr !! Nodes(r) && Sorted(Inorder(r))
      requires AllBelow(Inorder(tree), key) && AllAbove(Inorder(r), key) && AllAbove(Inorder(tree.r), key)
      modifies root`right, this`tree, this`repr
      ensures Valid() && root == old(root) && repr == old(repr) + Nodes(r)
      ensures old(tree.r) == Leaf
    {
      ghost var t := tree;
      NothingBetween(t, key);
      root.right := tmp;
      tree, repr := Bin(t.l, t.n, r), repr + Nodes(r);
      ghost var a := Inorder(t.l);
      SortedParts(a, t.n, []);
      assert t.n == Inorder(t)[|a|];
      forall i | 0 <= i < |Inorder(r)| ensures Less(t.n.key, Inorder(r)[i].key) {
        LessTransitive(t.n.key, key, Inorder(r)[i].key);
      }
      SortedJoin(a, t.n, Inorder(r));
    }

    /** The loop of a splay for something below every key: it ends with nothing left of the root. */
    method SearchMin(dummy: Node, ghost p0: Parts, ghost order: seq<Node>, ghost nodes: set<Node>)
      returns (right: Node, ghost p: Parts)
      requires Linked(dummy, dummy, dummy, p0) && Together(p0, order, nodes) && p0.ls == Top
      modifies this`root, nodes`left, nodes`right, dummy`left
      ensures Linked(dummy, dummy, right, p) && Together(p, order, nodes) && p.ls == Top && p.t.l == Leaf
    {
      hide LeftSpine, RightSpine, LeftOrder, RightOrder, Inorder;
      right, p := dummy, p0;
      while true
        invariant Linked(dummy, dummy, right, p) && Together(p, order, nodes) && p.ls == Top
        decreases Count(p.t)
      {
        var tmp := root.left;
        assert Models(tmp, p.t.l);
        if tmp == null {
          return;
        }
        RotationKeepsOrder(p.t.l.l, p.t.l.n, p.t.l.r, p.t.n, p.t.r);
        p := RotateRight(tmp, dummy, dummy, right, p);
        assert Models(root.left, p.t.l);
        if root.left == null {
          return;
        }
        LinkLeftKeepsOrder(p, order, nodes);
        right, p := LinkLeft(dummy, dummy, right, p);
      }
    }

    method SplayMin(dummy: Node, ghost p0: Parts, ghost order: seq<Node>, ghost nodes: set<Node>)
      requires Linked(dummy, dummy, dummy, p0) && Together(p0, order, nodes) && p0.ls == Top
      modifies this`root, this`tree, nodes`left, nodes`right, dummy
      ensures Models(root, tree) && tree.Bin? && tree.l == Leaf && Inorder(tree) == order && Nodes(tree) == nodes
    {
      hide LeftSpine, RightSpine, PlugRight, LeftOrder, RightOrder, Inorder;
      var right;
      ghost var p;
      right, p := SearchMin(dummy, p0, order, nodes);
      Assemble(dummy, dummy, right, p.t, p.ls, p.rs);
    }

    /** The node with the least key, which the splay has moved to the root. */
    method Min() returns (min: Node?)
      requires Valid()
      modifies this, repr`left, repr`right
      ensures Valid() && Inorder(tree) == old(Inorder(tree)) && repr == old(repr)
      ensures if Inorder(tree) == [] then min == null else min == Inorder(tree)[0]
    {
      if root == null {
        return null;
      }
      ghost var order, nodes := Inorder(tree), repr;
      var dummy := new Node("");
      assert dummy !in nodes;
      ghost var p := Parts(tree, Top, Top);
      StartOrdered(tree, "");
      SplayMin(dummy, p, order, nodes);
      LeastFirst(tree);
      min := root;
    }

    /** The node after one that is in the tree. */
    method NextAfter(elm: Node, ghost k: nat) returns (next: Node?)
      requires Valid() && k < |Inorder(tree)| && Inorder(tree)[k] == elm
      modifies this, repr`left, repr`right
      ensures Valid() && Inorder(tree) == old(Inorder(tree)) && repr == old(repr)
      ensures if k + 1 < |Inorder(tree)| then next == Inorder(tree)[k + 1] else next == null
    {
      ghost var order := Inorder(tree);
      InorderNodes(tree, elm);
      Splay(elm.key);
      ghost var i := |Inorder(tree.l)|;
      assert order[i] == tree.n;
      KeysDistinct(order, i, k);
      next := elm.right;
      assert Models(next, tree.r);
      ghost var sub := tree.r;
      if next != null {
        while next.left != null
          invariant sub.Bin? && Models(next, sub) && Inorder(sub)[0] == Inorder(tree.r)[0]
          decreases Count(sub)
        {
          assert Models(next.left, sub.l);
          next := next.left;
          sub := sub.l;
        }
        assert Models(next.left, sub.l);
        assert order[k + 1] == Inorder(tree.r)[0];
      }
    }

    /** Walking the tree from its least node visits every node once, in ascending order of keys. */
    method Foreach() returns (visited: seq<Node>)
      requires Valid()
      modifies this, repr`left, repr`right
      ensures Valid() && Inorder(tree) == old(Inorder(tree)) && repr == old(repr)
      ensures visited == Inorder(tree) && Sorted(visited)
    {
      hide Models, Inorder, Nodes, Cmp, Less;
      ghost var order := Inorder(tree);
      visited := [];
      var x := Min();
      while x != null
        invariant Valid() && Inorder(tree) == order && repr == old(repr)
        invariant |visited| <= |order| && visited == order[..|visited|]
        invariant if |visited| < |order| then x == order[|visited|] else x == null
        decreases |order| - |visited|
      {
        visited := visited + [x];
        x := NextAfter(x, |visited| - 1);
      }
    }
  }
}
