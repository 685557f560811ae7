/**
 * The rotations and links of the top-down splay, on the tree in memory, and what they keep: a descent
 * splits the tree into the part below the size, the part above it, and the subtree not yet looked at.
 */
module Splay {
  import opened VmMemory
  import opened FreeTree

  ghost predicate Positive(cls: Classes, keys: set<int>) {
    forall s :: s in keys ==> HeadOf(cls, s) > 0
  }

  /** Only the LEFT and RIGHT fields of x and y differ. */
  ghost predicate OnlyAt(m: Mem, m': Mem, x: int, y: int) {
    && m'.hdr == m.hdr
    && forall a :: a != x && a != y ==> m'.Left(a) == m.Left(a) && m'.Right(a) == m.Right(a)
  }

  /** Writing the fields of a block that is no node of t keeps t. */
  lemma RepKeep(m: Mem, m': Mem, cls: Classes, t: Tree, p: int, x: int, y: int)
    requires Rep(m, cls, t, p) && Sized(m, cls) && Positive(cls, Keys(t))
    requires (x < 0 || m.Size(x) !in Keys(t)) && (y < 0 || m.Size(y) !in Keys(t))
    requires OnlyAt(m, m', x, y)
    ensures Rep(m', cls, t, p)
  {
  }

  lemma LeftPartKeep(m: Mem, m': Mem, cls: Classes, t: Tree, last: int, x: int, y: int)
    requires LeftPart(m, cls, t, LINK_NODE, last) && Sized(m, cls) && Ordered(t) && Positive(cls, Keys(t))
    requires OnlyAt(m, m', x, y)
    requires (x == y == last && m'.left == m.left) || (x == y == LINK_NODE && m'.right == m.right) ||
             (x > 0 && y > 0 && m.Size(x) !in Keys(t) && m.Size(y) !in Keys(t))
    ensures LeftPart(m', cls, t, LINK_NODE, last)
  {
    LeftPartLast(m, cls, t, LINK_NODE, last);
    LeftPartFrame(m, m', cls, t, LINK_NODE, last);
  }

  lemma RightPartKeep(m: Mem, m': Mem, cls: Classes, t: Tree, last: int, x: int, y: int)
    requires RightPart(m, cls, t, LINK_NODE, last) && Sized(m, cls) && Ordered(t) && Positive(cls, Keys(t))
    requires OnlyAt(m, m', x, y)
    requires (x == y == last && m'.right == m.right) || (x == y == LINK_NODE && m'.left == m.left) ||
             (x > 0 && y > 0 && m.Size(x) !in Keys(t) && m.Size(y) !in Keys(t))
    ensures RightPart(m', cls, t, LINK_NODE, last)
  {
    RightPartLast(m, cls, t, LINK_NODE, last);
    RightPartFrame(m, m', cls, t, LINK_NODE, last);
  }

  ghost predicate Below(a: Tree, b: Tree) {
    forall x, y :: x in Keys(a) && y in Keys(b) ==> x < y
  }

  /** Three trees that together are one tree of sizes: all of lo below t, all of t below hi. */
  ghost predicate Sliced(lo: Tree, t: Tree, hi: Tree) {
    && Ordered(lo) && Ordered(t) && Ordered(hi)
    && Below(lo, t) && Below(t, hi) && Below(lo, hi)
  }

  /** Their places in memory during the top-down splay. */
  ghost predicate Placed(m: Mem, cls: Classes, lo: Tree, l: int, t: Tree, node: int, hi: Tree, r: int) {
    && LeftPart(m, cls, lo, LINK_NODE, l)
    && Rep(m, cls, t, node)
    && RightPart(m, cls, hi, LINK_NODE, r)
  }

  ghost predicate Split(m: Mem, cls: Classes, keys: set<int>, lo: Tree, l: int, t: Tree, node: int, hi: Tree, r: int) {
    && Sized(m, cls)
    && Keys(lo) + Keys(t) + Keys(hi) == keys && Positive(cls, keys)
    && Sliced(lo, t, hi)
    && Placed(m, cls, lo, l, t, node, hi, r)
  }

  function WithLeft(m: Mem, a: int, v: int): Mem { m.(left := m.left[a := v]) }
  function WithRight(m: Mem, a: int, v: int): Mem { m.(right := m.right[a := v]) }

  /** hi with node t and its right subtree added; lo with node t and its left subtree added. */
  ghost function Upper(t: Tree, hi: Tree): (u: Tree)
    requires t.Node?
    ensures Keys(u) == {t.key} + Keys(t.r) + Keys(hi)
  {
    var one := Node(Leaf, t.key, t.r);
    assert Keys(one) == {t.key} + Keys(t.r);
    JoinLeft(one, hi)
  }

  ghost function Lower(lo: Tree, t: Tree): (u: Tree)
    requires t.Node?
    ensures Keys(u) == Keys(lo) + Keys(t.l) + {t.key}
  {
    var one := Node(t.l, t.key, Leaf);
    assert Keys(one) == Keys(t.l) + {t.key};
    JoinRight(lo, one)
  }

  lemma SliceRight(lo: Tree, t: Tree, hi: Tree)
    requires Sliced(lo, t, hi) && t.Node?
    ensures Sliced(lo, t.l, Upper(t, hi))
    ensures Keys(lo) + Keys(t.l) + Keys(Upper(t, hi)) == Keys(lo) + Keys(t) + Keys(hi)
  {
    assert forall x :: x in Keys(t) <==> x == t.key || x in Keys(t.l) || x in Keys(t.r);
    var one := Node(Leaf, t.key, t.r);
    assert forall x :: x in Keys(one) <==> x == t.key || x in Keys(t.r);
    JoinLeftOrdered(one, hi);
  }

  lemma SliceLeft(lo: Tree, t: Tree, hi: Tree)
    requires Sliced(lo, t, hi) && t.Node?
    ensures Sliced(Lower(lo, t), t.r, hi)
    ensures Keys(Lower(lo, t)) + Keys(t.r) + Keys(hi) == Keys(lo) + Keys(t) + Keys(hi)
  {
    assert forall x :: x in Keys(t) <==> x == t.key || x in Keys(t.l) || x in Keys(t.r);
    var one := Node(t.l, t.key, Leaf);
    assert forall x :: x in Keys(one) <==> x == t.key || x in Keys(t.l);
    JoinRightOrdered(lo, one);
  }

  /** RLINK: the node goes to the upper part, keeping its right subtree. */
  lemma LinkRight(m: Mem, cls: Classes, keys: set<int>, lo: Tree, l: int, t: Tree, node: int, hi: Tree, r: int)
    requires Split(m, cls, keys, lo, l, t, node, hi, r) && t.Node?
    ensures Split(WithLeft(m, r, node), cls, keys, lo, l, t.l, m.Left(node), Upper(t, hi), node)
  {
    var m' := WithLeft(m, r, node);
    SliceRight(lo, t, hi);
    assert r < 0 || m.Size(r) !in Keys(t) by { RightPartLast(m, cls, hi, LINK_NODE, r); }
    assert t.key in Keys(t) && Keys(t.l) <= Keys(t) && Keys(t.r) <= Keys(t);
    assert Placed(m', cls, lo, l, t.l, m.Left(node), Upper(t, hi), node) by {
      RightPartLast(m, cls, hi, LINK_NODE, r);
      LeftPartKeep(m, m', cls, lo, l, r, r);
      RightPartKeep(m, m', cls, hi, r, r, r);
      RepKeep(m, m', cls, t.l, m.Left(node), r, r);
      RepKeep(m, m', cls, t.r, m.Right(node), r, r);
      RightPartGrow(m', cls, hi, LINK_NODE, r, t.r, t.key);
    }
  }

  lemma LinkLeft(m: Mem, cls: Classes, keys: set<int>, lo: Tree, l: int, t: Tree, node: int, hi: Tree, r: int)
    requires Split(m, cls, keys, lo, l, t, node, hi, r) && t.Node?
    ensures Split(WithRight(m, l, node), cls, keys, Lower(lo, t), node, t.r, m.Right(node), hi, r)
  {
    var m' := WithRight(m, l, node);
    SliceLeft(lo, t, hi);
    assert l < 0 || m.Size(l) !in Keys(t) by { LeftPartLast(m, cls, lo, LINK_NODE, l); }
    assert t.key in Keys(t) && Keys(t.l) <= Keys(t) && Keys(t.r) <= Keys(t);
    assert Placed(m', cls, Lower(lo, t), node, t.r, m.Right(node), hi, r) by {
      LeftPartLast(m, cls, lo, LINK_NODE, l);
      RightPartKeep(m, m', cls, hi, r, l, l);
      LeftPartKeep(m, m', cls, lo, l, l, l);
      RepKeep(m, m', cls, t.l, m.Left(node), l, l);
      RepKeep(m, m', cls, t.r, m.Right(node), l, l);
      LeftPartGrow(m', cls, lo, LINK_NODE, l, t.l, t.key);
    }
  }

  /** RROTATE and LROTATE on trees; both keep the order and the keys. */
  ghost function RotatedRight(t: Tree): (t': Tree)
    requires t.Node? && t.l.Node?
    ensures t'.Node? && t'.key == t.l.key && t'.l == t.l.l
    ensures Keys(t') == Keys(t)
    ensures Ordered(t) ==> Ordered(t')
  {
    var u := Node(t.l.r, t.key, t.r);
    assert t.l.key in Keys(t.l) && Keys(t.l.r) <= Keys(t.l);
    assert Ordered(t) ==> Ordered(t.l) && Ordered(u);
    Node(t.l.l, t.l.key, u)
  }

  ghost function RotatedLeft(t: Tree): (t': Tree)
    requires t.Node? && t.r.Node?
    ensures t'.Node? && t'.key == t.r.key && t'.r == t.r.r
    ensures Keys(t') == Keys(t)
    ensures Ordered(t) ==> Ordered(t')
  {
    var u := Node(t.l, t.key, t.r.l);
    assert t.r.key in Keys(t.r) && Keys(t.r.l) <= Keys(t.r);
    assert Ordered(t) ==> Ordered(t.r) && Ordered(u);
    Node(u, t.r.key, t.r.r)
  }

  lemma RotateRightRep(m: Mem, cls: Classes, t: Tree, x: int)
    requires t.Node? && t.l.Node?
    requires Ordered(t) && Sized(m, cls) && Positive(cls, Keys(t)) && Rep(m, cls, t, x)
    ensures var y := m.Left(x);
            Rep(WithRight(WithLeft(m, x, m.Right(y)), y, x), cls, RotatedRight(t), y)
  {
    var y := m.Left(x);
    var m' := WithRight(WithLeft(m, x, m.Right(y)), y, x);
    assert Rep(m, cls, t.l, y) && Ordered(t.l) && t.l.key in Keys(t.l);
    RepKeep(m, m', cls, t.l.l, m.Left(y), x, y);
    RepKeep(m, m', cls, t.l.r, m.Right(y), x, y);
    RepKeep(m, m', cls, t.r, m.Right(x), x, y);
  }

  lemma RotateLeftRep(m: Mem, cls: Classes, t: Tree, x: int)
    requires t.Node? && t.r.Node?
    requires Ordered(t) && Sized(m, cls) && Positive(cls, Keys(t)) && Rep(m, cls, t, x)
    ensures var y := m.Right(x);
            Rep(WithLeft(WithRight(m, x, m.Left(y)), y, x), cls, RotatedLeft(t), y)
  {
    var y := m.Right(x);
    var m' := WithLeft(WithRight(m, x, m.Left(y)), y, x);
    assert Rep(m, cls, t.r, y) && Ordered(t.r) && t.r.key in Keys(t.r);
    RepKeep(m, m', cls, t.r.l, m.Left(y), x, y);
    RepKeep(m, m', cls, t.r.r, m.Right(y), x, y);
    RepKeep(m, m', cls, t.l, m.Left(x), x, y);
  }

  lemma RotateRight(m: Mem, cls: Classes, keys: set<int>, lo: Tree, l: int, t: Tree, node: int, hi: Tree, r: int)
    requires Split(m, cls, keys, lo, l, t, node, hi, r) && t.Node? && t.l.Node?
    ensures var y := m.Left(node);
            Split(WithRight(WithLeft(m, node, m.Right(y)), y, node), cls, keys, lo, l, RotatedRight(t), y, hi, r)
  {
    var y := m.Left(node);
    var m' := WithRight(WithLeft(m, node, m.Right(y)), y, node);
    assert Rep(m, cls, t.l, y) && t.key in Keys(t) && t.l.key in Keys(t);
    RotateRightRep(m, cls, t, node);
    LeftPartKeep(m, m', cls, lo, l, node, y);
    RightPartKeep(m, m', cls, hi, r, node, y);
  }

  lemma RotateLeft(m: Mem, cls: Classes, keys: set<int>, lo: Tree, l: int, t: Tree, node: int, hi: Tree, r: int)
    requires Split(m, cls, keys, lo, l, t, node, hi, r) && t.Node? && t.r.Node?
    ensures var y := m.Right(node);
            Split(WithLeft(WithRight(m, node, m.Left(y)), y, node), cls, keys, lo, l, RotatedLeft(t), y, hi, r)
  {
    var y := m.Right(node);
    var m' := WithLeft(WithRight(m, node, m.Left(y)), y, node);
    assert Rep(m, cls, t.r, y) && t.key in Keys(t) && t.r.key in Keys(t);
    RotateLeftRep(m, cls, t, node);
    LeftPartKeep(m, m', cls, lo, l, node, y);
    RightPartKeep(m, m', cls, hi, r, node, y);
  }

  /** Four disjoint trees in memory, the outer two with an open end. */
  ghost predicate Ends(m: Mem, cls: Classes, lo: Tree, l: int, a: Tree, p: int, b: Tree, q: int, hi: Tree, r: int) {
    && Sized(m, cls)
    && Positive(cls, Keys(lo)) && Positive(cls, Keys(a)) && Positive(cls, Keys(b)) && Positive(cls, Keys(hi))
    && LeftPart(m, cls, lo, LINK_NODE, l) && RightPart(m, cls, hi, LINK_NODE, r)
    && Rep(m, cls, a, p) && Rep(m, cls, b, q)
    && Ordered(lo) && Ordered(a) && Ordered(b) && Ordered(hi)
    && Below(lo, a) && Below(lo, b) && Below(lo, hi) && Below(a, hi) && Below(b, hi)
  }

  lemma EndsWriteRight(m: Mem, cls: Classes, lo: Tree, l: int, a: Tree, p: int, b: Tree, q: int, hi: Tree, r: int)
    requires Ends(m, cls, lo, l, a, p, b, q, hi, r)
    ensures Ends(WithRight(m, l, p), cls, lo, l, a, p, b, q, hi, r)
    ensures l != r || l < 0
  {
    LeftPartLast(m, cls, lo, LINK_NODE, l);
    RightPartLast(m, cls, hi, LINK_NODE, r);
    var m' := WithRight(m, l, p);
    assert l < 0 || (m.Size(l) !in Keys(a) && m.Size(l) !in Keys(b) && m.Size(l) !in Keys(hi));
    LeftPartKeep(m, m', cls, lo, l, l, l);
    RightPartKeep(m, m', cls, hi, r, l, l);
    RepKeep(m, m', cls, a, p, l, l);
    RepKeep(m, m', cls, b, q, l, l);
  }

  lemma EndsWriteLeft(m: Mem, cls: Classes, lo: Tree, l: int, a: Tree, p: int, b: Tree, q: int, hi: Tree, r: int)
    requires Ends(m, cls, lo, l, a, p, b, q, hi, r)
    ensures Ends(WithLeft(m, r, q), cls, lo, l, a, p, b, q, hi, r)
  {
    RightPartLast(m, cls, hi, LINK_NODE, r);
    var m' := WithLeft(m, r, q);
    assert r < 0 || (m.Size(r) !in Keys(a) && m.Size(r) !in Keys(b) && m.Size(r) !in Keys(lo));
    LeftPartKeep(m, m', cls, lo, l, r, r);
    RightPartKeep(m, m', cls, hi, r, r, r);
    RepKeep(m, m', cls, a, p, r, r);
    RepKeep(m, m', cls, b, q, r, r);
  }

  /** Closing both open ends: with the subtrees of the node found, or with nothing. */
  lemma Close(m: Mem, cls: Classes, lo: Tree, l: int, a: Tree, p: int, b: Tree, q: int, hi: Tree, r: int)
    requires Ends(m, cls, lo, l, a, p, b, q, hi, r)
    ensures var m' := WithLeft(WithRight(m, l, p), r, q);
            && Rep(m', cls, JoinRight(lo, a), m'.Right(LINK_NODE))
            && Rep(m', cls, JoinLeft(b, hi), m'.Left(LINK_NODE))
            && Ordered(JoinRight(lo, a)) && Ordered(JoinLeft(b, hi))
  {
    EndsWriteRight(m, cls, lo, l, a, p, b, q, hi, r);
    var m1 := WithRight(m, l, p);
    EndsWriteLeft(m1, cls, lo, l, a, p, b, q, hi, r);
    var m' := WithLeft(m1, r, q);
    assert m'.Right(l) == p && m'.Left(r) == q;
    LeftPartClose(m', cls, lo, LINK_NODE, l, a);
    RightPartClose(m', cls, hi, LINK_NODE, r, b);
    JoinRightOrdered(lo, a);
    JoinLeftOrdered(b, hi);
  }

  /** Block a is the tree node of one of the sizes in keys. */
  ghost predicate NodeFor(m: Mem, cls: Classes, keys: set<int>, a: int) {
    a > 0 && m.Size(a) in keys && a == HeadOf(cls, m.Size(a))
  }

  /** m' differs from m at most in the LEFT and RIGHT fields of tree nodes for keys
      and of the local variable of bestsearch. */
  ghost predicate TreeWrites(m: Mem, m': Mem, cls: Classes, keys: set<int>) {
    && m' == m.(left := m'.left, right := m'.right)
    && forall a :: a != LINK_NODE && !NodeFor(m, cls, keys, a) ==> m'.Left(a) == m.Left(a) && m'.Right(a) == m.Right(a)
  }

  lemma TreeWritesMore(m0: Mem, m: Mem, m': Mem, cls: Classes, keys: set<int>, x: int)
    requires TreeWrites(m0, m, cls, keys)
    requires m' == m.(left := m'.left, right := m'.right) && OnlyAt(m, m', x, x)
    requires x == LINK_NODE || NodeFor(m, cls, keys, x)
    ensures TreeWrites(m0, m', cls, keys)
  {
  }

  lemma RepApart(m: Mem, m': Mem, cls: Classes, keys: set<int>, t: Tree, p: int)
    requires Rep(m, cls, t, p) && Sized(m, cls) && Positive(cls, Keys(t))
    requires TreeWrites(m, m', cls, keys) && forall s :: s in Keys(t) ==> s !in keys
    ensures Rep(m', cls, t, p)
  {
  }

  lemma UpperAbove(size: int, t: Tree, hi: Tree)
    requires Ordered(t) && t.Node? && size < t.key && forall s :: s in Keys(hi) ==> size < s
    ensures forall s :: s in Keys(Upper(t, hi)) ==> size < s
  {
    hide JoinLeft;
  }

  lemma LowerBelow(size: int, lo: Tree, t: Tree)
    requires Ordered(t) && t.Node? && t.key < size && forall s :: s in Keys(lo) ==> s < size
    ensures forall s :: s in Keys(Lower(lo, t)) ==> s < size
  {
    hide JoinRight;
  }

  /** What holds between two rounds of the descent that started from memory m0. */
  ghost predicate Descent(m0: Mem, m: Mem, cls: Classes, keys: set<int>, size: int,
                          lo: Tree, l: int, t: Tree, node: int, hi: Tree, r: int)
  {
    && Split(m, cls, keys, lo, l, t, node, hi, r)
    && (forall s :: s in Keys(lo) ==> s < size)
    && (forall s :: s in Keys(hi) ==> size < s)
    && TreeWrites(m0, m, cls, keys)
    && (l == LINK_NODE || NodeFor(m, cls, keys, l))
    && (r == LINK_NODE || NodeFor(m, cls, keys, r))
  }

  lemma DescentStart(m: Mem, cls: Classes, size: int, t: Tree, p: int)
    requires Ordered(t) && Sized(m, cls) && Positive(cls, Keys(t)) && Rep(m, cls, t, p)
    ensures Descent(m, m, cls, Keys(t), size, Leaf, LINK_NODE, t, p, Leaf, LINK_NODE)
  {
  }

  /** What the code reads at the current node and its children. */
  lemma DescentReads(m0: Mem, m: Mem, cls: Classes, keys: set<int>, size: int,
                     lo: Tree, l: int, t: Tree, node: int, hi: Tree, r: int)
    requires Descent(m0, m, cls, keys, size, lo, l, t, node, hi, r)
    ensures Ordered(t)
    ensures node == NIL <==> t == Leaf
    ensures t.Node? ==> NodeFor(m, cls, keys, node) && m.Size(node) == t.key && node != l && node != r
    ensures t.Node? && m.Left(node) != NIL ==>
            t.l.Node? && NodeFor(m, cls, keys, m.Left(node)) && m.Size(m.Left(node)) == t.l.key
    ensures t.Node? && m.Right(node) != NIL ==>
            t.r.Node? && NodeFor(m, cls, keys, m.Right(node)) && m.Size(m.Right(node)) == t.r.key
  {
    if t.Node? {
      LeftPartLast(m, cls, lo, LINK_NODE, l);
      RightPartLast(m, cls, hi, LINK_NODE, r);
      assert t.key in Keys(t);
      assert Rep(m, cls, t.l, m.Left(node)) && Rep(m, cls, t.r, m.Right(node));
      if t.l.Node? { assert t.l.key in Keys(t); }
      if t.r.Node? { assert t.r.key in Keys(t); }
    }
  }

  lemma DescentRotateRight(m0: Mem, m: Mem, cls: Classes, keys: set<int>, size: int,
                           lo: Tree, l: int, t: Tree, node: int, hi: Tree, r: int)
    requires Descent(m0, m, cls, keys, size, lo, l, t, node, hi, r)
    requires t.Node? && m.Left(node) != NIL
    ensures t.l.Node?
    ensures var y := m.Left(node);
            Descent(m0, WithRight(WithLeft(m, node, m.Right(y)), y, node), cls, keys, size, lo, l,
                RotatedRight(t), y, hi, r)
  {
    DescentReads(m0, m, cls, keys, size, lo, l, t, node, hi, r);
    RotateRight(m, cls, keys, lo, l, t, node, hi, r);
  }

  lemma DescentRotateLeft(m0: Mem, m: Mem, cls: Classes, keys: set<int>, size: int,
                          lo: Tree, l: int, t: Tree, node: int, hi: Tree, r: int)
    requires Descent(m0, m, cls, keys, size, lo, l, t, node, hi, r)
    requires t.Node? && m.Right(node) != NIL
    ensures t.r.Node?
    ensures var y := m.Right(node);
            Descent(m0, WithLeft(WithRight(m, node, m.Left(y)), y, node), cls, keys, size, lo, l,
                RotatedLeft(t), y, hi, r)
  {
    DescentReads(m0, m, cls, keys, size, lo, l, t, node, hi, r);
    RotateLeft(m, cls, keys, lo, l, t, node, hi, r);
  }

  lemma DescentLinkRight(m0: Mem, m: Mem, cls: Classes, keys: set<int>, size: int,
                         lo: Tree, l: int, t: Tree, node: int, hi: Tree, r: int)
    requires Descent(m0, m, cls, keys, size, lo, l, t, node, hi, r)
    requires t.Node? && size < t.key
    ensures Descent(m0, WithLeft(m, r, node), cls, keys, size, lo, l, t.l, m.Left(node), Upper(t, hi), node)
  {
    hide Split, TreeWrites, Upper, Lower, Keys, Ordered;
    DescentReads(m0, m, cls, keys, size, lo, l, t, node, hi, r);
    UpperAbove(size, t, hi);
    LinkRight(m, cls, keys, lo, l, t, node, hi, r);
    assert TreeWrites(m0, WithLeft(m, r, node), cls, keys) by {
      TreeWritesMore(m0, m, WithLeft(m, r, node), cls, keys, r);
    }
  }

  lemma DescentLinkLeft(m0: Mem, m: Mem, cls: Classes, keys: set<int>, size: int,
                        lo: Tree, l: int, t: Tree, node: int, hi: Tree, r: int)
    requires Descent(m0, m, cls, keys, size, lo, l, t, node, hi, r)
    requires t.Node? && t.key < size
    ensures Descent(m0, WithRight(m, l, node), cls, keys, size, Lower(lo, t), node, t.r, m.Right(node), hi, r)
  {
    hide Split, TreeWrites, Upper, Lower, Keys, Ordered;
    DescentReads(m0, m, cls, keys, size, lo, l, t, node, hi, r);
    LowerBelow(size, lo, t);
    LinkLeft(m, cls, keys, lo, l, t, node, hi, r);
    assert TreeWrites(m0, WithRight(m, l, node), cls, keys) by {
      TreeWritesMore(m0, m, WithRight(m, l, node), cls, keys, l);
    }
  }

  /** The zig-zag rounds write RIGHT(l) and LEFT(r), in the order of the code. */
  lemma DescentZigZagRight(m0: Mem, m: Mem, cls: Classes, keys: set<int>, size: int,
                           lo: Tree, l: int, t: Tree, node: int, hi: Tree, r: int)
    requires Descent(m0, m, cls, keys, size, lo, l, t, node, hi, r)
    requires t.Node? && t.l.Node? && t.l.key < size < t.key
    ensures var y := m.Left(node); var m' := WithRight(m, l, y);
            Descent(m0, WithLeft(m', r, node), cls, keys, size, Lower(lo, t.l), y, t.l.r, m'.Right(y),
                Upper(t, hi), node)
  {
    var y := m.Left(node);
    DescentLinkRight(m0, m, cls, keys, size, lo, l, t, node, hi, r);
    var m1 := WithLeft(m, r, node);
    DescentReads(m0, m1, cls, keys, size, lo, l, t.l, y, Upper(t, hi), node);
    DescentLinkLeft(m0, m1, cls, keys, size, lo, l, t.l, y, Upper(t, hi), node);
    assert WithRight(m1, l, y) == WithLeft(WithRight(m, l, y), r, node);
    LeftPartLast(m1, cls, lo, LINK_NODE, l);
    assert t.l.key in Keys(t.l);
  }

  lemma DescentZigZagLeft(m0: Mem, m: Mem, cls: Classes, keys: set<int>, size: int,
                          lo: Tree, l: int, t: Tree, node: int, hi: Tree, r: int)
    requires Descent(m0, m, cls, keys, size, lo, l, t, node, hi, r)
    requires t.Node? && t.r.Node? && t.key < size < t.r.key
    ensures var y := m.Right(node); var m' := WithLeft(m, r, y);
            Descent(m0, WithRight(m', l, node), cls, keys, size, Lower(lo, t), node, t.r.l, m'.Left(y),
                Upper(t.r, hi), y)
  {
    var y := m.Right(node);
    DescentLinkLeft(m0, m, cls, keys, size, lo, l, t, node, hi, r);
    var m1 := WithRight(m, l, node);
    DescentReads(m0, m1, cls, keys, size, Lower(lo, t), node, t.r, y, hi, r);
    DescentLinkRight(m0, m1, cls, keys, size, Lower(lo, t), node, t.r, y, hi, r);
    assert WithLeft(m1, r, y) == WithRight(WithLeft(m, r, y), l, node);
    RightPartLast(m1, cls, hi, LINK_NODE, r);
    assert t.r.key in Keys(t.r);
  }
}
