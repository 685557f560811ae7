/** The splay tree of large free blocks: what a tree of sizes means in memory, and the two
    partial trees that the top-down splay assembles on the way. */
module FreeTree {
  import opened VmMemory

  /** A binary tree of block sizes.  The node for size s is the block HeadOf(cls, s). */
  datatype Tree = Leaf | Node(l: Tree, key: int, r: Tree)

  ghost function Keys(t: Tree): set<int> {
    match t
    case Leaf => {}
    case Node(l, k, r) => Keys(l) + {k} + Keys(r)
  }

  /** Strictly ordered by size, as the tree checker of the source demands. */
  ghost predicate Ordered(t: Tree) {
    match t
    case Leaf => true
    case Node(l, k, r) =>
      && Ordered(l) && Ordered(r)
      && (forall x :: x in Keys(l) ==> x < k)
      && (forall x :: x in Keys(r) ==> k < x)
  }

  /** Pointer p is the root of tree t in memory m. */
  ghost predicate Rep(m: Mem, cls: Classes, t: Tree, p: int) {
    match t
    case Leaf => p == NIL
    case Node(l, k, r) =>
      p != NIL && p == HeadOf(cls, k) && Rep(m, cls, l, m.Left(p)) && Rep(m, cls, r, m.Right(p))
  }

  /** Every list head has the size of its class; hence different classes have different heads. */
  ghost predicate Sized(m: Mem, cls: Classes) {
    forall s :: HeadOf(cls, s) != NIL ==> m.Size(HeadOf(cls, s)) == s
  }

  /** t hangs off the right field of `from`; the right field of its greatest node, `last`, is open. */
  ghost predicate LeftPart(m: Mem, cls: Classes, t: Tree, from: int, last: int) {
    match t
    case Leaf => last == from
    case Node(l, k, r) =>
      var h := HeadOf(cls, k);
      h != NIL && m.Right(from) == h && Rep(m, cls, l, m.Left(h)) && LeftPart(m, cls, r, h, last)
  }

  /** t hangs off the left field of `from`; the left field of its least node, `last`, is open. */
  ghost predicate RightPart(m: Mem, cls: Classes, t: Tree, from: int, last: int) {
    match t
    case Leaf => last == from
    case Node(l, k, r) =>
      var h := HeadOf(cls, k);
      h != NIL && m.Left(from) == h && Rep(m, cls, r, m.Right(h)) && RightPart(m, cls, l, h, last)
  }

  /** t with u put to the right of everything in it. */
  ghost function JoinRight(t: Tree, u: Tree): (j: Tree)
    ensures Keys(j) == Keys(t) + Keys(u)
  {
    match t
    case Leaf => u
    case Node(l, k, r) => Node(l, k, JoinRight(r, u))
  }

  /** t with u put to the left of everything in it. */
  ghost function JoinLeft(u: Tree, t: Tree): (j: Tree)
    ensures Keys(j) == Keys(u) + Keys(t)
  {
    match t
    case Leaf => u
    case Node(l, k, r) => Node(JoinLeft(u, l), k, r)
  }

  lemma {:induction false} JoinRightOrdered(t: Tree, u: Tree)
    requires Ordered(t) && Ordered(u)
    requires forall x, y :: x in Keys(t) && y in Keys(u) ==> x < y
    ensures Ordered(JoinRight(t, u))
  {
    if t.Node? {
      assert Keys(t.r) <= Keys(t) && t.key in Keys(t);
      JoinRightOrdered(t.r, u);
    }
  }

  lemma {:induction false} JoinLeftOrdered(u: Tree, t: Tree)
    requires Ordered(t) && Ordered(u)
    requires forall x, y :: x in Keys(u) && y in Keys(t) ==> x < y
    ensures Ordered(JoinLeft(u, t))
  {
    if t.Node? {
      assert Keys(t.l) <= Keys(t) && t.key in Keys(t);
      JoinLeftOrdered(u, t.l);
    }
  }

  lemma RootNil(m: Mem, cls: Classes, t: Tree, p: int)
    requires Rep(m, cls, t, p)
    ensures p == NIL <==> t == Leaf
  {
  }

  /** Heads at which two memories (and class maps) look alike to a tree. */
  ghost predicate SameAt(m: Mem, m': Mem, cls: Classes, cls': Classes, s: int) {
    var h := HeadOf(cls, s);
    HeadOf(cls', s) == h && m'.Left(h) == m.Left(h) && m'.Right(h) == m.Right(h)
  }

  lemma {:induction false} RepFrame(m: Mem, m': Mem, cls: Classes, cls': Classes, t: Tree, p: int)
    requires Rep(m, cls, t, p)
    requires forall s :: s in Keys(t) ==> SameAt(m, m', cls, cls', s)
    ensures Rep(m', cls', t, p)
  {
    if t.Node? {
      assert SameAt(m, m', cls, cls', t.key);
      RepFrame(m, m', cls, cls', t.l, m.Left(p));
      RepFrame(m, m', cls, cls', t.r, m.Right(p));
    }
  }

  lemma {:induction false} LeftPartLast(m: Mem, cls: Classes, t: Tree, from: int, last: int)
    requires LeftPart(m, cls, t, from, last) && Sized(m, cls)
    ensures last == from || (last != NIL && m.Size(last) in Keys(t) && last == HeadOf(cls, m.Size(last)))
  {
    if t.Node? { LeftPartLast(m, cls, t.r, HeadOf(cls, t.key), last); }
  }

  lemma {:induction false} RightPartLast(m: Mem, cls: Classes, t: Tree, from: int, last: int)
    requires RightPart(m, cls, t, from, last) && Sized(m, cls)
    ensures last == from || (last != NIL && m.Size(last) in Keys(t) && last == HeadOf(cls, m.Size(last)))
  {
    if t.Node? { RightPartLast(m, cls, t.l, HeadOf(cls, t.key), last); }
  }

  /** Writing the open field, or fields of blocks outside t, keeps a left part. */
  lemma {:induction false} LeftPartFrame(m: Mem, m': Mem, cls: Classes, t: Tree, from: int, last: int)
    requires LeftPart(m, cls, t, from, last) && Sized(m, cls) && Ordered(t)
    requires from != last ==> m'.Right(from) == m.Right(from)
    requires forall s :: s in Keys(t) ==> m'.Left(HeadOf(cls, s)) == m.Left(HeadOf(cls, s))
    requires forall s :: s in Keys(t) && HeadOf(cls, s) != last ==> m'.Right(HeadOf(cls, s)) == m.Right(HeadOf(cls, s))
    requires forall s :: s in Keys(t) ==> HeadOf(cls, s) != from
    ensures LeftPart(m', cls, t, from, last)
  {
    match t
    case Leaf =>
    case Node(l, k, r) =>
      var h := HeadOf(cls, k);
      LeftPartLast(m, cls, t, from, last);
      LeftPartLast(m, cls, r, h, last);
      forall s | s in Keys(l) ensures SameAt(m, m', cls, cls, s) { assert s in Keys(t); }
      RepFrame(m, m', cls, cls, l, m.Left(h));
      LeftPartFrame(m, m', cls, r, h, last);
  }

  lemma {:induction false} RightPartFrame(m: Mem, m': Mem, cls: Classes, t: Tree, from: int, last: int)
    requires RightPart(m, cls, t, from, last) && Sized(m, cls) && Ordered(t)
    requires from != last ==> m'.Left(from) == m.Left(from)
    requires forall s :: s in Keys(t) ==> m'.Right(HeadOf(cls, s)) == m.Right(HeadOf(cls, s))
    requires forall s :: s in Keys(t) && HeadOf(cls, s) != last ==> m'.Left(HeadOf(cls, s)) == m.Left(HeadOf(cls, s))
    requires forall s :: s in Keys(t) ==> HeadOf(cls, s) != from
    ensures RightPart(m', cls, t, from, last)
  {
    match t
    case Leaf =>
    case Node(l, k, r) =>
      var h := HeadOf(cls, k);
      RightPartLast(m, cls, t, from, last);
      RightPartLast(m, cls, l, h, last);
      forall s | s in Keys(r) ensures SameAt(m, m', cls, cls, s) { assert s in Keys(t); }
      RepFrame(m, m', cls, cls, r, m.Right(h));
      RightPartFrame(m, m', cls, l, h, last);
  }

  /** Closing the open field with tree u yields the joined tree. */
  lemma {:induction false} LeftPartClose(m: Mem, cls: Classes, t: Tree, from: int, last: int, u: Tree)
    requires LeftPart(m, cls, t, from, last)
    requires Rep(m, cls, u, m.Right(last))
    ensures Rep(m, cls, JoinRight(t, u), m.Right(from))
  {
    if t.Node? { LeftPartClose(m, cls, t.r, HeadOf(cls, t.key), last, u); }
  }

  lemma {:induction false} RightPartClose(m: Mem, cls: Classes, t: Tree, from: int, last: int, u: Tree)
    requires RightPart(m, cls, t, from, last)
    requires Rep(m, cls, u, m.Left(last))
    ensures Rep(m, cls, JoinLeft(u, t), m.Left(from))
  {
    if t.Node? { RightPartClose(m, cls, t.l, HeadOf(cls, t.key), last, u); }
  }

  /** Linking one more node, with its left subtree, at the open end. */
  lemma {:induction false} LeftPartGrow(m: Mem, cls: Classes, t: Tree, from: int, last: int, l: Tree, k: int)
    requires LeftPart(m, cls, t, from, last)
    requires HeadOf(cls, k) != NIL && m.Right(last) == HeadOf(cls, k) && Rep(m, cls, l, m.Left(HeadOf(cls, k)))
    ensures LeftPart(m, cls, JoinRight(t, Node(l, k, Leaf)), from, HeadOf(cls, k))
  {
    if t.Node? { LeftPartGrow(m, cls, t.r, HeadOf(cls, t.key), last, l, k); }
  }

  lemma {:induction false} RightPartGrow(m: Mem, cls: Classes, t: Tree, from: int, last: int, r: Tree, k: int)
    requires RightPart(m, cls, t, from, last)
    requires HeadOf(cls, k) != NIL && m.Left(last) == HeadOf(cls, k) && Rep(m, cls, r, m.Right(HeadOf(cls, k)))
    ensures RightPart(m, cls, JoinLeft(Node(Leaf, k, r), t), from, HeadOf(cls, k))
  {
    if t.Node? { RightPartGrow(m, cls, t.l, HeadOf(cls, t.key), last, r, k); }
  }
}
