/** The second half of bestsearch: isolate the block found and put the tree back together. */
module Extract {
  import opened VmMemory
  import opened FreeTree
  import opened Splay

  /** Every listed block has the size of its class, and none is listed twice. */
  ghost predicate Listed(m: Mem, cls: Classes) {
    && (forall s, i :: 0 <= i < |List(cls, s)| ==> List(cls, s)[i] > 0 && m.Size(List(cls, s)[i]) == s)
    && (forall s, i, j :: 0 <= i < j < |List(cls, s)| ==> List(cls, s)[i] != List(cls, s)[j])
  }

  /** Class k without the head of its list. */
  function DropHead(cls: Classes, k: int): Classes {
    if List(cls, k) == [] then cls else cls[k := List(cls, k)[1..]]
  }

  /** Block `node` of size k is cut loose from the tree (NIL if no block fits); what was below k is
      tree a, hanging off the right field of the local variable, what was above is tree b with root q. */
  ghost predicate Isolated(m0: Mem, m: Mem, cls: Classes, keys: set<int>, size: int, node: int, k: int, a: Tree,
                           b: Tree, q: int)
  {
    && Rep(m, cls, a, m.Right(LINK_NODE)) && Ordered(a)
    && Rep(m, cls, b, q) && Ordered(b)
    && (forall s :: s in Keys(a) ==> s < size)
    && (forall s :: s in Keys(b) ==> size < s)
    && TreeWrites(m0, m, cls, keys)
    && (node == NIL ==> b == Leaf && keys == Keys(a))
    && (node != NIL ==> node == HeadOf(cls, k) && size <= k && k !in Keys(b) && keys == Keys(a) + {k} + Keys(b))
    && (node != NIL ==> forall s :: s in Keys(b) ==> k < s)
  }

  lemma DescentEnds(m0: Mem, m: Mem, cls: Classes, keys: set<int>, size: int,
                    lo: Tree, l: int, t: Tree, node: int, hi: Tree, r: int, a: Tree, p: int, b: Tree, q: int)
    requires Descent(m0, m, cls, keys, size, lo, l, t, node, hi, r)
    requires (t == Leaf && a == Leaf && b == Leaf && p == NIL && q == NIL) ||
             (t.Node? && t.key == size && a == t.l && b == t.r && p == m.Left(node) && q == m.Right(node))
    ensures Ends(m, cls, lo, l, a, p, b, q, hi, r)
    ensures forall s :: s in Keys(lo) + Keys(a) ==> s < size
    ensures forall s :: s in Keys(b) + Keys(hi) ==> size < s
    ensures keys == Keys(lo) + Keys(a) + (if t.Node? then {size} else {}) + Keys(b) + Keys(hi)
    ensures t.Node? ==> node == HeadOf(cls, size) && node != NIL
  {
    hide LeftPart, RightPart, TreeWrites, NodeFor, Below, Ordered, Keys;
    SliceEnds(size, lo, t, hi);
  }

  /** Taking the root of the middle slice away leaves four trees in order. */
  lemma SliceEnds(size: int, lo: Tree, t: Tree, hi: Tree)
    requires Sliced(lo, t, hi)
    requires t.Node? ==> t.key == size
    requires forall s :: s in Keys(lo) ==> s < size
    requires forall s :: s in Keys(hi) ==> size < s
    ensures Keys(Leaf) == {} && Ordered(Leaf) && Below(lo, Leaf) && Below(Leaf, hi)
    ensures t.Node? ==>
              && Ordered(t.l) && Ordered(t.r)
              && (forall s :: s in Keys(t.l) ==> s < size) && (forall s :: s in Keys(t.r) ==> size < s)
              && Below(lo, t.l) && Below(lo, t.r) && Below(t.l, hi) && Below(t.r, hi)
              && t.key in Keys(t) && Keys(t.l) <= Keys(t) && Keys(t.r) <= Keys(t)
              && Keys(lo) + Keys(t) + Keys(hi) == Keys(lo) + Keys(t.l) + {size} + Keys(t.r) + Keys(hi)
  {
    if t.Node? {
      assert t.key in Keys(t) && Keys(t.l) <= Keys(t) && Keys(t.r) <= Keys(t);
    }
  }

  /** RIGHT(l) and LEFT(r) closed with the subtrees of the block found, or with NIL. */
  lemma CloseDescent(m0: Mem, m: Mem, cls: Classes, keys: set<int>, size: int,
                     lo: Tree, l: int, t: Tree, node: int, hi: Tree, r: int, a: Tree, p: int, b: Tree, q: int)
    requires Descent(m0, m, cls, keys, size, lo, l, t, node, hi, r)
    requires (t == Leaf && a == Leaf && b == Leaf && p == NIL && q == NIL) ||
             (t.Node? && t.key == size && a == t.l && b == t.r && p == m.Left(node) && q == m.Right(node))
    ensures var m' := WithLeft(WithRight(m, l, p), r, q);
            var a' := JoinRight(lo, a); var b' := JoinLeft(b, hi);
            && Rep(m', cls, a', m'.Right(LINK_NODE)) && Ordered(a')
            && Rep(m', cls, b', m'.Left(LINK_NODE)) && Ordered(b')
            && (forall s :: s in Keys(a') ==> s < size)
            && (forall s :: s in Keys(b') ==> size < s)
            && TreeWrites(m0, m', cls, keys)
            && keys == Keys(a') + (if t.Node? then {size} else {}) + Keys(b')
            && (t.Node? ==> node == HeadOf(cls, size) && node != NIL)
  {
    hide Ends, TreeWrites, Split, Rep, Ordered, Keys, LeftPart, RightPart, JoinLeft, JoinRight, NodeFor;
    DescentEnds(m0, m, cls, keys, size, lo, l, t, node, hi, r, a, p, b, q);
    Close(m, cls, lo, l, a, p, b, q, hi, r);
    TreeWritesMore(m0, m, WithRight(m, l, p), cls, keys, l);
    TreeWritesMore(m0, WithRight(m, l, p), WithLeft(WithRight(m, l, p), r, q), cls, keys, r) by {
      NodeForSame(m, WithRight(m, l, p), cls, keys, r);
    }
  }

  lemma NodeForSame(m: Mem, m': Mem, cls: Classes, keys: set<int>, x: int)
    requires m'.hdr == m.hdr
    ensures NodeFor(m', cls, keys, x) <==> NodeFor(m, cls, keys, x)
  {
  }

  /** The result of the search in terms of classes: nothing if all sizes are smaller, otherwise the
      head of the class of the least size that is large enough. */
  ghost predicate BestFit(cls: Classes, cls': Classes, keys: set<int>, keys': set<int>, size: int, b: int, k: int) {
    if b == NIL then
      && cls' == cls && keys' == keys
      && forall s :: s in keys ==> s < size
    else
      && k in keys && size <= k
      && (forall s :: s in keys && size <= s ==> k <= s)
      && b == HeadOf(cls, k) && List(cls, k) != []
      && cls' == DropHead(cls, k)
      && keys' == (if |List(cls, k)| > 1 then keys else keys - {k})
  }

  /** m' differs from m at most in LEFT and RIGHT fields of the old tree nodes, of `extra`, and of the local
      variable. */
  ghost predicate SearchWrites(m: Mem, m': Mem, cls: Classes, keys: set<int>, extra: int) {
    && m' == m.(left := m'.left, right := m'.right)
    && forall a :: a == NIL || (a != LINK_NODE && a != extra && !NodeFor(m, cls, keys, a)) ==>
       m'.Left(a) == m.Left(a) && m'.Right(a) == m.Right(a)
  }

  lemma ListedIsSized(m: Mem, cls: Classes)
    requires Listed(m, cls)
    ensures Sized(m, cls)
  {
  }

  lemma ListedTail(m: Mem, cls: Classes, k: int)
    requires Listed(m, cls) && List(cls, k) != []
    ensures Listed(m, DropHead(cls, k))
  {
    var cls' := DropHead(cls, k);
    assert forall s :: List(cls', s) == if s == k then List(cls, k)[1..] else List(cls, s);
  }

  lemma LastListed(m: Mem, cls: Classes, k: int)
    requires Listed(m, cls)
    ensures Nth(List(cls, k), 1) == NIL <==> |List(cls, k)| <= 1
  {
  }

  lemma SecondListed(m: Mem, cls: Classes, k: int)
    requires Listed(m, cls) && |List(cls, k)| > 1
    ensures var r := List(cls, k)[1]; r > 0 && m.Size(r) == k && r == HeadOf(DropHead(cls, k), k)
  {
  }

  /** No list left for a removed class, or heads unchanged: trees without k look the same. */
  lemma RepTail(m: Mem, cls: Classes, k: int, t: Tree, p: int)
    requires Rep(m, cls, t, p) && k !in Keys(t)
    ensures Rep(m, DropHead(cls, k), t, p)
    requires List(cls, k) != []
  {
  }

  lemma PromoteWrites(m0: Mem, m: Mem, cls: Classes, keys: set<int>, r: int)
    requires TreeWrites(m0, m, cls, keys) && Positive(cls, keys) && r > 0
    ensures SearchWrites(m0, WithRight(WithLeft(m, r, m.Right(LINK_NODE)), r, m.Left(LINK_NODE)), cls, keys, r)
  {
  }

  lemma GraftWrites(m0: Mem, m: Mem, cls: Classes, keys: set<int>, r: int, s: int)
    requires TreeWrites(m0, m, cls, keys) && Positive(cls, keys) && s in keys && r == HeadOf(cls, s) && m.Size(r) == s
    ensures SearchWrites(m0, WithLeft(m, r, m.Right(LINK_NODE)), cls, keys, NIL)
  {
  }

  /** A same-size block takes the place of the one removed. */
  lemma FinishPromote(m0: Mem, m: Mem, cls: Classes, keys: set<int>, size: int, node: int, k: int, a: Tree,
                      b: Tree, r: int)
    requires Isolated(m0, m, cls, keys, size, node, k, a, b, m.Left(LINK_NODE)) && node != NIL
    requires Listed(m, cls) && Positive(cls, keys) && |List(cls, k)| > 1 && r == List(cls, k)[1]
    ensures var m' := WithRight(WithLeft(m, r, m.Right(LINK_NODE)), r, m.Left(LINK_NODE));
            var cls' := DropHead(cls, k);
            && Rep(m', cls', Node(a, k, b), r) && Ordered(Node(a, k, b))
            && SearchWrites(m0, m', cls, keys, r)
            && BestFit(cls, cls', keys, Keys(Node(a, k, b)), size, node, k)
  {
    hide Listed, SearchWrites, TreeWrites;
    var m' := WithRight(WithLeft(m, r, m.Right(LINK_NODE)), r, m.Left(LINK_NODE));
    var cls' := DropHead(cls, k);
    ListedIsSized(m, cls);
    SecondListed(m, cls, k);
    PromoteWrites(m0, m, cls, keys, r);
    RepKeep(m, m', cls, a, m.Right(LINK_NODE), r, r);
    RepKeep(m, m', cls, b, m.Left(LINK_NODE), r, r);
    RepTail(m', cls, k, a, m.Right(LINK_NODE));
    RepTail(m', cls, k, b, m.Left(LINK_NODE));
    assert Keys(Node(a, k, b)) == keys;
  }

  /** Nothing above the block removed: the lower tree is all that is left. */
  lemma FinishLower(m0: Mem, m: Mem, cls: Classes, keys: set<int>, size: int, node: int, k: int, a: Tree, b: Tree)
    requires Isolated(m0, m, cls, keys, size, node, k, a, b, NIL) && b == Leaf
    requires Listed(m, cls) && Positive(cls, keys) && (node != NIL ==> |List(cls, k)| <= 1)
    ensures var cls' := if node == NIL then cls else DropHead(cls, k);
            && Rep(m, cls', a, m.Right(LINK_NODE)) && Ordered(a)
            && SearchWrites(m0, m, cls, keys, NIL)
            && BestFit(cls, cls', keys, Keys(a), size, node, k)
  {
    if node != NIL {
      RepTail(m, cls, k, a, m.Right(LINK_NODE));
      assert Keys(a) == keys - {k};
    }
  }

  lemma GraftRep(m: Mem, cls: Classes, k: int, a: Tree, b: Tree, r: int)
    requires Rep(m, cls, a, m.Right(LINK_NODE)) && Rep(m, cls, b, r) && b.Node? && b.l == Leaf
    requires Sized(m, cls) && Positive(cls, Keys(a) + Keys(b)) && Ordered(b)
    requires k !in Keys(a) && k !in Keys(b) && b.key !in Keys(a) && List(cls, k) != []
    ensures r == HeadOf(cls, b.key) > 0
    ensures Rep(WithLeft(m, r, m.Right(LINK_NODE)), DropHead(cls, k), Node(a, b.key, b.r), r)
  {
    var m' := WithLeft(m, r, m.Right(LINK_NODE));
    assert b.key in Keys(b);
    RepKeep(m, m', cls, a, m.Right(LINK_NODE), r, r);
    RepKeep(m, m', cls, b.r, m.Right(r), r, r);
    RepTail(m', cls, k, a, m.Right(LINK_NODE));
    RepTail(m', cls, k, b.r, m.Right(r));
  }

  /** The lower tree is grafted under the least block of the upper tree. */
  lemma FinishGraft(m0: Mem, m: Mem, cls: Classes, keys: set<int>, size: int, node: int, k: int, a: Tree,
                    b: Tree, r: int)
    requires Isolated(m0, m, cls, keys, size, node, k, a, b, r) && node != NIL
    requires b.Node? && b.l == Leaf
    requires Listed(m, cls) && Positive(cls, keys) && |List(cls, k)| <= 1
    ensures var m' := WithLeft(m, r, m.Right(LINK_NODE));
            var cls' := DropHead(cls, k);
            var t' := Node(a, b.key, b.r);
            && Rep(m', cls', t', r) && Ordered(t')
            && SearchWrites(m0, m', cls, keys, NIL)
            && BestFit(cls, cls', keys, Keys(t'), size, node, k)
  {
    hide Listed, SearchWrites, TreeWrites, Rep;
    ListedIsSized(m, cls);
    GraftRep(m, cls, k, a, b, r);
    GraftWrites(m0, m, cls, keys, r, b.key);
    assert Keys(b) == {b.key} + Keys(b.r);
    assert Keys(Node(a, b.key, b.r)) == keys - {k};
  }

  lemma RootLeast(m: Mem, cls: Classes, b: Tree, q: int)
    requires Ordered(b) && b.Node? && b.l == Leaf && Rep(m, cls, b, q)
    ensures q == HeadOf(cls, b.key) && q != NIL && Rep(m, cls, b.r, m.Right(q))
    ensures Ordered(b.r) && Keys(b) == {b.key} + Keys(b.r) && b.key in Keys(b)
    ensures forall s :: s in Keys(b.r) ==> b.key < s
  {
  }

  /** Nothing fits exactly: the least block of the upper tree, rotated to its root q, is taken. */
  lemma IsolateMin(m0: Mem, m: Mem, cls: Classes, keys: set<int>, size: int, a: Tree, b: Tree, q: int)
    requires Rep(m, cls, a, m.Right(LINK_NODE)) && Ordered(a) && Rep(m, cls, b, q) && Ordered(b)
    requires b.Node? && b.l == Leaf
    requires forall s :: s in Keys(a) ==> s < size
    requires forall s :: s in Keys(b) ==> size < s
    requires TreeWrites(m0, m, cls, keys) && keys == Keys(a) + Keys(b)
    requires Sized(m, cls) && Positive(cls, keys)
    ensures var m' := WithLeft(m, LINK_NODE, m.Right(q));
            Isolated(m0, m', cls, keys, size, q, b.key, a, b.r, m'.Left(LINK_NODE)) && q > 0
  {
    hide TreeWrites, NodeFor, Sized, Rep, Keys, Ordered;
    var m' := WithLeft(m, LINK_NODE, m.Right(q));
    RootLeast(m, cls, b, q);
    TreeWritesMore(m0, m, m', cls, keys, LINK_NODE);
    RepKeep(m, m', cls, a, m.Right(LINK_NODE), LINK_NODE, LINK_NODE);
    RepKeep(m, m', cls, b.r, m.Right(q), LINK_NODE, LINK_NODE);
  }

  lemma TreeWritesTrans(m0: Mem, m: Mem, m': Mem, cls: Classes, keys: set<int>, some: set<int>)
    requires TreeWrites(m0, m, cls, keys) && TreeWrites(m, m', cls, some) && some <= keys
    ensures TreeWrites(m0, m', cls, keys)
  {
  }

  lemma TreeWritesKeep(m0: Mem, m: Mem, cls: Classes, keys: set<int>)
    requires TreeWrites(m0, m, cls, keys) && Listed(m0, cls)
    ensures Listed(m, cls) && Sized(m, cls) && m.link == m0.link && m.hdr == m0.hdr
  {
    ListedIsSized(m0, cls);
  }

  lemma IsolatedRotated(m0: Mem, m: Mem, m': Mem, cls: Classes, keys: set<int>, size: int, node: int, k: int,
                        a: Tree, b: Tree, q: int, b': Tree, q': int)
    requires Isolated(m0, m, cls, keys, size, node, k, a, b, q)
    requires Sized(m, cls) && Positive(cls, keys)
    requires TreeWrites(m, m', cls, Keys(b)) && Keys(b') == Keys(b) && Ordered(b') && Rep(m', cls, b', q')
    requires m'.Right(LINK_NODE) == m.Right(LINK_NODE)
    ensures Isolated(m0, m', cls, keys, size, node, k, a, b', q')
  {
    hide NodeFor, Sized;
    RepApart(m, m', cls, Keys(b), a, m.Right(LINK_NODE));
    TreeWritesTrans(m0, m, m', cls, keys, Keys(b));
  }

  lemma BestFitDrops(cls: Classes, cls': Classes, keys: set<int>, keys': set<int>, size: int, b: int, k: int)
    requires BestFit(cls, cls', keys, keys', size, b, k) && b != NIL
    ensures cls' == DropHead(cls, k) && List(cls, k) != []
  {
  }

  lemma BestFitNone(cls: Classes, cls': Classes, keys: set<int>, keys': set<int>, size: int, k: int)
    requires BestFit(cls, cls', keys, keys', size, NIL, k)
    ensures cls' == cls && keys' == keys
  {
  }

  /** A size that is present is found exactly. */
  lemma BestFitHits(cls: Classes, cls': Classes, keys: set<int>, keys': set<int>, size: int, b: int, k: int)
    requires BestFit(cls, cls', keys, keys', size, b, k)
    ensures b == NIL ==> cls' == cls
    ensures b != NIL ==> k in keys
    ensures size in keys ==> b == HeadOf(cls, size) && b != NIL
  {
  }
}
