/** AVL trees with the nodes inside the entries they index: insertion by recursion and rebalancing in
    place, and the search.  The fields of the nodes are kept in maps by node address; a pointer to a
    pointer to a node becomes an in- and an out-parameter. */
module Avl {
  import opened Seqs

  const NIL := 0

  const AVL_NONE := 0
  const AVL_LEFT := 1
  const AVL_RIGHT := 2

  datatype Res = OK | BALANCE

  /** The fields of all nodes. */
  datatype Fields = Fields(left: map<int, int>, right: map<int, int>, skew: map<int, int>) {
    function Left(n: int): int { if n in left then left[n] else NIL }
    function Right(n: int): int { if n in right then right[n] else NIL }
    function Skew(n: int): int { if n in skew then skew[n] else AVL_NONE }
  }

  function WithLeft(f: Fields, n: int, v: int): Fields { f.(left := f.left[n := v]) }
  function WithRight(f: Fields, n: int, v: int): Fields { f.(right := f.right[n := v]) }
  function WithSkew(f: Fields, n: int, v: int): Fields { f.(skew := f.skew[n := v]) }

  // ---------- trees ----------

  datatype Tree = Leaf | Fork(l: Tree, n: int, r: Tree)

  function Root(t: Tree): int { if t.Leaf? then NIL else t.n }

  ghost function Ids(t: Tree): set<int> {
    match t
    case Leaf => {}
    case Fork(l, n, r) => Ids(l) + {n} + Ids(r)
  }

  function Height(t: Tree): nat {
    match t
    case Leaf => 0
    case Fork(l, _, r) => 1 + if Height(l) > Height(r) then Height(l) else Height(r)
  }

  /** The skew flag for the heights of two subtrees. */
  function SkewOf(hl: int, hr: int): int {
    if hl > hr then AVL_LEFT else if hl < hr then AVL_RIGHT else AVL_NONE
  }

  /** Heights of siblings differ by at most one. */
  ghost predicate Balanced(t: Tree) {
    match t
    case Leaf => true
    case Fork(l, _, r) => Balanced(l) && Balanced(r) && -1 <= Height(l) - Height(r) <= 1
  }

  /** p points to tree t: links, and skew flags that tell which side is higher. */
  ghost predicate Is(f: Fields, t: Tree, p: int) {
    match t
    case Leaf => p == NIL
    case Fork(l, n, r) =>
      && p == n != NIL && f.Skew(n) == SkewOf(Height(l), Height(r))
      && Is(f, l, f.Left(n)) && Is(f, r, f.Right(n))
  }

  ghost function InOrder(t: Tree): (s: seq<int>)
    ensures forall x :: x in s <==> x in Ids(t)
  {
    match t
    case Leaf => []
    case Fork(l, n, r) => InOrder(l) + [n] + InOrder(r)
  }

  /** No node occurs twice. */
  ghost predicate Apart(t: Tree) { Distinct(InOrder(t)) }

  lemma ApartParts(t: Tree)
    requires Apart(t) && t.Fork?
    ensures Apart(t.l) && Apart(t.r) && t.n !in Ids(t.l) && t.n !in Ids(t.r)
    ensures forall x :: x in Ids(t.l) ==> x !in Ids(t.r)
  {
    DistinctParts(InOrder(t.l), t.n, InOrder(t.r));
  }

  lemma DistinctParts(a: seq<int>, n: int, b: seq<int>)
    requires Distinct(a + [n] + b)
    ensures Distinct(a) && Distinct(b) && n !in a && n !in b && forall x :: x in a ==> x !in b
  {
    var s := a + [n] + b;
    assert s[|a|] == n;
    forall i | 0 <= i < |a| ensures s[i] == a[i] != n { }
    forall i | 0 <= i < |b| ensures s[|a| + 1 + i] == b[i] != n { }
    forall i, j | 0 <= i < |a| && 0 <= j < |b| ensures a[i] != b[j] {
      assert s[i] != s[|a| + 1 + j];
    }
    forall i, j | 0 <= i < j < |b| ensures b[i] != b[j] {
      assert s[|a| + 1 + i] != s[|a| + 1 + j];
    }
  }

  ghost predicate Same(f: Fields, f': Fields, n: int) {
    f'.Left(n) == f.Left(n) && f'.Right(n) == f.Right(n) && f'.Skew(n) == f.Skew(n)
  }

  lemma {:induction false} IsFrame(f: Fields, f': Fields, t: Tree, p: int)
    requires Is(f, t, p) && forall n :: n in Ids(t) ==> Same(f, f', n)
    ensures Is(f', t, p)
  {
    if t.Fork? {
      assert Same(f, f', t.n);
      IsFrame(f, f', t.l, f.Left(t.n));
      IsFrame(f, f', t.r, f.Right(t.n));
    }
  }

  lemma IsRoot(f: Fields, t: Tree, p: int)
    requires Is(f, t, p)
    ensures p == Root(t) && (p == NIL <==> t == Leaf)
  {
  }

  // ---------- rebalancing ----------

  /** The flag of n, whose subtree l has just grown, still tells of the old height. */
  ghost predicate GrownAtLeft(f: Fields, l: Tree, n: int, r: Tree) {
    && l.Fork? && n != NIL && Balanced(l) && Balanced(r) && Apart(Fork(l, n, r))
    && Is(f, l, f.Left(n)) && Is(f, r, f.Right(n))
    && f.Skew(n) == SkewOf(Height(l) - 1, Height(r)) && -1 <= Height(l) - 1 - Height(r) <= 1
    && (Height(l) > 1 ==> f.Skew(l.n) != AVL_NONE)
  }

  ghost predicate GrownAtRight(f: Fields, l: Tree, n: int, r: Tree) {
    && r.Fork? && n != NIL && Balanced(l) && Balanced(r) && Apart(Fork(l, n, r))
    && Is(f, l, f.Left(n)) && Is(f, r, f.Right(n))
    && f.Skew(n) == SkewOf(Height(l), Height(r) - 1) && -1 <= Height(l) - (Height(r) - 1) <= 1
    && (Height(r) > 1 ==> f.Skew(r.n) != AVL_NONE)
  }

  /** What a rebalancing step makes of the node: the same nodes in the same order, balanced. */
  ghost predicate Rebalanced(f: Fields, f': Fields, l: Tree, n: int, r: Tree, t: Tree, top: int, res: Res, height: int)
  {
    && Is(f', t, top) && Balanced(t) && InOrder(t) == InOrder(l) + [n] + InOrder(r)
    && Height(t) == height + (if res == BALANCE then 1 else 0)
    && (res == BALANCE ==> f'.Skew(top) != AVL_NONE)
    && forall x :: x !in Ids(l) && x != n && x !in Ids(r) ==> Same(f, f', x)
  }

  lemma RotateOrder(l: Tree, n: int, r: Tree)
    requires l.Fork?
    ensures InOrder(Fork(l.l, l.n, Fork(l.r, n, r))) == InOrder(l) + [n] + InOrder(r)
  {
    assert InOrder(l.l) + [l.n] + (InOrder(l.r) + [n] + InOrder(r)) ==
           InOrder(l.l) + [l.n] + InOrder(l.r) + [n] + InOrder(r);
  }

  lemma RotateOrderInner(l: Tree, n: int, r: Tree)
    requires l.Fork? && l.r.Fork?
    ensures InOrder(Fork(Fork(l.l, l.n, l.r.l), l.r.n, Fork(l.r.r, n, r))) == InOrder(l) + [n] + InOrder(r)
  {
    RotateOrderLeft(l.l, l.n, l.r);
    RotateOrder(Fork(Fork(l.l, l.n, l.r.l), l.r.n, l.r.r), n, r);
  }

  lemma Unfold(f: Fields, t: Tree, p: int)
    requires Is(f, t, p) && t.Fork? && Balanced(t)
    ensures p == t.n != NIL && f.Skew(t.n) == SkewOf(Height(t.l), Height(t.r))
    ensures Is(f, t.l, f.Left(t.n)) && Is(f, t.r, f.Right(t.n)) && f.Left(t.n) == Root(t.l) && f.Right(t.n) == Root(t.r)
    ensures Balanced(t.l) && Balanced(t.r) && -1 <= Height(t.l) - Height(t.r) <= 1
    ensures Height(t) == 1 + if Height(t.l) > Height(t.r) then Height(t.l) else Height(t.r)
  {
    IsRoot(f, t.l, f.Left(t.n));
    IsRoot(f, t.r, f.Right(t.n));
  }

  lemma Fold(f: Fields, t: Tree)
    requires t.Fork? && t.n != NIL && f.Skew(t.n) == SkewOf(Height(t.l), Height(t.r))
    requires Is(f, t.l, f.Left(t.n)) && Is(f, t.r, f.Right(t.n)) && Balanced(t.l) && Balanced(t.r)
    requires -1 <= Height(t.l) - Height(t.r) <= 1
    ensures Is(f, t, t.n) && Balanced(t)
    ensures Height(t) == 1 + if Height(t.l) > Height(t.r) then Height(t.l) else Height(t.r)
  {
  }

  /** One rotation to the right. */
  function RotatedRight(f: Fields, n: int): Fields {
    var top := f.Left(n);
    WithRight(WithLeft(f, n, f.Right(top)), top, n)
  }

  function RotatedLeft(f: Fields, n: int): Fields {
    var top := f.Right(n);
    WithLeft(WithRight(f, n, f.Left(top)), top, n)
  }

  lemma LiftLeft(f: Fields, l: Tree, n: int, r: Tree)
    requires GrownAtLeft(f, l, n, r) && f.Skew(n) == AVL_LEFT && f.Skew(l.n) == AVL_LEFT
    ensures f.Left(n) == l.n
    ensures var f' := RotatedRight(WithSkew(WithSkew(f, n, AVL_NONE), l.n, AVL_NONE), n);
            Rebalanced(f, f', l, n, r, Fork(l.l, l.n, Fork(l.r, n, r)), l.n, OK, Height(l))
  {
    hide Is, Balanced, InOrder, Height, Apart;
    var f' := RotatedRight(WithSkew(WithSkew(f, n, AVL_NONE), l.n, AVL_NONE), n);
    var low := Fork(l.r, n, r);
    Unfold(f, l, f.Left(n));
    RotateOrder(l, n, r);
    ApartParts(Fork(l, n, r));
    ApartParts(l);
    IsFrame(f, f', l.l, f.Left(l.n));
    IsFrame(f, f', l.r, f.Right(l.n));
    IsFrame(f, f', r, f.Right(n));
    Fold(f', low);
    Fold(f', Fork(l.l, l.n, low));
  }

  /** The memory after the two rotations of avl_grownLeft, the flags having been set before. */
  function LiftedLeftInner(f: Fields, n: int): Fields {
    var a := f.Left(n);
    var c := f.Right(a);
    var f1 := WithSkew(WithSkew(f, n, if f.Skew(c) == AVL_LEFT then AVL_RIGHT else AVL_NONE),
                       a, if f.Skew(c) == AVL_RIGHT then AVL_LEFT else AVL_NONE);
    var f2 := RotatedLeft(WithSkew(f1, c, AVL_NONE), a);
    RotatedRight(WithLeft(f2, n, c), n)
  }

  lemma LiftedFields(f: Fields, n: int)
    requires var a := f.Left(n); var c := f.Right(a); n != a && a != c && n != c
    ensures var a := f.Left(n); var c := f.Right(a); var f' := LiftedLeftInner(f, n);
            && f'.Left(c) == a && f'.Right(c) == n && f'.Skew(c) == AVL_NONE
            && f'.Left(a) == f.Left(a) && f'.Right(a) == f.Left(c) && f'.Left(n) == f.Right(c) &&
               f'.Right(n) == f.Right(n)
            && f'.Skew(n) == (if f.Skew(c) == AVL_LEFT then AVL_RIGHT else AVL_NONE)
            && f'.Skew(a) == (if f.Skew(c) == AVL_RIGHT then AVL_LEFT else AVL_NONE)
            && forall x :: x != n && x != a && x != c ==> Same(f, f', x)
  {
    hide Same;
    LiftedFieldsBeside(f, n);
  }

  lemma LiftedFieldsBeside(f: Fields, n: int)
    ensures var a := f.Left(n); var c := f.Right(a); var f' := LiftedLeftInner(f, n);
            forall x :: x != n && x != a && x != c ==> Same(f, f', x)
  {
  }

  lemma LiftLeftInner(f: Fields, l: Tree, n: int, r: Tree)
    requires GrownAtLeft(f, l, n, r) && f.Skew(n) == AVL_LEFT && f.Skew(l.n) == AVL_RIGHT
    ensures l.r.Fork? && f.Left(n) == l.n && f.Right(l.n) == l.r.n
    ensures Rebalanced(f, LiftedLeftInner(f, n), l, n, r, Fork(Fork(l.l, l.n, l.r.l), l.r.n, Fork(l.r.r, n, r)), l.r.n,
            OK, Height(l))
  {
    hide LiftedLeftInner, Is, Balanced, InOrder, Height, Apart;
    var f', m := LiftedLeftInner(f, n), l.r;
    Unfold(f, l, f.Left(n));
    HeightPositive(l.r);
    Unfold(f, m, f.Right(l.n));
    RotateOrderInner(l, n, r);
    ApartParts(Fork(l, n, r));
    ApartParts(l);
    ApartParts(m);
    LiftedFields(f, n);
    IsFrame(f, f', l.l, f.Left(l.n));
    IsFrame(f, f', m.l, f.Left(m.n));
    IsFrame(f, f', m.r, f.Right(m.n));
    IsFrame(f, f', r, f.Right(n));
    var a, b := Fork(l.l, l.n, m.l), Fork(m.r, n, r);
    Fold(f', a);
    Fold(f', b);
    Fold(f', Fork(a, m.n, b));
  }

  lemma HeightPositive(t: Tree)
    ensures t.Fork? <==> Height(t) > 0
  {
  }

  lemma LiftRight(f: Fields, l: Tree, n: int, r: Tree)
    requires GrownAtRight(f, l, n, r) && f.Skew(n) == AVL_RIGHT && f.Skew(r.n) == AVL_RIGHT
    ensures f.Right(n) == r.n
    ensures var f' := RotatedLeft(WithSkew(WithSkew(f, n, AVL_NONE), r.n, AVL_NONE), n);
            Rebalanced(f, f', l, n, r, Fork(Fork(l, n, r.l), r.n, r.r), r.n, OK, Height(r))
  {
    hide Is, Balanced, InOrder, Height, Apart;
    var f' := RotatedLeft(WithSkew(WithSkew(f, n, AVL_NONE), r.n, AVL_NONE), n);
    var low := Fork(l, n, r.l);
    Unfold(f, r, f.Right(n));
    RotateOrderLeft(l, n, r);
    ApartParts(Fork(l, n, r));
    ApartParts(r);
    IsFrame(f, f', l, f.Left(n));
    IsFrame(f, f', r.l, f.Left(r.n));
    IsFrame(f, f', r.r, f.Right(r.n));
    Fold(f', low);
    Fold(f', Fork(low, r.n, r.r));
  }

  lemma RotateOrderLeft(l: Tree, n: int, r: Tree)
    requires r.Fork?
    ensures InOrder(Fork(Fork(l, n, r.l), r.n, r.r)) == InOrder(l) + [n] + InOrder(r)
  {
    assert InOrder(l) + [n] + InOrder(r.l) + [r.n] + InOrder(r.r) ==
           InOrder(l) + [n] + (InOrder(r.l) + [r.n] + InOrder(r.r));
  }

  /** The memory after the two rotations of avl_grownRight, the flags having been set before. */
  function LiftedRightInner(f: Fields, n: int): Fields {
    var a := f.Right(n);
    var c := f.Left(a);
    var f1 := WithSkew(WithSkew(f, n, if f.Skew(c) == AVL_RIGHT then AVL_LEFT else AVL_NONE),
                       a, if f.Skew(c) == AVL_LEFT then AVL_RIGHT else AVL_NONE);
    var f2 := RotatedRight(WithSkew(f1, c, AVL_NONE), a);
    RotatedLeft(WithRight(f2, n, c), n)
  }

  lemma LiftedFieldsRight(f: Fields, n: int)
    requires var a := f.Right(n); var c := f.Left(a); n != a && a != c && n != c
    ensures var a := f.Right(n); var c := f.Left(a); var f' := LiftedRightInner(f, n);
            && f'.Right(c) == a && f'.Left(c) == n && f'.Skew(c) == AVL_NONE
            && f'.Right(a) == f.Right(a) && f'.Left(a) == f.Right(c) && f'.Right(n) == f.Left(c) &&
               f'.Left(n) == f.Left(n)
            && f'.Skew(n) == (if f.Skew(c) == AVL_RIGHT then AVL_LEFT else AVL_NONE)
            && f'.Skew(a) == (if f.Skew(c) == AVL_LEFT then AVL_RIGHT else AVL_NONE)
            && forall x :: x != n && x != a && x != c ==> Same(f, f', x)
  {
    hide Same;
    LiftedFieldsRightBeside(f, n);
  }

  lemma LiftedFieldsRightBeside(f: Fields, n: int)
    ensures var a := f.Right(n); var c := f.Left(a); var f' := LiftedRightInner(f, n);
            forall x :: x != n && x != a && x != c ==> Same(f, f', x)
  {
  }

  lemma RotateOrderInnerLeft(l: Tree, n: int, r: Tree)
    requires r.Fork? && r.l.Fork?
    ensures InOrder(Fork(Fork(l, n, r.l.l), r.l.n, Fork(r.l.r, r.n, r.r))) == InOrder(l) + [n] + InOrder(r)
  {
    RotateOrder(r.l, r.n, r.r);
    RotateOrderLeft(l, n, Fork(r.l.l, r.l.n, Fork(r.l.r, r.n, r.r)));
  }

  lemma LiftRightInner(f: Fields, l: Tree, n: int, r: Tree)
    requires GrownAtRight(f, l, n, r) && f.Skew(n) == AVL_RIGHT && f.Skew(r.n) == AVL_LEFT
    ensures r.l.Fork? && f.Right(n) == r.n && f.Left(r.n) == r.l.n
    ensures Rebalanced(f, LiftedRightInner(f, n), l, n, r, Fork(Fork(l, n, r.l.l), r.l.n, Fork(r.l.r, r.n, r.r)), r.l.n,
            OK, Height(r))
  {
    hide LiftedRightInner, Is, Balanced, InOrder, Height, Apart;
    var f', m := LiftedRightInner(f, n), r.l;
    Unfold(f, r, f.Right(n));
    HeightPositive(r.l);
    Unfold(f, m, f.Left(r.n));
    RotateOrderInnerLeft(l, n, r);
    ApartParts(Fork(l, n, r));
    ApartParts(r);
    ApartParts(m);
    LiftedFieldsRight(f, n);
    IsFrame(f, f', l, f.Left(n));
    IsFrame(f, f', m.l, f.Left(m.n));
    IsFrame(f, f', m.r, f.Right(m.n));
    IsFrame(f, f', r.r, f.Right(r.n));
    var a, b := Fork(l, n, m.l), Fork(m.r, r.n, r.r);
    Fold(f', a);
    Fold(f', b);
    Fold(f', Fork(a, m.n, b));
  }

  /** Only the flag of n changes. */
  lemma Reflag(f: Fields, f': Fields, l: Tree, n: int, r: Tree, skew: int, height: int, res: Res)
    requires n != NIL && Balanced(l) && Balanced(r) && Apart(Fork(l, n, r))
    requires Is(f, l, f.Left(n)) && Is(f, r, f.Right(n)) && f' == WithSkew(f, n, skew)
    requires skew == SkewOf(Height(l), Height(r)) && -1 <= Height(l) - Height(r) <= 1 &&
             (res == BALANCE ==> skew != AVL_NONE)
    requires height + (if res == BALANCE then 1 else 0) == 1 + if Height(l) > Height(r) then Height(l) else Height(r)
    ensures Rebalanced(f, f', l, n, r, Fork(l, n, r), n, res, height)
  {
    hide Is, Balanced, InOrder, Height, Apart;
    ApartParts(Fork(l, n, r));
    IsFrame(f, f', l, f.Left(n));
    IsFrame(f, f', r, f.Right(n));
    Fold(f', Fork(l, n, r));
    OrderOf(l, n, r);
  }

  lemma OrderOf(l: Tree, n: int, r: Tree)
    ensures InOrder(Fork(l, n, r)) == InOrder(l) + [n] + InOrder(r)
  {
  }

  // ---------- the order of keys ----------

  /** A comparison whose sign is a strict total order. */
  ghost predicate TotalOrder<K(!new)>(cmp: (K, K) -> int) {
    && (forall a, b :: cmp(a, b) == 0 <==> a == b)
    && (forall a, b :: cmp(a, b) < 0 <==> cmp(b, a) > 0)
    && (forall a, b, c :: cmp(a, b) < 0 && cmp(b, c) < 0 ==> cmp(a, c) < 0)
  }

  /** The keys of the nodes ascend. */
  ghost predicate Ascending<K>(cmp: (K, K) -> int, key: int -> K, s: seq<int>) {
    forall i, j :: 0 <= i < j < |s| ==> cmp(key(s[i]), key(s[j])) < 0
  }

  /** s' is s with node n at some place. */
  ghost predicate OneMore(s: seq<int>, s': seq<int>, n: int) {
    exists i :: 0 <= i <= |s| && s' == s[..i] + [n] + s[i..]
  }

  /** A node in s has the key of n. */
  ghost predicate HasKey<K>(key: int -> K, s: seq<int>, n: int) {
    exists x :: x in s && key(x) == key(n)
  }

  lemma Compare<K(!new)>(cmp: (K, K) -> int, a: K, b: K, c: K)
    requires TotalOrder(cmp)
    ensures cmp(a, b) == 0 <==> a == b
    ensures cmp(a, b) < 0 <==> cmp(b, a) > 0
    ensures cmp(a, b) < 0 && cmp(b, c) < 0 ==> cmp(a, c) < 0
  {
  }

  lemma Parts<K>(cmp: (K, K) -> int, key: int -> K, a: seq<int>, n: int, b: seq<int>)
    requires Ascending(cmp, key, a + [n] + b)
    ensures Ascending(cmp, key, a) && Ascending(cmp, key, b)
    ensures forall y :: y in a ==> cmp(key(y), key(n)) < 0
    ensures forall y :: y in b ==> cmp(key(n), key(y)) < 0
  {
    var s := a + [n] + b;
    assert s[|a|] == n;
    forall i | 0 <= i < |a| ensures s[i] == a[i] && cmp(key(a[i]), key(n)) < 0 { }
    forall i | 0 <= i < |b| ensures s[|a| + 1 + i] == b[i] && cmp(key(n), key(b[i])) < 0 { }
    forall i, j | 0 <= i < j < |b| ensures cmp(key(b[i]), key(b[j])) < 0 {
      assert s[|a| + 1 + i] == b[i] && s[|a| + 1 + j] == b[j];
    }
  }

  /** Where a key can be in an ascending sequence. */
  lemma KeyBeside<K(!new)>(cmp: (K, K) -> int, key: int -> K, a: seq<int>, n: int, b: seq<int>, x: int)
    requires TotalOrder(cmp) && Ascending(cmp, key, a + [n] + b)
    ensures cmp(key(x), key(n)) < 0 ==> (HasKey(key, a + [n] + b, x) <==> HasKey(key, a, x))
    ensures cmp(key(x), key(n)) > 0 ==> (HasKey(key, a + [n] + b, x) <==> HasKey(key, b, x))
    ensures cmp(key(x), key(n)) == 0 ==> HasKey(key, a + [n] + b, x)
    ensures Ascending(cmp, key, a) && Ascending(cmp, key, b)
    ensures forall y :: y in a ==> cmp(key(y), key(n)) < 0
    ensures forall y :: y in b ==> cmp(key(n), key(y)) < 0
  {
    hide TotalOrder, Ascending;
    var s := a + [n] + b;
    Parts(cmp, key, a, n, b);
    assert n in s;
    Compare(cmp, key(x), key(n), key(x));
    forall y | y in s && key(y) == key(x)
      ensures cmp(key(x), key(n)) < 0 ==> y in a
      ensures cmp(key(x), key(n)) > 0 ==> y in b
    {
      Compare(cmp, key(n), key(y), key(n));
      assert y in a || y == n || y in b;
    }
  }

  lemma OneMoreBeside(a: seq<int>, a': seq<int>, n: int, b: seq<int>, b': seq<int>, x: int)
    ensures OneMore(a, a', x) ==> OneMore(a + [n] + b, a' + [n] + b, x)
    ensures OneMore(b, b', x) ==> OneMore(a + [n] + b, a + [n] + b', x)
  {
    var s := a + [n] + b;
    if OneMore(a, a', x) {
      var i :| 0 <= i <= |a| && a' == a[..i] + [x] + a[i..];
      assert a' + [n] + b == s[..i] + [x] + s[i..];
    }
    if OneMore(b, b', x) {
      var i :| 0 <= i <= |b| && b' == b[..i] + [x] + b[i..];
      var k := |a| + 1 + i;
      assert s[..k] == a + [n] + b[..i] && s[k..] == b[i..];
      assert a + [n] + b' == s[..k] + [x] + s[k..];
    }
  }

  lemma AscendingBeside<K(!new)>(cmp: (K, K) -> int, key: int -> K, a: seq<int>, n: int, b: seq<int>)
    requires TotalOrder(cmp) && Ascending(cmp, key, a) && Ascending(cmp, key, b)
    requires forall y :: y in a ==> cmp(key(y), key(n)) < 0
    requires forall y :: y in b ==> cmp(key(n), key(y)) < 0
    ensures Ascending(cmp, key, a + [n] + b)
  {
    hide TotalOrder;
    var s := a + [n] + b;
    forall i, j | 0 <= i < j < |s| ensures cmp(key(s[i]), key(s[j])) < 0 {
      assert i < |a| ==> s[i] == a[i] && a[i] in a;
      assert j > |a| ==> s[j] == b[j - |a| - 1] && b[j - |a| - 1] in b;
      Compare(cmp, key(s[i]), key(n), key(s[j]));
    }
  }

  lemma OneMoreHas(s: seq<int>, s': seq<int>, x: int, y: int)
    requires OneMore(s, s', x)
    ensures y in s' <==> y in s || y == x
  {
    var i :| 0 <= i <= |s| && s' == s[..i] + [x] + s[i..];
    assert s == s[..i] + s[i..];
  }

  lemma OneMoreDistinct(s: seq<int>, s': seq<int>, x: int)
    requires OneMore(s, s', x) && Distinct(s) && x !in s
    ensures Distinct(s')
  {
    var i :| 0 <= i <= |s| && s' == s[..i] + [x] + s[i..];
    assert forall k :: 0 <= k < |s'| ==> s'[k] == if k < i then s[k] else if k == i then x else s[k - 1];
  }

  /** What adding a node does to a tree: nothing if the key is there, else one node more. */
  ghost predicate Grown<K>(key: int -> K, t: Tree, t': Tree, node: int) {
    if HasKey(key, InOrder(t), node) then InOrder(t') == InOrder(t) else OneMore(InOrder(t), InOrder(t'), node)
  }

  /** A tree in order, whose nodes are where p points to. */
  ghost predicate Sorted<K>(cmp: (K, K) -> int, key: int -> K, f: Fields, t: Tree, p: int) {
    Is(f, t, p) && Balanced(t) && Apart(t) && Ascending(cmp, key, InOrder(t))
  }

  /** The state of _avl_add after the recursive call on the left. */
  lemma AddedLeft<K(!new)>(cmp: (K, K) -> int, key: int -> K, l: Tree, l': Tree, n: int, r: Tree, node: int)
    requires TotalOrder(cmp) && cmp(key(node), key(n)) < 0
    requires var t := Fork(l, n, r); Apart(t) && Ascending(cmp, key, InOrder(t)) && node !in Ids(t)
    requires Grown(key, l, l', node) && Ascending(cmp, key, InOrder(l'))
    ensures var t, t' := Fork(l, n, r), Fork(l', n, r);
            Grown(key, t, t', node) && Apart(t') && Ascending(cmp, key, InOrder(t'))
  {
    hide Ascending, HasKey, OneMore;
    var a, a', b := InOrder(l), InOrder(l'), InOrder(r);
    OrderOf(l, n, r);
    OrderOf(l', n, r);
    KeyBeside(cmp, key, a, n, b, node);
    forall y | y in a' ensures cmp(key(y), key(n)) < 0 {
      if !HasKey(key, a, node) { OneMoreHas(a, a', node, y); }
    }
    AscendingBeside(cmp, key, a', n, b);
    if !HasKey(key, a, node) {
      OneMoreBeside(a, a', n, b, b, node);
      OneMoreDistinct(a + [n] + b, a' + [n] + b, node);
    }
  }

  lemma AddedRight<K(!new)>(cmp: (K, K) -> int, key: int -> K, l: Tree, n: int, r: Tree, r': Tree, node: int)
    requires TotalOrder(cmp) && cmp(key(node), key(n)) > 0
    requires var t := Fork(l, n, r); Apart(t) && Ascending(cmp, key, InOrder(t)) && node !in Ids(t)
    requires Grown(key, r, r', node) && Ascending(cmp, key, InOrder(r'))
    ensures var t, t' := Fork(l, n, r), Fork(l, n, r');
            Grown(key, t, t', node) && Apart(t') && Ascending(cmp, key, InOrder(t'))
  {
    hide Ascending, HasKey, OneMore;
    var a, b, b' := InOrder(l), InOrder(r), InOrder(r');
    OrderOf(l, n, r);
    OrderOf(l, n, r');
    KeyBeside(cmp, key, a, n, b, node);
    assert cmp(key(n), key(node)) < 0;
    forall y | y in b' ensures cmp(key(n), key(y)) < 0 {
      if !HasKey(key, b, node) { OneMoreHas(b, b', node, y); }
    }
    AscendingBeside(cmp, key, a, n, b');
    if !HasKey(key, b, node) {
      OneMoreBeside(a, a, n, b, b', node);
      OneMoreDistinct(a + [n] + b, a + [n] + b', node);
    }
  }

  lemma HeightBounds(l: Tree, n: int, r: Tree)
    ensures Height(Fork(l, n, r)) == 1 + if Height(l) > Height(r) then Height(l) else Height(r)
    ensures Ids(Fork(l, n, r)) == Ids(l) + {n} + Ids(r)
    ensures forall x :: x in InOrder(l) <==> x in Ids(l)
  {
  }

  lemma RebalancedKeeps(f: Fields, f': Fields, l: Tree, n: int, r: Tree, t: Tree, top: int, res: Res, height: int)
    requires Rebalanced(f, f', l, n, r, t, top, res, height) && Apart(Fork(l, n, r))
    ensures Is(f', t, top) && Balanced(t) && Apart(t) && InOrder(t) == InOrder(Fork(l, n, r))
    ensures Height(t) == height + (if res == BALANCE then 1 else 0) && (res == BALANCE ==> f'.Skew(top) != AVL_NONE)
    ensures Ids(t) == Ids(Fork(l, n, r))
    ensures forall x :: x !in Ids(Fork(l, n, r)) ==> Same(f, f', x)
  {
    hide Is, Balanced, Height;
    OrderOf(l, n, r);
    assert forall x :: x in Ids(t) <==> x in InOrder(t);
    assert forall x :: x in Ids(Fork(l, n, r)) <==> x in InOrder(Fork(l, n, r));
  }

  /** Nodes of a grown tree. */
  lemma GrownIds<K>(key: int -> K, t: Tree, t': Tree, node: int)
    requires Grown(key, t, t', node)
    ensures forall x :: x in Ids(t') ==> x in Ids(t) || x == node
  {
    forall x | x in Ids(t') ensures x in Ids(t) || x == node {
      assert x in InOrder(t');
      if !HasKey(key, InOrder(t), node) { OneMoreHas(InOrder(t), InOrder(t'), node, x); }
    }
  }

  /** A node that is in no tree yet. */
  ghost predicate Blank(f: Fields, node: int) {
    node != NIL && f.Left(node) == NIL && f.Right(node) == NIL && f.Skew(node) == AVL_NONE
  }

  /** The map gives for every key the one node that has it. */
  ghost predicate Holds<K(!new)>(key: int -> K, s: seq<int>, contents: map<K, int>) {
    && (forall x :: x in s ==> x != NIL && key(x) in contents && contents[key(x)] == x)
    && (forall k :: k in contents ==> contents[k] in s && key(contents[k]) == k)
  }

  class Index<K(!new)> {
    const key: int -> K              // the keys of the entries that contain the nodes
    const cmp: (K, K) -> int
    var f: Fields
    var root: int
    ghost var t: Tree
    ghost var contents: map<K, int>  // the first node added for every key

    ghost predicate Valid()
      reads this
    {
      TotalOrder(cmp) && Sorted(cmp, key, f, t, root) && Holds(key, InOrder(t), contents)
    }

    constructor (key: int -> K, cmp: (K, K) -> int)
      requires TotalOrder(cmp)
      ensures Valid() && contents == map[] && this.key == key && this.cmp == cmp
      ensures f == Fields(map[], map[], map[]) && InOrder(t) == []
    {
      this.key, this.cmp := key, cmp;
      f, root, t, contents := Fields(map[], map[], map[]), NIL, Leaf, map[];
    }

    /** avl_rotateRight. */
    method RotateRight(n: int) returns (top: int)
      modifies `f
      ensures f == RotatedRight(old(f), n) && top == old(f).Left(n)
    {
      top := f.Left(n);
      f := WithLeft(f, n, f.Right(top));
      f := WithRight(f, top, n);
    }

    /** avl_rotateLeft. */
    method RotateLeft(n: int) returns (top: int)
      modifies `f
      ensures f == RotatedLeft(old(f), n) && top == old(f).Right(n)
    {
      top := f.Right(n);
      f := WithRight(f, n, f.Left(top));
      f := WithLeft(f, top, n);
    }

    /** avl_grownLeft. */
    method GrownLeft(n: int, ghost l: Tree, ghost r: Tree) returns (top: int, res: Res, ghost t': Tree)
      requires GrownAtLeft(f, l, n, r)
      modifies `f
      ensures Rebalanced(old(f), f, l, n, r, t', top, res,
                         1 + if Height(l) - 1 > Height(r) then Height(l) - 1 else Height(r))
    {
      hide Rebalanced, Is, Balanced, Apart, InOrder, Height;
      GrownFlags(f, l, n, r);
      if f.Skew(n) == AVL_LEFT {
        if f.Skew(f.Left(n)) == AVL_LEFT {
          LiftLeft(f, l, n, r);
          t' := Fork(l.l, l.n, Fork(l.r, n, r));
          f := WithSkew(f, n, AVL_NONE);
          f := WithSkew(f, f.Left(n), AVL_NONE);
          top := RotateRight(n);
        } else {
          LiftLeftInner(f, l, n, r);
          t' := Fork(Fork(l.l, l.n, l.r.l), l.r.n, Fork(l.r.r, n, r));
          var s := f.Skew(f.Right(f.Left(n)));
          if s == AVL_LEFT {
            f := WithSkew(f, n, AVL_RIGHT);
            f := WithSkew(f, f.Left(n), AVL_NONE);
          } else if s == AVL_RIGHT {
            f := WithSkew(f, n, AVL_NONE);
            f := WithSkew(f, f.Left(n), AVL_LEFT);
          } else {
            f := WithSkew(f, n, AVL_NONE);
            f := WithSkew(f, f.Left(n), AVL_NONE);
          }
          f := WithSkew(f, f.Right(f.Left(n)), AVL_NONE);
          var low := RotateLeft(f.Left(n));
          f := WithLeft(f, n, low);
          top := RotateRight(n);
        }
        res := OK;
      } else if f.Skew(n) == AVL_RIGHT {
        Reflag(f, WithSkew(f, n, AVL_NONE), l, n, r, AVL_NONE, 1 + Height(r), OK);
        f := WithSkew(f, n, AVL_NONE);
        top, res, t' := n, OK, Fork(l, n, r);
      } else {
        Reflag(f, WithSkew(f, n, AVL_LEFT), l, n, r, AVL_LEFT, 1 + Height(r), BALANCE);
        f := WithSkew(f, n, AVL_LEFT);
        top, res, t' := n, BALANCE, Fork(l, n, r);
      }
    }

    /** avl_grownRight. */
    method GrownRight(n: int, ghost l: Tree, ghost r: Tree) returns (top: int, res: Res, ghost t': Tree)
      requires GrownAtRight(f, l, n, r)
      modifies `f
      ensures Rebalanced(old(f), f, l, n, r, t', top, res,
                         1 + if Height(r) - 1 > Height(l) then Height(r) - 1 else Height(l))
    {
      hide Rebalanced, Is, Balanced, Apart, InOrder, Height;
      GrownFlagsRight(f, l, n, r);
      if f.Skew(n) == AVL_LEFT {
        Reflag(f, WithSkew(f, n, AVL_NONE), l, n, r, AVL_NONE, 1 + Height(l), OK);
        f := WithSkew(f, n, AVL_NONE);
        top, res, t' := n, OK, Fork(l, n, r);
      } else if f.Skew(n) == AVL_RIGHT {
        if f.Skew(f.Right(n)) == AVL_RIGHT {
          LiftRight(f, l, n, r);
          t' := Fork(Fork(l, n, r.l), r.n, r.r);
          f := WithSkew(f, n, AVL_NONE);
          f := WithSkew(f, f.Right(n), AVL_NONE);
          top := RotateLeft(n);
        } else {
          LiftRightInner(f, l, n, r);
          t' := Fork(Fork(l, n, r.l.l), r.l.n, Fork(r.l.r, r.n, r.r));
          var s := f.Skew(f.Left(f.Right(n)));
          if s == AVL_RIGHT {
            f := WithSkew(f, n, AVL_LEFT);
            f := WithSkew(f, f.Right(n), AVL_NONE);
          } else if s == AVL_LEFT {
            f := WithSkew(f, n, AVL_NONE);
            f := WithSkew(f, f.Right(n), AVL_RIGHT);
          } else {
            f := WithSkew(f, n, AVL_NONE);
            f := WithSkew(f, f.Right(n), AVL_NONE);
          }
          f := WithSkew(f, f.Left(f.Right(n)), AVL_NONE);
          var low := RotateRight(f.Right(n));
          f := WithRight(f, n, low);
          top := RotateLeft(n);
        }
        res := OK;
      } else {
        Reflag(f, WithSkew(f, n, AVL_RIGHT), l, n, r, AVL_RIGHT, 1 + Height(l), BALANCE);
        f := WithSkew(f, n, AVL_RIGHT);
        top, res, t' := n, BALANCE, Fork(l, n, r);
      }
    }

    /** _avl_add below p: AVL_BALANCE is returned exactly when the tree has grown in height. */
    method AddBelow(node: int, p: int, ghost t0: Tree) returns (p': int, res: Res, ghost t': Tree)
      requires TotalOrder(cmp) && Sorted(cmp, key, f, t0, p) && Blank(f, node) && node !in Ids(t0)
      modifies `f
      ensures Sorted(cmp, key, f, t', p') && Grown(key, t0, t', node)
      ensures Height(t') == Height(t0) + if res == BALANCE then 1 else 0
      ensures res == BALANCE && Height(t') > 1 ==> f.Skew(p') != AVL_NONE
      ensures forall x :: x !in Ids(t0) && x != node ==> Same(old(f), f, x)
      decreases t0, 1
    {
      hide TotalOrder, Ascending, HasKey, OneMore, Is, Balanced, Apart, InOrder, Height, Grown;
      IsRoot(f, t0, p);
      if p == NIL {
        FirstNode(cmp, key, f, node);
        return node, BALANCE, Fork(Leaf, node, Leaf);
      }
      if cmp(key(node), key(p)) < 0 {
        p', res, t' := AddLeft(node, p, t0);
      } else if cmp(key(node), key(p)) > 0 {
        p', res, t' := AddRight(node, p, t0);
      } else {
        Present(cmp, key, f, t0, p, node);
        return p, OK, t0;
      }
    }

    /** The left branch of _avl_add. */
    method AddLeft(node: int, p: int, ghost t0: Tree) returns (p': int, res: Res, ghost t': Tree)
      requires TotalOrder(cmp) && Sorted(cmp, key, f, t0, p) && Blank(f, node) && node !in Ids(t0)
      requires t0.Fork? && p == t0.n && cmp(key(node), key(p)) < 0
      modifies `f
      ensures Sorted(cmp, key, f, t', p') && Grown(key, t0, t', node)
      ensures Height(t') == Height(t0) + if res == BALANCE then 1 else 0
      ensures res == BALANCE && Height(t') > 1 ==> f.Skew(p') != AVL_NONE
      ensures forall x :: x !in Ids(t0) && x != node ==> Same(old(f), f, x)
      decreases t0, 0
    {
      hide TotalOrder, Ascending, HasKey, OneMore, Rebalanced, Is, Balanced, Apart, InOrder, Height, Grown, Same, Ids,
           GrownAtLeft, GrownAtRight;
      ghost var f0, l, r := f, t0.l, t0.r;
      SortedParts(cmp, key, f, t0, p);
      HeightBounds(l, p, r);
      var q, res0;
      ghost var l';
      q, res0, l' := AddBelow(node, f.Left(p), l);
      ghost var f1 := f;
      f := WithLeft(f, p, q);
      JoinedLeft(cmp, key, f0, f1, f, t0, l', p, q, node, res0);
      p', res, t' := p, OK, Fork(l', p, r);
      if res0 == BALANCE {
        ghost var f2 := f;
        p', res, t' := GrownLeft(p, l', r);
        RebalancedKeeps(f2, f, l', p, r, t', p', res, Height(t0));
        FinishedAdd(cmp, key, f0, f2, f, t0, Fork(l', p, r), t', node);
      }
    }

    /** The right branch of _avl_add. */
    method AddRight(node: int, p: int, ghost t0: Tree) returns (p': int, res: Res, ghost t': Tree)
      requires TotalOrder(cmp) && Sorted(cmp, key, f, t0, p) && Blank(f, node) && node !in Ids(t0)
      requires t0.Fork? && p == t0.n && cmp(key(node), key(p)) > 0
      modifies `f
      ensures Sorted(cmp, key, f, t', p') && Grown(key, t0, t', node)
      ensures Height(t') == Height(t0) + if res == BALANCE then 1 else 0
      ensures res == BALANCE && Height(t') > 1 ==> f.Skew(p') != AVL_NONE
      ensures forall x :: x !in Ids(t0) && x != node ==> Same(old(f), f, x)
      decreases t0, 0
    {
      hide TotalOrder, Ascending, HasKey, OneMore, Rebalanced, Is, Balanced, Apart, InOrder, Height, Grown, Same, Ids,
           GrownAtLeft, GrownAtRight;
      ghost var f0, l, r := f, t0.l, t0.r;
      SortedParts(cmp, key, f, t0, p);
      HeightBounds(l, p, r);
      var q, res0;
      ghost var r';
      q, res0, r' := AddBelow(node, f.Right(p), r);
      ghost var f1 := f;
      f := WithRight(f, p, q);
      JoinedRight(cmp, key, f0, f1, f, t0, r', p, q, node, res0);
      p', res, t' := p, OK, Fork(l, p, r');
      if res0 == BALANCE {
        ghost var f2 := f;
        p', res, t' := GrownRight(p, l, r');
        RebalancedKeeps(f2, f, l, p, r', t', p', res, Height(t0));
        FinishedAdd(cmp, key, f0, f2, f, t0, Fork(l, p, r'), t', node);
      }
    }

    /** avl_add: the node is added unless its key is present. */
    method Add(node: int) returns (res: Res)
      requires Valid() && Blank(f, node) && node !in InOrder(t)
      modifies this
      ensures Valid()
      ensures contents == if key(node) in old(contents) then old(contents) else old(contents)[key(node) := node]
      ensures Height(t) == old(Height(t)) + if res == BALANCE then 1 else 0
      ensures forall x :: x in InOrder(t) ==> x in old(InOrder(t)) || x == node
      ensures forall x :: x !in old(InOrder(t)) && x != node ==> Same(old(f), f, x)
    {
      hide TotalOrder, Sorted, Holds, Grown;
      ghost var t0, t' := t, t;
      root, res, t' := AddBelow(node, root, t);
      t := t';
      GrownIds(key, t0, t', node);
      contents := AddedContents(cmp, key, t0, t', f, root, node, contents);
    }

    /** avl_find: the node that a finite map of the additions holds, in a number of steps that is at most
        about twice the logarithm of the number of entries. */
    method Find(k: K) returns (node: int, steps: nat)
      requires Valid()
      ensures node == if k in contents then contents[k] else NIL
      ensures steps <= Height(t) && Pow2(steps / 2) <= |contents| + 1
    {
      hide TotalOrder, Ascending, Is, Balanced, Apart, InOrder, Height, Sorted, Pow2;
      node, steps := root, 0;
      ghost var u := t;
      while node != NIL
        invariant Sorted(cmp, key, f, u, node) && steps + Height(u) <= Height(t)
        invariant forall x :: x in InOrder(t) && key(x) == k <==> x in InOrder(u) && key(x) == k
        decreases u
      {
        SearchStep(cmp, key, f, u, node, k);
        var match_ := cmp(k, key(node));
        if match_ == 0 { break; }
        steps := steps + 1;
        if match_ < 0 {
          node := f.Left(node);
          u := u.l;
        } else {
          node := f.Right(node);
          u := u.r;
        }
      }
      SearchEnd(cmp, key, f, u, node);
      FewSteps(cmp, key, f, t, root, contents, steps);
    }
  }

  lemma GrownFlags(f: Fields, l: Tree, n: int, r: Tree)
    requires GrownAtLeft(f, l, n, r)
    ensures f.Left(n) == l.n && l.n != n
    ensures f.Skew(n) == AVL_LEFT ==>
            Height(l) == Height(r) + 2 && (f.Skew(l.n) == AVL_LEFT || f.Skew(l.n) == AVL_RIGHT)
    ensures f.Skew(n) == AVL_RIGHT ==> Height(l) == Height(r)
    ensures f.Skew(n) != AVL_LEFT && f.Skew(n) != AVL_RIGHT ==> Height(l) == Height(r) + 1
  {
    ApartParts(Fork(l, n, r));
  }

  lemma GrownFlagsRight(f: Fields, l: Tree, n: int, r: Tree)
    requires GrownAtRight(f, l, n, r)
    ensures f.Right(n) == r.n && r.n != n
    ensures f.Skew(n) == AVL_RIGHT ==>
            Height(r) == Height(l) + 2 && (f.Skew(r.n) == AVL_LEFT || f.Skew(r.n) == AVL_RIGHT)
    ensures f.Skew(n) == AVL_LEFT ==> Height(l) == Height(r)
    ensures f.Skew(n) != AVL_LEFT && f.Skew(n) != AVL_RIGHT ==> Height(r) == Height(l) + 1
  {
    ApartParts(Fork(l, n, r));
  }

  lemma FirstNode<K(!new)>(cmp: (K, K) -> int, key: int -> K, f: Fields, node: int)
    requires Blank(f, node)
    ensures Sorted(cmp, key, f, Fork(Leaf, node, Leaf), node) && Grown(key, Leaf, Fork(Leaf, node, Leaf), node)
    ensures Height(Leaf) == 0 && Height(Fork(Leaf, node, Leaf)) == 1
  {
    assert InOrder(Fork(Leaf, node, Leaf)) == [node];
    assert [node] == [][..0] + [node] + [][0..];
  }

  lemma SortedParts<K(!new)>(cmp: (K, K) -> int, key: int -> K, f: Fields, t: Tree, p: int)
    requires TotalOrder(cmp) && Sorted(cmp, key, f, t, p) && t.Fork?
    ensures p == t.n && p != NIL && f.Skew(p) == SkewOf(Height(t.l), Height(t.r)) &&
            -1 <= Height(t.l) - Height(t.r) <= 1
    ensures Sorted(cmp, key, f, t.l, f.Left(p)) && Sorted(cmp, key, f, t.r, f.Right(p))
    ensures p !in Ids(t.l) && p !in Ids(t.r) && forall x :: x in Ids(t.l) ==> x !in Ids(t.r)
    ensures forall x :: x in Ids(t) <==> x in Ids(t.l) || x == p || x in Ids(t.r)
  {
    hide TotalOrder, Ascending, Apart, InOrder, Is, Balanced, Height;
    Unfold(f, t, p);
    ApartParts(t);
    OrderOf(t.l, t.n, t.r);
    KeyBeside(cmp, key, InOrder(t.l), t.n, InOrder(t.r), p);
    HeightBounds(t.l, t.n, t.r);
  }

  /** The fields after a recursive call on the left, its result stored. */
  lemma Relinked(f0: Fields, f1: Fields, f: Fields, ids: set<int>, p: int, node: int)
    requires f.left == f1.left[p := f.Left(p)] && f == f1.(left := f.left) && p !in ids && p != node
    requires forall x :: x !in ids && x != node ==> Same(f0, f1, x)
    ensures forall x :: x != p ==> Same(f1, f, x)
    ensures forall x :: x !in ids && x != node && x != p ==> Same(f0, f, x)
    ensures f.Right(p) == f0.Right(p) && f.Skew(p) == f0.Skew(p)
  {
    assert Same(f0, f1, p);
    forall x | x !in ids && x != node && x != p ensures Same(f0, f, x) { assert Same(f0, f1, x) && Same(f1, f, x); }
  }

  lemma RelinkedRight(f0: Fields, f1: Fields, f: Fields, ids: set<int>, p: int, node: int)
    requires f.right == f1.right[p := f.Right(p)] && f == f1.(right := f.right) && p !in ids && p != node
    requires forall x :: x !in ids && x != node ==> Same(f0, f1, x)
    ensures forall x :: x != p ==> Same(f1, f, x)
    ensures forall x :: x !in ids && x != node && x != p ==> Same(f0, f, x)
    ensures f.Left(p) == f0.Left(p) && f.Skew(p) == f0.Skew(p)
  {
    assert Same(f0, f1, p);
    forall x | x !in ids && x != node && x != p ensures Same(f0, f, x) { assert Same(f0, f1, x) && Same(f1, f, x); }
  }

  /** The key is there already. */
  lemma Present<K(!new)>(cmp: (K, K) -> int, key: int -> K, f: Fields, t: Tree, p: int, node: int)
    requires TotalOrder(cmp) && Sorted(cmp, key, f, t, p) && t.Fork? && p == t.n && cmp(key(node), key(p)) == 0
    ensures Grown(key, t, t, node)
  {
    hide Is, Balanced, Apart, Ascending;
    OrderOf(t.l, t.n, t.r);
    assert p in InOrder(t);
  }

  /** After the recursive call on the left, its result stored: either the tree is in order again, or
      its left subtree has grown and is to be rebalanced. */
  lemma JoinedLeft<K(!new)>(cmp: (K, K) -> int, key: int -> K, f0: Fields, f1: Fields, f: Fields,
                            t0: Tree, l': Tree, p: int, q: int, node: int, res: Res)
    requires TotalOrder(cmp) && Sorted(cmp, key, f0, t0, p) && t0.Fork? && p == t0.n && node !in Ids(t0) &&
             cmp(key(node), key(p)) < 0
    requires Sorted(cmp, key, f1, l', q) && Grown(key, t0.l, l', node) && f == WithLeft(f1, p, q)
    requires Height(l') == Height(t0.l) + if res == BALANCE then 1 else 0
    requires res == BALANCE && Height(l') > 1 ==> f1.Skew(q) != AVL_NONE
    requires forall x :: x !in Ids(t0.l) && x != node ==> Same(f0, f1, x)
    ensures var t1 := Fork(l', p, t0.r);
            && Apart(t1) && Grown(key, t0, t1, node) && Ascending(cmp, key, InOrder(t1))
            && (if res == BALANCE then GrownAtLeft(f, l', p, t0.r)
                else Sorted(cmp, key, f, t1, p) && Height(t1) == Height(t0))
    ensures Height(t0) == 1 + if Height(t0.l) > Height(t0.r) then Height(t0.l) else Height(t0.r)
    ensures forall x :: x !in Ids(t0) && x != node ==> Same(f0, f, x)
  {
    hide TotalOrder, Ascending, HasKey, OneMore, Is, Balanced, Apart, InOrder, Height, Grown, Same;
    var l, r := t0.l, t0.r;
    SortedParts(cmp, key, f0, t0, p);
    HeightBounds(l, p, r);
    HeightBounds(l', p, r);
    GrownIds(key, l, l', node);
    Relinked(f0, f1, f, Ids(l), p, node);
    IsFrame(f1, f, l', q);
    IsFrame(f0, f, r, f0.Right(p));
    AddedLeft(cmp, key, l, l', p, r, node);
    IsRoot(f, l', q);
    HeightPositive(l');
    SkewKept(f1, f, p, q, l');
    if res != BALANCE { Fold(f, Fork(l', p, r)); }
  }

  lemma SkewKept(f1: Fields, f: Fields, p: int, q: int, l: Tree)
    requires f == WithLeft(f1, p, q) || f == WithRight(f1, p, q)
    ensures f.Skew(q) == f1.Skew(q)
    ensures f == WithLeft(f1, p, q) ==> f.Left(p) == q
    ensures f == WithRight(f1, p, q) ==> f.Right(p) == q
  {
  }

  lemma JoinedRight<K(!new)>(cmp: (K, K) -> int, key: int -> K, f0: Fields, f1: Fields, f: Fields,
                             t0: Tree, r': Tree, p: int, q: int, node: int, res: Res)
    requires TotalOrder(cmp) && Sorted(cmp, key, f0, t0, p) && t0.Fork? && p == t0.n && node !in Ids(t0) &&
             cmp(key(node), key(p)) > 0
    requires Sorted(cmp, key, f1, r', q) && Grown(key, t0.r, r', node) && f == WithRight(f1, p, q)
    requires Height(r') == Height(t0.r) + if res == BALANCE then 1 else 0
    requires res == BALANCE && Height(r') > 1 ==> f1.Skew(q) != AVL_NONE
    requires forall x :: x !in Ids(t0.r) && x != node ==> Same(f0, f1, x)
    ensures var t1 := Fork(t0.l, p, r');
            && Apart(t1) && Grown(key, t0, t1, node) && Ascending(cmp, key, InOrder(t1))
            && (if res == BALANCE then GrownAtRight(f, t0.l, p, r')
                else Sorted(cmp, key, f, t1, p) && Height(t1) == Height(t0))
    ensures Height(t0) == 1 + if Height(t0.l) > Height(t0.r) then Height(t0.l) else Height(t0.r)
    ensures forall x :: x !in Ids(t0) && x != node ==> Same(f0, f, x)
  {
    hide TotalOrder, Ascending, HasKey, OneMore, Is, Balanced, Apart, InOrder, Height, Grown, Same;
    var l, r := t0.l, t0.r;
    SortedParts(cmp, key, f0, t0, p);
    HeightBounds(l, p, r);
    HeightBounds(l, p, r');
    GrownIds(key, r, r', node);
    RelinkedRight(f0, f1, f, Ids(r), p, node);
    IsFrame(f1, f, r', q);
    IsFrame(f0, f, l, f0.Left(p));
    AddedRight(cmp, key, l, p, r, r', node);
    IsRoot(f, r', q);
    HeightPositive(r');
    SkewKept(f1, f, p, q, r');
    if res != BALANCE { Fold(f, Fork(l, p, r')); }
  }

  lemma FinishedAdd<K(!new)>(cmp: (K, K) -> int, key: int -> K, f0: Fields, f2: Fields, f: Fields, t0: Tree, t1: Tree,
                            t': Tree, node: int)
    requires Grown(key, t0, t1, node) && Ascending(cmp, key, InOrder(t1)) && InOrder(t') == InOrder(t1)
    requires forall x :: x !in Ids(t0) && x != node ==> Same(f0, f2, x)
    requires forall x :: x !in Ids(t1) ==> Same(f2, f, x)
    ensures Grown(key, t0, t', node) && Ascending(cmp, key, InOrder(t'))
    ensures forall x :: x !in Ids(t0) && x != node ==> Same(f0, f, x)
  {
    hide Ascending, HasKey, OneMore, InOrder;
    GrownIds(key, t0, t1, node);
    forall x | x !in Ids(t0) && x != node ensures Same(f0, f, x) { assert Same(f0, f2, x) && Same(f2, f, x); }
  }

  lemma SearchStep<K(!new)>(cmp: (K, K) -> int, key: int -> K, f: Fields, u: Tree, p: int, k: K)
    requires TotalOrder(cmp) && Sorted(cmp, key, f, u, p) && p != NIL
    ensures u.Fork? && p == u.n && p in InOrder(u) && (cmp(k, key(p)) == 0 ==> k == key(p))
    ensures Height(u) == 1 + if Height(u.l) > Height(u.r) then Height(u.l) else Height(u.r)
    ensures Sorted(cmp, key, f, u.l, f.Left(p)) && Sorted(cmp, key, f, u.r, f.Right(p))
    ensures cmp(k, key(p)) < 0 ==> forall x :: x in InOrder(u) && key(x) == k <==> x in InOrder(u.l) && key(x) == k
    ensures cmp(k, key(p)) > 0 ==> forall x :: x in InOrder(u) && key(x) == k <==> x in InOrder(u.r) && key(x) == k
  {
    hide TotalOrder, Ascending, Is, Balanced, Apart, InOrder, Height;
    IsRoot(f, u, p);
    SortedParts(cmp, key, f, u, p);
    HeightBounds(u.l, u.n, u.r);
    OrderOf(u.l, u.n, u.r);
    Compare(cmp, k, key(p), k);
    Parts(cmp, key, InOrder(u.l), u.n, InOrder(u.r));
    forall x | x in InOrder(u) && key(x) == k
      ensures cmp(k, key(p)) < 0 ==> x in InOrder(u.l)
      ensures cmp(k, key(p)) > 0 ==> x in InOrder(u.r)
    {
      Compare(cmp, key(p), key(x), k);
      assert x in InOrder(u.l) || x == p || x in InOrder(u.r);
    }
  }

  lemma SearchEnd<K>(cmp: (K, K) -> int, key: int -> K, f: Fields, u: Tree, p: int)
    requires Sorted(cmp, key, f, u, p)
    ensures p == NIL ==> InOrder(u) == []
    ensures p != NIL ==> p in InOrder(u)
  {
  }

  lemma AddedContents<K(!new)>(cmp: (K, K) -> int, key: int -> K, t0: Tree, t: Tree, f: Fields, p: int, node: int,
                              contents: map<K, int>)
    returns (contents': map<K, int>)
    requires Sorted(cmp, key, f, t, p) && Grown(key, t0, t, node) && Holds(key, InOrder(t0), contents) && node != NIL
    ensures contents' == if key(node) in contents then contents else contents[key(node) := node]
    ensures Holds(key, InOrder(t), contents')
  {
    hide Sorted, OneMore, InOrder;
    contents' := if key(node) in contents then contents else contents[key(node) := node];
    if HasKey(key, InOrder(t0), node) {
      var x :| x in InOrder(t0) && key(x) == key(node);
      assert key(x) in contents;
    } else {
      forall x ensures x in InOrder(t) <==> x in InOrder(t0) || x == node {
        OneMoreHas(InOrder(t0), InOrder(t), node, x);
      }
      assert key(node) in contents ==> contents[key(node)] in InOrder(t0) && key(contents[key(node)]) == key(node);
    }
  }

  // ---------- how high a tree can be ----------

  function Fib(n: nat): nat {
    if n < 2 then n else Fib(n - 1) + Fib(n - 2)
  }

  lemma {:induction false} FibAscends(n: nat)
    ensures Fib(n) <= Fib(n + 1)
  {
    if n >= 2 {
      FibAscends(n - 1);
      FibAscends(n - 2);
    }
  }

  function Pow2(n: nat): nat { if n == 0 then 1 else 2 * Pow2(n - 1) }

  lemma {:induction false} PowAscends(n: nat, m: nat)
    requires n <= m
    ensures Pow2(n) <= Pow2(m)
  {
    if n < m { PowAscends(n, m - 1); }
  }

  lemma {:induction false} FibPow(n: nat)
    ensures Pow2(n / 2) <= Fib(n + 2)
  {
    if n >= 2 {
      FibPow(n - 2);
      FibStep(n - 1);
      FibAscends(n);
      assert n / 2 == (n - 2) / 2 + 1;
    }
  }

  /** A map to the nodes, by their keys, has no fewer entries than there are nodes. */
  lemma {:induction false} NodesFew<K(!new)>(key: int -> K, s: seq<int>, contents: map<K, int>)
    requires Distinct(s) && forall x :: x in s ==> key(x) in contents && contents[key(x)] == x
    ensures |s| <= |contents|
  {
    if s != [] {
      var y, u := s[0], s[1..];
      assert y in s;
      assert key(y) in contents;
      var m := contents - {key(y)};
      assert m.Keys == contents.Keys - {key(y)};
      forall x | x in u ensures x in s && x != y {
        var i :| 0 <= i < |u| && u[i] == x;
        assert s[i + 1] == x;
      }
      NodesFew(key, u, m);
      assert |m.Keys| == |contents.Keys| - 1;
    }
  }

  lemma AscendingDistinct<K(!new)>(cmp: (K, K) -> int, key: int -> K, s: seq<int>)
    requires TotalOrder(cmp) && Ascending(cmp, key, s)
    ensures Distinct(s)
  {
  }

  lemma FewSteps<K(!new)>(cmp: (K, K) -> int, key: int -> K, f: Fields, t: Tree, p: int, contents: map<K,
                         int>, steps: nat)
    requires TotalOrder(cmp) && Sorted(cmp, key, f, t, p) && Holds(key, InOrder(t), contents) && steps <= Height(t)
    ensures Pow2(steps / 2) <= |contents| + 1
  {
    hide TotalOrder, Ascending, Is, Apart, Balanced, Height, InOrder, Fib, Pow2, Distinct;
    FewestNodes(t);
    FibPow(Height(t));
    PowAscends(steps / 2, Height(t) / 2);
    AscendingDistinct(cmp, key, InOrder(t));
    NodesFew(key, InOrder(t), contents);
  }

  /** A balanced tree of height h has at least Fib(h + 2) - 1 nodes. */
  lemma {:induction false} FewestNodes(t: Tree)
    requires Balanced(t)
    ensures |InOrder(t)| + 1 >= Fib(Height(t) + 2)
  {
    if t == Leaf {
      FibStep(0);
    } else {
      FewestNodes(t.l);
      FewestNodes(t.r);
      OrderOf(t.l, t.n, t.r);
      FewestTogether(Height(t.l), Height(t.r), |InOrder(t.l)|, |InOrder(t.r)|);
    }
  }

  lemma FewestTogether(hl: nat, hr: nat, a: nat, b: nat)
    requires a + 1 >= Fib(hl + 2) && b + 1 >= Fib(hr + 2) && -1 <= hl - hr <= 1
    ensures a + 1 + b + 1 >= Fib((1 + if hl > hr then hl else hr) + 2)
  {
    if hl > hr {
      FibTwo(hr, a, b);
    } else if hl < hr {
      FibTwo(hl, b, a);
    } else {
      FibSame(hl, a, b);
    }
  }

  lemma FibStep(h: nat)
    ensures Fib(h + 3) == Fib(h + 2) + Fib(h + 1) && Fib(2) == 1
  {
  }

  lemma FibTwo(h: nat, a: int, b: int)
    requires a + 1 >= Fib(h + 3) && b + 1 >= Fib(h + 2)
    ensures a + 1 + b + 1 >= Fib(h + 4)
  {
    FibStep(h + 1);
  }

  lemma FibSame(h: nat, a: int, b: int)
    requires a + 1 >= Fib(h + 2) && b + 1 >= Fib(h + 2)
    ensures a + 1 + b + 1 >= Fib(h + 3)
  {
    FibStep(h);
    FibAscends(h + 1);
  }
}
