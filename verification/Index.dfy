/** The index of free blocks: one list per size.  Lists for sizes below MAXTINY start at the array
    tiny; a list for a larger size starts at a node of the free tree.  Also the list of blocks that
    bestreclaim has merged but not yet put in the tree. */
module Index {
  import opened Seqs
  import opened VmMemory
  import opened FreeTree
  import opened Splay
  import opened Extract

  const S_TINY := 7
  const MAXTINY := 8     // 64 bytes
  const TINYSIZE := 1    // 8 bytes

  /** The back link of a listed block: TLEFT, sharing the SEG word, for the tiniest blocks, else LEFT. */
  function Back(m: Mem, s: int, b: int): int {
    if s == TINYSIZE then m.Seg(b) else m.Left(b)
  }

  /** The words of the k-th block in the list for size s.  The head of a list of large blocks is a
      tree node, so only its LINK belongs to the list. */
  ghost predicate LinkedAt(m: Mem, s: int, l: seq<int>, k: int)
    requires 0 <= k < |l|
  {
    && m.Link(l[k]) == Nth(l, k + 1)
    && (s < MAXTINY || k > 0 ==> Back(m, s, l[k]) == Nth(l, k - 1))
    && (TINYSIZE < s < MAXTINY || (s >= MAXTINY && k > 0) ==> m.Right(l[k]) == l[k])
  }

  ghost predicate Linked(m: Mem, s: int, l: seq<int>) {
    forall k :: 0 <= k < |l| ==> LinkedAt(m, s, l, k)
  }

  ghost predicate ListsLinked(m: Mem, cls: Classes) {
    forall s :: Linked(m, s, List(cls, s))
  }

  ghost predicate HeadsOk(cls: Classes, tree: Tree, tiny: seq<int>) {
    && |tiny| == S_TINY
    && (forall i :: 0 <= i < S_TINY ==> tiny[i] == HeadOf(cls, i + 1))
    && (forall s :: s in Keys(tree) <==> s >= MAXTINY && List(cls, s) != [])
    && (forall s :: List(cls, s) != [] ==> s >= TINYSIZE)
  }

  ghost predicate IndexOk(m: Mem, cls: Classes, tree: Tree, root: int, tiny: seq<int>) {
    && Listed(m, cls)
    && ListsLinked(m, cls)
    && HeadsOk(cls, tree, tiny)
    && Ordered(tree) && Rep(m, cls, tree, root)
  }

  ghost predicate Indexed(m: Mem, cls: Classes, b: int) {
    b in List(cls, m.Size(b))
  }

  /** The blocks waiting for the tree, doubly linked behind the local variable of bestreclaim. */
  ghost predicate WaitOk(m: Mem, cls: Classes, wait: seq<int>) {
    && Linked(m, MAXTINY, [TREE_NODE] + wait)
    && Addresses(wait)
    && (forall k :: 0 <= k < |wait| ==> wait[k] > 0 && m.Size(wait[k]) >= MAXTINY && !Indexed(m, cls, wait[k]))
  }

  function WithLink(m: Mem, a: int, v: int): Mem { m.(link := m.link[a := v]) }
  function WithSeg(m: Mem, a: int, v: int): Mem { m.(seg := m.seg[a := v]) }

  /** The memory after the block at position k has been unlinked from a list with back links. */
  function Unlinked(m: Mem, s: int, l: seq<int>, k: int): Mem
    requires 0 <= k < |l|
  {
    var n, p := Nth(l, k + 1), Nth(l, k - 1);
    Mem(m.hdr,
        if p != NIL then m.link[p := n] else m.link,
        if n != NIL && s != TINYSIZE then m.left[n := p] else m.left,
        m.right,
        if n != NIL && s == TINYSIZE then m.seg[n := p] else m.seg,
        m.self)
  }

  /** The words of one block after unlinking block k. */
  lemma UnlinkedWord(m: Mem, s: int, l: seq<int>, k: int, a: int)
    requires 0 <= k < |l| && a != NIL
    ensures var n, p := Nth(l, k + 1), Nth(l, k - 1);
            var m' := Unlinked(m, s, l, k);
            && m'.Link(a) == (if a == p then n else m.Link(a))
            && Back(m', s, a) == (if a == n then p else Back(m, s, a))
            && m'.Right(a) == m.Right(a)
            && (s != TINYSIZE ==> m'.Seg(a) == m.Seg(a))
            && (s == TINYSIZE || a != n ==> m'.Left(a) == m.Left(a))
            && (a != n ==> m'.Seg(a) == m.Seg(a))
  {
  }

  lemma UnlinkAt(m: Mem, s: int, l: seq<int>, k: int, j: int)
    requires 0 <= k < |l| && Addresses(l) && Linked(m, s, l)
    requires s < MAXTINY || k > 0
    requires 0 <= j < |l| - 1
    ensures LinkedAt(Unlinked(m, s, l, k), s, Without(l, k), j)
  {
    hide Unlinked, Back;
    var l' := Without(l, k);
    var i := if j < k then j else j + 1;
    assert l'[j] == l[i] && LinkedAt(m, s, l, i);
    UnlinkedWord(m, s, l, k, l[i]);
    assert Nth(l', j + 1) == if i == k - 1 then Nth(l, k + 1) else Nth(l, i + 1);
    assert Nth(l', j - 1) == if i == k + 1 then Nth(l, k - 1) else Nth(l, i - 1);
  }

  lemma UnlinkList(m: Mem, s: int, l: seq<int>, k: int)
    requires 0 <= k < |l| && Addresses(l) && Linked(m, s, l)
    requires s < MAXTINY || k > 0
    ensures Linked(Unlinked(m, s, l, k), s, Without(l, k))
    ensures Addresses(Without(l, k))
  {
    hide LinkedAt;
    forall j | 0 <= j < |l| - 1 ensures LinkedAt(Unlinked(m, s, l, k), s, Without(l, k), j) {
      UnlinkAt(m, s, l, k, j);
    }
  }

  /** The four link words of block a are the same in both memories. */
  ghost predicate SameWords(m: Mem, m': Mem, a: int) {
    m'.Link(a) == m.Link(a) && m'.Left(a) == m.Left(a) && m'.Right(a) == m.Right(a) && m'.Seg(a) == m.Seg(a)
  }

  lemma LinkedFrame(m: Mem, m': Mem, s: int, l: seq<int>)
    requires Linked(m, s, l)
    requires forall i :: 0 <= i < |l| ==> SameWords(m, m', l[i])
    ensures Linked(m', s, l)
  {
    forall k | 0 <= k < |l| ensures LinkedAt(m', s, l, k) {
      assert LinkedAt(m, s, l, k) && SameWords(m, m', l[k]);
    }
  }

  /** Only link words, and only those of blocks among `at`, differ. */
  ghost predicate WordsAt(m: Mem, m': Mem, x: int, y: int) {
    && m' == m.(link := m'.link, left := m'.left, right := m'.right, seg := m'.seg)
    && forall a :: a == NIL || (a != x && a != y) ==> SameWords(m, m', a)
  }

  lemma UnlinkedWords(m: Mem, s: int, l: seq<int>, k: int)
    requires 0 <= k < |l| && Addresses(l)
    ensures WordsAt(m, Unlinked(m, s, l, k), Nth(l, k + 1), Nth(l, k - 1))
  {
    hide Addresses, Nth;
  }

  /** Words written at blocks of size s only disturb no list of another size. */
  lemma OtherLists(m: Mem, m': Mem, cls: Classes, x: int, y: int, s: int, s': int)
    requires Listed(m, cls) && Linked(m, s', List(cls, s')) && s' != s
    requires WordsAt(m, m', x, y)
    requires (x <= 0 || m.Size(x) == s) && (y <= 0 || m.Size(y) == s)
    ensures Linked(m', s', List(cls, s'))
  {
    var l := List(cls, s');
    forall i | 0 <= i < |l| ensures SameWords(m, m', l[i]) {
    }
    LinkedFrame(m, m', s', l);
  }

  /** What an operation on the index may write: words of listed blocks, of the block b it adds, and
      the local variable of bestsearch.  Only tiniest blocks lose their SEG word. */
  ghost predicate IndexWrites(m: Mem, m': Mem, cls: Classes, b: int) {
    && m' == m.(link := m'.link, left := m'.left, right := m'.right, seg := m'.seg)
    && (forall a :: a == NIL || (a != LINK_NODE && a != b && !Indexed(m, cls, a)) ==> SameWords(m, m', a))
    && (forall a :: m.Size(a) != TINYSIZE ==> m'.Seg(a) == m.Seg(a))
  }

  lemma ListedDistinct(m: Mem, cls: Classes, s: int)
    requires Listed(m, cls)
    ensures Addresses(List(cls, s))
    ensures forall i :: 0 <= i < |List(cls, s)| ==>
            List(cls, s)[i] > 0 && m.Size(List(cls, s)[i]) == s && Indexed(m, cls, List(cls, s)[i])
  {
  }

  lemma ListedWithout(m: Mem, cls: Classes, s: int, k: int)
    requires Listed(m, cls) && 0 <= k < |List(cls, s)|
    ensures Listed(m, cls[s := Without(List(cls, s), k)])
  {
    var cls' := cls[s := Without(List(cls, s), k)];
    assert forall s' :: List(cls', s') == if s' == s then Without(List(cls, s), k) else List(cls, s');
  }

  lemma ListedHdr(m: Mem, m': Mem, cls: Classes)
    requires Listed(m, cls) && m'.hdr == m.hdr
    ensures Listed(m', cls)
  {
  }

  /** UNLINK of a block that is not a tree node. */
  lemma UnlinkIndex(m: Mem, cls: Classes, tree: Tree, root: int, tiny: seq<int>, s: int, k: int)
    requires IndexOk(m, cls, tree, root, tiny)
    requires 0 <= k < |List(cls, s)| && (s < MAXTINY || k > 0)
    ensures 1 <= s
    ensures var l := List(cls, s);
            var m' := Unlinked(m, s, l, k);
            var tiny' := if k == 0 then tiny[s - 1 := Nth(l, 1)] else tiny;
            && IndexOk(m', cls[s := Without(l, k)], tree, root, tiny')
            && IndexWrites(m, m', cls, NIL)
  {
    hide Linked, Unlinked, Ordered, Rep, HeadsOk, IndexWrites;
    var l := List(cls, s);
    var m' := Unlinked(m, s, l, k);
    var cls' := cls[s := Without(l, k)];
    ListedDistinct(m, cls, s);
    UnlinkList(m, s, l, k);
    UnlinkedWords(m, s, l, k);
    ListedWithout(m, cls, s, k);
    ListedHdr(m, m', cls');
    forall s' ensures Linked(m', s', List(cls', s')) {
      if s' != s { OtherLists(m, m', cls, Nth(l, k + 1), Nth(l, k - 1), s, s'); }
    }
    UnlinkHeads(cls, tree, tiny, s, k);
    UnlinkTree(m, cls, tree, root, tiny, s, k);
    UnlinkWrites(m, cls, s, k);
  }

  lemma UnlinkHeads(cls: Classes, tree: Tree, tiny: seq<int>, s: int, k: int)
    requires HeadsOk(cls, tree, tiny)
    requires 0 <= k < |List(cls, s)| && (s < MAXTINY || k > 0)
    ensures 1 <= s
    ensures HeadsOk(cls[s := Without(List(cls, s), k)], tree,
                    if k == 0 then tiny[s - 1 := Nth(List(cls, s), 1)] else tiny)
  {
    var cls' := cls[s := Without(List(cls, s), k)];
    assert forall s' :: List(cls', s') == if s' == s then Without(List(cls, s), k) else List(cls, s');
    assert HeadOf(cls', s) == if k == 0 then Nth(List(cls, s), 1) else HeadOf(cls, s);
  }

  lemma UnlinkWrites(m: Mem, cls: Classes, s: int, k: int)
    requires Listed(m, cls) && 0 <= k < |List(cls, s)|
    ensures IndexWrites(m, Unlinked(m, s, List(cls, s), k), cls, NIL)
  {
    hide Unlinked;
    var l := List(cls, s);
    var m' := Unlinked(m, s, l, k);
    ListedDistinct(m, cls, s);
    UnlinkedWords(m, s, l, k);
    assert k + 1 < |l| ==> m.Size(l[k + 1]) == s;
    forall a | m.Size(a) != TINYSIZE ensures m'.Seg(a) == m.Seg(a) {
      if a != NIL { UnlinkedWord(m, s, l, k, a); } else { assert SameWords(m, m', a); }
    }
  }

  lemma UnlinkTree(m: Mem, cls: Classes, tree: Tree, root: int, tiny: seq<int>, s: int, k: int)
    requires Listed(m, cls) && Rep(m, cls, tree, root) && HeadsOk(cls, tree, tiny)
    requires 0 <= k < |List(cls, s)| && (s < MAXTINY || k > 0)
    ensures Rep(Unlinked(m, s, List(cls, s), k), cls[s := Without(List(cls, s), k)], tree, root)
  {
    var l := List(cls, s);
    var m' := Unlinked(m, s, l, k);
    var cls' := cls[s := Without(l, k)];
    forall s' | s' in Keys(tree) ensures SameAt(m, m', cls, cls', s') {
      var h := HeadOf(cls, s');
      assert h == List(cls, s')[0] && m.Size(h) == s';
      UnlinkedWord(m, s, l, k, h);
    }
    RepFrame(m, m', cls, cls', tree, root);
  }

  /** The words of a listed block that is no tree node are not written by a search, except
      those of the block that becomes a tree node. */
  lemma SearchIndex(m: Mem, m': Mem, cls: Classes, tree: Tree, tree': Tree, root': int, tiny: seq<int>, size: int,
                    b: int, k: int)
    requires Listed(m, cls) && ListsLinked(m, cls) && HeadsOk(cls, tree, tiny)
    requires b != NIL && BestFit(cls, DropHead(cls, k), Keys(tree), Keys(tree'), size, b, k)
    requires SearchWrites(m, m', cls, Keys(tree), HeadOf(DropHead(cls, k), k))
    requires Ordered(tree') && Rep(m', DropHead(cls, k), tree', root')
    ensures IndexOk(m', DropHead(cls, k), tree', root', tiny)
    ensures IndexWrites(m, m', cls, NIL)
  {
    hide Linked, Ordered, Rep, HeadsOk, IndexWrites;
    var cls' := DropHead(cls, k);
    SearchKeys(m, cls, tree, tree', tiny, k);
    forall s ensures Linked(m', s, List(cls', s)) {
      SearchList(m, m', cls, tree, tiny, k, s);
    }
    ListedTail(m, cls, k);
    ListedHdr(m, m', cls');
    SearchKept(m, m', cls, Keys(tree), k);
  }

  lemma SearchKeys(m: Mem, cls: Classes, tree: Tree, tree': Tree, tiny: seq<int>, k: int)
    requires Listed(m, cls) && HeadsOk(cls, tree, tiny) && k in Keys(tree)
    requires Keys(tree') == (if |List(cls, k)| > 1 then Keys(tree) else Keys(tree) - {k})
    ensures HeadsOk(DropHead(cls, k), tree', tiny)
  {
    var cls' := DropHead(cls, k);
    assert forall s :: List(cls', s) == if s == k then List(cls, k)[1..] else List(cls, s);
  }

  lemma SearchList(m: Mem, m': Mem, cls: Classes, tree: Tree, tiny: seq<int>, k: int, s: int)
    requires Listed(m, cls) && Linked(m, s, List(cls, s)) && HeadsOk(cls, tree, tiny) && k in Keys(tree)
    requires SearchWrites(m, m', cls, Keys(tree), HeadOf(DropHead(cls, k), k))
    ensures Linked(m', s, List(DropHead(cls, k), s))
  {
    hide LinkedAt, SearchWrites, Listed;
    forall i | 0 <= i < |List(DropHead(cls, k), s)| ensures LinkedAt(m', s, List(DropHead(cls, k), s), i) {
      SearchAt(m, m', cls, Keys(tree), k, s, i);
    }
  }

  lemma SearchAt(m: Mem, m': Mem, cls: Classes, keys: set<int>, k: int, s: int, i: int)
    requires Listed(m, cls) && List(cls, k) != [] && forall t :: t in keys ==> t >= MAXTINY
    requires SearchWrites(m, m', cls, keys, HeadOf(DropHead(cls, k), k)) && k >= MAXTINY
    requires 0 <= i < |List(DropHead(cls, k), s)|
    requires var j := if s == k then i + 1 else i;
             0 <= j < |List(cls, s)| && LinkedAt(m, s, List(cls, s), j)
    ensures LinkedAt(m', s, List(DropHead(cls, k), s), i)
  {
    var l, l' := List(cls, s), List(DropHead(cls, k), s);
    var j := if s == k then i + 1 else i;
    assert l' == if s == k then l[1..] else l;
    assert l'[i] == l[j] && m.Size(l[j]) == s && l[j] > 0;
    assert Nth(l', i + 1) == Nth(l, j + 1) && (i > 0 ==> Nth(l', i - 1) == Nth(l, j - 1));
    if s < MAXTINY || i > 0 {
      assert l[j] != HeadOf(DropHead(cls, k), k) by {
        assert HeadOf(DropHead(cls, k), k) == Nth(List(cls, k), 1);
      }
      assert !NodeFor(m, cls, keys, l[j]);
    }
  }

  lemma TreeSizes(cls: Classes, tree: Tree, tiny: seq<int>)
    requires HeadsOk(cls, tree, tiny)
    ensures forall s :: s in Keys(tree) ==> s >= MAXTINY && List(cls, s) != []
  {
  }

  lemma SearchKept(m: Mem, m': Mem, cls: Classes, keys: set<int>, k: int)
    requires Listed(m, cls) && k in keys && List(cls, k) != []
    requires SearchWrites(m, m', cls, keys, HeadOf(DropHead(cls, k), k))
    ensures IndexWrites(m, m', cls, NIL)
  {
    var r := HeadOf(DropHead(cls, k), k);
    assert r != NIL ==> r == List(cls, k)[1] && Indexed(m, cls, r);
    forall a | NodeFor(m, cls, keys, a) ensures Indexed(m, cls, a) {
      assert a == List(cls, m.Size(a))[0];
    }
  }

  // ---------- inserting ----------

  function InsertAt(l: seq<int>, j: int, b: int): seq<int>
    requires 0 <= j <= |l|
  {
    l[..j] + [b] + l[j..]
  }

  /** The memory after block b has been linked in at position j. */
  function Inserted(m: Mem, s: int, l: seq<int>, j: int, b: int): Mem
    requires 0 <= j <= |l|
  {
    var n, p := Nth(l, j), Nth(l, j - 1);
    var link := m.link[b := n];
    var left := if n != NIL then m.left[n := b] else m.left;
    var seg := if n != NIL then m.seg[n := b] else m.seg;
    Mem(m.hdr,
        if p != NIL then link[p := b] else link,
        if s == TINYSIZE then m.left else left[b := p],
        if s == TINYSIZE then m.right else m.right[b := b],
        if s == TINYSIZE then seg[b := p] else m.seg,
        m.self)
  }

  lemma InsertedWord(m: Mem, s: int, l: seq<int>, j: int, b: int, a: int)
    requires 0 <= j <= |l| && b !in l && b != NIL && a != NIL && Addresses(l)
    ensures var n, p := Nth(l, j), Nth(l, j - 1);
            var m' := Inserted(m, s, l, j, b);
            && m'.Link(a) == (if a == p then b else if a == b then n else m.Link(a))
            && Back(m', s, a) == (if a == b then p else if a == n then b else Back(m, s, a))
            && m'.Right(a) == (if a == b && s != TINYSIZE then b else m.Right(a))
            && (s != TINYSIZE || (a != n && a != b) ==> m'.Seg(a) == m.Seg(a))
            && (s == TINYSIZE || (a != n && a != b) ==> m'.Left(a) == m.Left(a))
  {
    hide Inserted;
    var n, p := Nth(l, j), Nth(l, j - 1);
    assert n == NIL || (n in l && n != b);
    assert p == NIL || (p in l && p != b);
    assert n != NIL ==> n != p;
    if s == TINYSIZE {
      InsertedTiny(m, s, l, j, b, a);
    } else {
      InsertedLarge(m, s, l, j, b, a);
    }
  }

  lemma InsertedTiny(m: Mem, s: int, l: seq<int>, j: int, b: int, a: int)
    requires 0 <= j <= |l| && b !in l && b != NIL
    requires a != NIL && s == TINYSIZE && Nth(l, j) != b && Nth(l, j - 1) != b
    requires Nth(l, j) != NIL ==> Nth(l, j) != Nth(l, j - 1)
    ensures var n, p := Nth(l, j), Nth(l, j - 1);
            var m' := Inserted(m, s, l, j, b);
            && m'.Link(a) == (if a == p then b else if a == b then n else m.Link(a))
            && m'.Seg(a) == (if a == b then p else if a == n then b else m.Seg(a))
            && m'.left == m.left && m'.right == m.right
  {
  }

  lemma InsertedLarge(m: Mem, s: int, l: seq<int>, j: int, b: int, a: int)
    requires 0 <= j <= |l| && b !in l && b != NIL
    requires a != NIL && s != TINYSIZE && Nth(l, j) != b && Nth(l, j - 1) != b
    requires Nth(l, j) != NIL ==> Nth(l, j) != Nth(l, j - 1)
    ensures var n, p := Nth(l, j), Nth(l, j - 1);
            var m' := Inserted(m, s, l, j, b);
            && m'.Link(a) == (if a == p then b else if a == b then n else m.Link(a))
            && m'.Left(a) == (if a == b then p else if a == n then b else m.Left(a))
            && m'.right == m.right[b := b] && m'.seg == m.seg
  {
  }

  lemma InsertedAt(m: Mem, s: int, l: seq<int>, j: int, b: int, i: int)
    requires 0 <= j <= |l| && b !in l && b != NIL && Addresses(l) && Linked(m, s, l)
    requires s < MAXTINY || j > 0
    requires 0 <= i <= |l|
    ensures LinkedAt(Inserted(m, s, l, j, b), s, InsertAt(l, j, b), i)
  {
    hide Inserted, Back;
    var l' := InsertAt(l, j, b);
    InsertedWord(m, s, l, j, b, l'[i]);
    if i != j {
      var h := if i < j then i else i - 1;
      assert l'[i] == l[h] && LinkedAt(m, s, l, h);
      assert Nth(l', i + 1) == if h == j - 1 then b else Nth(l, h + 1);
      assert Nth(l', i - 1) == if h == j then b else Nth(l, h - 1);
    } else {
      assert Nth(l', i + 1) == Nth(l, j) && Nth(l', i - 1) == Nth(l, j - 1);
    }
  }

  lemma InsertList(m: Mem, s: int, l: seq<int>, j: int, b: int)
    requires 0 <= j <= |l| && b !in l && b != NIL && Addresses(l) && Linked(m, s, l)
    requires s < MAXTINY || j > 0
    ensures Linked(Inserted(m, s, l, j, b), s, InsertAt(l, j, b))
    ensures Addresses(InsertAt(l, j, b))
  {
    hide LinkedAt, Inserted;
    forall i | 0 <= i <= |l| ensures LinkedAt(Inserted(m, s, l, j, b), s, InsertAt(l, j, b), i) {
      InsertedAt(m, s, l, j, b, i);
    }
  }

  /** All words but those of b, of n and of p stay. */
  lemma InsertedWords(m: Mem, s: int, l: seq<int>, j: int, b: int)
    requires 0 <= j <= |l| && b != NIL
    ensures var m' := Inserted(m, s, l, j, b);
            && m' == m.(link := m'.link, left := m'.left, right := m'.right, seg := m'.seg)
            && (forall a :: a == NIL || (a != b && a != Nth(l, j) && a != Nth(l, j - 1)) ==> SameWords(m, m', a))
            && (s != TINYSIZE ==> m'.seg == m.seg)
  {
  }

  lemma ListedInsert(m: Mem, cls: Classes, s: int, j: int, b: int)
    requires Listed(m, cls) && 0 <= j <= |List(cls, s)| && b > 0 && m.Size(b) == s && !Indexed(m, cls, b)
    ensures Listed(m, cls[s := InsertAt(List(cls, s), j, b)])
  {
    var l := List(cls, s);
    var l' := InsertAt(l, j, b);
    var cls' := cls[s := l'];
    assert List(cls', s) == l';
    assert forall s' :: s' != s ==> List(cls', s') == List(cls, s');
    forall i | 0 <= i < |l'| ensures l'[i] > 0 && m.Size(l'[i]) == s {
      assert l'[i] == if i < j then l[i] else if i == j then b else l[i - 1];
    }
    ListedDistinct(m, cls, s);
    InsertDistinct(l, j, b);
  }

  lemma InsertDistinct(l: seq<int>, j: int, b: int)
    requires 0 <= j <= |l| && b !in l && b != NIL && Addresses(l)
    ensures Addresses(InsertAt(l, j, b))
  {
  }

  lemma OtherListsInsert(m: Mem, cls: Classes, s: int, j: int, b: int, s': int)
    requires Listed(m, cls) && Linked(m, s', List(cls, s')) && s' != s
    requires 0 <= j <= |List(cls, s)| && b > 0 && m.Size(b) == s
    ensures Linked(Inserted(m, s, List(cls, s), j, b), s', List(cls, s'))
  {
    hide Inserted;
    var m' := Inserted(m, s, List(cls, s), j, b);
    InsertedWords(m, s, List(cls, s), j, b);
    var l := List(cls, s');
    forall i | 0 <= i < |l| ensures SameWords(m, m', l[i]) {
      assert m.Size(l[i]) == s';
      assert j < |List(cls, s)| ==> m.Size(List(cls, s)[j]) == s;
      assert j > 0 ==> m.Size(List(cls, s)[j - 1]) == s;
    }
    LinkedFrame(m, m', s', l);
  }

  /** A block put in a tiny list (at the front) or behind a tree node of its size. */
  lemma InsertIndex(m: Mem, cls: Classes, tree: Tree, root: int, tiny: seq<int>, s: int, b: int)
    requires IndexOk(m, cls, tree, root, tiny)
    requires b > 0 && m.Size(b) == s >= 1 && !Indexed(m, cls, b)
    requires s < MAXTINY || s in Keys(tree)
    ensures var l := List(cls, s);
            var j := if s < MAXTINY then 0 else 1;
            j <= |l| &&
            var m' := Inserted(m, s, l, j, b);
            && IndexOk(m', cls[s := InsertAt(l, j, b)], tree, root, if s < MAXTINY then tiny[s - 1 := b] else tiny)
            && IndexWrites(m, m', cls, b)
  {
    hide Linked, Inserted, Ordered, Rep, HeadsOk, IndexWrites, InsertAt;
    var l := List(cls, s);
    var j := if s < MAXTINY then 0 else 1;
    InsertHeads(cls, tree, tiny, s, b);
    var m' := Inserted(m, s, l, j, b);
    var cls' := cls[s := InsertAt(l, j, b)];
    ListedDistinct(m, cls, s);
    InsertList(m, s, l, j, b);
    ListedInsert(m, cls, s, j, b);
    InsertedWords(m, s, l, j, b);
    ListedHdr(m, m', cls');
    forall s' ensures Linked(m', s', List(cls', s')) {
      if s' != s { OtherListsInsert(m, cls, s, j, b, s'); }
    }
    InsertTreeKeeps(m, cls, tree, root, tiny, s, j, b);
    InsertWrites(m, cls, s, j, b);
  }

  lemma InsertHeads(cls: Classes, tree: Tree, tiny: seq<int>, s: int, b: int)
    requires HeadsOk(cls, tree, tiny) && s >= 1 && (s < MAXTINY || s in Keys(tree))
    ensures var j := if s < MAXTINY then 0 else 1;
            j <= |List(cls, s)| &&
            HeadsOk(cls[s := InsertAt(List(cls, s), j, b)], tree, if s < MAXTINY then tiny[s - 1 := b] else tiny)
  {
    var l := List(cls, s);
    var j := if s < MAXTINY then 0 else 1;
    assert s >= MAXTINY ==> l != [];
    var cls' := cls[s := InsertAt(l, j, b)];
    assert forall s' :: List(cls', s') == if s' == s then InsertAt(l, j, b) else List(cls, s');
    assert HeadOf(cls', s) == if j == 0 then b else HeadOf(cls, s);
  }

  lemma InsertTreeKeeps(m: Mem, cls: Classes, tree: Tree, root: int, tiny: seq<int>, s: int, j: int, b: int)
    requires Listed(m, cls) && Rep(m, cls, tree, root) && HeadsOk(cls, tree, tiny)
    requires 0 <= j <= |List(cls, s)| && b > 0 && m.Size(b) == s && b !in List(cls, s)
    requires s < MAXTINY || j > 0
    ensures Rep(Inserted(m, s, List(cls, s), j, b), cls[s := InsertAt(List(cls, s), j, b)], tree, root)
  {
    hide Inserted;
    var l := List(cls, s);
    var m' := Inserted(m, s, l, j, b);
    var cls' := cls[s := InsertAt(l, j, b)];
    ListedDistinct(m, cls, s);
    forall s' | s' in Keys(tree) ensures SameAt(m, m', cls, cls', s') {
      var h := HeadOf(cls, s');
      assert h == List(cls, s')[0] && m.Size(h) == s';
      InsertedWord(m, s, l, j, b, h);
    }
    RepFrame(m, m', cls, cls', tree, root);
  }

  lemma InsertWrites(m: Mem, cls: Classes, s: int, j: int, b: int)
    requires Listed(m, cls) && 0 <= j <= |List(cls, s)| && b > 0 && m.Size(b) == s && !Indexed(m, cls, b)
    ensures IndexWrites(m, Inserted(m, s, List(cls, s), j, b), cls, b)
  {
    hide Inserted;
    var l := List(cls, s);
    var m' := Inserted(m, s, l, j, b);
    ListedDistinct(m, cls, s);
    InsertedWords(m, s, l, j, b);
    forall a | m.Size(a) != TINYSIZE ensures m'.Seg(a) == m.Seg(a) {
      if a != NIL { InsertedWord(m, s, l, j, b, a); } else { assert SameWords(m, m', a); }
      assert j < |l| ==> m.Size(l[j]) == s;
    }
  }

  // ---------- leaf insertion ----------

  /** The tree after a leaf for a new size k has been added. */
  ghost function Grown(t: Tree, k: int): (t': Tree)
    ensures Keys(t') == Keys(t) + {k}
    ensures Ordered(t) && k !in Keys(t) ==> Ordered(t')
  {
    match t
    case Leaf => Node(Leaf, k, Leaf)
    case Node(l, x, r) => if k < x then Node(Grown(l, k), x, r) else Node(l, x, Grown(r, k))
  }

  /** The size at which the search for k ends: k itself if it has a node, else the would-be parent. */
  ghost function EndOf(t: Tree, k: int): (x: int)
    requires t.Node?
    ensures x in Keys(t)
  {
    if k < t.key && t.l.Node? then EndOf(t.l, k)
    else if t.key < k && t.r.Node? then EndOf(t.r, k)
    else t.key
  }

  /** Hanging block b under the node where the search ends adds a leaf for its size. */
  lemma {:induction false} GrowRep(m: Mem, m': Mem, cls: Classes, t: Tree, p: int, k: int, b: int)
    requires t.Node? && Ordered(t) && k !in Keys(t)
    requires Rep(m, cls, t, p) && Sized(m, cls) && Positive(cls, Keys(t))
    requires List(cls, k) == [] && b > 0 && m'.Left(b) == NIL == m'.Right(b)
    requires forall s :: s in Keys(t) ==> HeadOf(cls, s) != b
    requires var h := HeadOf(cls, EndOf(t, k));
             && (forall s :: s in Keys(t) && HeadOf(cls, s) != h ==> SameAt(m, m', cls, cls, s))
             && m'.Left(h) == (if k < EndOf(t, k) then b else m.Left(h))
             && m'.Right(h) == (if k < EndOf(t, k) then m.Right(h) else b)
    ensures Rep(m', cls[k := [b]], Grown(t, k), p)
  {
    var cls' := cls[k := [b]];
    var h := HeadOf(cls, EndOf(t, k));
    assert HeadOf(cls', k) == b;
    assert forall s :: s != k ==> HeadOf(cls', s) == HeadOf(cls, s);
    assert EndOf(t, k) != t.key ==> HeadOf(cls, t.key) != h && SameAt(m, m', cls, cls, t.key);
    if k < t.key {
      if t.l.Node? { GrowRep(m, m', cls, t.l, m.Left(p), k, b); }
      GrowFrame(m, m', cls, t, t.r, m.Right(p), k, b);
    } else {
      if t.r.Node? { GrowRep(m, m', cls, t.r, m.Right(p), k, b); }
      GrowFrame(m, m', cls, t, t.l, m.Left(p), k, b);
    }
  }

  lemma GrowFrame(m: Mem, m': Mem, cls: Classes, t: Tree, u: Tree, p: int, k: int, b: int)
    requires t.Node? && k !in Keys(t) && Keys(u) <= Keys(t) && EndOf(t, k) !in Keys(u)
    requires Rep(m, cls, u, p) && Sized(m, cls) && Positive(cls, Keys(t))
    requires forall s :: s in Keys(t) && HeadOf(cls, s) != HeadOf(cls, EndOf(t, k)) ==> SameAt(m, m', cls, cls, s)
    ensures Rep(m', cls[k := [b]], u, p)
  {
    var cls' := cls[k := [b]];
    forall s | s in Keys(u) ensures SameAt(m, m', cls, cls', s) {
      assert m.Size(HeadOf(cls, s)) == s;
      assert HeadOf(cls', s) == HeadOf(cls, s);
    }
    RepFrame(m, m', cls, cls', u, p);
  }

  // ---------- frames ----------

  /** Words of blocks outside the index do not matter to it. */
  lemma IndexFrame(m: Mem, m': Mem, cls: Classes, tree: Tree, root: int, tiny: seq<int>)
    requires IndexOk(m, cls, tree, root, tiny) && m'.hdr == m.hdr
    requires forall a :: Indexed(m, cls, a) ==> SameWords(m, m', a)
    ensures IndexOk(m', cls, tree, root, tiny)
  {
    hide HeadsOk, Ordered, Linked;
    forall s ensures Linked(m', s, List(cls, s)) {
      ListedDistinct(m, cls, s);
      LinkedFrame(m, m', s, List(cls, s));
    }
    RepIndexed(m, m', cls, tree, root);
    ListedHdr(m, m', cls);
  }

  lemma RepIndexed(m: Mem, m': Mem, cls: Classes, t: Tree, p: int)
    requires Rep(m, cls, t, p) && Listed(m, cls)
    requires forall a :: Indexed(m, cls, a) ==> SameWords(m, m', a)
    ensures Rep(m', cls, t, p)
  {
    HeadsLive(m, cls, t, p);
    forall s | s in Keys(t) ensures SameAt(m, m', cls, cls, s) {
      assert HeadOf(cls, s) == List(cls, s)[0];
      ListedDistinct(m, cls, s);
    }
    RepFrame(m, m', cls, cls, t, p);
  }

  lemma {:induction false} HeadsLive(m: Mem, cls: Classes, t: Tree, p: int)
    requires Rep(m, cls, t, p)
    ensures forall s :: s in Keys(t) ==> HeadOf(cls, s) != NIL
  {
    if t.Node? {
      HeadsLive(m, cls, t.l, m.Left(p));
      HeadsLive(m, cls, t.r, m.Right(p));
    }
  }

  /** The waiting list is unaffected by what the index operations write. */
  lemma WaitKept(m: Mem, m': Mem, cls: Classes, cls': Classes, wait: seq<int>, b: int)
    requires WaitOk(m, cls, wait) && Listed(m, cls) && IndexWrites(m, m', cls, b)
    requires b !in wait && b >= 0
    requires forall a :: Indexed(m', cls', a) ==> Indexed(m, cls, a) || a == b
    ensures WaitOk(m', cls', wait)
  {
    hide Linked;
    var l := [TREE_NODE] + wait;
    assert !Indexed(m, cls, TREE_NODE);
    forall i | 0 <= i < |l| ensures SameWords(m, m', l[i]) {
      if i > 0 { assert l[i] == wait[i - 1]; }
    }
    LinkedFrame(m, m', MAXTINY, l);
  }

  /** List l without block b. */
  function Minus(l: seq<int>, b: int): seq<int> {
    if l == [] then [] else if l[0] == b then l[1..] else [l[0]] + Minus(l[1..], b)
  }

  lemma {:induction false} MinusIsWithout(l: seq<int>, k: nat)
    requires k < |l| && forall i, j :: 0 <= i < j < |l| ==> l[i] != l[j]
    ensures Minus(l, l[k]) == Without(l, k)
  {
    if k > 0 {
      assert l[1..][k - 1] == l[k] && l[0] != l[k];
      MinusIsWithout(l[1..], k - 1);
      assert Without(l, k) == [l[0]] + Without(l[1..], k - 1);
    }
  }

  /** Removing b from the list of its class removes exactly b from the index. */
  lemma MinusIndexed(m: Mem, m': Mem, cls: Classes, b: int)
    requires Listed(m, cls) && Indexed(m, cls, b) && m'.hdr == m.hdr
    ensures var cls' := cls[m.Size(b) := Minus(List(cls, m.Size(b)), b)];
            forall a :: Indexed(m', cls', a) <==> Indexed(m, cls, a) && a != b
  {
    hide Listed, Indexed, Minus;
    forall a ensures Indexed(m', cls[m.Size(b) := Minus(List(cls, m.Size(b)), b)], a) <==> Indexed(m, cls, a) && a != b
    {
      MinusIndexedAt(m, m', cls, b, a);
    }
  }

  lemma MinusIndexedAt(m: Mem, m': Mem, cls: Classes, b: int, a: int)
    requires Listed(m, cls) && Indexed(m, cls, b) && m'.hdr == m.hdr
    ensures Indexed(m', cls[m.Size(b) := Minus(List(cls, m.Size(b)), b)], a) <==> Indexed(m, cls, a) && a != b
  {
    hide Listed, Minus, Without;
    var s := m.Size(b);
    var l := List(cls, s);
    var k :| 0 <= k < |l| && l[k] == b;
    ListedDistinct(m, cls, s);
    MinusIsWithout(l, k);
    WithoutHas(l, k, a);
    assert m'.Size(a) == m.Size(a);
  }

  lemma WithoutHas(l: seq<int>, k: int, a: int)
    requires 0 <= k < |l| && Addresses(l)
    ensures a in Without(l, k) <==> a in l && a != l[k]
  {
    var l' := Without(l, k);
    if a in l && a != l[k] {
      var i :| 0 <= i < |l| && l[i] == a;
      assert l'[if i < k then i else i - 1] == a;
    }
  }

  lemma InsertHas(l: seq<int>, j: int, b: int, a: int)
    requires 0 <= j <= |l|
    ensures a in InsertAt(l, j, b) <==> a in l || a == b
  {
    var l' := InsertAt(l, j, b);
    assert l'[j] == b;
    if a in l {
      var i :| 0 <= i < |l| && l[i] == a;
      assert l'[if i < j then i else i + 1] == a;
    }
  }

  /** What a search may rely on. */
  lemma IndexReads(m: Mem, cls: Classes, tree: Tree, root: int, tiny: seq<int>)
    requires IndexOk(m, cls, tree, root, tiny)
    ensures Positive(cls, Keys(tree))
    ensures forall s :: s in Keys(tree) ==> m.Link(HeadOf(cls, s)) == Nth(List(cls, s), 1)
    ensures forall s :: s in Keys(tree) <==> s >= MAXTINY && HeadOf(cls, s) != NIL
  {
    forall s ensures s in Keys(tree) ==> HeadOf(cls, s) > 0 && m.Link(HeadOf(cls, s)) == Nth(List(cls, s), 1)
             ensures s in Keys(tree) <==> s >= MAXTINY && HeadOf(cls, s) != NIL
    {
      if List(cls, s) != [] {
        assert Linked(m, s, List(cls, s)) && LinkedAt(m, s, List(cls, s), 0);
        assert HeadOf(cls, s) == List(cls, s)[0];
      }
    }
  }

  /** A search that finds nothing only reshapes the tree. */
  lemma SearchNone(m: Mem, m': Mem, cls: Classes, tree: Tree, tree': Tree, root': int, tiny: seq<int>)
    requires Listed(m, cls) && ListsLinked(m, cls) && HeadsOk(cls, tree, tiny)
    requires Keys(tree') == Keys(tree) && SearchWrites(m, m', cls, Keys(tree), NIL)
    requires Ordered(tree') && Rep(m', cls, tree', root')
    ensures IndexOk(m', cls, tree', root', tiny)
    ensures IndexWrites(m, m', cls, NIL)
  {
    hide Ordered, Rep, Linked, HeadsOk, Listed, SearchWrites, IndexWrites;
    forall s ensures Linked(m', s, List(cls, s)) {
      SearchNoneList(m, m', cls, tree, tiny, s);
    }
    ListedHdr(m, m', cls) by { SearchHdr(m, m', cls, Keys(tree), NIL); }
    HeadsOkSame(cls, tree, tree', tiny);
    SearchNoneWrites(m, m', cls, Keys(tree));
  }

  lemma SearchHdr(m: Mem, m': Mem, cls: Classes, keys: set<int>, extra: int)
    requires SearchWrites(m, m', cls, keys, extra)
    ensures m'.hdr == m.hdr
  {
  }

  lemma HeadsOkSame(cls: Classes, tree: Tree, tree': Tree, tiny: seq<int>)
    requires HeadsOk(cls, tree, tiny) && Keys(tree') == Keys(tree)
    ensures HeadsOk(cls, tree', tiny)
  {
  }

  lemma SearchNoneWrites(m: Mem, m': Mem, cls: Classes, keys: set<int>)
    requires Listed(m, cls) && SearchWrites(m, m', cls, keys, NIL)
    ensures IndexWrites(m, m', cls, NIL)
  {
    forall a | NodeFor(m, cls, keys, a) ensures Indexed(m, cls, a) {
      assert a == List(cls, m.Size(a))[0];
    }
  }

  lemma SearchNoneList(m: Mem, m': Mem, cls: Classes, tree: Tree, tiny: seq<int>, s: int)
    requires Listed(m, cls) && Linked(m, s, List(cls, s)) && HeadsOk(cls, tree, tiny)
    requires SearchWrites(m, m', cls, Keys(tree), NIL)
    ensures Linked(m', s, List(cls, s))
  {
    hide HeadsOk;
    var l := List(cls, s);
    TreeSizes(cls, tree, tiny);
    forall i | 0 <= i < |l| ensures LinkedAt(m', s, l, i) {
      assert LinkedAt(m, s, l, i) && m.Size(l[i]) == s;
      if s < MAXTINY || i > 0 { assert !NodeFor(m, cls, Keys(tree), l[i]); }
    }
  }

  /** After a tiniest block has left its list, its SEG word may be written again. */
  lemma RestoreSeg(m0: Mem, m: Mem, cls0: Classes, cls: Classes, tree: Tree, root: int, tiny: seq<int>, b: int, v: int)
    requires IndexOk(m, cls, tree, root, tiny) && IndexWrites(m0, m, cls0, NIL)
    requires Indexed(m0, cls0, b) && m.Size(b) == TINYSIZE && !Indexed(m, cls, b) && b != NIL
    ensures IndexOk(WithSeg(m, b, v), cls, tree, root, tiny)
    ensures IndexWrites(m0, WithSeg(m, b, v), cls0, NIL)
  {
    hide IndexOk;
    var m' := WithSeg(m, b, v);
    IndexFrame(m, m', cls, tree, root, tiny);
    forall a | a == NIL || (a != LINK_NODE && !Indexed(m0, cls0, a)) ensures SameWords(m0, m', a) {
      assert SameWords(m0, m, a);
    }
  }

  lemma BestFitSize(m: Mem, cls: Classes, cls': Classes, keys: set<int>, keys': set<int>, size: int, b: int, k: int)
    requires Listed(m, cls) && BestFit(cls, cls', keys, keys', size, b, k) && b != NIL
    ensures m.Size(b) == k && b in List(cls, k) && cls' == cls[k := Minus(List(cls, k), b)]
  {
    assert b == List(cls, k)[0];
  }

  // ---------- REMOVE ----------

  /** Listed in the index, or waiting for the tree. */
  ghost predicate Held(m: Mem, cls: Classes, wait: seq<int>, b: int) {
    Indexed(m, cls, b) || b in wait
  }

  /** A tree node is never mistaken for a list element: its RIGHT field does not point to itself. */
  lemma {:induction false} NodeIsNoLink(m: Mem, cls: Classes, t: Tree, p: int, s: int)
    requires Rep(m, cls, t, p) && Ordered(t) && Sized(m, cls) && s in Keys(t)
    ensures HeadOf(cls, s) != NIL && m.Right(HeadOf(cls, s)) != HeadOf(cls, s)
  {
    if s < t.key {
      NodeIsNoLink(m, cls, t.l, m.Left(p), s);
    } else if t.key < s {
      NodeIsNoLink(m, cls, t.r, m.Right(p), s);
    } else if t.r.Node? {
      assert t.r.key in Keys(t.r) && m.Size(HeadOf(cls, t.r.key)) == t.r.key;
    }
  }

  /** What REMOVE writes, and what is held afterwards. */
  ghost predicate Removed(m: Mem, m': Mem, cls: Classes, cls': Classes, wait: seq<int>, wait': seq<int>, b: int) {
    && m' == m.(link := m'.link, left := m'.left, right := m'.right, seg := m'.seg)
    && (forall a :: a == NIL || (a != LINK_NODE && a != TREE_NODE && !Held(m, cls, wait, a)) ==> SameWords(m, m', a))
    && (forall a :: m.Size(a) != TINYSIZE ==> m'.Seg(a) == m.Seg(a))
    && (forall a :: Held(m', cls', wait', a) <==> Held(m, cls, wait, a) && a != b)
    && (forall a :: a in List(cls', TINYSIZE) <==> a in List(cls, TINYSIZE) && a != b)
  }

  /** Taking a block off the waiting list. */
  lemma UnlinkWaiting(m: Mem, cls: Classes, tree: Tree, root: int, tiny: seq<int>, wait: seq<int>, k: int)
    requires IndexOk(m, cls, tree, root, tiny) && WaitOk(m, cls, wait) && 0 <= k < |wait|
    ensures var m' := Unlinked(m, MAXTINY, [TREE_NODE] + wait, k + 1);
            && IndexOk(m', cls, tree, root, tiny) && WaitOk(m', cls, Minus(wait, wait[k]))
            && Removed(m, m', cls, cls, wait, Minus(wait, wait[k]), wait[k])
  {
    hide Linked, Unlinked, IndexOk, Without, Minus, Addresses, WaitOk, Removed, SameWords;
    var l := [TREE_NODE] + wait;
    var m' := Unlinked(m, MAXTINY, l, k + 1);
    WaitDistinct(m, cls, wait);
    WaitIsNew(m, cls, wait);
    UnlinkList(m, MAXTINY, l, k + 1);
    DistinctMinus(wait, k);
    WithoutCons(wait, k);
    UnlinkedWordsWait(m, cls, wait, k);
    IndexListed(m, cls, tree, root, tiny);
    IndexFrame(m, m', cls, tree, root, tiny);
    WaitRest(m, m', cls, wait, k);
    UnlinkWaitingWrites(m, m', cls, wait, k);
  }

  lemma DistinctMinus(l: seq<int>, k: int)
    requires 0 <= k < |l| && Addresses(l)
    ensures Minus(l, l[k]) == Without(l, k)
    ensures forall a :: a in Without(l, k) <==> a in l && a != l[k]
  {
    hide Without;
    MinusIsWithout(l, k);
    forall a ensures a in Without(l, k) <==> a in l && a != l[k] { WithoutHas(l, k, a); }
  }

  lemma WaitIsNew(m: Mem, cls: Classes, wait: seq<int>)
    requires WaitOk(m, cls, wait)
    ensures forall a :: a in wait ==> !Indexed(m, cls, a) && a > 0 && m.Size(a) >= MAXTINY
    ensures Linked(m, MAXTINY, [TREE_NODE] + wait)
  {
    hide Linked;
  }

  lemma UnlinkWaitingWrites(m: Mem, m': Mem, cls: Classes, wait: seq<int>, k: int)
    requires 0 <= k < |wait|
    requires m' == m.(link := m'.link, left := m'.left, right := m'.right, seg := m'.seg) && m'.seg == m.seg
    requires forall a :: a == NIL || (a != TREE_NODE && a !in wait) ==> SameWords(m, m', a)
    requires forall a :: a in Minus(wait, wait[k]) <==> a in wait && a != wait[k]
    requires forall a :: a in wait ==> !Indexed(m, cls, a) && m.Size(a) >= MAXTINY
    requires forall a :: a in List(cls, TINYSIZE) ==> m.Size(a) == TINYSIZE
    ensures Removed(m, m', cls, cls, wait, Minus(wait, wait[k]), wait[k])
  {
    hide SameWords, Minus;
  }

  lemma IndexListed(m: Mem, cls: Classes, tree: Tree, root: int, tiny: seq<int>)
    requires IndexOk(m, cls, tree, root, tiny)
    ensures Listed(m, cls)
    ensures forall a :: a in List(cls, TINYSIZE) ==> Indexed(m, cls, a) && m.Size(a) == TINYSIZE
    ensures forall a :: Indexed(m, cls, a) ==> a > 0
  {
  }

  lemma WaitDistinct(m: Mem, cls: Classes, wait: seq<int>)
    requires WaitOk(m, cls, wait)
    ensures Addresses([TREE_NODE] + wait) && Addresses(wait)
  {
    hide Linked;
  }

  lemma WithoutCons(wait: seq<int>, k: int)
    requires 0 <= k < |wait|
    ensures Without([TREE_NODE] + wait, k + 1) == [TREE_NODE] + Without(wait, k)
  {
  }

  lemma UnlinkedWordsWait(m: Mem, cls: Classes, wait: seq<int>, k: int)
    requires WaitOk(m, cls, wait) && 0 <= k < |wait|
    ensures var m' := Unlinked(m, MAXTINY, [TREE_NODE] + wait, k + 1);
            && m' == m.(link := m'.link, left := m'.left, right := m'.right, seg := m'.seg)
            && (forall a :: a == NIL || (a != TREE_NODE && a !in wait) ==> SameWords(m, m', a))
            && m'.seg == m.seg
  {
    hide Linked;
    var l := [TREE_NODE] + wait;
    UnlinkedWords(m, MAXTINY, l, k + 1) by { WaitDistinct(m, cls, wait); }
    assert Nth(l, k + 2) == NIL || Nth(l, k + 2) in wait;
    assert Nth(l, k) == TREE_NODE || Nth(l, k) in wait;
  }

  lemma WaitRest(m: Mem, m': Mem, cls: Classes, wait: seq<int>, k: int)
    requires WaitOk(m, cls, wait) && 0 <= k < |wait| && m'.hdr == m.hdr
    requires Linked(m', MAXTINY, [TREE_NODE] + Without(wait, k))
    ensures WaitOk(m', cls, Without(wait, k))
  {
    hide Linked;
  }

  lemma WaitElement(m: Mem, cls: Classes, wait: seq<int>, k: int)
    requires WaitOk(m, cls, wait) && 0 <= k < |wait|
    ensures m.Right(wait[k]) == wait[k] && ([TREE_NODE] + wait)[k + 1] == wait[k]
  {
    assert LinkedAt(m, MAXTINY, [TREE_NODE] + wait, k + 1);
  }

  /** How the code tells list elements from tree nodes. */
  lemma IndexElement(m: Mem, cls: Classes, tree: Tree, root: int, tiny: seq<int>, s: int, k: int)
    requires IndexOk(m, cls, tree, root, tiny) && 0 <= k < |List(cls, s)|
    ensures var b := List(cls, s)[k];
            && m.Size(b) == s >= TINYSIZE && b > 0
            && (s != TINYSIZE ==> (m.Right(b) == b <==> s < MAXTINY || k > 0))
            && (s >= MAXTINY && k == 0 ==> b == HeadOf(cls, s))
            && Minus(List(cls, s), b) == Without(List(cls, s), k)
            && Linked(m, s, List(cls, s)) && Addresses(List(cls, s))
            && |tiny| == S_TINY
  {
    var l := List(cls, s);
    ListedDistinct(m, cls, s);
    DistinctMinus(l, k);
    assert Linked(m, s, l) && LinkedAt(m, s, l, k);
    if s >= MAXTINY && k == 0 {
      ListedIsSized(m, cls);
      NodeIsNoLink(m, cls, tree, root, s);
    }
  }

  lemma RemovedIndexed(m: Mem, m': Mem, cls: Classes, cls': Classes, wait: seq<int>, b: int)
    requires Listed(m, cls) && IndexWrites(m, m', cls, NIL)
    requires Indexed(m, cls, b) && b !in wait && cls' == cls[m.Size(b) := Minus(List(cls, m.Size(b)), b)]
    ensures Removed(m, m', cls, cls', wait, wait, b)
  {
    hide Minus;
    MinusIndexed(m, m', cls, b);
    forall a ensures a in List(cls', TINYSIZE) <==> a in List(cls, TINYSIZE) && a != b {
      TiniestIndexed(m, cls, a);
      TiniestIndexed(m', cls', a) by { MinusListed(m, m', cls, b); }
    }
  }

  lemma TiniestIndexed(m: Mem, cls: Classes, a: int)
    requires Listed(m, cls)
    ensures a in List(cls, TINYSIZE) <==> Indexed(m, cls, a) && m.Size(a) == TINYSIZE
  {
  }

  lemma MinusListed(m: Mem, m': Mem, cls: Classes, b: int)
    requires Listed(m, cls) && Indexed(m, cls, b) && m'.hdr == m.hdr
    ensures Listed(m', cls[m.Size(b) := Minus(List(cls, m.Size(b)), b)])
  {
    hide Minus;
    var s := m.Size(b);
    var k :| 0 <= k < |List(cls, s)| && List(cls, s)[k] == b;
    ListedDistinct(m, cls, s);
    DistinctMinus(List(cls, s), k);
    ListedWithout(m, cls, s, k);
    ListedHdr(m, m', cls[s := Without(List(cls, s), k)]);
  }

  // ---------- adding a free block ----------

  /** What adding block b writes, and what is held afterwards. */
  ghost predicate Added(m: Mem, m': Mem, cls: Classes, cls': Classes, wait: seq<int>, wait': seq<int>, b: int) {
    && m' == m.(link := m'.link, left := m'.left, right := m'.right, seg := m'.seg)
    && (forall a :: a == NIL || (a != LINK_NODE && a != TREE_NODE && a != b && !Held(m, cls, wait, a)) ==>
        SameWords(m, m', a))
    && (forall a :: m.Size(a) != TINYSIZE ==> m'.Seg(a) == m.Seg(a))
    && (forall a :: Held(m', cls', wait', a) <==> Held(m, cls, wait, a) || a == b)
    && (forall a :: a in List(cls, TINYSIZE) ==> a in List(cls', TINYSIZE))
  }

  lemma AddedIndexed(m: Mem, m': Mem, cls: Classes, cls': Classes, wait: seq<int>, s: int, j: int, b: int)
    requires IndexWrites(m, m', cls, b) && Listed(m, cls) && !Indexed(m, cls, b) && m.Size(b) == s
    requires 0 <= j <= |List(cls, s)| && cls' == cls[s := InsertAt(List(cls, s), j, b)]
    ensures Added(m, m', cls, cls', wait, wait, b)
    ensures forall a :: Indexed(m', cls', a) <==> Indexed(m, cls, a) || a == b
  {
    hide InsertAt;
    forall a ensures a in InsertAt(List(cls, s), j, b) <==> a in List(cls, s) || a == b {
      InsertHas(List(cls, s), j, b, a);
    }
    forall a ensures Indexed(m', cls', a) <==> Indexed(m, cls, a) || a == b {
    }
  }

  /** A new leaf, for a size that had no node. */
  lemma GrowIndex(m: Mem, m': Mem, cls: Classes, tree: Tree, root: int, tiny: seq<int>, b: int, root': int)
    requires IndexOk(m, cls, tree, root, tiny)
    requires b > 0 && m.Size(b) >= MAXTINY && !Indexed(m, cls, b) && m.Size(b) !in Keys(tree)
    requires m'.hdr == m.hdr && m'.link == m.link[b := NIL] && m'.seg == m.seg
    requires m'.Left(b) == NIL == m'.Right(b)
    requires tree == Leaf ==> root' == b && forall a :: a != b ==> m'.Left(a) == m.Left(a) && m'.Right(a) == m.Right(a)
    requires tree != Leaf ==>
               var k := m.Size(b); var e := EndOf(tree, k); var h := HeadOf(cls, e);
               && root' == root
               && (forall a :: a != b && a != h ==> m'.Left(a) == m.Left(a) && m'.Right(a) == m.Right(a))
               && m'.Left(h) == (if k < e then b else m.Left(h))
               && m'.Right(h) == (if k < e then m.Right(h) else b)
    ensures IndexOk(m', cls[m.Size(b) := [b]], Grown(tree, m.Size(b)), root', tiny)
  {
    hide Ordered, Linked, HeadsOk, Rep, Keys, Grown;
    var k := m.Size(b);
    var cls' := cls[k := [b]];
    GrowHeads(cls, tree, tiny, k, b);
    ListedGrow(m, m', cls, k, b);
    forall s ensures Linked(m', s, List(cls', s)) {
      GrowList(m, m', cls, tree, tiny, b, s);
    }
    ListedIsSized(m, cls);
    IndexReads(m, cls, tree, root, tiny);
    if tree == Leaf {
      GrowLeaf(m', cls', k, b);
    } else {
      GrowAt(m, m', cls, tree, root, k, b);
    }
  }

  lemma GrowLeaf(m: Mem, cls: Classes, k: int, b: int)
    requires List(cls, k) == [b] && b != NIL && m.Left(b) == NIL == m.Right(b)
    ensures Rep(m, cls, Grown(Leaf, k), b)
    ensures Ordered(Grown(Leaf, k))
  {
  }

  lemma GrowAt(m: Mem, m': Mem, cls: Classes, tree: Tree, root: int, k: int, b: int)
    requires tree.Node? && Ordered(tree) && k !in Keys(tree) && Rep(m, cls, tree, root)
    requires Sized(m, cls) && Positive(cls, Keys(tree)) && List(cls, k) == [] && b > 0 && m.Size(b) == k
    requires m'.Left(b) == NIL == m'.Right(b)
    requires var e := EndOf(tree, k); var h := HeadOf(cls, e);
             && (forall a :: a != b && a != h ==> m'.Left(a) == m.Left(a) && m'.Right(a) == m.Right(a))
             && m'.Left(h) == (if k < e then b else m.Left(h))
             && m'.Right(h) == (if k < e then m.Right(h) else b)
    ensures Rep(m', cls[k := [b]], Grown(tree, k), root) && Ordered(Grown(tree, k))
  {
    forall s | s in Keys(tree) ensures HeadOf(cls, s) != b {
      assert m.Size(HeadOf(cls, s)) == s;
    }
    GrowRep(m, m', cls, tree, root, k, b);
  }

  lemma GrowHeads(cls: Classes, tree: Tree, tiny: seq<int>, k: int, b: int)
    requires HeadsOk(cls, tree, tiny) && k >= MAXTINY && k !in Keys(tree)
    ensures List(cls, k) == []
    ensures HeadsOk(cls[k := [b]], Grown(tree, k), tiny)
  {
    var cls' := cls[k := [b]];
    assert forall s :: List(cls', s) == if s == k then [b] else List(cls, s);
  }

  lemma ListedGrow(m: Mem, m': Mem, cls: Classes, k: int, b: int)
    requires Listed(m, cls) && m'.hdr == m.hdr && m.Size(b) == k && b > 0
    ensures Listed(m', cls[k := [b]])
  {
    var cls' := cls[k := [b]];
    assert forall s :: List(cls', s) == if s == k then [b] else List(cls, s);
  }

  lemma GrowList(m: Mem, m': Mem, cls: Classes, tree: Tree, tiny: seq<int>, b: int, s: int)
    requires Listed(m, cls) && Linked(m, s, List(cls, s)) && HeadsOk(cls, tree, tiny) && !Indexed(m, cls, b)
    requires m.Size(b) >= MAXTINY && m'.link == m.link[b := NIL] && m'.seg == m.seg && m'.hdr == m.hdr
    requires tree == Leaf ==> forall a :: a != b ==> m'.Left(a) == m.Left(a) && m'.Right(a) == m.Right(a)
    requires tree != Leaf ==>
               var h := HeadOf(cls, EndOf(tree, m.Size(b)));
               forall a :: a != b && a != h ==> m'.Left(a) == m.Left(a) && m'.Right(a) == m.Right(a)
    ensures Linked(m', s, List(cls[m.Size(b) := [b]], s))
  {
    var k := m.Size(b);
    var l := List(cls, s);
    if s != k {
      assert List(cls[k := [b]], s) == l;
      TreeSizes(cls, tree, tiny);
      forall i | 0 <= i < |l| ensures LinkedAt(m', s, l, i) {
        assert LinkedAt(m, s, l, i) && m.Size(l[i]) == s;
        if tree != Leaf && (s < MAXTINY || i > 0) {
          var e := EndOf(tree, k);
          assert e in Keys(tree) && HeadOf(cls, e) == List(cls, e)[0] && m.Size(HeadOf(cls, e)) == e;
        }
      }
    }
  }

  lemma TinyHead(m: Mem, cls: Classes, tree: Tree, root: int, tiny: seq<int>, s: int)
    requires IndexOk(m, cls, tree, root, tiny) && TINYSIZE <= s < MAXTINY
    ensures |tiny| == S_TINY && tiny[s - 1] == Nth(List(cls, s), 0)
  {
  }

  /** Inserted, spelled out for the front of a list and for the place behind its head. */
  lemma InsertedFront(m: Mem, s: int, l: seq<int>, b: int)
    requires b != NIL
    ensures var n := Nth(l, 0);
            Inserted(m, s, l, 0, b) ==
            Mem(m.hdr,
                m.link[b := n],
                if s == TINYSIZE then m.left else (if n != NIL then m.left[n := b] else m.left)[b := NIL],
                if s == TINYSIZE then m.right else m.right[b := b],
                if s == TINYSIZE then (if n != NIL then m.seg[n := b] else m.seg)[b := NIL] else m.seg,
                m.self)
  {
  }

  lemma InsertedBehind(m: Mem, s: int, l: seq<int>, b: int)
    requires |l| > 0 && l[0] != NIL && s != TINYSIZE
    ensures var n := Nth(l, 1);
            Inserted(m, s, l, 1, b) ==
            Mem(m.hdr,
                m.link[b := n][l[0] := b],
                (if n != NIL then m.left[n := b] else m.left)[b := l[0]],
                m.right[b := b],
                m.seg,
                m.self)
  {
  }

  lemma InsertWaiting(m: Mem, cls: Classes, tree: Tree, root: int, tiny: seq<int>, wait: seq<int>, b: int)
    requires IndexOk(m, cls, tree, root, tiny) && WaitOk(m, cls, wait)
    requires b > 0 && !Held(m, cls, wait, b) && m.Size(b) >= MAXTINY
    ensures m.Link(TREE_NODE) == Nth(wait, 0)
    ensures var m' := Inserted(m, MAXTINY, [TREE_NODE] + wait, 1, b);
            && IndexOk(m', cls, tree, root, tiny) && WaitOk(m', cls, [b] + wait)
            && Added(m, m', cls, cls, wait, [b] + wait, b)
  {
    hide Linked, IndexOk, Inserted, InsertAt, Addresses, SameWords, Added;
    var l := [TREE_NODE] + wait;
    var m' := Inserted(m, MAXTINY, l, 1, b);
    WaitFirst(m, cls, wait);
    WaitDistinct(m, cls, wait);
    WaitIsNew(m, cls, wait);
    InsertList(m, MAXTINY, l, 1, b);
    InsertedWords(m, MAXTINY, l, 1, b);
    InsertWaitingCons(wait, b);
    assert Nth(l, 1) == NIL || Nth(l, 1) in wait;
    IndexListed(m, cls, tree, root, tiny);
    IndexFrame(m, m', cls, tree, root, tiny);
    WaitMore(m, m', cls, wait, b);
    InsertWaitingWrites(m, m', cls, wait, b);
  }

  lemma WaitMore(m: Mem, m': Mem, cls: Classes, wait: seq<int>, b: int)
    requires WaitOk(m, cls, wait) && m'.hdr == m.hdr
    requires b > 0 && !Held(m, cls, wait, b) && m.Size(b) >= MAXTINY
    requires Linked(m', MAXTINY, [TREE_NODE] + ([b] + wait))
    ensures WaitOk(m', cls, [b] + wait)
  {
    hide Linked;
  }

  lemma InsertWaitingWrites(m: Mem, m': Mem, cls: Classes, wait: seq<int>, b: int)
    requires m' == m.(link := m'.link, left := m'.left, right := m'.right, seg := m'.seg) && m'.seg == m.seg
    requires forall a :: a == NIL || (a != b && a != TREE_NODE && a !in wait) ==> SameWords(m, m', a)
    ensures Added(m, m', cls, cls, wait, [b] + wait, b)
  {
    hide SameWords;
  }

  lemma WaitFirst(m: Mem, cls: Classes, wait: seq<int>)
    requires WaitOk(m, cls, wait)
    ensures m.Link(TREE_NODE) == Nth(wait, 0)
  {
    assert LinkedAt(m, MAXTINY, [TREE_NODE] + wait, 0);
  }

  lemma InsertWaitingCons(wait: seq<int>, b: int)
    ensures InsertAt([TREE_NODE] + wait, 1, b) == [TREE_NODE] + ([b] + wait)
  {
  }

  /** The search for the place of a new leaf goes down to EndOf. */
  lemma EndOfStep(t: Tree, u: Tree, k: int)
    requires u.Node? && t.Node? && EndOf(t, k) == EndOf(u, k)
    ensures k < u.key && u.l.Node? ==> EndOf(t, k) == EndOf(u.l, k)
    ensures u.key < k && u.r.Node? ==> EndOf(t, k) == EndOf(u.r, k)
    ensures (k < u.key && u.l == Leaf) || (u.key < k && u.r == Leaf) || k == u.key ==> EndOf(t, k) == u.key
  {
  }

  lemma {:induction false} EndOfIs(t: Tree, k: int)
    requires t.Node? && Ordered(t)
    ensures k in Keys(t) <==> EndOf(t, k) == k
  {
    if k < t.key && t.l.Node? { EndOfIs(t.l, k); }
    else if t.key < k && t.r.Node? { EndOfIs(t.r, k); }
  }

  /** What the code reads at a tree node. */
  lemma NodeReads(m: Mem, cls: Classes, t: Tree, p: int)
    requires t.Node? && Rep(m, cls, t, p) && Sized(m, cls)
    ensures p != NIL && p == HeadOf(cls, t.key) && m.Size(p) == t.key
    ensures Rep(m, cls, t.l, m.Left(p)) && Rep(m, cls, t.r, m.Right(p))
    ensures m.Left(p) == NIL <==> t.l == Leaf
    ensures m.Right(p) == NIL <==> t.r == Leaf
  {
  }

  lemma ClearedWords(m: Mem, m': Mem, cls: Classes, tree: Tree, root: int, tiny: seq<int>, b: int)
    requires IndexOk(m, cls, tree, root, tiny) && !Indexed(m, cls, b)
    requires m'.hdr == m.hdr && forall a :: a != b ==> SameWords(m, m', a)
    ensures Rep(m', cls, tree, root) && Sized(m', cls) && Sized(m, cls)
    ensures Ordered(tree)
  {
    hide Linked, HeadsOk;
    IndexFrame(m, m', cls, tree, root, tiny);
    ListedIsSized(m', cls);
    ListedIsSized(m, cls);
  }

  /** A new leaf changes the words of b and of one tree node. */
  lemma GrowWrites(m: Mem, m': Mem, cls: Classes, tree: Tree, tiny: seq<int>, b: int, h: int)
    requires Listed(m, cls) && m'.hdr == m.hdr && m'.self == m.self && m'.seg == m.seg
    requires b > 0 && !Indexed(m, cls, b) && List(cls, m.Size(b)) == []
    requires h == b || Indexed(m, cls, h)
    requires forall a :: a == NIL || (a != b && a != h) ==> SameWords(m, m', a)
    ensures IndexWrites(m, m', cls, b)
    ensures forall a :: Indexed(m', cls[m.Size(b) := [b]], a) <==> Indexed(m, cls, a) || a == b
  {
  }

  lemma TreeLists(cls: Classes, tree: Tree, tiny: seq<int>)
    requires HeadsOk(cls, tree, tiny)
    ensures forall s :: s in Keys(tree) <==> s >= MAXTINY && List(cls, s) != []
  {
  }

  lemma LeafKeys(t: Tree)
    requires t == Leaf
    ensures Keys(t) == {}
  {
  }

  lemma HeadIndexed(m: Mem, cls: Classes, tree: Tree, s: int, tiny: seq<int>)
    requires Listed(m, cls) && HeadsOk(cls, tree, tiny) && s in Keys(tree)
    ensures List(cls, s) != [] && Indexed(m, cls, HeadOf(cls, s)) && HeadOf(cls, s) == List(cls, s)[0] != NIL
    ensures |tiny| == S_TINY
  {
  }

  /** The block goes behind the tree node of its size. */
  lemma AddToNode(m: Mem, m': Mem, cls: Classes, tree: Tree, root: int, tiny: seq<int>, b: int)
    requires IndexOk(m, cls, tree, root, tiny) && b > 0 && !Indexed(m, cls, b)
    requires var k := m.Size(b);
             && k >= MAXTINY && k in Keys(tree)
             && var n, h := Nth(List(cls, k), 1), HeadOf(cls, k);
             m' == Mem(m.hdr, m.link[b := n][h := b], (if n != NIL then m.left[n := b] else m.left)[b := h],
                       m.right[b := b], m.seg, m.self)
    ensures var k := m.Size(b);
            && List(cls, k) != []
            && var cls' := cls[k := InsertAt(List(cls, k), 1, b)];
            && IndexOk(m', cls', tree, root, tiny)
            && IndexWrites(m, m', cls, b)
            && (forall a :: Indexed(m', cls', a) <==> Indexed(m, cls, a) || a == b)
  {
    hide Linked, Inserted, Listed, InsertAt, Keys, HeadsOk, IndexWrites, Rep, Ordered, ListsLinked, Indexed;
    var k := m.Size(b);
    HeadIndexed(m, cls, tree, k, tiny);
    InsertIndex(m, cls, tree, root, tiny, k, b);
    InsertedBehind(m, k, List(cls, k), b);
    AddedIndexed(m, m', cls, cls[k := InsertAt(List(cls, k), 1, b)], [], k, 1, b);
  }

  /** The block becomes a leaf under node n. */
  lemma AddLeaf(m: Mem, m': Mem, cls: Classes, tree: Tree, root: int, tiny: seq<int>, b: int, n: int)
    requires IndexOk(m, cls, tree, root, tiny) && b > 0 && !Indexed(m, cls, b) && tree.Node?
    requires m.Size(b) >= MAXTINY && EndOf(tree, m.Size(b)) != m.Size(b) && n == HeadOf(cls, EndOf(tree, m.Size(b)))
    requires var less := m.Size(b) < EndOf(tree, m.Size(b));
             m' == Mem(m.hdr, m.link[b := NIL],
                       if less then m.left[b := NIL][n := b] else m.left[b := NIL],
                       if less then m.right[b := NIL] else m.right[b := NIL][n := b],
                       m.seg, m.self)
    ensures var k := m.Size(b); var cls' := cls[k := [b]];
            && IndexOk(m', cls', Grown(tree, k), root, tiny)
            && IndexWrites(m, m', cls, b)
            && (forall a :: Indexed(m', cls', a) <==> Indexed(m, cls, a) || a == b)
  {
    hide Linked, Listed, Keys, HeadsOk, IndexWrites, Rep, Ordered, ListsLinked, Indexed, Grown, EndOf;
    var k := m.Size(b);
    EndOfIs(tree, k);
    HeadIndexed(m, cls, tree, EndOf(tree, k), tiny);
    TreeLists(cls, tree, tiny);
    GrowIndex(m, m', cls, tree, root, tiny, b, root);
    GrowWrites(m, m', cls, tree, tiny, b, n);
  }

  /** The writes that put b behind the tree node n, in the order of the source. */
  lemma JoinedAre(m: Mem, n: int, t: int, b: int)
    requires n != b
    ensures var m1 := m.(left := m.left[b := NIL], right := m.right[b := NIL], link := m.link[b := NIL]);
            var m2 := if t != NIL then WithLeft(WithLink(m1, b, t), t, b) else m1;
            WithRight(WithLeft(WithLink(m2, n, b), b, n), b, b) ==
            Mem(m.hdr, m.link[b := t][n := b], (if t != NIL then m.left[t := b] else m.left)[b := n],
                m.right[b := b], m.seg, m.self)
  {
    assert m.right[b := NIL][b := b] == m.right[b := b];
    assert m.link[b := NIL][b := t] == m.link[b := t];
    assert m.left[b := NIL][t := b][b := n] == m.left[t := b][b := n];
    assert m.left[b := NIL][b := n] == m.left[b := n];
  }

  lemma NodeLink(m: Mem, cls: Classes, tree: Tree, root: int, tiny: seq<int>, k: int, b: int)
    requires IndexOk(m, cls, tree, root, tiny) && tree.Node? && EndOf(tree, k) == k && !Indexed(m, cls, b)
    ensures k in Keys(tree) && k >= MAXTINY
    ensures m.Link(HeadOf(cls, k)) == Nth(List(cls, k), 1) && HeadOf(cls, k) != b
  {
    hide EndOf;
    EndOfIs(tree, k);
    IndexReads(m, cls, tree, root, tiny);
    HeadIndexed(m, cls, tree, k, tiny);
  }

  /** The block becomes the only node. */
  lemma AddFirst(m: Mem, m': Mem, cls: Classes, tree: Tree, tiny: seq<int>, b: int)
    requires IndexOk(m, cls, tree, NIL, tiny) && b > 0 && !Indexed(m, cls, b) && m.Size(b) >= MAXTINY
    requires m' == Mem(m.hdr, m.link[b := NIL], m.left[b := NIL], m.right[b := NIL], m.seg, m.self)
    ensures var k := m.Size(b); var cls' := cls[k := [b]];
            && IndexOk(m', cls', Grown(tree, k), b, tiny)
            && IndexWrites(m, m', cls, b)
            && (forall a :: Indexed(m', cls', a) <==> Indexed(m, cls, a) || a == b)
  {
    hide Linked, Listed, Keys, HeadsOk, IndexWrites, Rep, Ordered, ListsLinked, Indexed, Grown, EndOf;
    RootNil(m, cls, tree, NIL);
    LeafKeys(tree);
    TreeLists(cls, tree, tiny);
    GrowIndex(m, m', cls, tree, NIL, tiny, b, b);
    GrowWrites(m, m', cls, tree, tiny, b, b);
  }
}
