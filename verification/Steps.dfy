/** What the elementary steps of the allocator do to the arena. */
module Steps {
  import opened Seqs
  import opened VmMemory
  import opened FreeTree
  import opened Extract
  import opened Index
  import opened Arena

  function WithHead(m: Mem, b: int, h: Header): Mem { m.(hdr := m.hdr[b := h]) }
  function WithSelf(m: Mem, a: int, v: int): Mem { m.(self := m.self[a := v]) }

  /** A free header of the given size. */
  function Free(size: nat): Header { Header(size, false, false, false) }

  // ---------- header writes away from the index ----------

  /** Headers differ at most at x and y. */
  ghost predicate HeadsAt(m: Mem, m': Mem, x: int, y: int) {
    && m' == m.(hdr := m'.hdr, self := m'.self)
    && forall a :: a != x && a != y ==> m'.Head(a) == m.Head(a)
  }

  lemma ListedHeads(m: Mem, m': Mem, cls: Classes, x: int, y: int)
    requires Listed(m, cls) && HeadsAt(m, m', x, y)
    requires !Indexed(m, cls, x) && !Indexed(m, cls, y)
    ensures Listed(m', cls)
    ensures forall b :: Indexed(m', cls, b) <==> Indexed(m, cls, b)
  {
  }

  /** Writing the headers of blocks that the index does not hold leaves the index intact. */
  lemma IndexHeads(m: Mem, m': Mem, cls: Classes, tree: Tree, root: int, tiny: seq<int>, wait: seq<int>, x: int, y: int)
    requires IndexOk(m, cls, tree, root, tiny) && WaitOk(m, cls, wait)
    requires HeadsAt(m, m', x, y)
    requires !Held(m, cls, wait, x) && !Held(m, cls, wait, y)
    ensures IndexOk(m', cls, tree, root, tiny) && WaitOk(m', cls, wait)
    ensures forall b :: Held(m', cls, wait, b) <==> Held(m, cls, wait, b)
  {
    hide HeadsOk, Ordered, Linked, Listed, Addresses, Indexed, Rep;
    ListedHeads(m, m', cls, x, y);
    forall s ensures Linked(m', s, List(cls, s)) { LinkedHdr(m, m', s, List(cls, s)); }
    LinkedHdr(m, m', MAXTINY, [TREE_NODE] + wait);
    RepHdr(m, m', cls, tree, root);
  }

  lemma LinkedHdr(m: Mem, m': Mem, s: int, l: seq<int>)
    requires Linked(m, s, l) && m' == m.(hdr := m'.hdr, self := m'.self)
    ensures Linked(m', s, l)
  {
    LinkedFrame(m, m', s, l);
  }

  lemma RepHdr(m: Mem, m': Mem, cls: Classes, t: Tree, p: int)
    requires Rep(m, cls, t, p) && m' == m.(hdr := m'.hdr, self := m'.self)
    ensures Rep(m', cls, t, p)
  {
  }

  // ---------- merging ----------

  /** The successor of f is neither the first nor the last header of its segment. */
  lemma InnerBlock(m: Mem, B: set<int>, segs: seq<Segment>, f: int, i: int)
    requires Tiled(m, B, segs) && f in B && m.Size(f) > 0 && m.Size(m.Next(f)) > 0 && 0 <= i < |segs|
    ensures First(segs[i]) != m.Next(f) && segs[i].end != m.Next(f)
  {
    NextSeg(m, B, segs, f);
    assert Inside(m, segs, f) && Inside(m, segs, m.Next(f));
    if segs[i].at < m.Next(f) <= segs[i].end { SegIxIs(segs, m.Next(f), i); }
  }

  lemma AbsorbTiled(m: Mem, m': Mem, B: set<int>, segs: seq<Segment>, f: int, n: int)
    requires Tiled(m, B, segs) && f in B && m.Size(f) > 0 && n == m.Next(f) && m.Size(n) > 0
    requires m'.Size(f) == m.Size(f) + 1 + m.Size(n)
    requires forall b :: b in B && b != f && b != n ==> m'.Size(b) == m.Size(b)
    ensures Tiled(m', B - {n}, segs)
  {
    hide SegIx, SegsOk, Closed, Apart;
    AbsorbApart(m, m', B, segs, f, n);
    forall i | 0 <= i < |segs| ensures First(segs[i]) in B - {n} && segs[i].end in B - {n} {
      InnerBlock(m, B, segs, f, i);
    }
    forall b | b in B - {n} ensures Inside(m', segs, b) {
      assert Inside(m, segs, b);
    }
  }

  lemma AbsorbApart(m: Mem, m': Mem, B: set<int>, segs: seq<Segment>, f: int, n: int)
    requires Tiled(m, B, segs) && f in B && m.Size(f) > 0 && n == m.Next(f) && m.Size(n) > 0
    requires m'.Size(f) == m.Size(f) + 1 + m.Size(n)
    requires forall b :: b in B && b != f && b != n ==> m'.Size(b) == m.Size(b)
    ensures Closed(m', B - {n}) && Apart(m', B - {n})
  {
    hide SegIx, SegsOk, EndsIn, AllInside;
    AbsorbNext(m, m', B, segs, f, n);
    forall b, x | b in B - {n} && x in B - {n} && b < x ensures m'.Next(b) <= x {
      assert m.Next(b) <= x && (b == f && n < x ==> m.Next(n) <= x);
    }
  }

  lemma AbsorbNext(m: Mem, m': Mem, B: set<int>, segs: seq<Segment>, f: int, n: int)
    requires Tiled(m, B, segs) && f in B && m.Size(f) > 0 && n == m.Next(f) && m.Size(n) > 0
    requires m'.Size(f) == m.Size(f) + 1 + m.Size(n)
    requires forall b :: b in B && b != f && b != n ==> m'.Size(b) == m.Size(b)
    ensures m'.Next(f) == m.Next(n)
    ensures forall b {:trigger m'.Next(b)} :: b in B - {n} && b != f ==> m'.Next(b) == m.Next(b) != n
  {
    hide SegIx, SegsOk;
    forall b | b in B - {n} && b != f ensures m'.Next(b) == m.Next(b) != n {
      if m.Next(b) == n { NextUnique(m, B, segs, b, f); }
    }
  }

  lemma AbsorbBits(m: Mem, m': Mem, B: set<int>, L: set<int>, segs: seq<Segment>, f: int, n: int)
    requires Tiled(m, B, segs) && Bits(m, B, L, segs)
    requires f in L && m.Size(f) > 0 && n == m.Next(f) && m.Size(n) > 0
    requires m'.Head(f) == Free(m.Size(f) + 1 + m.Size(n)) && m'.self == m.self
    requires forall b :: b in B && b != f && b != n ==> m'.Head(b) == m.Head(b)
    ensures Bits(m', B - {n}, L - {n}, segs)
  {
    hide SegIx, SegsOk, AllInside, Apart;
    AbsorbNext(m, m', B, segs, f, n);
    forall i | 0 <= i < |segs| ensures !m'.Head(First(segs[i])).pfree {
      InnerBlock(m, B, segs, f, i);
    }
    assert !m.Head(f).busy && !m.Head(f).pfree;
  }

  /** A junk block not preceded by a free one becomes a block in transit. */
  lemma JunkBits(m: Mem, m': Mem, B: set<int>, L: set<int>, segs: seq<Segment>, b: int)
    requires Bits(m, B, L, segs) && b in B && m.Head(b).junk && !m.Head(b).pfree
    requires m'.Head(b) == Free(m.Size(b)) && m'.self == m.self
    requires forall x :: x in B && x != b ==> m'.Head(x) == m.Head(x)
    requires EndsIn(B, segs) && Closed(m, B)
    ensures Bits(m', B, L + {b}, segs)
  {
    assert forall x {:trigger m'.Next(x)} :: x in B ==> m'.Next(x) == m.Next(x);
  }

  lemma SameSizesTiled(m: Mem, m': Mem, B: set<int>, segs: seq<Segment>)
    requires Tiled(m, B, segs)
    requires forall b :: b in B ==> m'.Size(b) == m.Size(b)
    ensures Tiled(m', B, segs)
  {
    hide SegIx, SegsOk;
    forall b | b in B ensures Inside(m', segs, b) && m'.Next(b) == m.Next(b) {
      assert Inside(m, segs, b);
    }
    assert Closed(m', B);
  }

  /** A merged block is announced to its busy successor: PFREE is set and SELF written. */
  lemma ReleaseBits(m: Mem, m': Mem, B: set<int>, L: set<int>, segs: seq<Segment>, f: int)
    requires Tiled(m, B, segs) && Bits(m, B, L, segs) && f in L && m.Size(f) > 0
    requires var n := m.Next(f);
             && m.Head(n).busy && m'.Head(n) == m.Head(n).(pfree := true)
             && m'.Last(n) == f
             && (forall x :: x != n ==> m'.Head(x) == m.Head(x) && m'.Last(x) == m.Last(x))
    ensures Bits(m', B, L - {f}, segs)
  {
    hide SegIx, SegsOk, AllInside, Apart;
    var n := m.Next(f);
    forall i | 0 <= i < |segs| ensures !m'.Head(First(segs[i])).pfree {
      NotFirst(m, B, segs, f, i);
    }
    forall b | b in B && b != f ensures m.Next(b) != n {
      if m.Next(b) == n { NextUnique(m, B, segs, b, f); }
    }
    assert forall b :: m'.Next(b) == m.Next(b);
  }

  /** A successor is never the first block of a segment. */
  lemma NotFirst(m: Mem, B: set<int>, segs: seq<Segment>, f: int, i: int)
    requires Tiled(m, B, segs) && f in B && m.Size(f) > 0 && 0 <= i < |segs|
    ensures First(segs[i]) != m.Next(f)
  {
    NextSeg(m, B, segs, f);
    assert Inside(m, segs, f);
    if First(segs[i]) == m.Next(f) {
      assert Inside(m, segs, m.Next(f));
      SegIxIs(segs, m.Next(f), i);
    }
  }

  /** A block in transit becomes live: BUSY is set, and PFREE cleared in its successor. */
  lemma CommitBits(m: Mem, m': Mem, B: set<int>, L: set<int>, segs: seq<Segment>, f: int)
    requires Tiled(m, B, segs) && Bits(m, B, L, segs) && f in L && m.Size(f) > 0 && m.Head(m.Next(f)).busy
    requires var n := m.Next(f);
             && m'.Head(f) == m.Head(f).(busy := true)
             && m'.Head(n) == m.Head(n).(pfree := false)
             && m'.self == m.self
             && (forall x :: x != n && x != f ==> m'.Head(x) == m.Head(x))
    ensures Bits(m', B, L - {f}, segs)
  {
    hide SegIx, SegsOk, AllInside, Apart;
    var n := m.Next(f);
    forall b | b in B && b != f ensures m.Next(b) != n {
      if m.Next(b) == n { NextUnique(m, B, segs, b, f); }
    }
    assert forall b :: m'.Next(b) == m.Next(b);
  }

  // ---------- where blocks are ----------

  lemma AbsorbJunk(m: Mem, m': Mem, B: set<int>, last: int, cl: seq<seq<int>>, c: int, c': int, f: int, n: int)
    requires JunkAt(m, B, last, cl, c) && c' <= c && n in B && n != last && f != n
    requires Unlisted(cl, n) || (m.Size(n) > 0 && !m'.Head(n).junk && c' <= CIndex(m.Size(n)))
    requires f in B && !m.Head(f).junk && !m'.Head(f).junk
    requires forall b :: b != f && b != n ==> m'.Head(b) == m.Head(b)
    ensures JunkAt(m', B - {n}, last, cl, c')
  {
  }

  ghost predicate Unlisted(cl: seq<seq<int>>, b: int) {
    forall k :: 0 <= k < |cl| ==> b !in cl[k]
  }

  /** The lists with one entry gone: the head of list n has been taken off. */
  function Popped(cl: seq<seq<int>>, n: int): seq<seq<int>>
    requires 0 <= n < |cl| && cl[n] != []
  {
    cl[n := cl[n][1..]]
  }

  lemma PopUnlisted(cl: seq<seq<int>>, n: int)
    requires Separate(cl) && 0 <= n <= S_CACHE && cl[n] != []
    ensures Separate(Popped(cl, n)) && Unlisted(Popped(cl, n), cl[n][0])
  {
  }

  /** Taking an entry off its list: what is left satisfies everything but the rule that junk is listed. */
  lemma PopJunk(m: Mem, m': Mem, B: set<int>, last: int, cl: seq<seq<int>>, c: int, n: int)
    requires JunkAt(m, B, last, cl, c) && 0 <= n <= S_CACHE && cl[n] != []
    requires !m'.Head(cl[n][0]).junk || cl[n][0] !in B
    requires forall b :: b != cl[n][0] ==> m'.Head(b) == m.Head(b)
    ensures JunkAt(m', B, last, Popped(cl, n), c)
  {
  }
}
