/** Taking blocks into use, cutting them up, and making them grow. */
module Carve {
  import opened VmMemory
  import opened FreeTree
  import opened Extract
  import opened Index
  import opened Arena
  import opened Steps
  import opened ArenaSound
  import opened Delayed

  // ---------- the client's view ----------

  /** The blocks in use, with their sizes. */
  ghost function InUse(s: State): map<int, nat> {
    map b | b in s.B && Live(s.m, b) && s.m.Size(b) > 0 :: s.m.Size(b)
  }

  /** The allocator has written to no word of any block in use, except perhaps of x. */
  ghost predicate Untouched(s: State, s': State, x: int) {
    forall b {:trigger Kept(s.m, s'.m, b)} :: b in InUse(s) && (x == NIL || b != x) ==> Kept(s.m, s'.m, b)
  }

  lemma UntouchedTrans(s: State, s': State, s'': State, x: int)
    requires Untouched(s, s', x) && Untouched(s', s'', x)
    requires forall b :: b in InUse(s) && (x == NIL || b != x) ==> b in InUse(s') && InUse(s')[b] == InUse(s)[b]
    ensures Untouched(s, s'', x)
  {
    hide InUse;
    forall b | b in InUse(s) && (x == NIL || b != x) ensures Kept(s.m, s''.m, b) {
      assert Kept(s.m, s'.m, b) && Kept(s'.m, s''.m, b);
      UseSize(s, b);
      UseSize(s', b);
    }
  }

  lemma UseSize(s: State, b: int)
    requires b in InUse(s)
    ensures InUse(s)[b] == s.m.Size(b) && b in s.B && Live(s.m, b) && s.m.Size(b) > 0
  {
  }

  lemma UntouchedSame(s: State, s': State, x: int)
    requires s'.m == s.m.(hdr := s'.m.hdr)
    ensures Untouched(s, s', x)
  {
  }

  /** Blocks in use lie inside segments and do not overlap, headers included. */
  lemma InUseApart(s: State, L: set<int>, c: int, b: int)
    requires Sound(s, L, c) && b in InUse(s)
    ensures exists i :: 0 <= i < |s.segs| && First(s.segs[i]) <= b && b + InUse(s)[b] < s.segs[i].end
    ensures forall x :: x in InUse(s) && x != b ==> x + InUse(s)[x] < b || b + InUse(s)[b] < x
  {
    hide IndexOk, WaitOk, SegWords, FreeAt, JunkAt, Chains, Bits, SegIx, SegsOk;
    NextSeg(s.m, s.B, s.segs, b);
    NextIn(s.m, s.B, s.segs, b);
    assert Inside(s.m, s.segs, b) && Inside(s.m, s.segs, s.m.Next(b));
    forall x | x in InUse(s) && x != b ensures x + InUse(s)[x] < b || b + InUse(s)[b] < x {
      assert (x < b ==> s.m.Next(x) <= b) && (b < x ==> s.m.Next(b) <= x);
    }
  }

  // ---------- committing a block in transit ----------

  function Committed(m: Mem, f: int): Mem {
    var n := m.Next(f);
    WithHead(WithHead(m, n, m.Head(n).(pfree := false)), f, m.Head(f).(busy := true))
  }

  lemma CommittedHeads(m: Mem, f: int)
    requires m.Size(f) > 0
    ensures var n, m' := m.Next(f), Committed(m, f);
            && HeadsAt(m, m', f, n) && m'.self == m.self
            && m'.Head(f) == m.Head(f).(busy := true) && m'.Head(n) == m.Head(n).(pfree := false)
            && (forall x :: x != n && x != f ==> m'.Head(x) == m.Head(x))
            && (forall x :: m'.Size(x) == m.Size(x)) && m'.Next(f) == n
  {
  }

  /** A block in transit, its successor being busy, becomes live. */
  lemma Commit(s: State, L: set<int>, c: int, f: int)
    requires Sound(s, L, c) && f in L && s.m.Size(f) > 0 && s.m.Head(s.m.Next(f)).busy
    ensures var s' := s.(m := Committed(s.m, f));
            && Sound(s', L - {f}, c) && f in s'.B && Live(s'.m, f) && s'.m.Size(f) == s.m.Size(f)
            && f !in InUse(s) && InUse(s') == InUse(s)[f := s.m.Size(f)] && Untouched(s, s', NIL)
  {
    hide IndexOk, WaitOk, Tiled, Bits, SegWords, FreeAt, JunkAt, Chains, Held, Committed, Untouched;
    var n, m' := s.m.Next(f), Committed(s.m, f);
    CommittedHeads(s.m, f);
    InTransit(s, L, f);
    NextIn(s.m, s.B, s.segs, f);
    BusyNotHeld(s, L, n);
    NotHeld(s, L, f);
    IndexHeads(s.m, m', s.cls, s.tree, s.root, s.tiny, s.wait, f, n);
    SameSizesTiled(s.m, m', s.B, s.segs);
    CommitBits(s.m, m', s.B, L, s.segs, f);
    SegWordsSame(s, m');
    assert FreeAt(m', s.B, L - {f}, s.segs, s.cls, s.wait, s.wild) by { CommitFreeAt(s, m', L, f, n); }
    CommitJunk(s.m, m', s.B, s.last, s.cl, c);
    ChainsFrame(s.m, m', s.cl);
    UntouchedSame(s, s.(m := m'), NIL);
  }

  lemma CommitFreeAt(s: State, m': Mem, L: set<int>, f: int, n: int)
    requires FreeAt(s.m, s.B, L, s.segs, s.cls, s.wait, s.wild) && f in L
    requires m'.Head(f).busy && m'.Head(n).busy == s.m.Head(n).busy &&
             forall x :: x != n && x != f ==> m'.Head(x) == s.m.Head(x)
    requires forall x :: m'.Size(x) == s.m.Size(x)
    requires forall x :: Held(m', s.cls, s.wait, x) <==> Held(s.m, s.cls, s.wait, x)
    ensures FreeAt(m', s.B, L - {f}, s.segs, s.cls, s.wait, s.wild)
  {
    assert forall x {:trigger m'.Next(x)} :: m'.Next(x) == s.m.Next(x);
  }

  lemma CommitJunk(m: Mem, m': Mem, B: set<int>, last: int, cl: seq<seq<int>>, c: int)
    requires JunkAt(m, B, last, cl, c)
    requires forall b :: m'.Head(b).junk == m.Head(b).junk && m'.Size(b) == m.Size(b)
    ensures JunkAt(m', B, last, cl, c)
  {
  }

  // ---------- cutting a live block in two ----------

  /** Block b keeps `size` units; the rest becomes a junk block. */
  function Cut(m: Mem, b: int, size: nat): Mem {
    var np, rest := b + 1 + size, m.Size(b) - size - 1;
    if rest < 0 then m else
    Mem(m.hdr[b := m.Head(b).(size := size)][np := Header(rest, true, false, true)],
        m.link, m.left, m.right, m.seg[np := m.Seg(b)], m.self)
  }

  lemma CutHeads(m: Mem, b: int, size: nat)
    requires size + 2 <= m.Size(b)
    ensures var np, m' := b + 1 + size, Cut(m, b, size);
            && m' == m.(hdr := m'.hdr, seg := m'.seg)
            && m'.Head(b) == m.Head(b).(size := size) && m'.Head(np) == Header(m.Size(b) - size - 1, true, false, true)
            && (forall x :: x != np && x != b ==> m'.Head(x) == m.Head(x))
            && m'.Next(b) == np && m'.Next(np) == m.Next(b)
            && (forall x :: x != np ==> m'.Seg(x) == m.Seg(x)) && m'.Seg(np) == m.Seg(b)
  {
  }

  lemma CutTiled(m: Mem, m': Mem, B: set<int>, segs: seq<Segment>, b: int, np: int)
    requires Tiled(m, B, segs) && b in B && 0 < m'.Size(b) && m'.Size(np) > 0 && m'.Next(b) == np &&
             m'.Next(np) == m.Next(b)
    requires forall x :: x != np && x != b ==> m'.Head(x) == m.Head(x)
    ensures Tiled(m', B + {np}, segs) && np !in B && SegIx(segs, np) == SegIx(segs, b)
  {
    hide SegIx;
    assert Inside(m, segs, b);
    var i := SegIx(segs, b);
    assert m.Next(b) <= segs[i].end by { NextSeg(m, B, segs, b); assert Inside(m, segs, m.Next(b)); }
    SegIxIs(segs, np, i);
    hide SegsOk;
    assert np !in B;
    assert AllInside(m', B + {np}, segs) by { CutInside(m, m', B, segs, b, np); }
    assert Closed(m', B + {np}) && Apart(m', B + {np}) by { CutApart(m, m', B, b, np); }
  }

  lemma CutInside(m: Mem, m': Mem, B: set<int>, segs: seq<Segment>, b: int, np: int)
    requires AllInside(m, B, segs) && b in B && m.Size(b) > 0 && 0 < m'.Size(b) && m'.Size(np) > 0
    requires SegIx(segs, np) == SegIx(segs, b) < |segs| && b < np < segs[SegIx(segs, b)].end
    requires forall x :: x != np && x != b ==> m'.Head(x) == m.Head(x)
    ensures AllInside(m', B + {np}, segs)
  {
    hide SegIx;
    forall x | x in B + {np} ensures Inside(m', segs, x) {
      assert x in B ==> Inside(m, segs, x);
      assert Inside(m, segs, b);
    }
  }

  lemma CutApart(m: Mem, m': Mem, B: set<int>, b: int, np: int)
    requires Closed(m, B) && Apart(m, B) && b in B && m.Size(b) > 0 && np !in B
    requires 0 < m'.Size(b) && m'.Size(np) > 0 && m'.Next(b) == np && m'.Next(np) == m.Next(b)
    requires forall x :: x != np && x != b ==> m'.Head(x) == m.Head(x)
    ensures Closed(m', B + {np}) && Apart(m', B + {np})
  {
    assert forall x {:trigger m'.Next(x)} :: x in B && x != b ==> m'.Next(x) == m.Next(x);
    forall x, y | x in B + {np} && y in B + {np} && x < y ensures m'.Next(x) <= y {
      assert x in B && y in B ==> m.Next(x) <= y;
      assert x in B && x < b ==> m.Next(x) <= b;
      assert y in B && b < y ==> m.Next(b) <= y;
    }
  }

  lemma CutBits(m: Mem, m': Mem, B: set<int>, L: set<int>, segs: seq<Segment>, b: int, np: int)
    requires Bits(m, B, L, segs) && b in B && Live(m, b) && m.Size(b) > 0 && np !in B && Closed(m, B)
    requires (forall i :: 0 <= i < |segs| ==> First(segs[i]) in B) && m'.self == m.self
    requires m'.Head(np).busy && !m'.Head(np).pfree && m'.Size(np) > 0 && m'.Next(b) == np && m'.Next(np) == m.Next(b)
    requires m'.Size(b) > 0 && m'.Head(b) == m.Head(b).(size := m'.Size(b))
    requires forall x :: x != np && x != b ==> m'.Head(x) == m.Head(x)
    ensures Bits(m', B + {np}, L, segs)
  {
    assert forall x {:trigger m'.Next(x)} :: x in B && x != b ==> m'.Next(x) == m.Next(x);
    assert m.Next(b) in B && !m.Head(m.Next(b)).pfree;
    assert forall x {:trigger m.Next(x)} :: x in B && m.Size(x) > 0 ==> m.Next(x) != np;
  }

  lemma CutIndex(m: Mem, m': Mem, cls: Classes, tree: Tree, root: int, tiny: seq<int>, wait: seq<int>, b: int, np: int)
    requires IndexOk(m, cls, tree, root, tiny) && WaitOk(m, cls, wait) && !Held(m, cls, wait, b) &&
             !Held(m, cls, wait, np) && np > 0 && b > 0
    requires m' == m.(hdr := m'.hdr, seg := m'.seg)
    requires forall x :: x != np && x != b ==> m'.Head(x) == m.Head(x) && m'.Seg(x) == m.Seg(x)
    ensures IndexOk(m', cls, tree, root, tiny) && WaitOk(m', cls, wait)
    ensures forall x :: Held(m', cls, wait, x) <==> Held(m, cls, wait, x)
  {
    hide Linked, IndexOk, Listed;
    var m1 := m.(seg := m'.seg);
    assert forall a :: a != np && a != b ==> SameWords(m, m1, a);
    IndexFrame(m, m1, cls, tree, root, tiny);
    LinkedFrame(m, m1, MAXTINY, [TREE_NODE] + wait);
    assert forall x :: Held(m1, cls, wait, x) <==> Held(m, cls, wait, x);
    IndexHeads(m1, m', cls, tree, root, tiny, wait, b, np);
  }

  lemma CutFreeAt(s: State, m': Mem, L: set<int>, b: int, np: int)
    requires FreeAt(s.m, s.B, L, s.segs, s.cls, s.wait, s.wild) && np !in s.B && b in s.B && s.m.Head(b).busy &&
             m'.Head(b).busy
    requires m'.Head(np).busy && forall x :: x != np && x != b ==> m'.Head(x) == s.m.Head(x)
    requires forall x :: Held(m', s.cls, s.wait, x) <==> Held(s.m, s.cls, s.wait, x)
    ensures FreeAt(m', s.B + {np}, L, s.segs, s.cls, s.wait, s.wild)
  {
    assert forall x {:trigger m'.Next(x)} :: x != np && x != b ==> m'.Next(x) == s.m.Next(x);
  }

  lemma CutSegs(s: State, m': Mem, b: int, np: int)
    requires SegWords(s.m, s.B, s.segs, s.cls) && np !in s.B && b in s.B && b !in List(s.cls, TINYSIZE)
    requires SegIx(s.segs, np) == SegIx(s.segs, b) && m'.Seg(np) == s.m.Seg(b) &&
             forall x :: x != np ==> m'.Seg(x) == s.m.Seg(x)
    ensures SegWords(m', s.B + {np}, s.segs, s.cls)
  {
    hide SegIx;
  }

  lemma CutJunk(m: Mem, m': Mem, B: set<int>, last: int, cl: seq<seq<int>>, b: int, np: int)
    requires JunkAt(m, B, last, cl, S_CACHE + 1) && np !in B && b in B && !m.Head(b).junk && !m'.Head(b).junk && np > 0
    requires m'.Head(np).junk && forall x :: x != np && x != b ==> m'.Head(x) == m.Head(x)
    ensures LooseAt(m', B + {np}, last, cl, S_CACHE + 1, np)
  {
  }

  lemma LiveNotTiniest(s: State, L: set<int>, b: int)
    requires FreeAt(s.m, s.B, L, s.segs, s.cls, s.wait, s.wild) && IndexOk(s.m, s.cls, s.tree, s.root, s.tiny) &&
             s.m.Head(b).busy
    ensures b !in List(s.cls, TINYSIZE)
  {
  }

  lemma UnheldOutside(s: State, L: set<int>, x: int)
    requires FreeAt(s.m, s.B, L, s.segs, s.cls, s.wait, s.wild) && x !in s.B
    ensures !Held(s.m, s.cls, s.wait, x)
  {
    hide Held;
  }

  lemma CutSound(s: State, L: set<int>, b: int, size: nat)
    requires Sound(s, L, S_CACHE + 1) && b in s.B && Live(s.m, b) && 0 < size && size + 2 <= s.m.Size(b)
    ensures var np := b + 1 + size; var s' := s.(m := Cut(s.m, b, size), B := s.B + {np});
            && np !in s.B && Loose(s', L, S_CACHE + 1, np) && Live(s'.m, b)
            && InUse(s') == InUse(s)[b := size] && Untouched(s, s', b)
  {
    hide IndexOk, WaitOk, Tiled, Bits, SegWords, FreeAt, JunkAt, Chains, Held, Cut, InUse, LooseAt, Untouched, SegIx;
    var np, m' := b + 1 + size, Cut(s.m, b, size);
    var s' := s.(m := m', B := s.B + {np});
    CutHeads(s.m, b, size);
    BlockPositive(s.m, s.B, s.segs, b);
    CutTiled(s.m, m', s.B, s.segs, b, np);
    TiledParts(s.m, s.B, s.segs);
    UnheldOutside(s, L, np);
    BusyNotHeld(s, L, b);
    CutBits(s.m, m', s.B, L, s.segs, b, np);
    CutIndex(s.m, m', s.cls, s.tree, s.root, s.tiny, s.wait, b, np);
    assert FreeAt(m', s'.B, L, s.segs, s.cls, s.wait, s.wild) by { CutFreeAt(s, m', L, b, np); }
    LiveNotTiniest(s, L, b);
    assert SegWords(m', s'.B, s.segs, s.cls) by { CutSegs(s, m', b, np); }
    CutJunk(s.m, m', s.B, s.last, s.cl, b, np);
    ChainsFrame(s.m, m', s.cl);
    CutUse(s, m', b, np, size);
  }

  lemma CutUse(s: State, m': Mem, b: int, np: int, size: nat)
    requires Tiled(s.m, s.B, s.segs) && b in s.B && Live(s.m, b) && np !in s.B && 0 < size &&
             m'.Size(b) == size && Live(m', b)
    requires 0 < b < np && np < s.m.Next(b)
    requires m' == s.m.(hdr := m'.hdr, seg := m'.seg) && m'.Head(np).junk
    requires forall x :: x != np && x != b ==> m'.Head(x) == s.m.Head(x)
    requires forall x :: x != np ==> m'.Seg(x) == s.m.Seg(x)
    ensures InUse(s.(m := m', B := s.B + {np})) == InUse(s)[b := size]
    ensures Untouched(s, s.(m := m', B := s.B + {np}), b)
  {
    hide SegsOk, EndsIn, AllInside, Closed;
    var s' := s.(m := m', B := s.B + {np});
    forall x | x in InUse(s) && x != b ensures Kept(s.m, m', x) {
      assert (x < b ==> s.m.Next(x) <= b) && (b < x ==> s.m.Next(b) <= x);
    }
  }

  // ---------- a loose block on its way to the wilderness ----------

  lemma LooseTransit(s: State, m': Mem, L: set<int>, c: int, x: int)
    requires Loose(s, L, c, x) && !s.m.Head(x).pfree && m' == WithHead(s.m, x, Free(s.m.Size(x)))
    ensures var s' := s.(m := m'); Sound(s', L + {x}, c) && LiveKept(s, s') && x !in L && s.m.Size(x) > 0
  {
    hide IndexOk, WaitOk, Tiled, SegWords, Chains, Held, Bits, FreeAt, AllKept, LooseAt;
    LooseSize(s, L, c, x);
    BusyNotHeld(s, L, x);
    IndexHeads(s.m, m', s.cls, s.tree, s.root, s.tiny, s.wait, x, x);
    SameSizesTiled(s.m, m', s.B, s.segs);
    TiledParts(s.m, s.B, s.segs);
    JunkBits(s.m, m', s.B, L, s.segs, x);
    assert SegWords(m', s.B, s.segs, s.cls) by { SegWordsSame(s, m'); }
    assert FreeAt(m', s.B, L + {x}, s.segs, s.cls, s.wait, s.wild) by { TakeJunkFreeAt(s, m', L, x); }
    assert JunkAt(m', s.B, s.last, s.cl, c) by { LooseQuiet(s.m, m', s.B, s.last, s.cl, c, x); }
    ChainsFrame(s.m, m', s.cl);
    AllKeptSame(s, m');
    assert x !in L by { BusyNotTransit(s, L, x); }
  }

  lemma BusyNotTransit(s: State, L: set<int>, x: int)
    requires Bits(s.m, s.B, L, s.segs) && s.m.Head(x).busy
    ensures x !in L
  {
  }

  lemma LooseQuiet(m: Mem, m': Mem, B: set<int>, last: int, cl: seq<seq<int>>, c: int, x: int)
    requires LooseAt(m, B, last, cl, c, x) && !m'.Head(x).junk && forall b :: b != x ==> m'.Head(b) == m.Head(b)
    ensures JunkAt(m', B, last, cl, c)
  {
  }

  // ---------- a new segment ----------

  function WithSegment(segs: seq<Segment>, p: int, g: Segment): seq<Segment>
    requires 0 <= p <= |segs|
  {
    segs[..p] + [g] + segs[p..]
  }

  /** The headers of a new segment: one free block over all of it, and the end marker. */
  ghost predicate NewHeaders(m: Mem, m': Mem, g: Segment) {
    && First(g) + 2 <= g.end
    && m' == m.(hdr := m'.hdr, seg := m'.seg)
    && m'.Head(First(g)) == Free(g.end - First(g) - 1) && m'.Head(g.end) == Header(0, true, false, false)
    && m'.Seg(First(g)) == g.at && m'.Seg(g.end) == g.at
    && forall x :: x != First(g) && x != g.end ==> m'.Head(x) == m.Head(x) && m'.Seg(x) == m.Seg(x)
  }

  /** The new segment is in order of address and overlaps no other. */
  ghost predicate Fits(segs: seq<Segment>, p: int, g: Segment) {
    && 0 <= p <= |segs| && 0 < g.at && First(g) + 2 <= g.end
    && (forall i :: 0 <= i < p ==> g.end < segs[i].at)
    && (forall i :: p <= i < |segs| ==> segs[i].end < g.at)
  }

  lemma NewSegAt(segs: seq<Segment>, p: int, g: Segment)
    requires 0 <= p <= |segs|
    ensures var segs' := WithSegment(segs, p, g);
            && |segs'| == |segs| + 1 && segs'[p] == g
            && (forall i :: 0 <= i < p ==> segs'[i] == segs[i])
            && (forall i :: p < i < |segs'| ==> segs'[i] == segs[i - 1])
            && (forall i :: p <= i < |segs| ==> segs'[i + 1] == segs[i])
  {
  }

  lemma NewSegsSorted(segs: seq<Segment>, p: int, g: Segment)
    requires SegsOk(segs) && Fits(segs, p, g)
    ensures SegsOk(WithSegment(segs, p, g))
  {
  }

  lemma NewSegsOk(segs: seq<Segment>, p: int, g: Segment)
    requires SegsOk(segs) && Fits(segs, p, g)
    ensures SegsOk(WithSegment(segs, p, g))
    ensures SegIx(WithSegment(segs, p, g), First(g)) == p == SegIx(WithSegment(segs, p, g), g.end)
    ensures forall b :: SegIx(segs, b) < |segs| ==>
              SegIx(WithSegment(segs, p, g), b) == (if SegIx(segs, b) < p then SegIx(segs, b) else SegIx(segs, b) + 1)
  {
    hide SegIx, SegsOk, WithSegment;
    var segs' := WithSegment(segs, p, g);
    NewSegsSorted(segs, p, g);
    NewSegAt(segs, p, g);
    SegIxIs(segs', First(g), p);
    SegIxIs(segs', g.end, p);
    forall b | SegIx(segs, b) < |segs| ensures SegIx(segs', b) ==
        (if SegIx(segs, b) < p then SegIx(segs, b) else SegIx(segs, b) + 1)
    {
      var i := SegIx(segs, b);
      SegIxIs(segs', b, if i < p then i else i + 1);
    }
  }

  /** No old block lies in the new segment. */
  lemma NewOutside(m: Mem, B: set<int>, segs: seq<Segment>, p: int, g: Segment, b: int)
    requires Tiled(m, B, segs) && Fits(segs, p, g) && b in B
    ensures b < g.at || g.end < b
    ensures b < g.at && m.Size(b) > 0 ==> m.Next(b) < g.at
  {
    hide SegIx;
    assert Inside(m, segs, b);
    if m.Size(b) > 0 {
      NextSeg(m, B, segs, b);
      assert Inside(m, segs, m.Next(b));
    }
  }

  lemma NewTiled(m: Mem, m': Mem, B: set<int>, segs: seq<Segment>, p: int, g: Segment)
    requires Tiled(m, B, segs) && Fits(segs, p, g) && NewHeaders(m, m', g)
    ensures Tiled(m', B + {First(g), g.end}, WithSegment(segs, p, g))
    ensures First(g) !in B && g.end !in B
  {
    hide SegIx, Tiled, NewHeaders;
    TiledParts(m, B, segs);
    NewSegsOk(segs, p, g);
    forall b | b in B ensures (b < g.at || g.end < b) && (b < g.at && m.Size(b) > 0 ==> m.Next(b) < g.at) {
      NewOutside(m, B, segs, p, g, b);
    }
    NewInside(m, m', B, segs, p, g);
    NewApart(m, m', B, segs, p, g);
    assert Tiled(m', B + {First(g), g.end}, WithSegment(segs, p, g)) by {
      NewEnds(B, segs, p, g);
      AsTiled(m', B + {First(g), g.end}, WithSegment(segs, p, g));
    }
  }

  lemma AsTiled(m: Mem, B: set<int>, segs: seq<Segment>)
    requires SegsOk(segs) && EndsIn(B, segs) && AllInside(m, B, segs) && Closed(m, B) && Apart(m, B)
    ensures Tiled(m, B, segs)
  {
  }

  lemma NewEnds(B: set<int>, segs: seq<Segment>, p: int, g: Segment)
    requires EndsIn(B, segs) && Fits(segs, p, g)
    ensures EndsIn(B + {First(g), g.end}, WithSegment(segs, p, g))
  {
  }

  lemma NewInside(m: Mem, m': Mem, B: set<int>, segs: seq<Segment>, p: int, g: Segment)
    requires AllInside(m, B, segs) && Fits(segs, p, g) && NewHeaders(m, m', g) && SegsOk(segs)
    requires forall b :: b in B ==> b < g.at || g.end < b
    ensures AllInside(m', B + {First(g), g.end}, WithSegment(segs, p, g))
  {
    hide SegIx, SegsOk;
    NewSegsOk(segs, p, g);
    forall b | b in B + {First(g), g.end} ensures Inside(m', WithSegment(segs, p, g), b) {
      assert b in B ==> Inside(m, segs, b);
    }
  }

  lemma NewApart(m: Mem, m': Mem, B: set<int>, segs: seq<Segment>, p: int, g: Segment)
    requires Closed(m, B) && Apart(m, B) && NewHeaders(m, m', g) && Fits(segs, p, g)
    requires forall b :: b in B ==> (b < g.at || g.end < b) && (b < g.at && m.Size(b) > 0 ==> m.Next(b) < g.at)
    ensures Closed(m', B + {First(g), g.end}) && Apart(m', B + {First(g), g.end})
  {
  }

  lemma NewBits(m: Mem, m': Mem, B: set<int>, L: set<int>, segs: seq<Segment>, p: int, g: Segment)
    requires Bits(m, B, L, segs) && NewHeaders(m, m', g) && 0 <= p <= |segs| && Closed(m, B) && First(g) < g.end
    requires First(g) !in B && g.end !in B && forall i :: 0 <= i < |segs| ==> First(segs[i]) in B
    ensures Bits(m', B + {First(g), g.end}, L + {First(g)}, WithSegment(segs, p, g))
  {
    hide WithSegment;
    NewSegAt(segs, p, g);
    assert forall b {:trigger m'.Next(b)} :: b in B ==> m'.Next(b) == m.Next(b);
    assert FirstBits(m', WithSegment(segs, p, g));
    assert m'.Next(First(g)) == g.end;
  }

  lemma NewFreeAt(s: State, m': Mem, L: set<int>, p: int, g: Segment)
    requires FreeAt(s.m, s.B, L, s.segs, s.cls, s.wait, s.wild) && NewHeaders(s.m, m', g) && 0 <= p <= |s.segs|
    requires First(g) !in s.B && g.end !in s.B && (s.wild != NIL ==> p > 0)
    requires forall x :: Held(m', s.cls, s.wait, x) <==> Held(s.m, s.cls, s.wait, x)
    requires forall b {:trigger s.m.Next(b)} :: b in s.B ==> s.m.Next(b) != g.end
    ensures FreeAt(m', s.B + {First(g), g.end}, L + {First(g)}, WithSegment(s.segs, p, g), s.cls, s.wait, s.wild)
  {
    assert forall x {:trigger m'.Next(x)} :: x in s.B ==> m'.Next(x) == s.m.Next(x);
  }

  lemma NewNotEnd(m: Mem, B: set<int>, segs: seq<Segment>, p: int, g: Segment)
    requires Tiled(m, B, segs) && Fits(segs, p, g)
    ensures forall b {:trigger m.Next(b)} :: b in B ==> m.Next(b) != g.end
  {
    forall b | b in B ensures m.Next(b) != g.end { NewOutside(m, B, segs, p, g, b); }
  }

  lemma NewSegWords(s: State, m': Mem, p: int, g: Segment)
    requires SegWords(s.m, s.B, s.segs, s.cls) && NewHeaders(s.m, m', g) && Fits(s.segs, p, g) && SegsOk(s.segs)
    ensures SegWords(m', s.B + {First(g), g.end}, WithSegment(s.segs, p, g), s.cls)
  {
    hide SegIx, SegsOk;
    NewSegsOk(s.segs, p, g);
  }

  lemma NewJunk(m: Mem, m': Mem, B: set<int>, last: int, cl: seq<seq<int>>, g: Segment)
    requires JunkAt(m, B, last, cl, S_CACHE + 1) && NewHeaders(m, m', g) && First(g) !in B && g.end !in B
    ensures JunkAt(m', B + {First(g), g.end}, last, cl, S_CACHE + 1)
  {
  }

  lemma NewSegment(s: State, m': Mem, L: set<int>, p: int, g: Segment)
    requires Sound(s, L, S_CACHE + 1) && Fits(s.segs, p, g) && NewHeaders(s.m, m', g) && (s.wild != NIL ==> p > 0)
    ensures var s' := s.(m := m', B := s.B + {First(g), g.end}, segs := WithSegment(s.segs, p, g));
            Sound(s', L + {First(g)}, S_CACHE + 1) && Idle(s, s')
  {
    hide IndexOk, WaitOk, Tiled, Bits, SegWords, FreeAt, JunkAt, Chains, Held, InUse, Untouched, NewHeaders;
    NewTiled(s.m, m', s.B, s.segs, p, g);
    TiledParts(s.m, s.B, s.segs);
    UnheldOutside(s, L, First(g));
    UnheldOutside(s, L, g.end);
    NewWords(s.m, m', g);
    CutIndex(s.m, m', s.cls, s.tree, s.root, s.tiny, s.wait, First(g), g.end);
    NewBits(s.m, m', s.B, L, s.segs, p, g);
    NewNotEnd(s.m, s.B, s.segs, p, g);
    NewFreeAt(s, m', L, p, g);
    NewSegWords(s, m', p, g);
    NewJunk(s.m, m', s.B, s.last, s.cl, g);
    ChainsFrame(s.m, m', s.cl);
    NewUse(s, m', p, g);
  }

  lemma NewWords(m: Mem, m': Mem, g: Segment)
    requires NewHeaders(m, m', g)
    ensures m' == m.(hdr := m'.hdr, seg := m'.seg)
    ensures forall x :: x != First(g) && x != g.end ==> m'.Head(x) == m.Head(x) && m'.Seg(x) == m.Seg(x)
  {
  }

  lemma NewUse(s: State, m': Mem, p: int, g: Segment)
    requires Tiled(s.m, s.B, s.segs) && NewHeaders(s.m, m', g) && Fits(s.segs, p, g) && First(g) !in s.B &&
             g.end !in s.B
    ensures var s' := s.(m := m', B := s.B + {First(g), g.end}, segs := WithSegment(s.segs, p, g));
            InUse(s') == InUse(s) && Untouched(s, s', NIL)
  {
    hide Tiled;
    forall b | b in InUse(s) ensures Kept(s.m, m', b) {
      NewOutside(s.m, s.B, s.segs, p, g, b);
    }
  }

  // ---------- live and junk ----------

  lemma JunkBitUse(s: State, m': Mem, x: int)
    requires JunkBit(s.m, m', x) && x in s.B && s.m.Size(x) > 0
    ensures var s' := s.(m := m');
            && InUse(s') == (if m'.Head(x).junk then InUse(s) - {x} else InUse(s)[x := s.m.Size(x)])
            && Untouched(s, s', NIL)
  {
  }

  /** The wild block, no longer at the top, becomes junk. */
  function Tamed(m: Mem, w: int): Mem {
    var n := m.Next(w);
    WithHead(WithHead(m, n, m.Head(n).(pfree := false)), w, Header(m.Size(w), true, m.Head(w).pfree, true))
  }

  lemma TameWild(s: State, c: int)
    requires Sound(s, {}, c) && s.wild != NIL
    ensures var s' := s.(m := Tamed(s.m, s.wild), wild := NIL);
            Loose(s', {}, c, s.wild) && InUse(s') == InUse(s) && Untouched(s, s', NIL)
  {
    hide Sound, InUse, Untouched, Loose;
    var w := s.wild;
    var s1 := s.(wild := NIL);
    WildNext(s, {}, c);
    TakeWild(s, {}, c);
    assert {} + {w} - {w} == {};
    Commit(s1, {} + {w}, c, w);
    var s2 := s1.(m := Committed(s.m, w));
    assert JunkBit(s2.m, Tamed(s.m, w), w);
    MarkJunk(s2, Tamed(s.m, w), {}, c, w);
    JunkBitUse(s2, Tamed(s.m, w), w);
    assert InUse(s1) == InUse(s) by { SameUse(s, s1); }
    assert InUse(s1)[w := s.m.Size(w)] - {w} == InUse(s1);
    UntouchedSame(s, s.(m := Tamed(s.m, w), wild := NIL), NIL);
  }

  lemma SameUse(s: State, s': State)
    requires s'.m == s.m && s'.B == s.B
    ensures InUse(s') == InUse(s)
  {
  }

  lemma WildNext(s: State, L: set<int>, c: int)
    requires Sound(s, L, c) && s.wild != NIL
    ensures var n := s.m.Next(s.wild);
            s.wild in s.B && !s.m.Head(s.wild).busy && s.m.Size(s.wild) > 0 && n in s.B && n != s.wild &&
            s.m.Head(n).busy
    ensures |s.segs| > 0 && s.m.Next(s.wild) == s.segs[0].end > 0 && s.wild !in L && s.wild > 0
    ensures SegIx(s.segs, s.wild) == 0 && s.m.Seg(s.wild) == s.segs[0].at
  {
  }

  // ---------- a live block takes in its successor ----------

  function Extended(m: Mem, r: int, n: int): Mem {
    var q := m.Next(n);
    var m1 := WithHead(m, r, m.Head(r).(size := m.Size(r) + 1 + m.Size(n)));
    WithHead(m1, q, m1.Head(q).(pfree := false))
  }

  lemma ExtendedHeads(m: Mem, r: int, n: int)
    requires n == m.Next(r) && m.Size(r) >= 0 && m.Size(n) > 0
    ensures var q, m' := m.Next(n), Extended(m, r, n);
            && HeadsAt(m, m', r, q) && m'.self == m.self && r != q && n != q
            && m'.Head(r) == m.Head(r).(size := m.Size(r) + 1 + m.Size(n)) && m'.Head(q) == m.Head(q).(pfree := false)
            && (forall x :: x != q && x != r ==> m'.Head(x) == m.Head(x))
            && m'.Next(r) == q
  {
  }

  lemma GrowFree(s: State, L: set<int>, r: int, n: int)
    requires FreeSound(s, L) && r in s.B && Live(s.m, r) && s.m.Size(r) > 0 && n == s.m.Next(r)
    requires n in L || s.m.Head(n).junk
    ensures var s' := s.(m := Extended(s.m, r, n), B := s.B - {n});
            && FreeSound(s', L - {n}) && n in s.B && r != n && s.m.Size(n) > 0
            && InUse(s') == InUse(s)[r := s.m.Size(r) + 1 + s.m.Size(n)] && Untouched(s, s', NIL)
  {
    hide IndexOk, WaitOk, Tiled, Bits, SegWords, FreeAt, Held, Extended, InUse, Untouched;
    var m', q := Extended(s.m, r, n), s.m.Next(n);
    NextIn(s.m, s.B, s.segs, r);
    TransitSize(s, L, n);
    ExtendedHeads(s.m, r, n);
    NextIn(s.m, s.B, s.segs, n);
    NotHeld(s, L, n);
    BusyNotHeld(s, L, r);
    if s.m.Head(q).busy {
      BusyNotHeld(s, L, q);
      IndexHeads(s.m, m', s.cls, s.tree, s.root, s.tiny, s.wait, r, q);
    } else {
      FreeNoPfree(s, L, q);
      IndexHeads(s.m, m', s.cls, s.tree, s.root, s.tiny, s.wait, r, r);
    }
    AbsorbTiled(s.m, m', s.B, s.segs, r, n);
    GrowBits(s.m, m', s.B, L, s.segs, r, n);
    assert SegWords(m', s.B - {n}, s.segs, s.cls) by { SegWordsLess(s, m', n); }
    assert FreeAt(m', s.B - {n}, L - {n}, s.segs, s.cls, s.wait, s.wild) by { GrowFreeAt(s, m', L, r, n, q); }
    GrowUse(s, m', r, n, q);
    UntouchedSame(s, s.(m := m', B := s.B - {n}), NIL);
  }

  lemma GrowUse(s: State, m': Mem, r: int, n: int, q: int)
    requires r in s.B && Live(s.m, r) && s.m.Size(r) > 0 && r != n && r != q && n != q && !Live(s.m, n)
    requires m'.Head(r) == s.m.Head(r).(size := s.m.Size(r) + 1 + s.m.Size(n)) &&
             m'.Head(q) == s.m.Head(q).(pfree := false)
    requires forall x :: x != q && x != r ==> m'.Head(x) == s.m.Head(x)
    ensures InUse(s.(m := m', B := s.B - {n})) == InUse(s)[r := s.m.Size(r) + 1 + s.m.Size(n)]
  {
  }

  lemma TransitSize(s: State, L: set<int>, n: int)
    requires Bits(s.m, s.B, L, s.segs) && n in s.B && (n in L || s.m.Head(n).junk)
    ensures s.m.Size(n) > 0 && !Live(s.m, n)
  {
  }

  lemma FreeNoPfree(s: State, L: set<int>, q: int)
    requires Bits(s.m, s.B, L, s.segs) && q in s.B && !s.m.Head(q).busy
    ensures !s.m.Head(q).pfree
  {
  }

  lemma GrowBits(m: Mem, m': Mem, B: set<int>, L: set<int>, segs: seq<Segment>, r: int, n: int)
    requires Tiled(m, B, segs) && Bits(m, B, L, segs) && r in B && Live(m, r) && m.Size(r) > 0 && n == m.Next(r) &&
             m.Size(n) > 0
    requires n in L || m.Head(n).junk
    requires var q := m.Next(n);
             && m'.Head(r) == m.Head(r).(size := m.Size(r) + 1 + m.Size(n)) && m'.Head(q) == m.Head(q).(pfree := false)
             && (forall x :: x != q && x != r ==> m'.Head(x) == m.Head(x)) && m'.self == m.self && r != q
    ensures Bits(m', B - {n}, L - {n}, segs)
  {
    hide SegIx, SegsOk, AllInside, Apart;
    var q := m.Next(n);
    assert m'.Next(r) == q;
    forall b | b in B - {n} && b != r ensures m.Next(b) != n && m.Next(b) != q {
      if m.Next(b) == n { NextUnique(m, B, segs, b, r); }
      if m.Next(b) == q { NextUnique(m, B, segs, b, n); }
    }
    assert forall b {:trigger m'.Next(b)} :: b != r ==> m'.Next(b) == m.Next(b);
  }

  lemma GrowFreeAt(s: State, m': Mem, L: set<int>, r: int, n: int, q: int)
    requires FreeAt(s.m, s.B, L, s.segs, s.cls, s.wait, s.wild) && Live(s.m, r) && r != q
    requires n in L || s.m.Head(n).junk
    requires !Held(s.m, s.cls, s.wait, n) && (s.wild != NIL ==> n != s.wild)
    requires m'.Head(r) == s.m.Head(r).(size := m'.Size(r)) && m'.Head(q) == s.m.Head(q).(pfree := false)
    requires forall x :: x != q && x != r ==> m'.Head(x) == s.m.Head(x)
    requires forall x :: Held(m', s.cls, s.wait, x) <==> Held(s.m, s.cls, s.wait, x)
    ensures FreeAt(m', s.B - {n}, L - {n}, s.segs, s.cls, s.wait, s.wild)
  {
    assert forall x {:trigger m'.Next(x)} :: x != r ==> m'.Next(x) == s.m.Next(x);
  }

  lemma GrowJunk(m: Mem, m': Mem, B: set<int>, last: int, cl: seq<seq<int>>, c: int, r: int, n: int)
    requires (JunkAt(m, B, last, cl, c) && !m.Head(n).junk) || LooseAt(m, B, last, cl, c, n)
    requires r in B && !m.Head(r).junk && n != r && n in B
    requires forall b :: m'.Head(b).junk == m.Head(b).junk && (b != r ==> m'.Size(b) == m.Size(b))
    ensures JunkAt(m', B - {n}, last, cl, c)
  {
  }

  lemma GrowSound(s: State, L: set<int>, c: int, r: int, n: int)
    requires (Sound(s, L, c) && n in L) || Loose(s, L, c, n)
    requires r in s.B && Live(s.m, r) && s.m.Size(r) > 0 && n == s.m.Next(r)
    ensures var s' := s.(m := Extended(s.m, r, n), B := s.B - {n});
            && Sound(s', L - {n}, c) && n in s.B && s.m.Size(n) > 0
            && InUse(s') == InUse(s)[r := s.m.Size(r) + 1 + s.m.Size(n)] && Untouched(s, s', NIL)
  {
    hide IndexOk, WaitOk, Tiled, SegWords, FreeAt, Held, Extended, InUse, Untouched, JunkAt, LooseAt, Chains, Bits;
    NextIn(s.m, s.B, s.segs, r);
    if n in L { InTransit(s, L, n); } else { LooseSize(s, L, c, n); }
    GrowFree(s, L, r, n);
    ExtendedHeads(s.m, r, n);
    GrowJunk(s.m, Extended(s.m, r, n), s.B, s.last, s.cl, c, r, n);
    ChainsFrame(s.m, Extended(s.m, r, n), s.cl);
  }

  // ---------- what calls do to the client's view ----------

  /** Nothing has changed for the client. */
  ghost predicate Idle(s: State, s': State) {
    InUse(s') == InUse(s) && Untouched(s, s', NIL)
  }

  /** The client has got block b of k units; nothing else has changed for him. */
  ghost predicate Allocated(s: State, s': State, b: int, k: nat) {
    b != NIL && b !in InUse(s) && InUse(s') == InUse(s)[b := k] && Untouched(s, s', NIL)
  }

  lemma KeptIdle(s: State, s': State)
    requires LiveKept(s, s')
    ensures Idle(s, s')
  {
  }

  lemma IdleSame(s: State, s': State)
    requires s'.m == s.m && s'.B == s.B
    ensures Idle(s, s')
  {
  }

  lemma IdleTrans(s: State, s': State, s'': State)
    requires Idle(s, s') && Idle(s', s'')
    ensures Idle(s, s'')
  {
    hide InUse, Untouched;
    UntouchedTrans(s, s', s'', NIL);
  }

  lemma AllocatedTrans(s: State, s': State, s'': State, b: int, k: nat)
    requires (Idle(s, s') && Allocated(s', s'', b, k)) || (Allocated(s, s', b, k) && Idle(s', s''))
    ensures Allocated(s, s'', b, k)
  {
    hide InUse, Untouched;
    UntouchedTrans(s, s', s'', NIL);
  }

  /** An allocated block is cut to the size asked for. */
  lemma AllocatedCut(s: State, s': State, s'': State, b: int, k: nat, k': nat)
    requires Allocated(s, s', b, k) && InUse(s'') == InUse(s')[b := k'] && Untouched(s', s'', b)
    ensures Allocated(s, s'', b, k')
  {
    hide InUse, Untouched;
    UntouchedBut(s, s', b);
    UntouchedTrans(s, s', s'', b);
    UntouchedNew(s, s'', b);
    assert InUse(s)[b := k][b := k'] == InUse(s)[b := k'];
  }

  lemma UntouchedBut(s: State, s': State, y: int)
    requires Untouched(s, s', NIL)
    ensures Untouched(s, s', y)
  {
  }

  lemma UntouchedNew(s: State, s': State, b: int)
    requires Untouched(s, s', b) && b !in InUse(s)
    ensures Untouched(s, s', NIL)
  {
  }

  // ---------- the end of bestalloc ----------

  /** The header writes of bestalloc, in its order, when the block found is cut. */
  function CutWrites(m: Mem, tp: int, size: nat): Mem
    requires size + 2 <= m.Size(tp)
  {
    var n, np := m.Next(tp), tp + 1 + size;
    var m1 := WithHead(WithHead(m, n, m.Head(n).(pfree := false)), tp, Free(size));
    WithHead(WithSeg(m1, np, m1.Seg(tp)), np, Header(m.Size(tp) - size - 1, true, false, true))
  }

  lemma CutWritesAre(m: Mem, tp: int, size: nat)
    requires 0 < size && size + 2 <= m.Size(tp) && m.Head(tp) == Free(m.Size(tp))
    ensures var m' := CutWrites(m, tp, size);
            WithHead(m', tp, m'.Head(tp).(busy := true)) == Cut(Committed(m, tp), tp, size)
  {
  }

  /** Cutting leaves the rest as the most recently freed block. */
  lemma UseLast(s: State, tp: int, size: nat)
    requires Sound(s, {tp}, S_CACHE + 1) && s.last == NIL
    requires 0 < size && size + 2 <= s.m.Size(tp) && s.m.Head(s.m.Next(tp)).busy
    ensures var np := tp + 1 + size;
            var s' := s.(m := Cut(Committed(s.m, tp), tp, size), B := s.B + {np}, last := np);
            Sound(s', {}, S_CACHE + 1) && Allocated(s, s', tp, size) &&
            s'.m.Head(tp) == Header(size, true, false, false)
  {
    hide Sound, InUse, Untouched, Committed, Loose, Cut;
    var s2 := UseCut(s, tp, size);
    PutLast(s2, {}, S_CACHE + 1, tp + 1 + size);
    IdleSame(s2, s2.(last := tp + 1 + size));
    AllocatedTrans(s, s2, s2.(last := tp + 1 + size), tp, size);
  }

  lemma UseCut(s: State, tp: int, size: nat) returns (s2: State)
    requires Sound(s, {tp}, S_CACHE + 1)
    requires 0 < size && size + 2 <= s.m.Size(tp) && s.m.Head(s.m.Next(tp)).busy
    ensures var np := tp + 1 + size;
            && s2 == s.(m := Cut(Committed(s.m, tp), tp, size), B := s.B + {np})
            && Loose(s2, {}, S_CACHE + 1, np) && Allocated(s, s2, tp, size)
            && s2.m.Head(tp) == Header(size, true, false, false) &&
               s2.m.Head(np) == Header(s.m.Size(tp) - size - 1, true, false, true)
            && s2.m.Next(np) == s.m.Next(tp) && np !in s.B
  {
    hide Sound, InUse, Untouched, Committed, Loose, Cut;
    assert {tp} - {tp} == {};
    SoundNext(s, {tp}, S_CACHE + 1, tp);
    Commit(s, {tp}, S_CACHE + 1, tp);
    CommittedHeads(s.m, tp);
    var s1 := s.(m := Committed(s.m, tp));
    CutHeads(s1.m, tp, size);
    CutSound(s1, {}, tp, size);
    s2 := s1.(m := Cut(s1.m, tp, size), B := s1.B + {tp + 1 + size});
    AllocatedCut(s, s1, s2, tp, s.m.Size(tp), size);
  }

  /** Cutting at the very top leaves the rest as the wild block. */
  lemma UseWild(s: State, tp: int, size: nat)
    requires Sound(s, {tp}, S_CACHE + 1) && |s.segs| > 0 && s.segs[0].end <= s.m.Next(tp)
    requires 0 < size && size + 2 <= s.m.Size(tp) && s.m.Head(s.m.Next(tp)).busy
    ensures var np := tp + 1 + size;
            var m2 := Cut(Committed(s.m, tp), tp, size);
            var s' := s.(m := Announced(WithHead(m2, np, Free(m2.Size(np))), np), B := s.B + {np}, wild := np);
            Sound(s', {}, S_CACHE + 1) && Allocated(s, s', tp, size)
  {
    hide Sound, InUse, Untouched, Committed, Loose, Cut, Announced, LiveKept;
    var np := tp + 1 + size;
    var s2 := UseCut(s, tp, size);
    var m3 := WithHead(s2.m, np, Free(s2.m.Size(np)));
    LooseTransit(s2, m3, {}, S_CACHE + 1, np);
    assert {} + {np} - {np} == {};
    var s3 := s2.(m := m3);
    SoundNext(s, {tp}, S_CACHE + 1, tp);
    CommittedHeads(s.m, tp);
    CutHeads(Committed(s.m, tp), tp, size);
    TopEnd(s, {tp}, S_CACHE + 1, s.m.Next(tp));
    ReleaseWild(s3, {} + {np}, S_CACHE + 1, np);
    var s4 := s3.(m := Announced(m3, np), wild := np);
    LiveKeptTrans(s2, s3, s4);
    KeptIdle(s2, s4);
    AllocatedTrans(s, s2, s4, tp, size);
  }

  lemma UseWhole(s: State, tp: int)
    requires Sound(s, {tp}, S_CACHE + 1) && s.m.Size(tp) > 0 && s.m.Head(s.m.Next(tp)).busy
    ensures var s' := s.(m := Committed(s.m, tp));
            Sound(s', {}, S_CACHE + 1) && Allocated(s, s', tp, s.m.Size(tp)) &&
            s'.m.Head(tp) == Header(s.m.Size(tp), true, false, false)
  {
    hide Sound, InUse, Untouched, Committed;
    assert {tp} - {tp} == {};
    SoundNext(s, {tp}, S_CACHE + 1, tp);
    CommittedHeads(s.m, tp);
    Commit(s, {tp}, S_CACHE + 1, tp);
  }

  /** The further writes when the rest becomes the wild block. */
  function WildWrites(m: Mem, np: int): Mem {
    var m1 := WithHead(m, np, Free(m.Size(np)));
    var m2 := WithSelf(m1, np + m1.Size(np), np);
    WithHead(m2, m2.Next(np), m2.Head(m2.Next(np)).(pfree := true))
  }

  lemma WildWritesAre(m: Mem, m': Mem, tp: int, np: int)
    requires tp < np && m.Head(tp) == Free(m.Size(tp)) && m' == WithHead(m, tp, m.Head(tp).(busy := true)) &&
             m.Size(np) > 0
    ensures WithHead(WildWrites(m, np), tp, WildWrites(m, np).Head(tp).(busy := true)) ==
            Announced(WithHead(m', np, Free(m'.Size(np))), np)
  {
    var m1 := WithHead(WildWrites(m, np), tp, WildWrites(m, np).Head(tp).(busy := true));
    var m2 := Announced(WithHead(m', np, Free(m'.Size(np))), np);
    assert m1.hdr == m2.hdr;
    assert m1.self == m2.self;
  }

  lemma CutWritesHeads(m: Mem, tp: int, size: nat)
    requires 0 < size && size + 2 <= m.Size(tp)
    ensures var m' := CutWrites(m, tp, size);
            m'.Head(tp) == Free(size) && m'.Size(tp + 1 + size) == m.Size(tp) - size - 1 &&
            m'.Next(tp + 1 + size) == m.Next(tp)
  {
  }

  lemma WholeWritesAre(m: Mem, tp: int)
    requires m.Size(tp) > 0
    ensures var m1 := WithHead(m, m.Next(tp), m.Head(m.Next(tp)).(pfree := false));
            WithHead(m1, tp, m1.Head(tp).(busy := true)) == Committed(m, tp)
  {
  }

  lemma CutWritesShown(m: Mem, tp: int, size: nat)
    requires 0 < size && size + 2 <= m.Size(tp)
    ensures var n, np := m.Next(tp), tp + 1 + size;
            var m1 := WithHead(WithHead(m, n, m.Head(n).(pfree := false)), tp, Free(size));
            CutWrites(m, tp, size) == WithHead(WithSeg(m1, np, m1.Seg(tp)), np,
                Header(m.Size(tp) - size - 1, true, false, true))
  {
  }

  lemma WildWritesShown(m: Mem, np: int)
    ensures var m1 := WithHead(m, np, Free(m.Size(np)));
            var m2 := WithSelf(m1, np + m1.Size(np), np);
            WildWrites(m, np) == WithHead(m2, m2.Next(np), m2.Head(m2.Next(np)).(pfree := true))
  {
  }

  // ---------- reusing the most recently freed block ----------

  function Unjunked(m: Mem, x: int): Mem { WithHead(m, x, m.Head(x).(junk := false)) }

  /** CLRJUNK makes a loose block live. */
  lemma ReviveAllocated(s: State, L: set<int>, x: int)
    requires Loose(s, L, S_CACHE + 1, x)
    ensures var s' := s.(m := Unjunked(s.m, x));
            Sound(s', L, S_CACHE + 1) && Allocated(s, s', x, s.m.Size(x)) && Live(s'.m, x) &&
            s'.m.Size(x) == s.m.Size(x) > 0
  {
    hide FreeSound, LooseAt, Chains, Untouched;
    LooseSize(s, L, S_CACHE + 1, x);
    LooseIs(s, L, S_CACHE + 1, x);
    Revive(s, Unjunked(s.m, x), L, S_CACHE + 1, x);
    JunkBitUse(s, Unjunked(s.m, x), x);
  }

  lemma LooseIs(s: State, L: set<int>, c: int, x: int)
    requires Loose(s, L, c, x)
    ensures x > 0 && |s.cl| == S_CACHE + 1
  {
  }

  /** The most recently freed block is cut, and the rest takes its place. */
  lemma ReuseCut(s: State, size: nat)
    requires Sound(s, {}, S_CACHE + 1) && s.last != NIL && 0 < size && size + 2 <= s.m.Size(s.last)
    ensures var tp, np := s.last, s.last + 1 + size;
            var s' := s.(m := Cut(Unjunked(s.m, tp), tp, size), B := s.B + {np}, last := np);
            Sound(s', {}, S_CACHE + 1) && Allocated(s, s', tp, size)
  {
    hide Sound, InUse, Untouched, Loose, Cut;
    var tp := s.last;
    var s1 := s.(last := NIL);
    TakeLast(s, {}, S_CACHE + 1);
    IdleSame(s, s1);
    ReviveAllocated(s1, {}, tp);
    LooseInB(s1, {}, S_CACHE + 1, tp);
    var s2 := s1.(m := Unjunked(s.m, tp));
    CutSound(s2, {}, tp, size);
    var s3 := s2.(m := Cut(s2.m, tp, size), B := s2.B + {tp + 1 + size});
    var s4 := s3.(last := tp + 1 + size);
    PutLast(s3, {}, S_CACHE + 1, tp + 1 + size);
    IdleSame(s3, s4);
    AllocatedCut(s1, s2, s3, tp, s.m.Size(tp), size);
    AllocatedTrans(s, s1, s3, tp, size);
    AllocatedTrans(s, s3, s4, tp, size);
  }

  lemma LooseInB(s: State, L: set<int>, c: int, x: int)
    requires Loose(s, L, c, x)
    ensures x in s.B
  {
  }

  lemma ReuseWhole(s: State)
    requires Sound(s, {}, S_CACHE + 1) && s.last != NIL
    ensures var s' := s.(m := Unjunked(s.m, s.last), last := NIL);
            Sound(s', {}, S_CACHE + 1) && Allocated(s, s', s.last, s.m.Size(s.last))
  {
    hide Sound, InUse, Untouched, Loose;
    var s1 := s.(last := NIL);
    TakeLast(s, {}, S_CACHE + 1);
    IdleSame(s, s1);
    ReviveAllocated(s1, {}, s.last);
    AllocatedTrans(s, s1, s1.(m := Unjunked(s.m, s.last)), s.last, s.m.Size(s.last));
  }

  lemma ReuseWritesAre(m: Mem, tp: int, size: nat)
    requires 0 < size && size + 2 <= m.Size(tp) && m.Head(tp).busy && m.Head(tp).junk
    ensures var np := tp + 1 + size;
            var m1 := WithHead(m, tp, Free(size));
            var m2 := WithHead(WithSeg(m1, np, m1.Seg(tp)), np, Header(m.Size(tp) - (size + 1), true, false, true));
            var m3 := WithHead(m2, tp, m.Head(tp).(size := size));
            WithHead(m3, tp, m3.Head(tp).(junk := false)) == Cut(Unjunked(m, tp), tp, size)
  {
  }

  // ---------- searching ----------

  /** A free block that the tree offers for a request. */
  ghost predicate Offered(s: State, size: int, x: int) {
    x in s.B && !s.m.Head(x).busy && x != s.wild && MAXTINY <= s.m.Size(x) && size <= s.m.Size(x)
  }

  lemma OfferedInTree(s: State, c: int, size: int, x: int)
    requires Sound(s, {}, c) && s.wait == [] && Offered(s, size, x)
    ensures s.m.Size(x) in Keys(s.tree) && size <= s.m.Size(x)
  {
    hide WaitOk, Tiled, Bits, SegWords, Chains, JunkAt, Listed, ListsLinked, Ordered, Rep, Keys;
  }

  /** An unsuccessful search: the tree has been splayed, and nothing in it is large enough. */
  lemma NoneFound(s: State, s': State, size: int, k: int)
    requires Sound(s, {}, S_CACHE + 1) && s.wait == [] &&
             BestFit(s.cls, s'.cls, Keys(s.tree), Keys(s'.tree), size, NIL, k)
    requires IndexOk(s'.m, s'.cls, s'.tree, s'.root, s'.tiny) && IndexWrites(s.m, s'.m, s.cls, NIL) &&
             s'.m.hdr == s.m.hdr
    requires s'.B == s.B && s'.segs == s.segs && s'.wild == s.wild && s'.last == s.last && s'.cl == s.cl &&
             s'.wait == s.wait
    ensures Sound(s', {}, S_CACHE + 1) && LiveKept(s, s')
    ensures forall x :: !Offered(s', size, x)
  {
    hide IndexOk, WaitOk, Tiled, Bits, SegWords, FreeAt, Chains, JunkAt, LiveKept, Listed, Keys;
    BestFitNone(s.cls, s'.cls, Keys(s.tree), Keys(s'.tree), size, k);
    IndexListed(s.m, s.cls, s.tree, s.root, s.tiny);
    WaitKept(s.m, s'.m, s.cls, s'.cls, s.wait, NIL);
    SearchPlanted(s.m, s'.m, s.cls);
    PlantedSound(s, s', {}, S_CACHE + 1);
    forall x | Offered(s', size, x) ensures false {
      OfferedInTree(s', S_CACHE + 1, size, x);
    }
  }

  lemma SearchPlanted(m: Mem, m': Mem, cls: Classes)
    requires IndexWrites(m, m', cls, NIL) && m'.hdr == m.hdr
    ensures Planted(m, m', cls, cls, [])
  {
  }

  /** A successful search: the block found is in transit, and no smaller one would have done. */
  lemma Found(s: State, s': State, size: int, b: int, k: int)
    requires Sound(s, {}, S_CACHE + 1) && s.wait == [] &&
             BestFit(s.cls, s'.cls, Keys(s.tree), Keys(s'.tree), size, b, k) && b != NIL
    requires IndexOk(s'.m, s'.cls, s'.tree, s'.root, s'.tiny) && IndexWrites(s.m, s'.m, s.cls, NIL) &&
             s'.m.hdr == s.m.hdr
    requires k == s'.m.Size(b) && b in List(s.cls, k) && s'.cls == s.cls[k := Minus(List(s.cls, k), b)]
    requires s'.m.Size(b) == TINYSIZE ==> SegIx(s.segs, b) < |s.segs| && s'.m.Seg(b) == s.segs[SegIx(s.segs, b)].at
    requires s'.B == s.B && s'.segs == s.segs && s'.wild == s.wild && s'.last == s.last && s'.cl == s.cl &&
             s'.wait == s.wait
    ensures Sound(s', {b}, S_CACHE + 1) && LiveKept(s, s')
    ensures size <= k && b > 0 && s'.m.Head(s'.m.Next(b)).busy && s'.m.Size(b) > 0
    ensures forall x :: Offered(s', size, x) ==> k <= s'.m.Size(x)
  {
    hide IndexOk, WaitOk, Tiled, SegWords, Chains, JunkAt, LiveKept, Listed, Keys, Minus, IndexWrites, SegIx, BestFit,
         Offered, FreeAt, Bits;
    IndexListed(s.m, s.cls, s.tree, s.root, s.tiny);
    SizeSame(s.m, s'.m, b);
    MinusIndexed(s.m, s'.m, s.cls, b);
    WaitKept(s.m, s'.m, s.cls, s'.cls, s.wait, NIL);
    RemovedIndexed(s.m, s'.m, s.cls, s'.cls, s.wait, b);
    HeldFree(s, {}, b);
    FreeWhere(s, {}, S_CACHE + 1, b);
    TakeHeld(s, s', {}, S_CACHE + 1, b);
    assert {} + {b} == {b};
    NextSame(s.m, s'.m, b);
    forall x | Offered(s', size, x) ensures k <= s'.m.Size(x) {
      OfferedSame(s, s', size, x);
      OfferedInTree(s, S_CACHE + 1, size, x);
      BestFitLeast(s.cls, s'.cls, Keys(s.tree), Keys(s'.tree), size, b, k, s.m.Size(x));
    }
    BestFitSuffices(s.cls, s'.cls, Keys(s.tree), Keys(s'.tree), size, b, k);
  }

  /** A tree block of least sufficient size. */
  ghost predicate Least(s: State, size: int, x: int) {
    Offered(s, size, x) && forall y :: Offered(s, size, y) ==> s.m.Size(x) <= s.m.Size(y)
  }

  ghost predicate Unoffered(s: State, size: int) {
    forall x :: !Offered(s, size, x)
  }

  /** What a search takes out of the tree is the least of the blocks that were on offer. */
  lemma FoundLeast(s: State, cls': Classes, keys': set<int>, size: int, b: int, k: int)
    requires Sound(s, {}, S_CACHE + 1) && s.wait == [] &&
             BestFit(s.cls, cls', Keys(s.tree), keys', size, b, k) && b != NIL
    ensures Least(s, size, b)
  {
    hide Sound, Offered, Keys;
    FoundOffered(s, cls', keys', size, b, k);
    forall y | Offered(s, size, y) ensures s.m.Size(b) <= s.m.Size(y) {
      OfferedInTree(s, S_CACHE + 1, size, y);
    }
  }

  lemma FoundOffered(s: State, cls': Classes, keys': set<int>, size: int, b: int, k: int)
    requires Sound(s, {}, S_CACHE + 1) && BestFit(s.cls, cls', Keys(s.tree), keys', size, b, k) && b != NIL
    ensures Offered(s, size, b) && s.m.Size(b) == k
  {
    hide WaitOk, Tiled, Bits, SegWords, Chains, JunkAt, ListsLinked, Ordered, Rep, Keys;
    assert List(s.cls, k)[0] == b;
    assert Indexed(s.m, s.cls, b);
  }

  /** Nothing is delayed. */
  ghost predicate Quiet(s: State) {
    s.last == NIL && |s.cl| == S_CACHE + 1 && forall n :: 0 <= n < |s.cl| ==> s.cl[n] == []
  }

  /** Nothing is delayed but larger blocks. */
  ghost predicate LargeOnly(s: State) {
    |s.cl| == S_CACHE + 1 && forall n :: 0 <= n < S_CACHE ==> s.cl[n] == []
  }

  /** Nothing has happened but perhaps rotations in the tree. */
  ghost predicate Still(s: State, s': State) {
    && s'.m.hdr == s.m.hdr && s'.B == s.B && s'.segs == s.segs && s'.cls == s.cls
    && s'.wait == s.wait && s'.wild == s.wild && s'.last == s.last && s'.cl == s.cl
  }

  lemma StillSame(s: State)
    ensures Still(s, s)
  {
  }

  lemma StillOffers(s: State, s': State, size: int)
    requires Still(s, s')
    ensures forall x :: Offered(s', size, x) <==> Offered(s, size, x)
    ensures forall x :: s'.m.Size(x) == s.m.Size(x)
  {
  }

  /** One round of the search, from s over s1 to s2. */
  lemma SearchRound(s0: State, s: State, s1: State, s2: State, size: int, tp: int)
    requires Quiet(s0) ==> Still(s0, s)
    requires Quiet(s) ==> Still(s, s1)
    requires s2.m.hdr == s1.m.hdr && s2.cl == s1.cl && s2.segs == s1.segs
    requires if tp == NIL then Still(s1, s2) && Unoffered(s2, size) else Least(s1, size, tp)
    ensures Quiet(s0) && tp == NIL ==> Still(s0, s2) && Unoffered(s0, size)
    ensures Quiet(s0) && tp != NIL ==>
            Least(s0, size, tp) && s2.m.hdr == s0.m.hdr && s2.cl == s0.cl && s2.segs == s0.segs
  {
    hide Offered;
    if Quiet(s0) {
      StillOffers(s0, s, size);
      StillOffers(s, s1, size);
      if tp == NIL { StillOffers(s1, s2, size); }
    }
  }

  lemma SizeSame(m: Mem, m': Mem, b: int)
    requires m'.hdr == m.hdr
    ensures m'.Size(b) == m.Size(b)
  {
  }

  lemma NextSame(m: Mem, m': Mem, b: int)
    requires m'.hdr == m.hdr
    ensures m'.Next(b) == m.Next(b) && m'.Head(m.Next(b)) == m.Head(m.Next(b)) && m'.Size(b) == m.Size(b)
  {
  }

  lemma OfferedSame(s: State, s': State, size: int, x: int)
    requires Offered(s', size, x) && s'.m.hdr == s.m.hdr && s'.B == s.B && s'.wild == s.wild
    ensures Offered(s, size, x) && s'.m.Size(x) == s.m.Size(x)
  {
  }

  lemma BestFitLeast(cls: Classes, cls': Classes, keys: set<int>, keys': set<int>, size: int, b: int, k: int, x: int)
    requires BestFit(cls, cls', keys, keys', size, b, k) && b != NIL && x in keys && size <= x
    ensures k <= x
  {
  }

  lemma BestFitSuffices(cls: Classes, cls': Classes, keys: set<int>, keys': set<int>, size: int, b: int, k: int)
    requires BestFit(cls, cls', keys, keys', size, b, k) && b != NIL
    ensures size <= k
  {
  }

  // ---------- growing a segment in place ----------

  /** The end marker has become a free block, behind which a new one has been set up. */
  ghost predicate TopHeaders(m: Mem, m': Mem, g: Segment, e: nat) {
    && e >= 2
    && m' == m.(hdr := m'.hdr, seg := m'.seg)
    && m'.Head(g.end) == Free(e - 1) && m'.Head(g.end + e) == Header(0, true, false, false)
    && m'.Seg(g.end + e) == g.at && m'.Seg(g.end) == m.Seg(g.end)
    && forall x :: x != g.end && x != g.end + e ==> m'.Head(x) == m.Head(x) && m'.Seg(x) == m.Seg(x)
  }

  function WithEnd(segs: seq<Segment>, j: nat, e: nat): seq<Segment>
    requires j < |segs|
  {
    segs[j := Segment(segs[j].at, segs[j].end + e)]
  }

  /** Segment j may be e units longer without touching the one above it. */
  predicate Above(segs: seq<Segment>, j: nat, e: nat)
    requires j < |segs|
  {
    j == 0 || segs[j].end + e < segs[j - 1].at
  }

  /** A block is below the end of segment j, or above all that the segment may become. */
  lemma BesideEnd(m: Mem, B: set<int>, segs: seq<Segment>, j: nat, e: nat, b: int)
    requires Tiled(m, B, segs) && b in B && j < |segs| && Above(segs, j, e)
    ensures (b <= segs[j].end && (m.Size(b) > 0 ==> m.Next(b) <= segs[j].end)) || b > segs[j].end + e
  {
    hide SegIx;
    assert Inside(m, segs, b);
    var i := SegIx(segs, b);
    if m.Size(b) > 0 {
      NextSeg(m, B, segs, b);
      assert Inside(m, segs, m.Next(b));
    }
    if 0 < i < j { assert segs[j - 1].at <= segs[i].at; }
  }

  lemma TopIx(segs: seq<Segment>, j: nat, e: nat, b: int)
    requires SegsOk(segs) && j < |segs| && SegIx(segs, b) < |segs| && Above(segs, j, e)
    ensures SegsOk(WithEnd(segs, j, e)) && SegIx(WithEnd(segs, j, e), b) == SegIx(segs, b)
  {
    var i := SegIx(segs, b);
    assert segs[i].at < b <= segs[i].end;
    RaisedOk(segs, j, e);
    SegIxIs(WithEnd(segs, j, e), b, i);
  }

  lemma RaisedOk(segs: seq<Segment>, j: nat, e: nat)
    requires SegsOk(segs) && j < |segs| && Above(segs, j, e)
    ensures SegsOk(WithEnd(segs, j, e))
  {
    forall i | 0 <= i < j ensures segs[j].end + e < segs[i].at {
      if i < j - 1 { assert segs[j - 1].end < segs[i].at; }
    }
  }

  lemma TopTiled(m: Mem, m': Mem, B: set<int>, segs: seq<Segment>, j: nat, e: nat)
    requires Tiled(m, B, segs) && j < |segs| && TopHeaders(m, m', segs[j], e) && Above(segs, j, e)
    ensures Tiled(m', B + {segs[j].end + e}, WithEnd(segs, j, e))
    ensures segs[j].end + e !in B && segs[j].end in B && SegIx(WithEnd(segs, j, e), segs[j].end + e) == j
  {
    hide SegIx, Tiled, TopHeaders;
    TiledParts(m, B, segs);
    TopHead(m, m', segs, j, e);
    forall b | b in B
      ensures (b <= segs[j].end && (m.Size(b) > 0 ==> m.Next(b) <= segs[j].end)) || b > segs[j].end + e
    {
      BesideEnd(m, B, segs, j, e, b);
    }
    TopFirst(m, B, segs, j);
    TopIx(segs, j, e, segs[j].end);
    TopMark(segs, j, e);
    TopInside(m, m', B, segs, j, e);
    TopApartAll(m, m', B, segs, j, e);
    TopApart(m, m', B, segs[j].end, segs[j].end + e);
    TopEnds(B, segs, j, e);
    AsTiled(m', B + {segs[j].end + e}, WithEnd(segs, j, e));
  }

  lemma TopFirst(m: Mem, B: set<int>, segs: seq<Segment>, j: nat)
    requires Tiled(m, B, segs) && j < |segs|
    ensures segs[j].end in B && m.Size(segs[j].end) == 0 && SegIx(segs, segs[j].end) == j && segs[j].end > 0
  {
    hide SegIx;
    TiledParts(m, B, segs);
    SegIxIs(segs, segs[j].end, j);
    assert Inside(m, segs, segs[j].end);
  }

  lemma TopHead(m: Mem, m': Mem, segs: seq<Segment>, j: nat, e: nat)
    requires j < |segs| && TopHeaders(m, m', segs[j], e)
    ensures e >= 2
  {
  }

  lemma TopMark(segs: seq<Segment>, j: nat, e: nat)
    requires j < |segs| && SegsOk(WithEnd(segs, j, e)) && e >= 2 && SegsOk(segs)
    ensures SegIx(WithEnd(segs, j, e), segs[j].end + e) == j
  {
    SegIxIs(WithEnd(segs, j, e), segs[j].end + e, j);
  }

  lemma TopApartAll(m: Mem, m': Mem, B: set<int>, segs: seq<Segment>, j: nat, e: nat)
    requires j < |segs| && TopHeaders(m, m', segs[j], e) &&
             forall b :: b in B ==> b <= segs[j].end || b > segs[j].end + e
    ensures forall b :: b in B && b != segs[j].end ==> m'.Head(b) == m.Head(b)
    ensures m'.Next(segs[j].end) == segs[j].end + e && m'.Size(segs[j].end + e) == 0
  {
  }

  lemma TopEnds(B: set<int>, segs: seq<Segment>, j: nat, e: nat)
    requires EndsIn(B, segs) && j < |segs|
    ensures EndsIn(B + {segs[j].end + e}, WithEnd(segs, j, e))
  {
  }

  lemma TopInside(m: Mem, m': Mem, B: set<int>, segs: seq<Segment>, j: nat, e: nat)
    requires AllInside(m, B, segs) && j < |segs| && TopHeaders(m, m', segs[j], e) && SegsOk(segs)
    requires Above(segs, j, e)
    requires SegIx(WithEnd(segs, j, e), segs[j].end + e) == j
    ensures AllInside(m', B + {segs[j].end + e}, WithEnd(segs, j, e))
  {
    hide SegIx, SegsOk;
    forall b | b in B + {segs[j].end + e} ensures Inside(m', WithEnd(segs, j, e), b) {
      if b in B {
        assert Inside(m, segs, b);
        TopIx(segs, j, e, b);
        if b == segs[j].end { TopEndOnly(segs, j, b); }
      } else {
        TopRoom(segs, j);
      }
    }
  }

  lemma TopRoom(segs: seq<Segment>, j: nat)
    requires SegsOk(segs) && j < |segs|
    ensures First(segs[j]) < segs[j].end
  {
  }

  lemma TopEndOnly(segs: seq<Segment>, j: nat, b: int)
    requires SegsOk(segs) && j < |segs| && b == segs[j].end
    ensures SegIx(segs, b) == j
  {
    SegIxIs(segs, b, j);
  }

  lemma TopApart(m: Mem, m': Mem, B: set<int>, E: int, N: int)
    requires Closed(m, B) && Apart(m, B) && E < N
    requires forall b :: b in B ==> (b <= E && (m.Size(b) > 0 ==> m.Next(b) <= E)) || b > N
    requires forall b :: b in B && b != E ==> m'.Head(b) == m.Head(b)
    requires m'.Next(E) == N && m'.Size(N) == 0
    ensures Closed(m', B + {N}) && Apart(m', B + {N})
  {
    assert forall b {:trigger m'.Next(b)} :: b in B && b != E ==> m'.Next(b) == m.Next(b);
    forall b, x | b in B + {N} && x in B + {N} && b < x ensures m'.Next(b) <= x {
      if b in B && b != E {
        assert x in B ==> m.Next(b) <= x;
        assert x == N ==> b <= E && m.Next(b) <= E + 1;
      }
    }
  }

  /** Two blocks with the same successor are the same. */
  lemma PredUnique(m: Mem, B: set<int>, b: int, p: int)
    requires Apart(m, B) && b in B && p in B && m.Next(b) == m.Next(p)
    ensures b == p
  {
  }

  lemma TopBits(m: Mem, m': Mem, B: set<int>, L: set<int>, segs: seq<Segment>, j: nat, e: nat, p: int)
    requires Bits(m, B, L, segs) && j < |segs| && TopHeaders(m, m', segs[j], e) && Closed(m, B) && Apart(m, B)
    requires segs[j].end in B && segs[j].end + e !in B && First(segs[j]) + 2 <= segs[j].end && m.Size(segs[j].end) == 0
    requires forall i :: 0 <= i < |segs| ==> First(segs[i]) in B
    requires !m.Head(segs[j].end).pfree || (p in L && m.Next(p) == segs[j].end && m.Size(p) > 0)
    ensures Bits(m', B + {segs[j].end + e}, L + {segs[j].end}, WithEnd(segs, j, e))
  {
    hide NextBits, Closed, Apart;
    TopNextBits(m, m', B, L, segs, j, e, p);
  }

  lemma TopNextBits(m: Mem, m': Mem, B: set<int>, L: set<int>, segs: seq<Segment>, j: nat, e: nat, p: int)
    requires NextBits(m, B, L) && j < |segs| && TopHeaders(m, m', segs[j], e) && Closed(m, B) && Apart(m, B)
    requires segs[j].end in B && segs[j].end + e !in B && m.Size(segs[j].end) == 0
    requires m.Head(segs[j].end).busy
    requires !m.Head(segs[j].end).pfree || (p in L && p in B && m.Next(p) == segs[j].end && m.Size(p) > 0)
    ensures NextBits(m', B + {segs[j].end + e}, L + {segs[j].end})
  {
    var E := segs[j].end;
    assert forall b {:trigger m'.Next(b)} :: b in B && b != E ==> m'.Next(b) == m.Next(b);
    assert m'.Next(E) == E + e;
    forall b | b in B && m.Size(b) > 0 && b !in L && b != E ensures m'.Head(m.Next(b)).pfree == !m'.Head(b).busy {
      if m.Next(b) == E && m.Head(E).pfree { PredUnique(m, B, b, p); }
    }
  }

  lemma TopFreeAt(s: State, m': Mem, L: set<int>, j: nat, e: nat)
    requires FreeAt(s.m, s.B, L, s.segs, s.cls, s.wait, s.wild) && (j == 0 ==> s.wild == NIL) &&
             j < |s.segs| && TopHeaders(s.m, m', s.segs[j], e)
    requires s.segs[j].end in s.B && s.segs[j].end + e !in s.B && s.m.Head(s.segs[j].end).busy
    requires forall x :: Held(m', s.cls, s.wait, x) <==> Held(s.m, s.cls, s.wait, x)
    requires forall b {:trigger s.m.Next(b)} :: b in s.B ==> s.m.Next(b) != s.segs[j].end + e
    ensures FreeAt(m', s.B + {s.segs[j].end + e}, L + {s.segs[j].end}, WithEnd(s.segs, j, e), s.cls, s.wait, s.wild)
  {
    hide Held;
    assert forall b {:trigger m'.Next(b)} :: b in s.B && b != s.segs[j].end ==> m'.Next(b) == s.m.Next(b);
  }

  lemma TopNotEnd(m: Mem, B: set<int>, segs: seq<Segment>, j: nat, e: nat)
    requires Tiled(m, B, segs) && j < |segs| && Above(segs, j, e) && e >= 2
    ensures forall b {:trigger m.Next(b)} :: b in B ==> m.Next(b) != segs[j].end + e
  {
    forall b | b in B ensures m.Next(b) != segs[j].end + e { BesideEnd(m, B, segs, j, e, b); }
  }

  lemma TopSegWords(s: State, m': Mem, j: nat, e: nat)
    requires SegWords(s.m, s.B, s.segs, s.cls) && j < |s.segs| && TopHeaders(s.m, m', s.segs[j], e) && SegsOk(s.segs)
    requires SegIx(WithEnd(s.segs, j, e), s.segs[j].end + e) == j && s.segs[j].end + e !in s.B
    requires Above(s.segs, j, e) && AllInside(s.m, s.B, s.segs)
    ensures SegWords(m', s.B + {s.segs[j].end + e}, WithEnd(s.segs, j, e), s.cls)
  {
    hide SegIx, SegsOk;
    forall b | b in s.B ensures SegIx(WithEnd(s.segs, j, e), b) == SegIx(s.segs, b) < |s.segs| {
      assert Inside(s.m, s.segs, b);
      TopIx(s.segs, j, e, b);
    }
  }

  lemma TopJunk(m: Mem, m': Mem, B: set<int>, last: int, cl: seq<seq<int>>, g: Segment, e: nat)
    requires JunkAt(m, B, last, cl, S_CACHE + 1) && TopHeaders(m, m', g, e) && g.end in B && g.end + e !in B &&
             !m.Head(g.end).junk
    ensures JunkAt(m', B + {g.end + e}, last, cl, S_CACHE + 1)
  {
  }

  /** The old end marker becomes a free block in transit; its predecessor is not free or in transit too. */
  lemma GrowTop(s: State, m': Mem, L: set<int>, j: nat, e: nat, p: int)
    requires Sound(s, L, S_CACHE + 1) && j < |s.segs| && TopHeaders(s.m, m', s.segs[j], e) && Above(s.segs, j, e)
    requires j == 0 ==> s.wild == NIL
    requires !s.m.Head(s.segs[j].end).pfree || (p in L && s.m.Next(p) == s.segs[j].end && s.m.Size(p) > 0)
    ensures var s' := s.(m := m', B := s.B + {s.segs[j].end + e}, segs := WithEnd(s.segs, j, e));
            Sound(s', L + {s.segs[j].end}, S_CACHE + 1) && Idle(s, s')
  {
    hide IndexOk, WaitOk, Tiled, Bits, SegWords, FreeAt, JunkAt, Chains, Held, InUse, Untouched, TopHeaders, SegIx;
    var E := s.segs[j].end;
    TiledParts(s.m, s.B, s.segs);
    TopFirst(s.m, s.B, s.segs, j);
    TopTiled(s.m, m', s.B, s.segs, j, e);
    UnheldOutside(s, L, E + e);
    EndBits(s.m, s.B, L, s.segs, E);
    BusyNotHeld(s, L, E);
    TopWords(s.m, m', s.segs[j], e);
    CutIndex(s.m, m', s.cls, s.tree, s.root, s.tiny, s.wait, E, E + e);
    TopBits(s.m, m', s.B, L, s.segs, j, e, p);
    TopNotEnd(s.m, s.B, s.segs, j, e);
    TopFreeAt(s, m', L, j, e);
    TopSegWords(s, m', j, e);
    TopJunk(s.m, m', s.B, s.last, s.cl, s.segs[j], e);
    ChainsFrame(s.m, m', s.cl);
    TopUse(s, m', j, e);
  }

  lemma EndBits(m: Mem, B: set<int>, L: set<int>, segs: seq<Segment>, b: int)
    requires Bits(m, B, L, segs) && b in B && m.Size(b) == 0
    ensures m.Head(b).busy && !m.Head(b).junk
  {
  }

  lemma TopWords(m: Mem, m': Mem, g: Segment, e: nat)
    requires TopHeaders(m, m', g, e)
    ensures m' == m.(hdr := m'.hdr, seg := m'.seg) && e >= 2
    ensures forall x :: x != g.end && x != g.end + e ==> m'.Head(x) == m.Head(x) && m'.Seg(x) == m.Seg(x)
  {
  }

  lemma TopUse(s: State, m': Mem, j: nat, e: nat)
    requires Tiled(s.m, s.B, s.segs) && j < |s.segs| && TopHeaders(s.m, m', s.segs[j], e) && Above(s.segs, j, e)
    requires s.segs[j].end in s.B && s.segs[j].end + e !in s.B && s.m.Size(s.segs[j].end) == 0
    ensures var s' := s.(m := m', B := s.B + {s.segs[j].end + e}, segs := WithEnd(s.segs, j, e));
            InUse(s') == InUse(s) && Untouched(s, s', NIL)
  {
    hide Tiled;
    forall b | b in InUse(s) ensures Kept(s.m, m', b) {
      BesideEnd(s.m, s.B, s.segs, j, e, b);
    }
  }

  /** The wild block goes to the delayed list of its class. */
  function Retired(s: State): State
    requires |s.cl| == S_CACHE + 1 && 0 <= CIndex(s.m.Size(s.wild)) <= S_CACHE
  {
    var k := CIndex(s.m.Size(s.wild));
    s.(m := WithLink(Tamed(s.m, s.wild), s.wild, Nth(s.cl[k], 0)), cl := Pushed(s.cl, k, s.wild), wild := NIL)
  }

  /** The delayed lists after the wild block has been retired. */
  ghost predicate RetiredTo(s: State, cl': seq<seq<int>>) {
    var k := CIndex(s.m.Size(s.wild));
    s.wild != NIL && 0 <= k < |s.cl| && cl' == Pushed(s.cl, k, s.wild)
  }

  lemma RetireWild(s: State)
    requires Sound(s, {}, S_CACHE + 1) && s.wild != NIL
    ensures |s.cl| == S_CACHE + 1 && 0 <= CIndex(s.m.Size(s.wild)) <= S_CACHE
    ensures Sound(Retired(s), {}, S_CACHE + 1) && Idle(s, Retired(s))
  {
    hide Sound, InUse, Untouched, Loose, LiveKept, Tamed;
    WildNext(s, {}, S_CACHE + 1);
    SoundSegs(s, {}, S_CACHE + 1);
    TameWild(s, S_CACHE + 1);
    TamedHead(s.m, s.wild);
    var k := CIndex(s.m.Size(s.wild));
    var s1 := s.(m := Tamed(s.m, s.wild), wild := NIL);
    PushList(s1, WithLink(s1.m, s.wild, Nth(s.cl[k], 0)), {}, S_CACHE + 1, s.wild, k);
    KeptIdle(s1, Retired(s));
    IdleTrans(s, s1, Retired(s));
  }

  lemma TamedHead(m: Mem, w: int)
    ensures Tamed(m, w).Size(w) == m.Size(w)
  {
  }

  /** The header writes of vmextend for a new segment, in its order. */
  function SegmentWrites(m: Mem, g: Segment): Mem
    requires First(g) + 2 <= g.end
  {
    var m1 := WithHead(WithSeg(m, First(g), g.at), First(g), Free(g.end - First(g) - 1));
    WithHead(WithSeg(m1, m1.Next(First(g)), g.at), m1.Next(First(g)), Header(0, true, false, false))
  }

  lemma SegmentWritesAre(m: Mem, g: Segment)
    requires First(g) + 2 <= g.end
    ensures var m' := SegmentWrites(m, g);
            NewHeaders(m, m', g) && m'.Size(First(g)) == g.end - First(g) - 1 && m'.Next(First(g)) == g.end &&
            m'.Head(g.end).busy
  {
  }

  lemma RetireCommutes(m: Mem, w: int, h: int, g: Segment)
    requires First(g) + 2 <= g.end && w != First(g) && w != g.end && m.Next(w) != First(g) && m.Next(w) != g.end
    ensures NewHeaders(WithLink(Tamed(m, w), w, h), WithLink(Tamed(SegmentWrites(m, g), w), w, h), g)
    ensures Tamed(SegmentWrites(m, g), w).Head(First(g)) == SegmentWrites(m, g).Head(First(g))
    ensures Tamed(SegmentWrites(m, g), w).Head(g.end) == SegmentWrites(m, g).Head(g.end)
  {
    hide SegmentWrites;
    SegmentWritesAre(m, g);
    var m1 := SegmentWrites(m, g);
    assert m1.Head(w) == m.Head(w) && m1.Head(m.Next(w)) == m.Head(m.Next(w)) && m1.Next(w) == m.Next(w);
    var a, b := WithLink(Tamed(m, w), w, h), WithLink(Tamed(m1, w), w, h);
    assert b == a.(hdr := b.hdr, seg := b.seg);
    forall x | x != First(g) && x != g.end ensures b.Head(x) == a.Head(x) && b.Seg(x) == a.Seg(x) {
      assert m1.Head(x) == m.Head(x) && m1.Seg(x) == m.Seg(x);
    }
  }

  lemma TamedShown(m: Mem, w: int)
    requires m.Next(w) != w
    ensures var m1 := WithHead(m, m.Next(w), m.Head(m.Next(w)).(pfree := false));
            WithHead(m1, w, m1.Head(w).(busy := true, junk := true)) == Tamed(m, w)
  {
  }

  lemma SoundOutside(s: State, c: int, p: int, g: Segment, b: int)
    requires Sound(s, {}, c) && Fits(s.segs, p, g) && b in s.B
    ensures b != First(g) && b != g.end
  {
    hide IndexOk, WaitOk, Tiled, SegWords, FreeAt, Chains, JunkAt, Bits;
    NewOutside(s.m, s.B, s.segs, p, g, b);
  }

  lemma SegmentShown(m: Mem, g: Segment)
    requires First(g) + 2 <= g.end
    ensures var m1 := WithHead(WithSeg(m, First(g), g.at), First(g), Free(g.end - First(g) - 1));
            && m1.Next(First(g)) == g.end
            && SegmentWrites(m, g) == WithHead(WithSeg(m1, g.end, g.at), g.end, Header(0, true, false, false))
  {
  }

  lemma SegmentKeeps(m: Mem, m': Mem, g: Segment, w: int)
    requires NewHeaders(m, m', g) && w != First(g) && w != g.end
    ensures m'.Head(w) == m.Head(w) && m'.Seg(w) == m.Seg(w) && m'.Next(w) == m.Next(w)
  {
  }

  lemma TopOfWith(segs: seq<Segment>, p: int, g: Segment)
    requires SegsOk(segs) && Fits(segs, p, g) && |segs| > 0
    ensures WithSegment(segs, p, g)[0] == (if p == 0 then g else segs[0])
    ensures p == 0 ==> g.at != segs[0].at
  {
  }

  /** The header writes of vmextend in growing a segment, when its last block was not free. */
  function TopWrites(m: Mem, g: Segment, e: nat): Mem
    requires e >= 2
  {
    WithHead(WithSeg(WithHead(m, g.end, Free(e - 1)), g.end + e, g.at), g.end + e, Header(0, true, false, false))
  }

  lemma TopWritesAre(m: Mem, g: Segment, e: nat)
    requires e >= 2
    ensures TopHeaders(m, TopWrites(m, g, e), g, e) && TopWrites(m, g, e).Size(g.end) == e - 1 &&
            TopWrites(m, g, e).Next(g.end) == g.end + e
    ensures WithHead(m, g.end, Free(e - 1)).Next(g.end) == g.end + e
  {
  }

  /** Without a free block before the end marker of the first segment there is no wild block. */
  lemma TopNoWild(s: State, L: set<int>, c: int, j: nat)
    requires Sound(s, L, c) && j < |s.segs|
    ensures j == 0 && !s.m.Head(s.segs[0].end).pfree ==> s.wild == NIL
    ensures s.segs[j].end in s.B && s.segs[j].end > 0 && s.m.Size(s.segs[j].end) == 0
    ensures s.m.Head(s.segs[j].end).busy && Unlisted(s.cl, s.segs[j].end)
    ensures s.last != NIL ==> s.segs[j].end != s.last
  {
    hide IndexOk, WaitOk, SegWords, Chains, Held, SegIx, Separate;
    TopFirst(s.m, s.B, s.segs, j);
    FreeUnlisted(s, c, s.segs[j].end);
  }

  /** A segment grows by e units, its last block not being free. */
  lemma GrowFresh(s: State, j: nat, e: nat)
    requires Sound(s, {}, S_CACHE + 1) && j < |s.segs| && e >= 2 && !s.m.Head(s.segs[j].end).pfree &&
             Above(s.segs, j, e)
    ensures var E := s.segs[j].end;
            var s' := s.(m := TopWrites(s.m, s.segs[j], e), B := s.B + {E + e}, segs := WithEnd(s.segs, j, e));
            Sound(s', {E}, S_CACHE + 1) && Idle(s, s')
  {
    hide Sound, Idle, TopWrites, TopHeaders;
    TopNoWild(s, {}, S_CACHE + 1, j);
    TopWritesAre(s.m, s.segs[j], e);
    GrowTop(s, TopWrites(s.m, s.segs[j], e), {}, j, e, NIL);
    assert {} + {s.segs[j].end} == {s.segs[j].end};
  }

  /** The first segment grows by e units, and with it its last block, which is in transit. */
  lemma GrowLast(s: State, m': Mem, e: nat, bp: int)
    requires Sound(s, {bp}, S_CACHE + 1) && |s.segs| > 0 && e >= 2 && s.m.Next(bp) == s.segs[0].end && s.m.Size(bp) > 0
    requires s.last == NIL
    requires var E := s.segs[0].end;
             m' == WithHead(WithSeg(WithHead(s.m, bp, Free(s.m.Size(bp) + e)), E + e, s.segs[0].at), E + e,
                 Header(0, true, false, false))
    ensures var E := s.segs[0].end;
            var s' := s.(m := m', B := s.B + {E + e} - {E}, segs := WithEnd(s.segs, 0, e));
            Sound(s', {bp}, S_CACHE + 1) && Idle(s, s')
  {
    hide Sound, InUse, Untouched, TopWrites, TopHeaders, LiveKept, Unlisted;
    var E, m2 := s.segs[0].end, TopWrites(s.m, s.segs[0], e);
    SoundNext(s, {bp}, S_CACHE + 1, bp);
    TopWild(s, {bp}, S_CACHE + 1, bp);
    TopNoWild(s, {bp}, S_CACHE + 1, 0);
    TopWritesAre(s.m, s.segs[0], e);
    GrowTop(s, m2, {bp}, 0, e, bp);
    var s2 := s.(m := m2, B := s.B + {E + e}, segs := WithEnd(s.segs, 0, e));
    TopAbsorbed(s.m, m', s.segs[0], e, bp);
    AbsorbSound(s2, m', {bp} + {E}, S_CACHE + 1, S_CACHE + 1, bp, E);
    assert {bp} + {E} - {E} == {bp};
    KeptIdle(s2, s2.(m := m', B := s2.B - {E}));
    IdleTrans(s, s2, s2.(m := m', B := s2.B - {E}));
  }

  lemma TopWild(s: State, L: set<int>, c: int, f: int)
    requires Sound(s, L, c) && f in L && |s.segs| > 0 && s.m.Next(f) == s.segs[0].end
    ensures s.wild == NIL
  {
  }

  lemma TopAbsorbed(m: Mem, m': Mem, g: Segment, e: nat, bp: int)
    requires e >= 2 && m.Next(bp) == g.end && m.Size(bp) > 0
    requires m' == WithHead(WithSeg(WithHead(m, bp, Free(m.Size(bp) + e)), g.end + e, g.at), g.end + e,
             Header(0, true, false, false))
    ensures var m2 := TopWrites(m, g, e);
            && HeadsAt(m2, m', bp, g.end) && m'.self == m2.self
            && m2.Size(bp) == m.Size(bp) && m2.Next(bp) == g.end && m2.Size(g.end) == e - 1
            && m'.Head(bp) == Free(m2.Size(bp) + 1 + m2.Size(g.end)) && !Live(m2, g.end)
  {
  }

  lemma WildUnique(s: State, L: set<int>, c: int, bp: int)
    requires Sound(s, L, c) && s.wild != NIL && |s.segs| > 0 && bp in s.B && s.m.Next(bp) == s.segs[0].end
    ensures bp == s.wild
  {
  }

  lemma TopShown(m: Mem, g: Segment, e: nat)
    requires e >= 2
    ensures TopWrites(m, g, e) == WithHead(WithSeg(WithHead(m, g.end, Free(e - 1)), g.end + e, g.at), g.end + e,
            Header(0, true, false, false))
  {
  }

  /** The client has given block b back; nothing else has changed for him. */
  ghost predicate Freed(s: State, s': State, b: int) {
    b != NIL && b in InUse(s) && InUse(s') == InUse(s) - {b} && Untouched(s, s', b)
  }

  lemma FreedTrans(s: State, s': State, s'': State, b: int)
    requires Freed(s, s', b) && Idle(s', s'')
    ensures Freed(s, s'', b)
  {
    hide InUse, Untouched;
    UntouchedBut(s', s'', b);
    UntouchedTrans(s, s', s'', b);
  }

  function Junked(m: Mem, x: int): Mem { WithHead(m, x, m.Head(x).(junk := true)) }

  /** SETJUNK on a block in use. */
  lemma FreeLoose(s: State, b: int)
    requires Sound(s, {}, S_CACHE + 1) && b in InUse(s)
    ensures var s' := s.(m := Junked(s.m, b));
            Loose(s', {}, S_CACHE + 1, b) && Freed(s, s', b) && s'.m.Size(b) == s.m.Size(b) > 0 && |s.cl| == S_CACHE + 1
  {
    hide Sound, Untouched, Loose;
    SoundLists(s, {}, S_CACHE + 1);
    UseSize(s, b);
    assert JunkBit(s.m, Junked(s.m, b), b);
    MarkJunk(s, Junked(s.m, b), {}, S_CACHE + 1, b);
    LooseIs(s.(m := Junked(s.m, b)), {}, S_CACHE + 1, b);
    JunkBitUse(s, Junked(s.m, b), b);
    UntouchedBut(s, s.(m := Junked(s.m, b)), b);
  }

  /** Block r in use has become k units long; nothing else has changed for the client. */
  ghost predicate Enlarged(s: State, s': State, r: int, k: nat) {
    r in InUse(s) && InUse(s)[r] <= k && InUse(s') == InUse(s)[r := k] && Untouched(s, s', NIL)
  }

  lemma EnlargedSame(s: State, r: int)
    requires r in InUse(s)
    ensures Enlarged(s, s, r, s.m.Size(r)) && InUse(s)[r] == s.m.Size(r) > 0 && r in s.B && Live(s.m, r)
  {
  }

  lemma EnlargedTrans(s: State, s': State, s'': State, r: int, k: nat, k': nat)
    requires Enlarged(s, s', r, k) && (Enlarged(s', s'', r, k') || (k' == k && Idle(s', s'')))
    ensures Enlarged(s, s'', r, k')
  {
    hide InUse, Untouched;
    UntouchedBut(s, s', r);
    UntouchedBut(s', s'', r);
    EnlargedUntouched(s, s', s'', r);
    assert InUse(s)[r := k][r := k'] == InUse(s)[r := k'];
  }

  lemma EnlargedUntouched(s: State, s': State, s'': State, r: int)
    requires r in InUse(s) && r in InUse(s') && InUse(s)[r] <= InUse(s')[r]
    requires forall b :: b in InUse(s) && b != r ==> b in InUse(s') && InUse(s')[b] == InUse(s)[b]
    requires Untouched(s, s', NIL) && Untouched(s', s'', NIL)
    ensures Untouched(s, s'', NIL)
  {
    hide InUse;
    forall b | b in InUse(s) ensures Kept(s.m, s''.m, b) {
      assert Kept(s.m, s'.m, b) && Kept(s'.m, s''.m, b);
      UseSize(s, b);
      UseSize(s', b);
    }
  }

  /** A live block takes in its successor, which is in transit or a loose junk block. */
  lemma GrowUsed(s: State, L: set<int>, c: int, r: int, n: int)
    requires (Sound(s, L, c) && n in L) || Loose(s, L, c, n)
    requires r in InUse(s) && n == s.m.Next(r)
    ensures var s' := s.(m := Extended(s.m, r, n), B := s.B - {n});
            && Sound(s', L - {n}, c) && n in s.B && s.m.Size(n) > 0 && s'.m.Size(r) == s.m.Size(r) + 1 + s.m.Size(n)
            && Enlarged(s, s', r, s'.m.Size(r))
  {
    hide Sound, Loose, Extended, Untouched;
    UseSize(s, r);
    GrowSound(s, L, c, r, n);
    ExtendedHeads(s.m, r, n);
  }

  /** Block n is in transit, or a junk block on no list. */
  ghost predicate InHand(s: State, n: int) {
    Sound(s, {n}, S_CACHE + 1) || Loose(s, {}, S_CACHE + 1, n)
  }

  lemma SoundInHand(s: State, n: int)
    requires Sound(s, {n}, S_CACHE + 1)
    ensures InHand(s, n)
  {
  }

  lemma LooseInHand(s: State, n: int)
    requires Loose(s, {}, S_CACHE + 1, n)
    ensures InHand(s, n)
  {
  }

  lemma GrowInHand(s: State, r: int, n: int)
    requires InHand(s, n) && r in InUse(s) && n == s.m.Next(r)
    ensures var s' := s.(m := Extended(s.m, r, n), B := s.B - {n});
            && Sound(s', {}, S_CACHE + 1) && n in s.B && s.m.Size(n) > 0
            && s'.m.Size(r) == s.m.Size(r) + 1 + s.m.Size(n) && Enlarged(s, s', r, s'.m.Size(r))
  {
    hide Sound, Loose, Extended, Enlarged, InUse;
    if Sound(s, {n}, S_CACHE + 1) {
      GrowUsed(s, {n}, S_CACHE + 1, r, n);
      assert {n} - {n} == {};
    } else {
      GrowUsed(s, {}, S_CACHE + 1, r, n);
      assert {} - {n} == {};
    }
  }

  lemma NextOfUsed(s: State, L: set<int>, c: int, r: int)
    requires Sound(s, L, c) && r in InUse(s)
    ensures var n := s.m.Next(r);
            && r in s.B && Live(s.m, r) && s.m.Size(r) > 0 && n in s.B && n != r && r > 0 && n > 0
            && (!Live(s.m, n) ==> s.m.Size(n) > 0) && (!s.m.Head(n).busy && n !in L ==> s.m.Head(s.m.Next(n)).busy)
            && (s.m.Head(n).junk ==> s.m.Head(n).busy)
  {
    hide IndexOk, WaitOk, SegWords, Chains, Held, SegIx, SegsOk, Separate, FreeAt, JunkAt;
    UseSize(s, r);
    NextIn(s.m, s.B, s.segs, r);
    BlockPositive(s.m, s.B, s.segs, r);
    BlockPositive(s.m, s.B, s.segs, s.m.Next(r));
  }

  lemma EnlargedIn(s: State, s': State, r: int, k: nat)
    requires Enlarged(s, s', r, k)
    ensures r in InUse(s') && s'.m.Size(r) == k && InUse(s)[r] <= k
  {
  }

  lemma ExtendedShown(m: Mem, r: int, n: int)
    requires n == m.Next(r) && m.Size(n) > 0
    ensures var m1 := WithHead(m, r, m.Head(r).(size := m.Size(r) + 1 + m.Size(n)));
            m1.Next(r) == m.Next(n) && WithHead(m1, m1.Next(r), m1.Head(m1.Next(r)).(pfree := false)) ==
                Extended(m, r, n)
  {
  }

  lemma IdleUse(s: State, s': State)
    requires Idle(s, s')
    ensures InUse(s') == InUse(s)
    ensures forall b :: b in InUse(s) ==> s'.m.Size(b) == s.m.Size(b)
  {
  }

  // ---------- growing the segment under a block in use ----------

  /** The header word of an address that is no block does not matter. */
  lemma StaleSound(s: State, m': Mem, L: set<int>, c: int, x: int)
    requires Sound(s, L, c) && x !in s.B && HeadsAt(s.m, m', x, x) && m'.self == s.m.self
    requires m'.Head(x).junk == s.m.Head(x).junk
    ensures var s' := s.(m := m'); Sound(s', L, c) && Idle(s, s')
  {
    hide IndexOk, WaitOk, Tiled, Bits, SegWords, FreeAt, JunkAt, Chains, Held, InUse, Untouched;
    UnheldOutside(s, L, x);
    IndexHeads(s.m, m', s.cls, s.tree, s.root, s.tiny, s.wait, x, x);
    assert forall b :: b in s.B ==> m'.Head(b) == s.m.Head(b);
    StaleTiled(s, m');
    StaleBits(s, m', L);
    StaleFree(s, m', L);
    StaleJunk(s, m', c);
    ChainsFrame(s.m, m', s.cl);
    StaleUse(s, m');
  }

  lemma StaleTiled(s: State, m': Mem)
    requires Tiled(s.m, s.B, s.segs) && forall b :: b in s.B ==> m'.Head(b) == s.m.Head(b)
    ensures Tiled(m', s.B, s.segs)
  {
    hide SegIx, Closed, Apart, Inside, SegsOk;
    StaleInside(s.m, m', s.B, s.segs);
    StaleApart(s.m, m', s.B);
  }

  lemma StaleInside(m: Mem, m': Mem, B: set<int>, segs: seq<Segment>)
    requires AllInside(m, B, segs) && forall b :: b in B ==> m'.Head(b) == m.Head(b)
    ensures AllInside(m', B, segs)
  {
    hide SegIx;
    forall b | b in B ensures Inside(m', segs, b) { assert Inside(m, segs, b); }
  }

  lemma StaleApart(m: Mem, m': Mem, B: set<int>)
    requires Closed(m, B) && Apart(m, B) && forall b :: b in B ==> m'.Head(b) == m.Head(b)
    ensures Closed(m', B) && Apart(m', B)
  {
    assert forall b {:trigger m'.Next(b)} :: b in B ==> m'.Next(b) == m.Next(b);
  }

  lemma StaleBits(s: State, m': Mem, L: set<int>)
    requires Bits(s.m, s.B, L, s.segs) && Tiled(s.m, s.B, s.segs) && m'.self == s.m.self
    requires forall b :: b in s.B ==> m'.Head(b) == s.m.Head(b)
    ensures Bits(m', s.B, L, s.segs)
  {
    hide SegIx;
    forall b | b in s.B ensures m'.Next(b) == s.m.Next(b) && (s.m.Size(b) > 0 ==> s.m.Next(b) in s.B) {
      if s.m.Size(b) > 0 { NextIn(s.m, s.B, s.segs, b); }
    }
  }

  lemma StaleFree(s: State, m': Mem, L: set<int>)
    requires FreeAt(s.m, s.B, L, s.segs, s.cls, s.wait, s.wild) && SegWords(s.m, s.B, s.segs, s.cls)
    requires forall b :: b in s.B ==> m'.Head(b) == s.m.Head(b)
    requires m' == s.m.(hdr := m'.hdr) && forall x :: Held(m', s.cls, s.wait, x) <==> Held(s.m, s.cls, s.wait, x)
    ensures FreeAt(m', s.B, L, s.segs, s.cls, s.wait, s.wild) && SegWords(m', s.B, s.segs, s.cls)
  {
    hide Held;
    assert forall b {:trigger m'.Next(b)} :: b in s.B ==> m'.Next(b) == s.m.Next(b);
  }

  lemma StaleJunk(s: State, m': Mem, c: int)
    requires JunkAt(s.m, s.B, s.last, s.cl, c) && forall b :: b in s.B ==> m'.Head(b) == s.m.Head(b)
    requires forall b :: m'.Head(b).junk == s.m.Head(b).junk
    ensures JunkAt(m', s.B, s.last, s.cl, c)
  {
    forall n, i | 0 <= n <= S_CACHE && 0 <= i < |s.cl[n]| ensures Entry(m', s.B, n, c, s.cl[n][i]) {
      assert Entry(s.m, s.B, n, c, s.cl[n][i]);
    }
    forall b | b in s.B && m'.Head(b).junk ensures b == s.last || JunkListed(m', s.cl, b) {
      assert b == s.last || JunkListed(s.m, s.cl, b);
    }
  }

  lemma StaleUse(s: State, m': Mem)
    requires m' == s.m.(hdr := m'.hdr) && forall b :: b in s.B ==> m'.Head(b) == s.m.Head(b)
    ensures Idle(s, s.(m := m'))
  {
    assert forall b :: b in s.B ==> Live(m', b) == Live(s.m, b) && m'.Size(b) == s.m.Size(b);
  }

  /** The writes of bestresize in growing a segment under its last block r, which is in use. */
  function UnderWrites(m: Mem, r: int, g: Segment, e: nat): Mem {
    WithHead(WithSeg(WithHead(m, r, m.Head(r).(size := m.Size(r) + e)), g.end + e, g.at), g.end + e,
             Header(0, true, false, false))
  }

  lemma UnderIs(m: Mem, r: int, g: Segment, e: nat)
    requires m.Next(r) == g.end && e >= 2
    ensures WithHead(m, r, m.Head(r).(size := m.Size(r) + e)).Next(r) == g.end + e
    ensures UnderWrites(m, r, g, e).Size(r) == m.Size(r) + e
    ensures UnderWrites(m, r, g, e) ==
            WithHead(WithSeg(WithHead(m, r, m.Head(r).(size := m.Size(r) + e)), g.end + e, g.at), g.end + e,
                     Header(0, true, false, false))
  {
  }

  lemma UnderShown(m: Mem, r: int, g: Segment, e: nat)
    requires e >= 2 && m.Next(r) == g.end && m.Size(r) > 0
    ensures var m2 := TopWrites(m, g, e);
            && HeadsAt(Extended(m2, r, g.end), UnderWrites(m, r, g, e), g.end, g.end)
            && UnderWrites(m, r, g, e).Head(g.end) == m.Head(g.end) && !Extended(m2, r, g.end).Head(g.end).junk
            && UnderWrites(m, r, g, e).self == m2.self == Extended(m2, r, g.end).self && m2.Next(r) == g.end &&
               m2.Size(g.end) == e - 1
  {
  }

  lemma GrowUnder(s: State, j: nat, r: int, e: nat)
    requires Sound(s, {}, S_CACHE + 1) && j < |s.segs| && e >= 2 && r in InUse(s) && s.m.Next(r) == s.segs[j].end
    requires Above(s.segs, j, e)
    ensures var E := s.segs[j].end;
            var s' := s.(m := UnderWrites(s.m, r, s.segs[j], e), B := s.B + {E + e} - {E},
                segs := WithEnd(s.segs, j, e));
            Sound(s', {}, S_CACHE + 1) && Enlarged(s, s', r, s.m.Size(r) + e)
  {
    hide Sound, Idle, TopWrites, Extended, UnderWrites, Enlarged, InUse;
    var g := s.segs[j];
    NextOfUsed(s, {}, S_CACHE + 1, r);
    UseNoPfree(s, r);
    TopNoWild(s, {}, S_CACHE + 1, j);
    MarkPlain(s, g.end);
    GrowFresh(s, j, e);
    var s2 := s.(m := TopWrites(s.m, g, e), B := s.B + {g.end + e}, segs := WithEnd(s.segs, j, e));
    IdleUse(s, s2);
    UnderShown(s.m, r, g, e);
    GrowUsed(s2, {g.end}, S_CACHE + 1, r, g.end);
    var s3 := s2.(m := Extended(s2.m, r, g.end), B := s2.B - {g.end});
    assert {g.end} - {g.end} == {};
    StaleSound(s3, UnderWrites(s.m, r, g, e), {}, S_CACHE + 1, g.end);
    var s' := s3.(m := UnderWrites(s.m, r, g, e));
    EnlargedSame(s, r);
    EnlargedIdle(s, s2, r, s.m.Size(r));
    EnlargedTrans(s, s2, s3, r, s.m.Size(r), s.m.Size(r) + e);
    EnlargedTrans(s, s3, s', r, s.m.Size(r) + e, s.m.Size(r) + e);
  }

  lemma MarkPlain(s: State, x: int)
    requires Sound(s, {}, S_CACHE + 1) && x in s.B && s.m.Size(x) == 0
    ensures !s.m.Head(x).junk
  {
    hide IndexOk, WaitOk, SegWords, FreeAt, JunkAt, Chains, Tiled;
  }

  lemma EnlargedIdle(s: State, s': State, r: int, k: nat)
    requires Enlarged(s, s, r, k) && Idle(s, s')
    ensures Enlarged(s, s', r, k)
  {
    hide InUse, Untouched;
  }

  /** Behind a block in use PFREE is not set. */
  lemma UseNoPfree(s: State, r: int)
    requires Sound(s, {}, S_CACHE + 1) && r in InUse(s)
    ensures !s.m.Head(s.m.Next(r)).pfree
  {
    hide IndexOk, WaitOk, SegWords, FreeAt, JunkAt, Chains, Tiled;
    UseSize(s, r);
  }

  function Min(a: int, b: int): int { if a < b then a else b }

  /** Block r is now k units long, and what it keeps of its units has not been written to. */
  ghost predicate Resized(s: State, s': State, r: int, k: nat) {
    && r != NIL && r in InUse(s) && InUse(s') == InUse(s)[r := k] && Untouched(s, s', r)
    && KeptTo(s.m, s'.m, r, Min(InUse(s)[r], k))
  }

  /** The client has block b of k units in place of block r. */
  ghost predicate Moved(s: State, s': State, r: int, b: int, k: nat) {
    && b != NIL && r != NIL && r in InUse(s) && b !in InUse(s)
    && InUse(s') == InUse(s)[b := k] - {r} && Untouched(s, s', r)
  }

  lemma EnlargedResized(s: State, s': State, r: int, k: nat)
    requires Enlarged(s, s', r, k) && r != NIL
    ensures Resized(s, s', r, k)
  {
    UntouchedBut(s, s', r);
    assert Kept(s.m, s'.m, r);
  }

  lemma ResizedTrans(s: State, s': State, s'': State, r: int, k: nat)
    requires Resized(s, s', r, k) && Idle(s', s'')
    ensures Resized(s, s'', r, k)
  {
    hide InUse, Untouched, SameWords;
    UntouchedBut(s', s'', r);
    UntouchedTrans(s, s', s'', r);
    UntouchedAt(s', s'', r);
    UseSize(s', r);
    KeptToTrans(s.m, s'.m, s''.m, r, Min(InUse(s)[r], k), k);
  }

  lemma UntouchedAt(s: State, s': State, r: int)
    requires Untouched(s, s', NIL) && r in InUse(s)
    ensures KeptTo(s.m, s'.m, r, s.m.Size(r))
  {
    assert Kept(s.m, s'.m, r);
  }

  lemma KeptToTrans(m: Mem, m': Mem, m'': Mem, b: int, i: int, j: int)
    requires KeptTo(m, m', b, i) && KeptTo(m', m'', b, j) && i <= j
    ensures KeptTo(m, m'', b, i)
  {
  }

  /** A block that has grown is cut to the size asked for. */
  lemma CutResized(s: State, s': State, r: int, k: nat, size: nat)
    requires Enlarged(s, s', r, k) && Sound(s', {}, S_CACHE + 1) && 0 < size && size + 2 <= k && r != NIL
    ensures var np := r + 1 + size; var s'' := s'.(m := Cut(s'.m, r, size), B := s'.B + {np});
            Loose(s'', {}, S_CACHE + 1, np) && Resized(s, s'', r, size)
  {
    hide Sound, Untouched, Loose, Cut, InUse, SameWords;
    EnlargedIn(s, s', r, k);
    UseSize(s', r);
    CutSound(s', {}, r, size);
    var s'' := s'.(m := Cut(s'.m, r, size), B := s'.B + {r + 1 + size});
    UntouchedBut(s, s', r);
    UntouchedTrans(s, s', s'', r);
    assert InUse(s)[r := k][r := size] == InUse(s)[r := size];
    UntouchedAt(s, s', r);
    UseSize(s, r);
    CutKept(s'.m, r, size);
    KeptToTrans2(s.m, s'.m, s''.m, r, InUse(s)[r], size);
  }

  lemma CutKept(m: Mem, r: int, size: nat)
    requires size + 2 <= m.Size(r)
    ensures KeptTo(m, Cut(m, r, size), r, size)
  {
    CutHeads(m, r, size);
  }

  lemma KeptToTrans2(m: Mem, m': Mem, m'': Mem, b: int, i: int, j: int)
    requires KeptTo(m, m', b, i) && KeptTo(m', m'', b, j)
    ensures KeptTo(m, m'', b, Min(i, j))
  {
  }

  lemma CutShown(m: Mem, r: int, size: nat)
    requires size + 2 <= m.Size(r)
    ensures var h := m.Head(r);
            var m1 := WithHead(m, r, Free(size));
            var np := m1.Next(r);
            var m2 := WithHead(WithSeg(m1, np, m1.Seg(r)), np, Header(h.size - size - 1, true, false, true));
            np == r + 1 + size && WithHead(m2, r, h.(size := size)) == Cut(m, r, size)
  {
  }

  /** The old block is given back after a new one has been obtained. */
  lemma MovedFreed(s: State, s': State, s'': State, s3: State, r: int, j: nat, b: int, k: nat)
    requires Enlarged(s, s', r, j) && Allocated(s', s'', b, k) && Freed(s'', s3, r)
    ensures Moved(s, s3, r, b, k)
  {
    hide InUse, Untouched;
    UntouchedBut(s, s', r);
    UntouchedBut(s', s'', r);
    UntouchedTrans(s, s', s'', r);
    UntouchedTrans(s, s'', s3, r);
    assert InUse(s)[r := j][b := k] - {r} == InUse(s)[b := k] - {r};
  }

  /** A new block does not overlap one that was in use already. */
  lemma AllocatedApart(s: State, s': State, b: int, k: nat, r: int)
    requires Allocated(s, s', b, k) && Sound(s', {}, S_CACHE + 1) && r in InUse(s)
    ensures r in InUse(s') && InUse(s')[r] == InUse(s)[r] == s.m.Size(r) && b in InUse(s') && r != b
    ensures (b + k < r || r + InUse(s)[r] < b) && b > 0 && r > 0
  {
    hide Sound, InUse, Untouched;
    InUsePositive(s', r);
    InUsePositive(s', b);
    UseSize(s, r);
    InUseApart(s', {}, S_CACHE + 1, b);
  }

  lemma InUsePositive(s: State, b: int)
    requires Sound(s, {}, S_CACHE + 1)
    ensures b in InUse(s) ==> b > 0
  {
    hide IndexOk, WaitOk, SegWords, Chains, FreeAt, JunkAt, Bits;
    AllPositive(s.m, s.B, s.segs);
  }

  /** The ways a resize of block r to `size` units can end: done where it is; failed, with the block
      still in use and no smaller; or moved. */
  ghost predicate ResizeDone(s: State, s': State, r: int, res: int, size: nat, k: nat) {
    && r in InUse(s)
    && if res == NIL then Resized(s, s', r, k) && InUse(s)[r] <= k
       else if res == r + 1 then Resized(s, s', r, k) && size <= k
       else Moved(s, s', r, res - 1, k) && size <= k
  }

  lemma EnlargedFrom(s: State, s': State, r: int, k: nat)
    requires Enlarged(s, s', r, k)
    ensures r in InUse(s) && InUse(s)[r] <= k
  {
  }

  lemma AllocatedIn(s: State, s': State, b: int, k: nat)
    requires Allocated(s, s', b, k)
    ensures b in InUse(s')
  {
  }

  /** An arena without memory. */
  lemma EmptySound(s: State)
    requires s.m == Mem(map[], map[], map[], map[], map[], map[]) && s.B == {} && s.segs == [] && s.cls == map[]
    requires s.tree == Leaf && s.root == NIL && s.tiny == [NIL, NIL, NIL, NIL, NIL, NIL, NIL] && s.wait == []
    requires s.wild == NIL && s.last == NIL && s.cl == [[], [], [], [], [], [], []]
    ensures Sound(s, {}, S_CACHE + 1) && InUse(s) == map[]
  {
    hide IndexOk, JunkAt, Chains, Linked;
    EmptyIndex(s);
    EmptyJunk(s);
    EmptyLinked(s.m);
    assert [TREE_NODE] + s.wait == [TREE_NODE];
    assert WaitOk(s.m, s.cls, s.wait);
    assert FreeAt(s.m, s.B, {}, s.segs, s.cls, s.wait, s.wild);
    assert InUse(s).Keys == {};
  }

  lemma EmptyLinked(m: Mem)
    requires m == Mem(map[], map[], map[], map[], map[], map[])
    ensures Linked(m, MAXTINY, [TREE_NODE])
  {
  }

  lemma EmptyIndex(s: State)
    requires s.m == Mem(map[], map[], map[], map[], map[], map[]) && s.cls == map[]
    requires s.tree == Leaf && s.root == NIL && s.tiny == [NIL, NIL, NIL, NIL, NIL, NIL, NIL]
    ensures IndexOk(s.m, s.cls, s.tree, s.root, s.tiny)
  {
  }

  lemma EmptyJunk(s: State)
    requires s.m == Mem(map[], map[], map[], map[], map[], map[]) && s.B == {}
    requires s.last == NIL && s.cl == [[], [], [], [], [], [], []]
    ensures JunkAt(s.m, s.B, s.last, s.cl, S_CACHE + 1) && Chains(s.m, s.cl)
  {
  }

  /** No junk is left, and no two neighbours are both out of use. */
  ghost predicate Coalesced(s: State) {
    && (forall b {:trigger s.m.Head(b)} :: b in s.B ==> !s.m.Head(b).junk)
    && (forall b {:trigger s.m.Next(b)} :: b in s.B && !Live(s.m, b) ==> s.m.Next(b) in s.B && Live(s.m, s.m.Next(b)))
  }

  lemma AllCoalesced(s: State)
    requires Sound(s, {}, S_CACHE + 1) && s.last == NIL && forall n :: 0 <= n < |s.cl| ==> s.cl[n] == []
    ensures Coalesced(s)
  {
    hide Sound;
    SoundWeaker(s, {}, S_CACHE + 1, 0);
    JunkLeft(s, {}, 0);
    NoneBelow(s);
    forall b | b in s.B && !s.m.Head(b).busy ensures s.m.Next(b) in s.B && s.m.Head(s.m.Next(b)).busy {
      FreeWhere(s, {}, S_CACHE + 1, b);
    }
  }

  /** Every block that could be junk has a class from 0 on. */
  lemma NoneBelow(s: State)
    requires Sound(s, {}, S_CACHE + 1)
    ensures forall b :: b in s.B && s.m.Head(b).junk ==> CIndex(s.m.Size(b)) >= 0
  {
    hide IndexOk, WaitOk, Tiled, SegWords, FreeAt, JunkAt, Chains;
  }
}
