/** The whole arena as one value, and how merging, taking and splitting blocks keep it sound. */
module ArenaSound {
  import opened VmMemory
  import opened FreeTree
  import opened Index
  import opened Arena
  import opened Steps

  datatype State = State(m: Mem, B: set<int>, segs: seq<Segment>,
                         cls: Classes, tree: Tree, root: int, tiny: seq<int>, wait: seq<int>,
                         wild: int, last: int, cl: seq<seq<int>>)

  /** Everything but the delayed blocks. */
  ghost predicate FreeSound(s: State, L: set<int>) {
    && IndexOk(s.m, s.cls, s.tree, s.root, s.tiny) && WaitOk(s.m, s.cls, s.wait)
    && Tiled(s.m, s.B, s.segs)
    && Bits(s.m, s.B, L, s.segs)
    && SegWords(s.m, s.B, s.segs, s.cls)
    && FreeAt(s.m, s.B, L, s.segs, s.cls, s.wait, s.wild)
  }

  /** The invariant of the arena while blocks L are in transit and lists c and above are being drained. */
  ghost predicate Sound(s: State, L: set<int>, c: int) {
    && FreeSound(s, L)
    && JunkAt(s.m, s.B, s.last, s.cl, c)
    && Chains(s.m, s.cl)
  }

  ghost predicate Live(m: Mem, b: int) { m.Head(b).busy && !m.Head(b).junk }

  /** The link words kept in the header of b and in the k units behind it are the same. */
  ghost predicate KeptTo(m: Mem, m': Mem, b: int, k: int) {
    forall a :: b <= a <= b + k ==> SameWords(m, m', a) && Read(m'.self, a) == Read(m.self, a)
  }

  /** No word of block b differs, but for the bits in its header. */
  ghost predicate Kept(m: Mem, m': Mem, b: int) {
    KeptTo(m, m', b, m.Size(b))
  }

  ghost predicate AllKept(s: State, m': Mem) {
    forall b {:trigger Kept(s.m, m', b)} :: b in s.B && Live(s.m, b) ==> Kept(s.m, m', b)
  }

  ghost predicate LiveSame(s: State, s': State) {
    && s'.B <= s.B && s'.segs == s.segs
    && (forall b :: b in s.B && Live(s.m, b) ==> b in s'.B && Live(s'.m, b) && s'.m.Size(b) == s.m.Size(b))
    && (forall b :: b in s'.B && Live(s'.m, b) ==> Live(s.m, b))
  }

  /** Live blocks (and end markers) are the same in both states, and the allocator has written to
      none of their words, up to the PFREE bit. */
  ghost predicate LiveKept(s: State, s': State) {
    LiveSame(s, s') && AllKept(s, s'.m)
  }

  lemma AllKeptSame(s: State, m': Mem)
    requires m' == s.m.(hdr := m'.hdr)
    ensures AllKept(s, m')
  {
  }

  lemma KeptTrans(m: Mem, m': Mem, m'': Mem, b: int)
    requires Kept(m, m', b) && Kept(m', m'', b) && m'.Size(b) == m.Size(b)
    ensures Kept(m, m'', b)
  {
  }

  lemma LiveKeptTrans(s: State, s': State, s'': State)
    requires LiveKept(s, s') && LiveKept(s', s'')
    ensures LiveKept(s, s'')
  {
    forall b | b in s.B && Live(s.m, b) ensures Kept(s.m, s''.m, b) {
      KeptTrans(s.m, s'.m, s''.m, b);
    }
  }

  lemma HeldKept(s: State, m: Mem, m': Mem, L: set<int>, f: int)
    requires Tiled(s.m, s.B, s.segs) && FreeAt(s.m, s.B, L, s.segs, s.cls, s.wait, s.wild) && AllKept(s, m)
    requires forall a :: a > 0 && a != f && !Held(s.m, s.cls, s.wait, a) ==> SameWords(m, m', a)
    requires m'.self == m.self && (f == NIL || (f in s.B && !Live(s.m, f)))
    ensures AllKept(s, m')
  {
    hide Tiled, Held, SameWords, Kept;
    forall b | b in s.B && Live(s.m, b) ensures Kept(s.m, m', b) {
      HeldKeptAt(s, m, m', L, f, b);
    }
  }

  lemma HeldKeptAt(s: State, m: Mem, m': Mem, L: set<int>, f: int, b: int)
    requires Tiled(s.m, s.B, s.segs) && FreeAt(s.m, s.B, L, s.segs, s.cls, s.wait, s.wild)
    requires forall a :: a > 0 && a != f && !Held(s.m, s.cls, s.wait, a) ==> SameWords(m, m', a)
    requires m'.self == m.self && (f == NIL || (f in s.B && !Live(s.m, f)))
    requires b in s.B && Live(s.m, b) && Kept(s.m, m, b)
    ensures Kept(s.m, m', b)
  {
    hide SegsOk, EndsIn, Closed, SegIx, Held;
    forall a | b <= a <= b + s.m.Size(b) ensures SameWords(s.m, m', a) {
      BlockPositive(s.m, s.B, s.segs, b);
      assert a in s.B && b < a ==> s.m.Next(b) <= a;
      assert SameWords(m, m', a);
    }
  }

  lemma RemovedKept(s: State, m': Mem, cls': Classes, wait': seq<int>, L: set<int>, b: int)
    requires Tiled(s.m, s.B, s.segs) && FreeAt(s.m, s.B, L, s.segs, s.cls, s.wait, s.wild)
    requires Removed(s.m, m', s.cls, cls', s.wait, wait', b) && b in s.B && !Live(s.m, b)
    ensures AllKept(s, m')
  {
    hide Tiled, FreeAt, Held, SameWords;
    AllKeptSame(s, s.m);
    HeldKept(s, s.m, m', L, b);
  }

  lemma AddedKept(s: State, m: Mem, m': Mem, cls': Classes, wait': seq<int>, L: set<int>, b: int)
    requires Tiled(s.m, s.B, s.segs) && FreeAt(s.m, s.B, L, s.segs, s.cls, s.wait, s.wild) && AllKept(s, m)
    requires forall b :: Held(m, s.cls, s.wait, b) <==> Held(s.m, s.cls, s.wait, b)
    requires Added(m, m', s.cls, cls', s.wait, wait', b) && b in s.B && !Live(s.m, b)
    ensures AllKept(s, m')
  {
    hide Tiled, FreeAt, Held, SameWords, AllKept;
    HeldKept(s, m, m', L, b);
  }

  /** The last data word of a block that is not live belongs to no live block. */
  lemma SelfKept(s: State, m': Mem, f: int)
    requires Tiled(s.m, s.B, s.segs) && f in s.B && !Live(s.m, f) && s.m.Size(f) > 0
    requires m' == s.m.(hdr := m'.hdr, self := m'.self)
    requires forall x :: x != s.m.Next(f) ==> m'.Last(x) == s.m.Last(x)
    ensures AllKept(s, m')
  {
    hide SegsOk, EndsIn, SegIx;
    forall b, a | b in s.B && Live(s.m, b) && b <= a <= b + s.m.Size(b)
      ensures SameWords(s.m, m', a) && Read(m'.self, a) == Read(s.m.self, a)
    {
      assert (b < f ==> s.m.Next(b) <= f) && (f < b ==> s.m.Next(f) <= b);
      assert Read(m'.self, a) == m'.Last(a + 1) && Read(s.m.self, a) == s.m.Last(a + 1);
    }
  }

  // ---------- merging ----------

  /** Entries of the delayed lists are neither held by the index nor blocks in transit. */
  lemma EntryApart(s: State, L: set<int>, c: int, n: int, i: int)
    requires Sound(s, L, c) && 0 <= n <= S_CACHE && 0 <= i < |s.cl[n]|
    ensures s.cl[n][i] > 0 && !Held(s.m, s.cls, s.wait, s.cl[n][i]) && s.cl[n][i] !in L && s.cl[n][i] != s.wild
  {
  }

  lemma ChainsFrame(m: Mem, m': Mem, cl: seq<seq<int>>)
    requires Chains(m, cl)
    requires forall n, i :: 0 <= n < |cl| && 0 <= i < |cl[n]| ==> m'.Link(cl[n][i]) == m.Link(cl[n][i])
    ensures Chains(m', cl)
  {
    forall n | 0 <= n < |cl| ensures Chain(m', cl[n]) { assert Chain(m, cl[n]); }
  }

  /** Block f, in transit, takes in its successor n, which is in transit too, or junk. */
  lemma AbsorbSound(s: State, m': Mem, L: set<int>, c: int, c': int, f: int, n: int)
    requires Sound(s, L, c) && c' <= c
    requires f in L && s.m.Size(f) > 0 && n == s.m.Next(f) && s.m.Size(n) > 0
    requires HeadsAt(s.m, m', f, n) && m'.self == s.m.self
    requires m'.Head(f) == Free(s.m.Size(f) + 1 + s.m.Size(n))
    requires n in L || (s.m.Head(n).junk && (Unlisted(s.cl, n) || (!m'.Head(n).junk && c' <= CIndex(s.m.Size(n)))))
    requires n in L ==> Unlisted(s.cl, n)
    requires n != s.last
    ensures Sound(s.(m := m', B := s.B - {n}), L - {n}, c')
    ensures !Live(s.m, n) ==> LiveKept(s, s.(m := m', B := s.B - {n}))
    ensures m'.Next(f) == s.m.Next(n)
  {
    hide IndexOk, WaitOk, Tiled, Bits, SegWords, Chains, Held, FreeAt, JunkAt;
    AbsorbFree(s, m', L, f, n);
    assert JunkAt(m', s.B - {n}, s.last, s.cl, c') by {
      InTransit(s, L, f);
      AbsorbJunk(s.m, m', s.B, s.last, s.cl, c, c', f, n);
    }
    ChainsFrame(s.m, m', s.cl);
  }

  lemma InTransit(s: State, L: set<int>, f: int)
    requires Bits(s.m, s.B, L, s.segs) && f in L
    ensures f in s.B && !s.m.Head(f).busy && !s.m.Head(f).junk && !s.m.Head(f).pfree
  {
  }

  lemma AbsorbFree(s: State, m': Mem, L: set<int>, f: int, n: int)
    requires FreeSound(s, L)
    requires f in L && s.m.Size(f) > 0 && n == s.m.Next(f) && s.m.Size(n) > 0
    requires HeadsAt(s.m, m', f, n) && m'.self == s.m.self
    requires m'.Head(f) == Free(s.m.Size(f) + 1 + s.m.Size(n))
    requires n in L || s.m.Head(n).junk
    ensures FreeSound(s.(m := m', B := s.B - {n}), L - {n})
    ensures n in s.B && f in s.B && f != n && !Live(s.m, n) ==> LiveKept(s, s.(m := m', B := s.B - {n}))
    ensures n in s.B && f in s.B && f != n
    ensures m'.Next(f) == s.m.Next(n)
  {
    hide IndexOk, WaitOk, Tiled, Bits, SegWords, Held, FreeAt;
    InTransit(s, L, f);
    NextIn(s.m, s.B, s.segs, f);
    NotHeld(s, L, f);
    NotHeld(s, L, n);
    IndexHeads(s.m, m', s.cls, s.tree, s.root, s.tiny, s.wait, f, n);
    AbsorbTiled(s.m, m', s.B, s.segs, f, n);
    AbsorbBits(s.m, m', s.B, L, s.segs, f, n);
    assert SegWords(m', s.B - {n}, s.segs, s.cls) by { SegWordsLess(s, m', n); }
    assert FreeAt(m', s.B - {n}, L - {n}, s.segs, s.cls, s.wait, s.wild) by { AbsorbFreeAt(s, m', L, f, n); }
  }

  lemma NextIn(m: Mem, B: set<int>, segs: seq<Segment>, f: int)
    requires Tiled(m, B, segs) && f in B && m.Size(f) > 0
    ensures m.Next(f) in B && m.Next(f) != f
  {
  }

  /** Blocks in transit and junk blocks are not held by the index. */
  lemma NotHeld(s: State, L: set<int>, b: int)
    requires FreeAt(s.m, s.B, L, s.segs, s.cls, s.wait, s.wild) && Bits(s.m, s.B, L, s.segs)
    requires b in L || (b in s.B && s.m.Head(b).junk)
    ensures !Held(s.m, s.cls, s.wait, b) && (s.wild != NIL ==> b != s.wild)
  {
    hide Held;
  }

  lemma SegWordsLess(s: State, m': Mem, n: int)
    requires SegWords(s.m, s.B, s.segs, s.cls) && m'.seg == s.m.seg
    ensures SegWords(m', s.B - {n}, s.segs, s.cls)
  {
  }

  lemma AbsorbFreeAt(s: State, m': Mem, L: set<int>, f: int, n: int)
    requires FreeAt(s.m, s.B, L, s.segs, s.cls, s.wait, s.wild) && Bits(s.m, s.B, L, s.segs)
    requires f in L && f != n && HeadsAt(s.m, m', f, n) && !m'.Head(f).busy
    requires n in L || s.m.Head(n).junk
    requires !Held(s.m, s.cls, s.wait, n) && (s.wild != NIL ==> n != s.wild && f != s.wild)
    requires forall b :: Held(m', s.cls, s.wait, b) <==> Held(s.m, s.cls, s.wait, b)
    ensures FreeAt(m', s.B - {n}, L - {n}, s.segs, s.cls, s.wait, s.wild)
  {
    hide Held;
    assert forall b {:trigger m'.Next(b)} :: b != f && b != n ==> m'.Next(b) == s.m.Next(b);
  }

  // ---------- blocks coming into transit ----------

  lemma TakeWild(s: State, L: set<int>, c: int)
    requires Sound(s, L, c) && s.wild != NIL
    ensures Sound(s.(wild := NIL), L + {s.wild}, c)
    ensures s.wild in s.B && s.wild !in L && Unlisted(s.cl, s.wild) && s.wild != s.last
  {
    hide IndexOk, WaitOk, Tiled, SegWords, Chains, Held;
    FreeUnlisted(s, c, s.wild);
    InTransitMore(s, L, s.wild);
  }

  lemma InTransitMore(s: State, L: set<int>, b: int)
    requires Bits(s.m, s.B, L, s.segs) && b in s.B && !s.m.Head(b).busy
    ensures Bits(s.m, s.B, L + {b}, s.segs)
  {
  }

  lemma FreeUnlisted(s: State, c: int, b: int)
    requires JunkAt(s.m, s.B, s.last, s.cl, c) && b in s.B && !s.m.Head(b).junk
    ensures Unlisted(s.cl, b) && (s.last != NIL ==> b != s.last)
  {
  }

  /** A block that REMOVE has taken out of the index. */
  lemma TakeHeld(s: State, s': State, L: set<int>, c: int, b: int)
    requires Sound(s, L, c) && Held(s.m, s.cls, s.wait, b)
    requires IndexOk(s'.m, s'.cls, s'.tree, s'.root, s'.tiny) && WaitOk(s'.m, s'.cls, s'.wait)
    requires Removed(s.m, s'.m, s.cls, s'.cls, s.wait, s'.wait, b)
    requires s'.m.Size(b) == TINYSIZE ==> SegIx(s.segs, b) < |s.segs| && s'.m.Seg(b) == s.segs[SegIx(s.segs, b)].at
    requires s'.B == s.B && s'.segs == s.segs && s'.wild == s.wild && s'.last == s.last && s'.cl == s.cl
    ensures Sound(s', L + {b}, c)
    ensures b in s.B && b !in L && !s.m.Head(b).busy && Unlisted(s.cl, b) && LiveKept(s, s')
    ensures s.last != NIL ==> b != s.last
  {
    hide IndexOk, WaitOk, Tiled, SegWords, Chains, Held, Bits, JunkAt, Removed, FreeAt, AllKept;
    RemovedHdr(s.m, s'.m, s.cls, s'.cls, s.wait, s'.wait, b);
    HeldFree(s, L, b);
    TiledParts(s.m, s.B, s.segs);
    FreeUnlisted(s, c, b);
    InTransitMore(s, L, b);
    assert FreeAt(s'.m, s'.B, L + {b}, s'.segs, s'.cls, s'.wait, s'.wild) by { TakeHeldFreeAt(s, s', L, b); }
    assert SegWords(s'.m, s'.B, s'.segs, s'.cls) by { TakeHeldSegs(s, s', L, b); }
    assert Chains(s'.m, s.cl) by { TakeHeldChains(s, s', L, c, b); }
    HdrSame(s.m, s'.m, s.B, L + {b}, s.segs, s.last, s.cl, c);
    RemovedKept(s, s'.m, s'.cls, s'.wait, L, b);
  }

  lemma RemovedHdr(m: Mem, m': Mem, cls: Classes, cls': Classes, wait: seq<int>, wait': seq<int>, b: int)
    requires Removed(m, m', cls, cls', wait, wait', b)
    ensures m'.hdr == m.hdr && m'.self == m.self
  {
  }

  lemma HeldFree(s: State, L: set<int>, b: int)
    requires FreeAt(s.m, s.B, L, s.segs, s.cls, s.wait, s.wild) && Bits(s.m, s.B, L, s.segs) &&
             Held(s.m, s.cls, s.wait, b)
    ensures b in s.B && !s.m.Head(b).busy && !s.m.Head(b).junk && b !in L && (s.wild != NIL ==> b != s.wild)
  {
    hide Held;
  }

  lemma TakeHeldFreeAt(s: State, s': State, L: set<int>, b: int)
    requires FreeAt(s.m, s.B, L, s.segs, s.cls, s.wait, s.wild) && b in s.B
    requires Removed(s.m, s'.m, s.cls, s'.cls, s.wait, s'.wait, b)
    requires s'.B == s.B && s'.segs == s.segs && s'.wild == s.wild && (s.wild != NIL ==> b != s.wild)
    ensures FreeAt(s'.m, s'.B, L + {b}, s'.segs, s'.cls, s'.wait, s'.wild)
  {
    hide Held;
    assert forall x {:trigger s'.m.Next(x)} :: s'.m.Next(x) == s.m.Next(x);
  }

  lemma TakeHeldSegs(s: State, s': State, L: set<int>, b: int)
    requires SegWords(s.m, s.B, s.segs, s.cls) && FreeAt(s.m, s.B, L, s.segs, s.cls, s.wait, s.wild)
    requires IndexOk(s.m, s.cls, s.tree, s.root, s.tiny) && WaitOk(s.m, s.cls, s.wait)
    requires Removed(s.m, s'.m, s.cls, s'.cls, s.wait, s'.wait, b) && AllInside(s.m, s.B, s.segs) && SegsOk(s.segs)
    requires s'.m.Size(b) == TINYSIZE ==> SegIx(s.segs, b) < |s.segs| && s'.m.Seg(b) == s.segs[SegIx(s.segs, b)].at
    requires s'.B == s.B && s'.segs == s.segs
    ensures SegWords(s'.m, s'.B, s'.segs, s'.cls)
  {
    hide IndexOk, FreeAt, SegIx;
    IndexListed(s.m, s.cls, s.tree, s.root, s.tiny);
    WaitIsNew(s.m, s.cls, s.wait);
    hide WaitOk;
    forall x | x in s.B && x !in List(s'.cls, TINYSIZE)
      ensures SegIx(s.segs, x) < |s.segs| && s'.m.Seg(x) == s.segs[SegIx(s.segs, x)].at
    {
      assert Inside(s.m, s.segs, x);
      if x != b && s.m.Size(x) == TINYSIZE { assert SameWords(s.m, s'.m, x); }
    }
  }

  lemma TakeHeldChains(s: State, s': State, L: set<int>, c: int, b: int)
    requires Sound(s, L, c) && Removed(s.m, s'.m, s.cls, s'.cls, s.wait, s'.wait, b)
    ensures Chains(s'.m, s.cl)
  {
    hide IndexOk, WaitOk, Tiled, SegWords, Chains, Held, FreeAt, Bits;
    forall n, i | 0 <= n < |s.cl| && 0 <= i < |s.cl[n]| ensures s'.m.Link(s.cl[n][i]) == s.m.Link(s.cl[n][i]) {
      EntryApart(s, L, c, n, i);
      assert SameWords(s.m, s'.m, s.cl[n][i]);
    }
    ChainsFrame(s.m, s'.m, s.cl);
  }

  /** Predicates that only look at headers and SELF words. */
  lemma HdrSame(m: Mem, m': Mem, B: set<int>, L: set<int>, segs: seq<Segment>, last: int, cl: seq<seq<int>>, c: int)
    requires m'.hdr == m.hdr && m'.self == m.self
    ensures Tiled(m, B, segs) ==> Tiled(m', B, segs)
    ensures Bits(m, B, L, segs) ==> Bits(m', B, L, segs)
    ensures JunkAt(m, B, last, cl, c) ==> JunkAt(m', B, last, cl, c)
    ensures forall b :: m'.Head(b) == m.Head(b)
  {
    hide Separate, SegIx, SegsOk;
    if Tiled(m, B, segs) { SameSizesTiled(m, m', B, segs); }
    if JunkAt(m, B, last, cl, c) { JunkSame(m, m', B, last, cl, c); }
    if Bits(m, B, L, segs) { BitsSame(m, m', B, L, segs); }
  }

  lemma JunkSame(m: Mem, m': Mem, B: set<int>, last: int, cl: seq<seq<int>>, c: int)
    requires JunkAt(m, B, last, cl, c) && forall b :: m'.Head(b) == m.Head(b)
    ensures JunkAt(m', B, last, cl, c)
  {
  }

  lemma BitsSame(m: Mem, m': Mem, B: set<int>, L: set<int>, segs: seq<Segment>)
    requires Bits(m, B, L, segs) && m'.hdr == m.hdr && m'.self == m.self
    ensures Bits(m', B, L, segs)
  {
    assert forall b {:trigger m'.Next(b)} :: m'.Next(b) == m.Next(b);
    assert forall b {:trigger m'.Head(b)} :: m'.Head(b) == m.Head(b);
  }

  /** The head of list n, junk and not preceded by a free block, is taken off and comes into transit. */
  lemma TakeJunk(s: State, m': Mem, L: set<int>, c: int, n: int)
    requires Sound(s, L, c) && 0 <= n <= S_CACHE && s.cl[n] != []
    requires var b := s.cl[n][0];
             && s.m.Head(b).junk && !s.m.Head(b).pfree
             && m' == WithHead(s.m, b, Free(s.m.Size(b)))
    ensures var b := s.cl[n][0]; var s' := s.(m := m', cl := Popped(s.cl, n));
            && b in s.B && b !in L && s.m.Size(b) > 0
            && Sound(s', L + {b}, c) && LiveKept(s, s') && Unlisted(s'.cl, b) && b != s.last
  {
    hide IndexOk, WaitOk, Tiled, SegWords, Chains, Held, Bits, JunkAt, FreeAt;
    EntryIs(s, c, n);
    var b := s.cl[n][0];
    EntryApart(s, L, c, n, 0);
    SizePositive(s, L, b);
    IndexHeads(s.m, m', s.cls, s.tree, s.root, s.tiny, s.wait, b, b);
    SameSizesTiled(s.m, m', s.B, s.segs);
    TiledParts(s.m, s.B, s.segs);
    JunkBits(s.m, m', s.B, L, s.segs, b);
    assert SegWords(m', s.B, s.segs, s.cls) by { SegWordsSame(s, m'); }
    assert FreeAt(m', s.B, L + {b}, s.segs, s.cls, s.wait, s.wild) by { TakeJunkFreeAt(s, m', L, b); }
    PopJunk(s.m, m', s.B, s.last, s.cl, c, n);
    PopSeparate(s, c, n);
    PopChains(s.m, m', s.cl, n);
  }

  lemma EntryIs(s: State, c: int, n: int)
    requires JunkAt(s.m, s.B, s.last, s.cl, c) && 0 <= n <= S_CACHE && s.cl[n] != []
    ensures |s.cl| == S_CACHE + 1
    ensures var b := s.cl[n][0]; b != s.last && b > 0 && (s.m.Head(b).junk <==> b in s.B)
  {
    assert Entry(s.m, s.B, n, c, s.cl[n][0]);
  }

  lemma SizePositive(s: State, L: set<int>, b: int)
    requires Bits(s.m, s.B, L, s.segs) && b in s.B && (s.m.Head(b).junk || !s.m.Head(b).busy)
    ensures s.m.Size(b) > 0
  {
  }

  lemma TiledParts(m: Mem, B: set<int>, segs: seq<Segment>)
    requires Tiled(m, B, segs)
    ensures EndsIn(B, segs) && Closed(m, B) && Apart(m, B) && AllInside(m, B, segs) && SegsOk(segs)
  {
  }

  lemma SegWordsSame(s: State, m': Mem)
    requires SegWords(s.m, s.B, s.segs, s.cls) && m'.seg == s.m.seg
    ensures SegWords(m', s.B, s.segs, s.cls)
  {
  }

  lemma TakeJunkFreeAt(s: State, m': Mem, L: set<int>, b: int)
    requires FreeAt(s.m, s.B, L, s.segs, s.cls, s.wait, s.wild) && Bits(s.m, s.B, L, s.segs)
    requires b in s.B && s.m.Head(b).junk && HeadsAt(s.m, m', b, b) && m'.Head(b) == Free(s.m.Size(b))
    requires !Held(s.m, s.cls, s.wait, b)
    requires forall x :: Held(m', s.cls, s.wait, x) <==> Held(s.m, s.cls, s.wait, x)
    ensures FreeAt(m', s.B, L + {b}, s.segs, s.cls, s.wait, s.wild)
  {
    hide Held;
    assert forall x {:trigger m'.Next(x)} :: m'.Next(x) == s.m.Next(x);
  }

  lemma PopSeparate(s: State, c: int, n: int)
    requires JunkAt(s.m, s.B, s.last, s.cl, c) && 0 <= n <= S_CACHE && s.cl[n] != []
    ensures Unlisted(Popped(s.cl, n), s.cl[n][0])
  {
    PopUnlisted(s.cl, n);
  }

  lemma PopChains(m: Mem, m': Mem, cl: seq<seq<int>>, n: int)
    requires Chains(m, cl) && m'.link == m.link && 0 <= n < |cl| && cl[n] != []
    ensures Chains(m', Popped(cl, n))
  {
  }

  // ---------- releasing a merged block ----------

  /** PFREE set in the successor and SELF written: the successor can now find block f. */
  function Announced(m: Mem, f: int): Mem {
    var n := m.Next(f);
    WithSelf(WithHead(m, n, m.Head(n).(pfree := true)), n - 1, f)
  }

  lemma AnnouncedHeads(m: Mem, f: int)
    ensures var n, m' := m.Next(f), Announced(m, f);
            && HeadsAt(m, m', n, n)
            && m'.Head(n) == m.Head(n).(pfree := true)
            && m'.Last(n) == f
            && (forall x :: x != n ==> m'.Head(x) == m.Head(x) && m'.Last(x) == m.Last(x))
            && (forall x :: m'.Size(x) == m.Size(x))
            && (forall x :: m'.Next(x) == m.Next(x))
  {
  }

  /** A block can be announced when its successor is busy. */
  lemma AnnounceSound(s: State, L: set<int>, c: int, f: int)
    requires Sound(s, L, c) && f in L && s.m.Size(f) > 0 && s.m.Head(s.m.Next(f)).busy
    ensures var m' := Announced(s.m, f);
            && IndexOk(m', s.cls, s.tree, s.root, s.tiny) && WaitOk(m', s.cls, s.wait)
            && Tiled(m', s.B, s.segs) && Bits(m', s.B, L - {f}, s.segs) && SegWords(m', s.B, s.segs, s.cls)
            && JunkAt(m', s.B, s.last, s.cl, c) && Chains(m', s.cl)
            && !Held(m', s.cls, s.wait, f) && f > 0
            && (forall b :: Held(m', s.cls, s.wait, b) <==> Held(s.m, s.cls, s.wait, b))
            && LiveKept(s, s.(m := m'))
  {
    hide IndexOk, WaitOk, Tiled, SegWords, Chains, Held, Bits, JunkAt, FreeAt, Announced, AllKept;
    var n, m' := s.m.Next(f), Announced(s.m, f);
    AnnouncedHeads(s.m, f);
    InTransit(s, L, f);
    NextIn(s.m, s.B, s.segs, f);
    BlockPositive(s.m, s.B, s.segs, f);
    BusyNotHeld(s, L, n);
    NotHeld(s, L, f);
    IndexHeads(s.m, m', s.cls, s.tree, s.root, s.tiny, s.wait, n, n);
    SameSizesTiled(s.m, m', s.B, s.segs);
    ReleaseBits(s.m, m', s.B, L, s.segs, f);
    SegWordsSame(s, m');
    JunkPfree(s.m, m', s.B, s.last, s.cl, c, n);
    ChainsFrame(s.m, m', s.cl);
    assert AllKept(s, m') by { SelfKept(s, m', f); }
  }

  lemma BlockPositive(m: Mem, B: set<int>, segs: seq<Segment>, b: int)
    requires Tiled(m, B, segs) && b in B
    ensures b > 0
  {
    assert Inside(m, segs, b);
  }

  lemma AllPositive(m: Mem, B: set<int>, segs: seq<Segment>)
    requires Tiled(m, B, segs)
    ensures forall b :: b in B ==> b > 0
  {
    hide Tiled;
    forall b | b in B ensures b > 0 { BlockPositive(m, B, segs, b); }
  }

  lemma BusyNotHeld(s: State, L: set<int>, b: int)
    requires FreeAt(s.m, s.B, L, s.segs, s.cls, s.wait, s.wild) && s.m.Head(b).busy
    ensures !Held(s.m, s.cls, s.wait, b) && (s.wild != NIL ==> b != s.wild)
  {
    hide Held;
  }

  lemma JunkPfree(m: Mem, m': Mem, B: set<int>, last: int, cl: seq<seq<int>>, c: int, n: int)
    requires JunkAt(m, B, last, cl, c) && n in B
    requires forall b :: b != n ==> m'.Head(b) == m.Head(b)
    requires m'.Size(n) == m.Size(n) && m'.Head(n).junk == m.Head(n).junk
    ensures JunkAt(m', B, last, cl, c)
  {
  }

  /** The block at the very end of the first segment becomes the wild block. */
  lemma ReleaseWild(s: State, L: set<int>, c: int, f: int)
    requires Sound(s, L, c) && f in L && s.m.Size(f) > 0 && s.m.Head(s.m.Next(f)).busy
    requires |s.segs| > 0 && s.m.Next(f) == s.segs[0].end
    ensures Sound(s.(m := Announced(s.m, f), wild := f), L - {f}, c)
    ensures LiveKept(s, s.(m := Announced(s.m, f), wild := f))
  {
    hide IndexOk, WaitOk, Tiled, SegWords, Chains, Held, Bits, JunkAt, FreeAt, Announced;
    AnnounceSound(s, L, c, f);
    InTransit(s, L, f);
    NoOtherWild(s, L, f);
    AllPositive(s.m, s.B, s.segs);
    AnnouncedHeads(s.m, f);
    ReleaseWildAt(s, Announced(s.m, f), L, f);
  }

  lemma NoOtherWild(s: State, L: set<int>, f: int)
    requires FreeAt(s.m, s.B, L, s.segs, s.cls, s.wait, s.wild) && Tiled(s.m, s.B, s.segs) && f in L && f in s.B
    requires |s.segs| > 0 && s.m.Next(f) == s.segs[0].end
    ensures s.wild == NIL
  {
  }

  lemma ReleaseWildAt(s: State, m': Mem, L: set<int>, f: int)
    requires FreeAt(s.m, s.B, L, s.segs, s.cls, s.wait, s.wild) && s.wild == NIL && f in L && f in s.B
    requires |s.segs| > 0 && m'.Next(f) == s.segs[0].end && !Held(m', s.cls, s.wait, f) && !s.m.Head(f).busy
    requires forall b {:trigger m'.Head(b)} {:trigger m'.Next(b)} ::
               m'.Head(b).busy == s.m.Head(b).busy && m'.Next(b) == s.m.Next(b)
    requires forall b :: b in s.B ==> b > 0
    requires forall b :: Held(m', s.cls, s.wait, b) <==> Held(s.m, s.cls, s.wait, b)
    ensures FreeAt(m', s.B, L - {f}, s.segs, s.cls, s.wait, f)
  {
    hide Held;
  }

  /** A merged block that has been put on a list. */
  lemma ReleaseHeld(s: State, s': State, L: set<int>, c: int, f: int)
    requires Sound(s, L, c) && f in L && s.m.Size(f) > 0 && s.m.Head(s.m.Next(f)).busy
    requires Added(Announced(s.m, f), s'.m, s.cls, s'.cls, s.wait, s'.wait, f)
    requires IndexOk(s'.m, s'.cls, s'.tree, s'.root, s'.tiny) && WaitOk(s'.m, s'.cls, s'.wait)
    requires s'.B == s.B && s'.segs == s.segs && s'.wild == s.wild && s'.last == s.last && s'.cl == s.cl
    requires |s.segs| > 0 && s.m.Next(f) != s.segs[0].end
    ensures Sound(s', L - {f}, c)
    ensures LiveKept(s, s')
  {
    hide IndexOk, WaitOk, Tiled, SegWords, Chains, Held, Bits, JunkAt, FreeAt, Announced, Added, AllKept;
    var m1 := Announced(s.m, f);
    AnnounceSound(s, L, c, f);
    AnnouncedHeads(s.m, f);
    InTransit(s, L, f);
    AddedHdr(m1, s'.m, s.cls, s'.cls, s.wait, s'.wait, f);
    HdrSame(m1, s'.m, s.B, L - {f}, s.segs, s.last, s.cl, c);
    NotHeld(s, L, f);
    AddedKept(s, m1, s'.m, s'.cls, s'.wait, L, f);
    assert FreeAt(s'.m, s'.B, L - {f}, s'.segs, s'.cls, s'.wait, s'.wild) by { ReleaseHeldAt(s, m1, s', L, f); }
    AllPositive(s.m, s.B, s.segs);
    assert SegWords(s'.m, s'.B, s'.segs, s'.cls) by { ReleaseHeldSegs(s, m1, s', f); }
    assert Chains(s'.m, s.cl) by { ReleaseHeldChains(s, m1, s', L, c, f); }
  }

  lemma AddedHdr(m: Mem, m': Mem, cls: Classes, cls': Classes, wait: seq<int>, wait': seq<int>, b: int)
    requires Added(m, m', cls, cls', wait, wait', b)
    ensures m'.hdr == m.hdr && m'.self == m.self
  {
  }

  lemma ReleaseHeldAt(s: State, m: Mem, s': State, L: set<int>, f: int)
    requires FreeAt(s.m, s.B, L, s.segs, s.cls, s.wait, s.wild) && f in L && f in s.B && !s.m.Head(f).busy
    requires forall b :: m.Head(b).busy == s.m.Head(b).busy && m.Next(b) == s.m.Next(b)
    requires forall b :: Held(m, s.cls, s.wait, b) <==> Held(s.m, s.cls, s.wait, b)
    requires Added(m, s'.m, s.cls, s'.cls, s.wait, s'.wait, f)
    requires s'.B == s.B && s'.segs == s.segs && s'.wild == s.wild
    requires |s.segs| > 0 && s.m.Next(f) != s.segs[0].end
    ensures FreeAt(s'.m, s'.B, L - {f}, s'.segs, s'.cls, s'.wait, s'.wild)
  {
    hide Held;
    assert forall b {:trigger s'.m.Head(b)} :: s'.m.Head(b) == m.Head(b);
    assert forall b {:trigger s'.m.Next(b)} :: s'.m.Next(b) == m.Next(b);
  }

  lemma ReleaseHeldSegs(s: State, m: Mem, s': State, f: int)
    requires SegWords(m, s.B, s.segs, s.cls)
    requires IndexOk(m, s.cls, s.tree, s.root, s.tiny) && WaitOk(m, s.cls, s.wait)
    requires IndexOk(s'.m, s'.cls, s'.tree, s'.root, s'.tiny)
    requires Added(m, s'.m, s.cls, s'.cls, s.wait, s'.wait, f) && WaitOk(s'.m, s'.cls, s'.wait)
    requires f > 0 && s'.B == s.B && s'.segs == s.segs && forall x :: x in s.B ==> x > 0
    ensures SegWords(s'.m, s'.B, s'.segs, s'.cls)
  {
    hide IndexOk, WaitOk, SegIx;
    IndexListed(m, s.cls, s.tree, s.root, s.tiny);
    IndexListed(s'.m, s'.cls, s'.tree, s'.root, s'.tiny);
    WaitIsNew(m, s.cls, s.wait);
    WaitIsNew(s'.m, s'.cls, s'.wait);
    forall x | x in s.B && x !in List(s'.cls, TINYSIZE)
      ensures SegIx(s.segs, x) < |s.segs| && s'.m.Seg(x) == s.segs[SegIx(s.segs, x)].at
    {
      if m.Size(x) == TINYSIZE {
        assert s'.m.Size(x) == TINYSIZE && !Held(s'.m, s'.cls, s'.wait, x);
        assert SameWords(m, s'.m, x);
      }
    }
  }

  lemma ReleaseHeldChains(s: State, m: Mem, s': State, L: set<int>, c: int, f: int)
    requires Sound(s, L, c) && f in L && m.link == s.m.link
    requires forall b :: Held(m, s.cls, s.wait, b) <==> Held(s.m, s.cls, s.wait, b)
    requires Added(m, s'.m, s.cls, s'.cls, s.wait, s'.wait, f)
    ensures Chains(s'.m, s.cl)
  {
    hide IndexOk, WaitOk, Tiled, SegWords, Chains, Held, FreeAt, Bits;
    forall n, i | 0 <= n < |s.cl| && 0 <= i < |s.cl[n]| ensures s'.m.Link(s.cl[n][i]) == s.m.Link(s.cl[n][i]) {
      EntryApart(s, L, c, n, i);
      assert SameWords(m, s'.m, s.cl[n][i]);
    }
    ChainsFrame(s.m, s'.m, s.cl);
  }

  // ---------- what the allocator reads off a sound arena ----------

  lemma SoundIndex(s: State, L: set<int>, c: int)
    requires Sound(s, L, c)
    ensures IndexOk(s.m, s.cls, s.tree, s.root, s.tiny) && WaitOk(s.m, s.cls, s.wait)
  {
  }

  /** A free block is the wild block or held by the index; it is a proper block of some segment. */
  lemma FreeWhere(s: State, L: set<int>, c: int, n: int)
    requires Sound(s, L, c) && n in s.B && !s.m.Head(n).busy && n !in L
    ensures n == s.wild || Held(s.m, s.cls, s.wait, n)
    ensures |s.segs| > 0 && s.m.Next(n) == s.segs[0].end ==> n == s.wild && !Held(s.m, s.cls, s.wait, n)
    ensures SegIx(s.segs, n) < |s.segs| && n > 0 && s.m.Size(n) > 0
    ensures s.m.Next(n) in s.B && s.m.Head(s.m.Next(n)).busy && s.m.Head(s.m.Next(n)).pfree
    ensures !s.m.Head(n).pfree && !s.m.Head(n).junk && Unlisted(s.cl, n) && n != s.last
  {
    hide IndexOk, WaitOk, SegWords, Chains, Held, SegIx, SegsOk, Separate;
    BlockPositive(s.m, s.B, s.segs, n);
    assert Inside(s.m, s.segs, n);
    FreeUnlisted(s, c, n);
  }

  lemma LiveKeptSame(s: State, s': State)
    requires s'.m == s.m && s'.B == s.B && s'.segs == s.segs
    ensures LiveKept(s, s')
  {
  }

  /** The successor of a block in transit. */
  lemma SoundNext(s: State, L: set<int>, c: int, f: int)
    requires Sound(s, L, c) && f in L && s.m.Size(f) > 0
    ensures var n := s.m.Next(f);
            && f in s.B && n in s.B && n != f && n > 0 && f > 0
            && (!Live(s.m, n) ==> s.m.Size(n) > 0)
            && !s.m.Head(f).busy && !s.m.Head(f).junk && !s.m.Head(f).pfree
            && SegIx(s.segs, n) == SegIx(s.segs, f) < |s.segs|
            && n <= s.segs[SegIx(s.segs, f)].end && (s.m.Size(n) == 0 <==> n == s.segs[SegIx(s.segs, f)].end)
  {
    hide IndexOk, WaitOk, SegWords, Chains, Held, SegIx, SegsOk, Separate, FreeAt, JunkAt;
    InTransit(s, L, f);
    NextIn(s.m, s.B, s.segs, f);
    BlockPositive(s.m, s.B, s.segs, s.m.Next(f));
    BlockPositive(s.m, s.B, s.segs, f);
    NextSeg(s.m, s.B, s.segs, f);
    assert Inside(s.m, s.segs, s.m.Next(f));
  }

  /** Only the end marker of the first segment lies that high. */
  lemma TopEnd(s: State, L: set<int>, c: int, n: int)
    requires Sound(s, L, c) && n in s.B && |s.segs| > 0 && n >= s.segs[0].end
    ensures n == s.segs[0].end
  {
    hide IndexOk, WaitOk, SegWords, Chains, Held, SegIx, Separate, FreeAt, JunkAt, Bits;
    assert Inside(s.m, s.segs, n);
  }

  /** The head of a delayed list. */
  lemma SoundEntry(s: State, L: set<int>, c: int, n: int)
    requires Sound(s, L, c) && 0 <= n <= S_CACHE && s.cl[n] != []
    ensures |s.cl| == S_CACHE + 1
    ensures var b := s.cl[n][0];
            && b > 0 && b !in L && b != s.last && (s.m.Head(b).junk <==> b in s.B)
            && s.m.Link(b) == Nth(s.cl[n], 1)
            && (b in s.B ==> s.m.Size(b) > 0 && s.m.Head(b).busy)
  {
    hide IndexOk, WaitOk, SegWords, Held, SegIx, Separate, FreeAt, Tiled;
    assert Entry(s.m, s.B, n, c, s.cl[n][0]);
    assert Chain(s.m, s.cl[n]);
  }

  lemma SoundInside(s: State, L: set<int>, c: int, b: int)
    requires Sound(s, L, c) && b in s.B
    ensures Inside(s.m, s.segs, b) && SegsOk(s.segs)
  {
    hide IndexOk, WaitOk, SegWords, Held, SegIx, Separate, FreeAt, Inside, JunkAt, Bits, Chains;
  }

  /** A block with PFREE set has a free predecessor, held by the index, whose address is just below it. */
  lemma FreeBefore(s: State, L: set<int>, c: int, b: int)
    requires Sound(s, L, c) && b in s.B && s.m.Head(b).pfree
    requires forall x :: x in L ==> s.m.Next(x) != b
    ensures var p := s.m.Last(b);
            && p in s.B && p !in L && !s.m.Head(p).busy && s.m.Next(p) == b
            && p != b && (s.wild != NIL && s.m.Size(b) > 0 ==> p != s.wild)
  {
    hide IndexOk, WaitOk, SegWords, Chains, Held, SegIx, Separate, JunkAt;
    assert Inside(s.m, s.segs, b);
    var p := Prev(s.m, s.B, s.segs, b);
    assert s.m.Head(b).pfree == !s.m.Head(p).busy;
    if s.wild != NIL && p == s.wild {
      assert Inside(s.m, s.segs, s.segs[0].end);
      SegIxIs(s.segs, s.segs[0].end, 0);
    }
  }

  /** The most recently freed block is a junk block. */
  lemma LastBits(s: State)
    requires Sound(s, {}, S_CACHE + 1) && s.last != NIL
    ensures s.last in s.B && s.m.Head(s.last).junk && s.m.Head(s.last).busy && s.m.Size(s.last) > 0 &&
            |s.cl| == S_CACHE + 1
  {
    hide IndexOk, WaitOk, Tiled, SegWords, FreeAt, Chains, Separate;
  }

  lemma SoundSegs(s: State, L: set<int>, c: int)
    requires Sound(s, L, c)
    ensures SegsOk(s.segs) && |s.cl| == S_CACHE + 1
  {
    hide IndexOk, WaitOk, SegWords, FreeAt, Chains, Separate;
  }

  lemma KeptSegs(s: State, s': State)
    requires LiveKept(s, s')
    ensures s'.segs == s.segs && s'.B <= s.B
  {
  }
}