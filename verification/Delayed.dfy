/** Delayed blocks: how junk comes onto the lists, off them, and back to life. */
module Delayed {
  import opened VmMemory
  import opened FreeTree
  import opened Extract
  import opened Index
  import opened Arena
  import opened Steps
  import opened ArenaSound

  /** The delayed lists are right but for one junk block x that is on none of them. */
  ghost predicate LooseAt(m: Mem, B: set<int>, last: int, cl: seq<seq<int>>, c: int, x: int) {
    && |cl| == S_CACHE + 1 && Separate(cl) && Unlisted(cl, x)
    && (forall n, i :: 0 <= n <= S_CACHE && 0 <= i < |cl[n]| ==> Entry(m, B, n, c, cl[n][i]) && cl[n][i] != last)
    && (last != NIL ==> last in B && m.Head(last).junk)
    && (forall b :: b in B && m.Head(b).junk ==> b == x || b == last || JunkListed(m, cl, b))
    && x in B && m.Head(x).junk && x != last && x > 0
  }

  ghost predicate Loose(s: State, L: set<int>, c: int, x: int) {
    FreeSound(s, L) && LooseAt(s.m, s.B, s.last, s.cl, c, x) && Chains(s.m, s.cl)
  }

  // ---------- off the lists ----------

  lemma TakeLast(s: State, L: set<int>, c: int)
    requires Sound(s, L, c) && s.last != NIL
    ensures Loose(s.(last := NIL), L, c, s.last)
  {
    hide IndexOk, WaitOk, Tiled, Bits, SegWords, FreeAt, Chains, Separate;
    TiledPositive(s.m, s.B, s.segs, s.last);
    forall n, i | 0 <= n <= S_CACHE && 0 <= i < |s.cl[n]|
      ensures Entry(s.m, s.B, n, c, s.cl[n][i]) && s.cl[n][i] != NIL
    {
    }
  }

  lemma TiledPositive(m: Mem, B: set<int>, segs: seq<Segment>, b: int)
    requires Tiled(m, B, segs) && b in B
    ensures b > 0
  {
    BlockPositive(m, B, segs, b);
  }

  lemma PopLoose(s: State, L: set<int>, c: int, n: int)
    requires Sound(s, L, c) && 0 <= n <= S_CACHE && s.cl[n] != [] && s.cl[n][0] in s.B
    ensures Loose(s.(cl := Popped(s.cl, n)), L, c, s.cl[n][0])
  {
    hide IndexOk, WaitOk, Tiled, Bits, SegWords, FreeAt, Chains, Separate;
    var b, cl' := s.cl[n][0], Popped(s.cl, n);
    PopUnlisted(s.cl, n);
    PopChains(s.m, s.m, s.cl, n);
    assert Entry(s.m, s.B, n, c, b);
    forall k, i | 0 <= k <= S_CACHE && 0 <= i < |cl'[k]| ensures Entry(s.m, s.B, k, c, cl'[k][i]) && cl'[k][i] != s.last
    {
      var j := if k == n then i + 1 else i;
      assert cl'[k][i] == s.cl[k][j] && Entry(s.m, s.B, k, c, s.cl[k][j]);
    }
    forall x | x in s.B && s.m.Head(x).junk ensures x == b || x == s.last || JunkListed(s.m, cl', x) {
      if x != s.last && x != b {
        assert JunkListed(s.m, s.cl, x);
        forall k | 0 <= k <= S_CACHE && x in s.cl[k] ensures x in cl'[k] { }
      }
    }
  }

  /** An entry that has been merged into another block is simply dropped. */
  lemma DropStale(s: State, L: set<int>, c: int, n: int)
    requires Sound(s, L, c) && 0 <= n <= S_CACHE && s.cl[n] != [] && s.cl[n][0] !in s.B
    ensures Sound(s.(cl := Popped(s.cl, n)), L, c)
  {
    hide IndexOk, WaitOk, Tiled, Bits, SegWords, FreeAt, Chains, Separate;
    PopChains(s.m, s.m, s.cl, n);
    PopJunk(s.m, s.m, s.B, s.last, s.cl, c, n);
  }

  /** A popped block is merged into its free predecessor. */
  lemma PopAbsorb(s: State, m': Mem, L: set<int>, c: int, f: int, n: int)
    requires Sound(s, L, c) && 0 <= n <= S_CACHE && s.cl[n] != [] && s.cl[n][0] in s.B
    requires f in L && s.m.Size(f) > 0 && s.cl[n][0] == s.m.Next(f)
    requires HeadsAt(s.m, m', f, s.cl[n][0]) && m'.self == s.m.self
    requires m'.Head(f) == Free(s.m.Size(f) + 1 + s.m.Size(s.cl[n][0]))
    ensures var s' := s.(m := m', B := s.B - {s.cl[n][0]}, cl := Popped(s.cl, n));
            Sound(s', L, c) && LiveKept(s, s') && m'.Next(f) == s.m.Next(s.cl[n][0])
  {
    hide IndexOk, WaitOk, Tiled, Bits, SegWords, FreeAt, Chains, Separate, AllKept, Held;
    var b, cl' := s.cl[n][0], Popped(s.cl, n);
    assert Entry(s.m, s.B, n, c, b);
    EntryApart(s, L, c, n, 0);
    SizePositive(s, L, b);
    AbsorbFree(s, m', L, f, b);
    assert L - {b} == L;
    InTransit(s, L, f);
    PopUnlisted(s.cl, n);
    PopChains(s.m, m', s.cl, n);
    PopLoose(s, L, c, n);
    assert JunkAt(m', s.B - {b}, s.last, cl', c) by { LooseGone(s.m, m', s.B, s.last, cl', c, b, f); }
  }

  lemma LooseGone(m: Mem, m': Mem, B: set<int>, last: int, cl: seq<seq<int>>, c: int, x: int, f: int)
    requires LooseAt(m, B, last, cl, c, x) && f in B && !m.Head(f).junk && !m'.Head(f).junk && f != x
    requires forall b :: b != f && b != x ==> m'.Head(b) == m.Head(b)
    ensures JunkAt(m', B - {x}, last, cl, c)
  {
  }

  // ---------- onto the lists ----------

  /** The head of a list. */
  function Pushed(cl: seq<seq<int>>, n: int, x: int): seq<seq<int>>
    requires 0 <= n < |cl|
  {
    cl[n := [x] + cl[n]]
  }

  lemma PushList(s: State, m': Mem, L: set<int>, c: int, x: int, n: int)
    requires Loose(s, L, c, x) && 0 <= n <= S_CACHE && (n < S_CACHE ==> s.m.Size(x) == n + 1)
    requires m' == WithLink(s.m, x, Nth(s.cl[n], 0))
    ensures var s' := s.(m := m', cl := Pushed(s.cl, n, x)); Sound(s', L, c) && LiveKept(s, s')
  {
    hide IndexOk, WaitOk, Tiled, Bits, SegWords, FreeAt, Chains, Held, JunkAt, AllKept;
    PushJunk(s, m', L, c, x, n);
    PushFree(s, m', L, c, x);
  }

  lemma PushFree(s: State, m': Mem, L: set<int>, c: int, x: int)
    requires FreeSound(s, L) && x in s.B && s.m.Head(x).junk && x > 0
    requires m' == WithLink(s.m, x, m'.Link(x))
    ensures FreeSound(s.(m := m'), L) && LiveKept(s, s.(m := m'))
  {
    hide IndexOk, WaitOk, Tiled, Bits, SegWords, FreeAt, Held, AllKept, JunkAt;
    NotHeld(s, L, x);
    LinkFrame(s.m, m', s.cls, s.tree, s.root, s.tiny, s.wait, x);
    HdrSame(s.m, m', s.B, L, s.segs, s.last, s.cl, 0);
    SegWordsSame(s, m');
    assert FreeAt(m', s.B, L, s.segs, s.cls, s.wait, s.wild) by { FreeAtSame(s, m', L); }
    LinkKept(s, m', L, x);
  }

  lemma LinkKept(s: State, m': Mem, L: set<int>, x: int)
    requires Tiled(s.m, s.B, s.segs) && x in s.B && !Live(s.m, x)
    requires m' == WithLink(s.m, x, m'.Link(x))
    ensures AllKept(s, m')
  {
    hide SegsOk, EndsIn, SegIx;
    forall b, a | b in s.B && Live(s.m, b) && b <= a <= b + s.m.Size(b)
      ensures SameWords(s.m, m', a) && Read(m'.self, a) == Read(s.m.self, a)
    {
      assert b < x ==> s.m.Next(b) <= x;
    }
  }

  lemma FreeAtSame(s: State, m': Mem, L: set<int>)
    requires FreeAt(s.m, s.B, L, s.segs, s.cls, s.wait, s.wild) && m'.hdr == s.m.hdr
    ensures FreeAt(m', s.B, L, s.segs, s.cls, s.wait, s.wild)
  {
    assert forall b {:trigger m'.Head(b)} :: m'.Head(b) == s.m.Head(b);
    assert forall b {:trigger m'.Next(b)} :: m'.Next(b) == s.m.Next(b);
    assert forall b :: Held(m', s.cls, s.wait, b) <==> Held(s.m, s.cls, s.wait, b);
  }

  /** A LINK word written at a block the index does not hold. */
  lemma LinkFrame(m: Mem, m': Mem, cls: Classes, tree: Tree, root: int, tiny: seq<int>, wait: seq<int>, x: int)
    requires IndexOk(m, cls, tree, root, tiny) && WaitOk(m, cls, wait) && !Held(m, cls, wait, x) && x > 0
    requires m' == WithLink(m, x, m'.Link(x))
    ensures IndexOk(m', cls, tree, root, tiny) && WaitOk(m', cls, wait)
  {
    hide Linked, IndexOk, Listed;
    assert forall a :: a != x ==> SameWords(m, m', a);
    IndexFrame(m, m', cls, tree, root, tiny);
    LinkedFrame(m, m', MAXTINY, [TREE_NODE] + wait);
  }

  lemma PushJunk(s: State, m': Mem, L: set<int>, c: int, x: int, n: int)
    requires LooseAt(s.m, s.B, s.last, s.cl, c, x) && Chains(s.m, s.cl)
    requires 0 <= n <= S_CACHE && (n < S_CACHE ==> s.m.Size(x) == n + 1)
    requires m' == WithLink(s.m, x, Nth(s.cl[n], 0))
    ensures JunkAt(m', s.B, s.last, Pushed(s.cl, n, x), c) && Chains(m', Pushed(s.cl, n, x))
  {
    hide Separate, Chains;
    var cl' := Pushed(s.cl, n, x);
    PushSeparate(s.cl, n, x);
    PushChains(s.m, m', s.cl, n, x);
    forall k, i | 0 <= k <= S_CACHE && 0 <= i < |cl'[k]| ensures Entry(m', s.B, k, c, cl'[k][i]) && cl'[k][i] != s.last
    {
      if k != n || i > 0 {
        var j := if k == n then i - 1 else i;
        assert cl'[k][i] == s.cl[k][j] && Entry(s.m, s.B, k, c, s.cl[k][j]);
      }
    }
    forall b | b in s.B && m'.Head(b).junk ensures b == s.last || JunkListed(m', cl', b) {
      if b == x {
        assert cl'[n][0] == x;
      } else if b != s.last {
        assert JunkListed(s.m, s.cl, b);
        forall k | 0 <= k <= S_CACHE && b in s.cl[k] ensures b in cl'[k] { PushHas(s.cl, n, x, k, b); }
      }
    }
  }

  lemma PushHas(cl: seq<seq<int>>, n: int, x: int, k: int, b: int)
    requires 0 <= n < |cl| && 0 <= k < |cl| && b in cl[k]
    ensures b in Pushed(cl, n, x)[k]
  {
  }

  lemma PushSeparate(cl: seq<seq<int>>, n: int, x: int)
    requires Separate(cl) && 0 <= n <= S_CACHE && Unlisted(cl, x) && x > 0
    ensures Separate(Pushed(cl, n, x))
  {
  }

  lemma PushChains(m: Mem, m': Mem, cl: seq<seq<int>>, n: int, x: int)
    requires Chains(m, cl) && 0 <= n < |cl| && Unlisted(cl, x)
    requires m' == WithLink(m, x, Nth(cl[n], 0))
    ensures Chains(m', Pushed(cl, n, x))
  {
  }

  lemma PutLast(s: State, L: set<int>, c: int, x: int)
    requires Loose(s, L, c, x) && s.last == NIL
    ensures Sound(s.(last := x), L, c)
  {
    hide IndexOk, WaitOk, Tiled, Bits, SegWords, FreeAt, Chains, Separate;
    forall n, i | 0 <= n <= S_CACHE && 0 <= i < |s.cl[n]| ensures Entry(s.m, s.B, n, c, s.cl[n][i]) && s.cl[n][i] != x {
      assert s.cl[n][i] in s.cl[n];
    }
    AllPositive(s.m, s.B, s.segs);
  }

  // ---------- back to life, and out of it ----------

  /** Headers are the same but for the JUNK bit of one busy block. */
  ghost predicate JunkBit(m: Mem, m': Mem, x: int) {
    && m' == m.(hdr := m'.hdr)
    && m.Head(x).busy && m'.Head(x) == m.Head(x).(junk := m'.Head(x).junk)
    && forall a :: a != x ==> m'.Head(a) == m.Head(a)
  }

  lemma JunkBitFree(s: State, m': Mem, L: set<int>, x: int)
    requires FreeSound(s, L) && JunkBit(s.m, m', x) && x in s.B && s.m.Size(x) > 0
    ensures FreeSound(s.(m := m'), L) && m'.Size(x) == s.m.Size(x)
  {
    hide IndexOk, WaitOk, Tiled, Bits, SegWords, FreeAt, Held;
    BusyNotHeld(s, L, x);
    IndexHeads(s.m, m', s.cls, s.tree, s.root, s.tiny, s.wait, x, x);
    SameSizesTiled(s.m, m', s.B, s.segs);
    assert Bits(m', s.B, L, s.segs) by { JunkBitBits(s.m, m', s.B, L, s.segs, x); }
    SegWordsSame(s, m');
    assert FreeAt(m', s.B, L, s.segs, s.cls, s.wait, s.wild) by { JunkBitFreeAt(s, m', L, x); }
  }

  lemma JunkBitBits(m: Mem, m': Mem, B: set<int>, L: set<int>, segs: seq<Segment>, x: int)
    requires Bits(m, B, L, segs) && JunkBit(m, m', x) && m.Size(x) > 0
    ensures Bits(m', B, L, segs)
  {
    assert forall b {:trigger m'.Next(b)} :: m'.Next(b) == m.Next(b);
    assert forall b {:trigger m'.Head(b)} :: m'.Head(b).(junk := false) == m.Head(b).(junk := false);
  }

  lemma JunkBitFreeAt(s: State, m': Mem, L: set<int>, x: int)
    requires FreeAt(s.m, s.B, L, s.segs, s.cls, s.wait, s.wild) && JunkBit(s.m, m', x)
    ensures FreeAt(m', s.B, L, s.segs, s.cls, s.wait, s.wild)
  {
    assert forall b {:trigger m'.Next(b)} :: m'.Next(b) == s.m.Next(b);
  }

  /** CLRJUNK: a loose block is live again. */
  lemma Revive(s: State, m': Mem, L: set<int>, c: int, x: int)
    requires Loose(s, L, c, x) && JunkBit(s.m, m', x) && !m'.Head(x).junk
    ensures Sound(s.(m := m'), L, c) && Live(m', x)
  {
    hide IndexOk, WaitOk, Tiled, Bits, SegWords, FreeAt, Chains, Separate, FreeSound;
    LooseSize(s, L, c, x);
    JunkBitFree(s, m', L, x);
    ChainsFrame(s.m, m', s.cl);
    assert JunkAt(m', s.B, s.last, s.cl, c) by { ReviveJunk(s.m, m', s.B, s.last, s.cl, c, x); }
  }

  lemma LooseSize(s: State, L: set<int>, c: int, x: int)
    requires Loose(s, L, c, x)
    ensures s.m.Size(x) > 0 && s.m.Head(x).busy && s.m.Head(x).junk && x in s.B
  {
    hide IndexOk, WaitOk, Tiled, SegWords, FreeAt, Chains, Separate;
  }

  lemma ReviveJunk(m: Mem, m': Mem, B: set<int>, last: int, cl: seq<seq<int>>, c: int, x: int)
    requires LooseAt(m, B, last, cl, c, x) && JunkBit(m, m', x) && !m'.Head(x).junk
    ensures JunkAt(m', B, last, cl, c)
  {
  }

  /** SETJUNK: a live block becomes a loose one. */
  lemma MarkJunk(s: State, m': Mem, L: set<int>, c: int, x: int)
    requires Sound(s, L, c) && x in s.B && Live(s.m, x) && s.m.Size(x) > 0
    requires JunkBit(s.m, m', x) && m'.Head(x).junk
    ensures Loose(s.(m := m'), L, c, x)
  {
    hide IndexOk, WaitOk, Tiled, Bits, SegWords, FreeAt, Chains, Separate, FreeSound;
    JunkBitFree(s, m', L, x);
    assert x > 0 by { FreeSoundPositive(s, L); }
    ChainsFrame(s.m, m', s.cl);
    FreeUnlisted(s, c, x);
    assert LooseAt(m', s.B, s.last, s.cl, c, x) by { MarkJunkAt(s.m, m', s.B, s.last, s.cl, c, x); }
  }

  lemma FreeSoundPositive(s: State, L: set<int>)
    requires FreeSound(s, L)
    ensures forall b :: b in s.B ==> b > 0
  {
    AllPositive(s.m, s.B, s.segs);
  }

  lemma MarkJunkAt(m: Mem, m': Mem, B: set<int>, last: int, cl: seq<seq<int>>, c: int, x: int)
    requires JunkAt(m, B, last, cl, c) && Unlisted(cl, x) && x in B && x > 0 && (last != NIL ==> x != last)
    requires JunkBit(m, m', x) && m'.Head(x).junk
    ensures LooseAt(m', B, last, cl, c, x)
  {
  }

  // ---------- the wanted block ----------

  /** The blocks in transit between two entries: the wanted one, once it has been collected. */
  ghost function Taken(wanted: int, got: bool): set<int> { if got then {wanted} else {} }

  /** The wanted block is the successor of a live block. */
  ghost predicate GuardedRp(s: State, wanted: int, rp: int) {
    wanted != NIL ==> rp in s.B && Live(s.m, rp) && s.m.Size(rp) > 0 && s.m.Next(rp) == wanted
  }

  /** The wanted block is junk on a list that is going to be drained. */
  ghost predicate GuardedLater(s: State, c: int, wanted: int) {
    wanted in s.B && s.m.Head(wanted).junk && c <= CIndex(s.m.Size(wanted))
  }

  /** The wanted block has been collected, with everything up to the next live block. */
  ghost predicate GuardedNow(s: State, wanted: int) {
    s.m.Size(wanted) > 0 && !s.m.Head(wanted).junk && s.m.Next(wanted) in s.B && Live(s.m, s.m.Next(wanted))
  }

  ghost predicate Guarded(s: State, c: int, wanted: int, rp: int, got: bool) {
    && GuardedRp(s, wanted, rp)
    && (wanted != NIL ==> if got then GuardedNow(s, wanted) else GuardedLater(s, c, wanted))
    && (got ==> wanted != NIL)
  }

  lemma GuardRpStep(s: State, s': State, wanted: int, rp: int)
    requires GuardedRp(s, wanted, rp) && LiveKept(s, s')
    ensures GuardedRp(s', wanted, rp)
  {
  }

  lemma GuardStep(s: State, s': State, c: int, c': int, wanted: int, rp: int, got: bool)
    requires Guarded(s, c, wanted, rp, got) && LiveKept(s, s') && c' <= c
    requires wanted != NIL ==> s'.m.Head(wanted) == s.m.Head(wanted) && (wanted in s.B ==> wanted in s'.B)
    ensures Guarded(s', c', wanted, rp, got)
  {
  }

  lemma GuardAhead(s: State, c: int, wanted: int, rp: int, got: bool)
    requires Guarded(s, c, wanted, rp, got)
    ensures forall x :: x in Taken(wanted, got) ==> Live(s.m, s.m.Next(x))
  {
  }

  /** Block f has been taken in; it is the wanted block only if that was the entry collected. */
  lemma GuardTaken(s: State, s': State, c: int, wanted: int, rp: int, got: bool, b: int, f: int)
    requires Guarded(s, c, wanted, rp, got) && LiveKept(s, s') && s.m.Head(b).junk
    requires forall x :: x != f && x != b ==> s'.m.Head(x) == s.m.Head(x)
    requires (f == b && s'.B == s.B) || (f in s.B && s'.B == s.B - {b} && !s.m.Head(f).busy && s.m.Next(f) == b)
    requires f !in Taken(wanted, got) && b in s.B && Sound(s, Taken(wanted, got), c)
    ensures GuardedRp(s', wanted, rp) && (f != wanted ==> Guarded(s', c, wanted, rp, got))
  {
    hide IndexOk, WaitOk, SegWords, FreeAt, JunkAt, Chains, AllKept;
    if wanted != NIL && f != wanted && wanted == b {
      NextUnique(s.m, s.B, s.segs, f, rp);
    }
  }

  /** The successor of the block being merged is not the wanted block. */
  lemma GuardNext(s: State, L: set<int>, c: int, wanted: int, rp: int, f: int)
    requires Sound(s, L, c) && f in L && s.m.Size(f) > 0 && L <= {f, wanted} && GuardedRp(s, wanted, rp)
    ensures s.m.Next(f) !in L && (wanted != NIL ==> s.m.Next(f) != wanted)
  {
    hide IndexOk, WaitOk, SegWords, FreeAt, Chains, JunkAt, AllKept;
    SoundNext(s, L, c, f);
    if wanted != NIL && s.m.Next(f) == wanted { NextUnique(s.m, s.B, s.segs, f, rp); }
  }

  lemma GuardGot(s: State, c: int, wanted: int, rp: int, L: set<int>)
    requires Sound(s, L, c) && wanted in L && L <= {wanted} && s.m.Size(wanted) > 0
    requires GuardedRp(s, wanted, rp) && Live(s.m, s.m.Next(wanted))
    ensures Guarded(s, c, wanted, rp, true) && L == Taken(wanted, true)
  {
    hide IndexOk, WaitOk, SegWords, FreeAt, Chains, JunkAt, AllKept;
    SoundNext(s, L, c, wanted);
  }

  lemma GuardReleased(s: State, s': State, c: int, wanted: int, rp: int, got: bool, f: int)
    requires Guarded(s, c, wanted, rp, got) && LiveKept(s, s') && s'.B == s.B && f != wanted && Live(s.m, s.m.Next(f))
    requires forall b :: b != s.m.Next(f) ==> s'.m.Head(b) == s.m.Head(b)
    requires Sound(s, Taken(wanted, got) + {f}, c)
    ensures Guarded(s', c, wanted, rp, got)
  {
    hide IndexOk, WaitOk, SegWords, FreeAt, Chains, JunkAt, AllKept, Tiled;
    GuardStep(s, s', c, c, wanted, rp, got);
  }

  /** The three parts of a reclaim: what does not touch headers, the merges, and again what does not. */
  lemma ReclaimSteps(s0: State, s1: State, s2: State, s3: State, L: set<int>, c0: int, c: int)
    requires LiveKept(s0, s1) && s1.B == s0.B && s1.m.hdr == s0.m.hdr && Sound(s1, {}, S_CACHE + 1)
    requires LiveKept(s1, s2) && Lowers(s1, s2, c0, c) && Merged(s1, s2, L) && Sound(s2, L, c)
    requires LiveKept(s2, s3) && s3.B == s2.B && s3.m.hdr == s2.m.hdr
    ensures LiveKept(s0, s3) && Lowers(s0, s3, c0, c) && Merged(s0, s3, L)
  {
    hide Sound, LiveKept, Lowers, Merged;
    LiveKeptTrans(s0, s1, s2);
    LiveKeptTrans(s0, s2, s3);
    LowersSame(s0, s1, c0);
    LowersTrans(s0, s1, s2, c0, c0, c);
    LowersSame(s2, s3, c);
    LowersTrans(s0, s2, s3, c0, c, c);
    MergedSame(s0, s1, {});
    MergedTrans(s0, s1, s2, {}, L, S_CACHE + 1);
    MergedSame(s2, s3, L);
    MergedTrans(s0, s2, s3, L, L, c);
  }

  // ---------- the waiting blocks enter the tree ----------

  /** All waiting blocks have moved to the index. */
  ghost predicate Planted(m: Mem, m': Mem, cls: Classes, cls': Classes, wait: seq<int>) {
    && m' == m.(link := m'.link, left := m'.left, right := m'.right, seg := m'.seg)
    && (forall a :: a > 0 && !Held(m, cls, wait, a) ==> SameWords(m, m', a))
    && (forall a :: m.Size(a) != TINYSIZE ==> m'.Seg(a) == m.Seg(a))
    && (forall a :: Held(m', cls', [], a) <==> Held(m, cls, wait, a))
    && List(cls', TINYSIZE) == List(cls, TINYSIZE)
  }

  lemma PlantedSound(s: State, s': State, L: set<int>, c: int)
    requires Sound(s, L, c) && Planted(s.m, s'.m, s.cls, s'.cls, s.wait)
    requires IndexOk(s'.m, s'.cls, s'.tree, s'.root, s'.tiny) && WaitOk(s'.m, s'.cls, s'.wait)
    requires s'.B == s.B && s'.segs == s.segs && s'.wild == s.wild && s'.last == s.last && s'.cl == s.cl &&
             s'.wait == []
    ensures Sound(s', L, c) && LiveKept(s, s')
  {
    hide IndexOk, WaitOk, Tiled, SegWords, Chains, Held, Bits, JunkAt, FreeAt, AllKept;
    HdrSame(s.m, s'.m, s.B, L, s.segs, s.last, s.cl, c);
    AllKeptSame(s, s.m);
    HeldKept(s, s.m, s'.m, L, NIL);
    assert FreeAt(s'.m, s'.B, L, s'.segs, s'.cls, s'.wait, s'.wild) by { PlantedFreeAt(s, s', L); }
    assert SegWords(s'.m, s'.B, s'.segs, s'.cls) by { PlantedSegs(s, s', L); }
    assert Chains(s'.m, s.cl) by { PlantedChains(s, s', L, c); }
  }

  lemma PlantedFreeAt(s: State, s': State, L: set<int>)
    requires FreeAt(s.m, s.B, L, s.segs, s.cls, s.wait, s.wild) && Planted(s.m, s'.m, s.cls, s'.cls, s.wait)
    requires s'.B == s.B && s'.segs == s.segs && s'.wild == s.wild && s'.wait == []
    ensures FreeAt(s'.m, s'.B, L, s'.segs, s'.cls, s'.wait, s'.wild)
  {
    assert forall b {:trigger s'.m.Next(b)} :: s'.m.Next(b) == s.m.Next(b);
  }

  lemma PlantedSegs(s: State, s': State, L: set<int>)
    requires SegWords(s.m, s.B, s.segs, s.cls) && Planted(s.m, s'.m, s.cls, s'.cls, s.wait)
    requires IndexOk(s.m, s.cls, s.tree, s.root, s.tiny) && WaitOk(s.m, s.cls, s.wait) && Tiled(s.m, s.B, s.segs)
    requires s'.B == s.B && s'.segs == s.segs
    ensures SegWords(s'.m, s'.B, s'.segs, s'.cls)
  {
    hide IndexOk, SegIx, Tiled;
    IndexListed(s.m, s.cls, s.tree, s.root, s.tiny);
    WaitIsNew(s.m, s.cls, s.wait);
    AllPositive(s.m, s.B, s.segs);
    hide WaitOk;
    forall x | x in s.B && x !in List(s'.cls, TINYSIZE)
      ensures SegIx(s.segs, x) < |s.segs| && s'.m.Seg(x) == s.segs[SegIx(s.segs, x)].at
    {
      if s.m.Size(x) == TINYSIZE { assert !Held(s.m, s.cls, s.wait, x) && SameWords(s.m, s'.m, x); }
    }
  }

  lemma PlantedChains(s: State, s': State, L: set<int>, c: int)
    requires Sound(s, L, c) && Planted(s.m, s'.m, s.cls, s'.cls, s.wait)
    ensures Chains(s'.m, s.cl)
  {
  }

  /** Part of the way: the blocks of `wait` from position k on are still to be planted. */
  ghost predicate Planting(m: Mem, m': Mem, cls: Classes, cls': Classes, wait: seq<int>, k: int) {
    && 0 <= k <= |wait|
    && m' == m.(link := m'.link, left := m'.left, right := m'.right, seg := m'.seg)
    && (forall a :: a > 0 && !Held(m, cls, wait, a) ==> SameWords(m, m', a))
    && (forall a :: m.Size(a) != TINYSIZE ==> m'.Seg(a) == m.Seg(a))
    && (forall a :: Indexed(m', cls', a) <==> Indexed(m, cls, a) || a in wait[..k])
    && List(cls', TINYSIZE) == List(cls, TINYSIZE)
    && (forall i :: k <= i < |wait| ==> m'.Link(wait[i]) == Nth(wait, i + 1))
  }

  lemma PlantStart(m: Mem, cls: Classes, wait: seq<int>)
    requires WaitOk(m, cls, wait)
    ensures Planting(m, m, cls, cls, wait, 0) && m.Link(TREE_NODE) == Nth(wait, 0)
  {
    var l := [TREE_NODE] + wait;
    forall i | 0 <= i < |wait| ensures m.Link(wait[i]) == Nth(wait, i + 1) {
      assert LinkedAt(m, MAXTINY, l, i + 1) && l[i + 1] == wait[i];
    }
    WaitFirst(m, cls, wait);
  }

  lemma PlantNext(m: Mem, m': Mem, cls: Classes, cls': Classes, wait: seq<int>, k: int)
    requires WaitOk(m, cls, wait) && Planting(m, m', cls, cls', wait, k) && k < |wait|
    ensures wait[k] > 0 && m'.Size(wait[k]) >= MAXTINY && !Indexed(m', cls', wait[k])
  {
  }

  lemma PlantStep(m0: Mem, m: Mem, m': Mem, cls0: Classes, cls: Classes, cls': Classes, wait: seq<int>, k: int)
    requires WaitOk(m0, cls0, wait) && Planting(m0, m, cls0, cls, wait, k) && k < |wait|
    requires IndexWrites(m, m', cls, wait[k]) && m'.hdr == m.hdr
    requires forall a :: Indexed(m', cls', a) <==> Indexed(m, cls, a) || a == wait[k]
    requires List(cls', TINYSIZE) == List(cls, TINYSIZE)
    ensures Planting(m0, m', cls0, cls', wait, k + 1)
  {
    hide WaitOk, Indexed, SameWords, IndexWrites;
    assert wait[..k + 1] == wait[..k] + [wait[k]];
    WaitIsNew(m0, cls0, wait);
    WrittenSeg(m, m', cls, wait[k]);
    forall a | a > 0 && !Held(m0, cls0, wait, a) ensures SameWords(m0, m', a) {
      SameTwice(m0, m, m', cls, wait[k], a);
    }
    forall i | k + 1 <= i < |wait| ensures m'.Link(wait[i]) == Nth(wait, i + 1) {
      PlantLink(m0, m, m', cls0, cls, wait, k, i);
    }
  }

  lemma WrittenSeg(m: Mem, m': Mem, cls: Classes, b: int)
    requires IndexWrites(m, m', cls, b)
    ensures m' == m.(link := m'.link, left := m'.left, right := m'.right, seg := m'.seg)
    ensures forall a :: m.Size(a) != TINYSIZE ==> m'.Seg(a) == m.Seg(a)
  {
  }

  lemma SameTwice(m0: Mem, m: Mem, m': Mem, cls: Classes, b: int, a: int)
    requires a > 0 && a != b && !Indexed(m, cls, a) && SameWords(m0, m, a) && IndexWrites(m, m', cls, b)
    ensures SameWords(m0, m', a)
  {
  }

  lemma PlantLink(m0: Mem, m: Mem, m': Mem, cls0: Classes, cls: Classes, wait: seq<int>, k: int, i: int)
    requires WaitOk(m0, cls0, wait) && Planting(m0, m, cls0, cls, wait, k) && 0 <= k < i < |wait|
    requires IndexWrites(m, m', cls, wait[k])
    ensures m'.Link(wait[i]) == Nth(wait, i + 1)
  {
  }

  lemma PlantEnd(m: Mem, m': Mem, m'': Mem, cls: Classes, cls': Classes, tree: Tree, root: int, tiny: seq<int>,
                 wait: seq<int>, k: int)
    requires WaitOk(m, cls, wait) && Planting(m, m', cls, cls', wait, k) && Nth(wait, k) == NIL
    requires IndexOk(m', cls', tree, root, tiny) && m'' == WithLink(m', TREE_NODE, NIL)
    ensures Planted(m, m'', cls, cls', wait)
    ensures IndexOk(m'', cls', tree, root, tiny) && WaitOk(m'', cls', [])
  {
    hide IndexOk, WaitOk, Linked, Listed, SameWords, Indexed;
    WaitIsNew(m, cls, wait);
    NthNil(wait, k);
    assert wait[..k] == wait;
    PlantClose(m', m'', cls', tree, root, tiny);
    forall a ensures Held(m'', cls', [], a) <==> Held(m, cls, wait, a) { }
    forall a | a > 0 && !Held(m, cls, wait, a) ensures SameWords(m, m'', a) {
      SameClose(m, m', m'', a);
    }
    assert m''.seg == m'.seg;
  }

  lemma NthNil(l: seq<int>, k: int)
    requires (forall a :: a in l ==> a > 0) && 0 <= k <= |l|
    ensures Nth(l, k) == NIL <==> k == |l|
  {
    assert k < |l| ==> l[k] in l;
  }

  lemma SameClose(m: Mem, m': Mem, m'': Mem, a: int)
    requires SameWords(m, m', a) && m'' == WithLink(m', TREE_NODE, NIL) && a > 0
    ensures SameWords(m, m'', a)
  {
  }

  lemma PlantClose(m: Mem, m': Mem, cls: Classes, tree: Tree, root: int, tiny: seq<int>)
    requires IndexOk(m, cls, tree, root, tiny) && m' == WithLink(m, TREE_NODE, NIL)
    ensures IndexOk(m', cls, tree, root, tiny) && WaitOk(m', cls, [])
    ensures forall a :: Indexed(m', cls, a) <==> Indexed(m, cls, a)
  {
    hide IndexOk, Listed;
    assert forall a :: a != TREE_NODE ==> SameWords(m, m', a);
    IndexListed(m, cls, tree, root, tiny);
    IndexFrame(m, m', cls, tree, root, tiny);
    EmptyLinked(m');
  }

  lemma EmptyLinked(m: Mem)
    requires m.Link(TREE_NODE) == NIL
    ensures Linked(m, MAXTINY, [TREE_NODE] + [])
  {
  }

  lemma PlantReads(m: Mem, m': Mem, cls: Classes, cls': Classes, wait: seq<int>, k: int)
    requires Planting(m, m', cls, cls', wait, k) && k < |wait|
    ensures m'.Link(wait[k]) == Nth(wait, k + 1) && m'.hdr == m.hdr
  {
  }

  lemma PlantedHdr(m: Mem, m': Mem, cls: Classes, cls': Classes, wait: seq<int>)
    requires Planted(m, m', cls, cls', wait)
    ensures m'.hdr == m.hdr
  {
  }

  /** Lists c and above are empty, the others as before. */
  ghost predicate Drained(cl: seq<seq<int>>, cl': seq<seq<int>>, c: int) {
    |cl'| == |cl| && forall n :: 0 <= n < |cl| ==> cl'[n] == if n < c then cl[n] else []
  }

  /** No block has become junk, and none that still is has changed its size. */
  ghost predicate JunkSame(s: State, s': State) {
    && s'.B <= s.B
    && forall x :: x in s'.B && s'.m.Head(x).junk ==> s.m.Head(x).junk && s'.m.Size(x) == s.m.Size(x)
  }

  /** The lists to be drained go further down only where a junk block of the class has been taken in. */
  ghost predicate Lowers(s: State, s': State, c: int, c': int) {
    && JunkSame(s, s')
    && (c' == c || (c' < c && exists x :: x in s.B && s.m.Head(x).junk && CIndex(s.m.Size(x)) == c' && x !in s'.B))
  }

  /** Every free block is as it was, or its successor is live: what has been collected has taken in all it
      could. */
  ghost predicate Merged(s: State, s': State, L: set<int>) {
    forall x {:trigger s'.m.Next(x)} :: x in s'.B && !s'.m.Head(x).busy && x !in L ==>
      (x in s.B && s'.m.Head(x) == s.m.Head(x)) || Live(s'.m, s'.m.Next(x))
  }

  lemma MergedSame(s: State, s': State, L: set<int>)
    requires s'.B == s.B && s'.m.hdr == s.m.hdr
    ensures Merged(s, s', L)
  {
  }

  lemma MergedTrans(s: State, s': State, s'': State, L: set<int>, L': set<int>, c: int)
    requires Sound(s', L, c) && LiveKept(s', s'') && L <= L'
    requires Merged(s, s', L) && Merged(s', s'', L')
    ensures Merged(s, s'', L')
  {
    hide Sound, SegIx, Held;
    forall x | x in s''.B && !s''.m.Head(x).busy && x !in L' && !Live(s''.m, s''.m.Next(x))
      ensures x in s.B && s''.m.Head(x) == s.m.Head(x)
    {
      assert s''.m.Head(x) == s'.m.Head(x) && s''.m.Next(x) == s'.m.Next(x);
      FreeWhere(s', L, c, x);
    }
  }

  ghost predicate OthersKept(s: State, s': State, f: int) {
    forall x :: x in s'.B && x != f ==> x in s.B && s'.m.Head(x) == s.m.Head(x)
  }

  /** Every free block but f is as it was, or its successor is live. */
  ghost predicate MergedAt(s: State, s': State, L: set<int>, f: int) {
    forall x {:trigger s'.m.Next(x)} :: x in s'.B && !s'.m.Head(x).busy && x !in L ==>
      (x != f && x in s.B && s'.m.Head(x) == s.m.Head(x)) || Live(s'.m, s'.m.Next(x))
  }

  /** Block f has been merged and is in transit. */
  lemma MergedWanted(s: State, s': State, L: set<int>, f: int)
    requires OthersKept(s, s', f) && f in L
    ensures MergedAt(s, s', L, f)
  {
  }

  /** Block f has been merged and released. */
  lemma MergedReleased(s: State, s1: State, s': State, L: set<int>, f: int)
    requires OthersKept(s, s1, f) && Live(s1.m, s1.m.Next(f)) && s'.B == s1.B && s1.m.Next(f) != f
    requires forall x :: x != s1.m.Next(f) ==> s'.m.Head(x) == s1.m.Head(x)
    requires s'.m.Head(s1.m.Next(f)) == s1.m.Head(s1.m.Next(f)).(pfree := true)
    ensures MergedAt(s, s', L, f)
  {
  }

  /** Entry b has been collected into block f. */
  lemma MergedBack(s: State, s1: State, s': State, L: set<int>, f: int, b: int)
    requires forall x :: x != f && x != b ==> s1.m.Head(x) == s.m.Head(x)
    requires (f == b && s1.B == s.B) || s1.B == s.B - {b}
    requires MergedAt(s1, s', L, f)
    ensures Merged(s, s', L)
  {
  }

  lemma LowersSame(s: State, s': State, c: int)
    requires s'.B == s.B && s'.m.hdr == s.m.hdr
    ensures Lowers(s, s', c, c)
  {
  }

  lemma LowersTrans(s: State, s': State, s'': State, c: int, c': int, c'': int)
    requires Lowers(s, s', c, c') && Lowers(s', s'', c', c'')
    ensures Lowers(s, s'', c, c'')
  {
    if c'' < c' {
      var x :| x in s'.B && s'.m.Head(x).junk && CIndex(s'.m.Size(x)) == c'' && x !in s''.B;
      assert x in s.B && s.m.Head(x).junk && CIndex(s.m.Size(x)) == c'';
    }
  }

  /** Block f, out of use and no junk, has taken in block n. */
  lemma LowersTaken(s: State, s': State, c: int, c': int, f: int, n: int)
    requires s'.B == s.B - {n} && n in s.B && !s'.m.Head(f).junk
    requires forall x :: x != f && x != n ==> s'.m.Head(x) == s.m.Head(x)
    requires c' == c || (c' < c && s.m.Head(n).junk && CIndex(s.m.Size(n)) == c')
    ensures Lowers(s, s', c, c')
  {
  }

  /** Block b, which has been collected, is in transit by itself or in its free predecessor f. */
  lemma LowersBack(s: State, s': State, c: int, f: int, b: int)
    requires !s'.m.Head(f).junk && forall x :: x != f && x != b ==> s'.m.Head(x) == s.m.Head(x)
    requires (f == b && s'.B == s.B) || s'.B == s.B - {b}
    ensures Lowers(s, s', c, c)
  {
  }

  lemma LowersReleased(s: State, s': State, c: int, n: int)
    requires s'.B == s.B && s'.m.Head(n) == s.m.Head(n).(pfree := true)
    requires forall x :: x != n ==> s'.m.Head(x) == s.m.Head(x)
    ensures Lowers(s, s', c, c)
  {
  }

  /** The number of entries on list c and above. */
  function Entries(cl: seq<seq<int>>, c: nat): nat
    decreases |cl| - c
  {
    if c >= |cl| then 0 else |cl[c]| + Entries(cl, c + 1)
  }

  /** With the lists above drained, no stale entry is left anywhere. */
  lemma SoundDrained(s: State, L: set<int>, c: int)
    requires Sound(s, L, c) && (forall n :: 0 <= n < |s.cl| && c <= n ==> s.cl[n] == [])
    ensures Sound(s, L, S_CACHE + 1)
  {
    hide IndexOk, WaitOk, Tiled, Bits, SegWords, FreeAt, Chains, Separate;
    forall n, i | 0 <= n <= S_CACHE && 0 <= i < |s.cl[n]|
      ensures Entry(s.m, s.B, n, S_CACHE + 1, s.cl[n][i]) && s.cl[n][i] != s.last
    {
      assert Entry(s.m, s.B, n, c, s.cl[n][i]) && n < c;
    }
  }

  /** What junk is left is on the lists below c, in its class. */
  lemma JunkLeft(s: State, L: set<int>, c: int)
    requires Sound(s, L, c) && s.last == NIL && 0 <= c <= S_CACHE
    requires forall n :: 0 <= n < |s.cl| && c <= n ==> s.cl[n] == []
    ensures forall b :: b in s.B && s.m.Head(b).junk ==> CIndex(s.m.Size(b)) < c
  {
    hide IndexOk, WaitOk, Tiled, SegWords, FreeAt, Chains, Separate, Bits;
    FreeSoundPositive(s, L);
    forall b | b in s.B && s.m.Head(b).junk ensures CIndex(s.m.Size(b)) < c {
      assert JunkListed(s.m, s.cl, b);
    }
  }

  lemma GuardDone(s: State, c: int, wanted: int, rp: int, got: bool)
    requires Sound(s, Taken(wanted, got), c) && Guarded(s, c, wanted, rp, got) && s.last == NIL && 0 <= c <= S_CACHE
    requires forall n :: 0 <= n < |s.cl| && c <= n ==> s.cl[n] == []
    ensures got == (wanted != NIL)
  {
  }

  lemma SoundWeaker(s: State, L: set<int>, c: int, c': int)
    requires Sound(s, L, c) && c' <= c
    ensures Sound(s, L, c')
  {
    hide IndexOk, WaitOk, Tiled, Bits, SegWords, FreeAt, Chains, Separate;
    forall n, i | 0 <= n <= S_CACHE && 0 <= i < |s.cl[n]|
      ensures Entry(s.m, s.B, n, c', s.cl[n][i]) && s.cl[n][i] != s.last
    {
      assert Entry(s.m, s.B, n, c, s.cl[n][i]);
    }
  }

  /** A fresh local variable `tree` of bestreclaim. */
  lemma TreeNodeCleared(s: State, L: set<int>, c: int)
    requires Sound(s, L, c) && s.wait == []
    ensures var s' := s.(m := WithLink(s.m, TREE_NODE, NIL)); Sound(s', L, c) && LiveKept(s, s')
  {
    hide IndexOk, WaitOk, Sound, Planted, LiveKept;
    SoundIndex(s, L, c);
    PlantStart(s.m, s.cls, s.wait);
    var m' := WithLink(s.m, TREE_NODE, NIL);
    PlantEnd(s.m, s.m, m', s.cls, s.cls, s.tree, s.root, s.tiny, s.wait, 0);
    PlantedSound(s, s.(m := m'), L, c);
  }

  lemma {:induction false} EntriesPushed(cl: seq<seq<int>>, x: int, c: nat)
    requires |cl| == S_CACHE + 1 && c <= S_CACHE
    ensures Entries(Pushed(cl, S_CACHE, x), c) == Entries(cl, c) + 1
    decreases S_CACHE - c
  {
    if c < S_CACHE { EntriesPushed(cl, x, c + 1); }
  }

  lemma SoundLists(s: State, L: set<int>, c: int)
    requires Sound(s, L, c)
    ensures |s.cl| == S_CACHE + 1
  {
  }

  lemma TakenNone(wanted: int)
    ensures Taken(wanted, false) == {}
  {
  }

  lemma EntriesLast(s: State, s': State, c: nat)
    requires |s.cl| == S_CACHE + 1 && c <= S_CACHE
    requires s'.cl == if s.last != NIL then Pushed(s.cl, S_CACHE, s.last) else s.cl
    ensures Entries(s'.cl, c) == Entries(s.cl, c) + if s.last != NIL then 1 else 0
    ensures forall cl' :: Drained(s'.cl, cl', c) ==> Drained(s.cl, cl', c)
  {
    if s.last != NIL { EntriesPushed(s.cl, s.last, c); }
  }

  lemma GuardNone(s: State, c: int)
    ensures Guarded(s, c, NIL, NIL, false)
  {
  }

  /** The successor of a live block may be wanted. */
  lemma GuardWanted(s: State, n: int, r: int)
    requires r in s.B && Live(s.m, r) && s.m.Size(r) > 0 && s.m.Next(r) == n && n in s.B && s.m.Head(n).junk &&
             s.m.Size(n) > 0
    ensures Guarded(s, CIndex(s.m.Size(n)), n, r, false) && 0 <= CIndex(s.m.Size(n)) <= S_CACHE
  {
  }

  lemma GuardIs(s: State, n: int, r: int)
    requires Guarded(s, 0, n, r, n != NIL) && n != NIL
    ensures Taken(n, n != NIL) == {n} && s.m.Next(r) == n
  {
  }
}
