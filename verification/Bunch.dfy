/** The bunch of small blocks that bestalloc makes at a time.  While the loop runs, the memory is
    that of a sound arena but for two words: the header of the piece still to be cut, and the LINK of
    the piece before it. */
module Bunch {
  import opened Seqs
  import opened VmMemory
  import opened Index
  import opened Arena
  import opened Steps
  import opened ArenaSound
  import opened Delayed
  import opened Carve

  const N_CACHE := 32

  // ---------- an entry in the middle of a delayed list ----------

  function Threaded(m: Mem, l: seq<int>, j: int, x: int): Mem
    requires 0 <= j <= |l|
  {
    var m1 := WithLink(m, x, Nth(l, j));
    if j == 0 then m1 else WithLink(m1, l[j - 1], x)
  }

  lemma ThreadList(s: State, L: set<int>, x: int, n: int, j: int)
    requires Loose(s, L, S_CACHE + 1, x) && 0 <= n < S_CACHE && s.m.Size(x) == n + 1 && 0 <= j <= |s.cl[n]|
    ensures var s' := s.(m := Threaded(s.m, s.cl[n], j, x), cl := s.cl[n := InsertAt(s.cl[n], j, x)]);
            Sound(s', L, S_CACHE + 1) && LiveKept(s, s')
  {
    hide IndexOk, WaitOk, Tiled, Bits, SegWords, FreeAt, Chains, Held, JunkAt, AllKept, InsertAt, LiveKept;
    var l := s.cl[n];
    var m1 := WithLink(s.m, x, Nth(l, j));
    assert m1.Link(x) == Nth(l, j);
    PushFree(s, m1, L, S_CACHE + 1, x);
    ThreadJunk(s, L, x, n, j);
    ThreadChains(s.m, s.cl, n, j, x);
    if j > 0 {
      assert Entry(s.m, s.B, n, S_CACHE + 1, l[j - 1]);
      var m2 := WithLink(m1, l[j - 1], x);
      assert m2.Link(l[j - 1]) == x;
      PushFree(s.(m := m1), m2, L, S_CACHE + 1, l[j - 1]);
      LiveKeptTrans(s, s.(m := m1), s.(m := m2));
    }
    LiveKeptLists(s, s.(m := Threaded(s.m, l, j, x)), s.cl[n := InsertAt(l, j, x)]);
  }

  lemma LiveKeptLists(s: State, s': State, cl: seq<seq<int>>)
    requires LiveKept(s, s')
    ensures LiveKept(s, s'.(cl := cl))
  {
  }

  lemma InsertElement(l: seq<int>, j: int, x: int, i: int)
    requires 0 <= j <= |l| && 0 <= i <= |l|
    ensures |InsertAt(l, j, x)| == |l| + 1
    ensures InsertAt(l, j, x)[i] == if i < j then l[i] else if i == j then x else l[i - 1]
  {
  }

  lemma ThreadJunk(s: State, L: set<int>, x: int, n: int, j: int)
    requires LooseAt(s.m, s.B, s.last, s.cl, S_CACHE + 1, x)
    requires 0 <= n < S_CACHE && s.m.Size(x) == n + 1 && 0 <= j <= |s.cl[n]|
    ensures JunkAt(Threaded(s.m, s.cl[n], j, x), s.B, s.last, s.cl[n := InsertAt(s.cl[n], j, x)], S_CACHE + 1)
  {
    hide Separate, InsertAt;
    var m', cl' := Threaded(s.m, s.cl[n], j, x), s.cl[n := InsertAt(s.cl[n], j, x)];
    ThreadSeparate(s.cl, n, j, x);
    forall b ensures b in cl'[n] <==> b in s.cl[n] || b == x { InsertHas(s.cl[n], j, x, b); }
    forall k, i | 0 <= k <= S_CACHE && 0 <= i < |cl'[k]|
      ensures Entry(m', s.B, k, S_CACHE + 1, cl'[k][i]) && cl'[k][i] != s.last
    {
      assert cl'[k][i] in cl'[k];
      if k != n || cl'[k][i] != x {
        var i' :| 0 <= i' < |s.cl[k]| && s.cl[k][i'] == cl'[k][i];
        assert Entry(s.m, s.B, k, S_CACHE + 1, s.cl[k][i']);
      }
    }
    forall b | b in s.B && m'.Head(b).junk ensures b == s.last || JunkListed(m', cl', b) {
      assert b == x || b == s.last || JunkListed(s.m, s.cl, b);
    }
  }

  lemma ThreadSeparate(cl: seq<seq<int>>, n: int, j: int, x: int)
    requires Separate(cl) && 0 <= n < S_CACHE && Unlisted(cl, x) && x > 0 && 0 <= j <= |cl[n]|
    ensures Separate(cl[n := InsertAt(cl[n], j, x)])
  {
  }

  lemma ThreadChains(m: Mem, cl: seq<seq<int>>, n: int, j: int, x: int)
    requires Chains(m, cl) && Separate(cl) && 0 <= n < S_CACHE && Unlisted(cl, x) && x > 0 && 0 <= j <= |cl[n]|
    ensures Chains(Threaded(m, cl[n], j, x), cl[n := InsertAt(cl[n], j, x)])
  {
    hide InsertAt;
    var m', cl' := Threaded(m, cl[n], j, x), cl[n := InsertAt(cl[n], j, x)];
    forall k | 0 <= k < |cl'| ensures Chain(m', cl'[k]) {
      assert Chain(m, cl[k]);
      if k == n {
        ThreadChain(m, cl[n], j, x);
      } else {
        forall i | 0 <= i < |cl[k]| ensures m'.Link(cl[k][i]) == m.Link(cl[k][i]) {
          assert cl[k][i] in cl[k];
          OtherEntry(cl, n, j - 1, k, i);
        }
      }
    }
  }

  lemma OtherEntry(cl: seq<seq<int>>, n: int, j: int, k: int, i: int)
    requires Separate(cl) && 0 <= n <= S_CACHE && 0 <= k <= S_CACHE && k != n && 0 <= i < |cl[k]|
    ensures 0 <= j < |cl[n]| ==> cl[n][j] != cl[k][i]
  {
  }

  lemma ThreadChain(m: Mem, l: seq<int>, j: int, x: int)
    requires Chain(m, l) && Addresses(l) && x !in l && 0 <= j <= |l|
    ensures Chain(Threaded(m, l, j, x), InsertAt(l, j, x))
  {
    hide InsertAt;
    var m', l' := Threaded(m, l, j, x), InsertAt(l, j, x);
    InsertElement(l, j, x, j);
    forall i | 0 <= i < |l'| ensures m'.Link(l'[i]) == Nth(l', i + 1) {
      InsertElement(l, j, x, i);
      if i < |l| { InsertElement(l, j, x, i + 1); }
    }
  }

  // ---------- one piece ----------

  /** Piece p of `size` units is cut off and becomes junk; what follows stays live. */
  function PieceCut(m: Mem, p: int, size: nat): Mem {
    var m1 := Unjunked(Cut(m, p, size), p + 1 + size);
    WithHead(m1, p, m1.Head(p).(junk := true))
  }

  lemma CutPiece(s0: State, s: State, p: int, size: nat, rest: nat) returns (s': State)
    requires Sound(s, {}, S_CACHE + 1) && p in s.B && Live(s.m, p) && 0 < size && size + 2 <= s.m.Size(p) == rest
    requires Allocated(s0, s, p, rest)
    ensures s' == s.(m := PieceCut(s.m, p, size), B := s.B + {p + 1 + size})
    ensures Loose(s', {}, S_CACHE + 1, p) && s'.m.Size(p) == size
    ensures Allocated(s0, s', p + 1 + size, rest - size - 1) && p != NIL && p !in InUse(s0)
    ensures Live(s'.m, p + 1 + size) && s'.m.Head(p + 1 + size) == Header(rest - size - 1, true, false, false)
  {
    hide Sound, InUse, Untouched, Loose, Cut;
    var np := p + 1 + size;
    CutHeads(s.m, p, size);
    CutSound(s, {}, p, size);
    var s1 := s.(m := Cut(s.m, p, size), B := s.B + {np});
    LooseIs(s1, {}, S_CACHE + 1, np);
    LooseInB(s1, {}, S_CACHE + 1, np);
    ReviveAllocated(s1, {}, np);
    var s2 := s1.(m := Unjunked(s1.m, np));
    var m3 := WithHead(s2.m, p, s2.m.Head(p).(junk := true));
    assert JunkBit(s2.m, m3, p);
    MarkJunk(s2, m3, {}, S_CACHE + 1, p);
    JunkBitUse(s2, m3, p);
    s' := s2.(m := m3);
    PieceUse(s0, s, s1, s2, s', p, np, size, rest);
  }

  lemma PieceUse(s0: State, s: State, s1: State, s2: State, s': State, p: int, np: int, size: nat, rest: nat)
    requires Allocated(s0, s, p, rest) && p != np && np !in s.B && s1.B == s.B + {np} && size + 2 <= rest
    requires InUse(s1) == InUse(s)[p := size] && Untouched(s, s1, p)
    requires Allocated(s1, s2, np, rest - size - 1) && np != NIL
    requires InUse(s') == InUse(s2) - {p} && Untouched(s2, s', NIL)
    ensures Allocated(s0, s', np, rest - size - 1)
  {
    hide Untouched, InUse;
    AllocatedCut(s0, s, s1, p, rest, size);
    UntouchedTrans(s0, s1, s2, NIL);
    UntouchedBut(s2, s', p);
    UntouchedBut(s0, s2, p);
    UntouchedTrans(s0, s2, s', p);
    UntouchedNew(s0, s', p);
    InUseOutside(s, np);
    assert np !in InUse(s0);
    assert InUse(s0)[p := size][np := rest - size - 1] - {p} == InUse(s0)[np := rest - size - 1];
  }

  lemma InUseOutside(s: State, b: int)
    requires b !in s.B
    ensures b !in InUse(s)
  {
  }

  /** The sound arena behind the memory of the loop: the piece still to be cut has a live header of
      `rest` units, and the last entry made links to h. */
  function Mended(m: Mem, p: int, rest: nat, prev: int, h: int): Mem {
    var m1 := WithHead(m, p, Header(rest, true, false, false));
    if prev == NIL then m1 else WithLink(m1, prev, h)
  }

  /** What the loop of bestalloc writes for one piece. */
  function PieceWrites(m: Mem, p: int, size: nat): Mem {
    var m1 := WithHead(m, p, Free(size));
    var np := m1.Next(p);
    var m2 := WithHead(WithLink(m1, p, np), p, Header(size, true, false, true));
    WithSeg(m2, np, m2.Seg(p))
  }

  lemma PieceWritesMend(m: Mem, p: int, size: nat, rest: nat, prev: int, h: int, l: seq<int>, j: int)
    requires 0 < size && size + 2 <= rest && 0 <= j <= |l| && Nth(l, j) == h && p != NIL
    requires if j == 0 then prev == NIL
             else prev == l[j - 1] && prev != NIL && prev != p && prev in m.link && m.link[prev] == p
    ensures Mended(PieceWrites(m, p, size), p + 1 + size, rest - size - 1, p, h)
         == Threaded(PieceCut(Mended(m, p, rest, prev, h), p, size), l, j, p)
  {
    hide PieceWrites, PieceCut;
    PieceWritesForm(m, p, size);
    PieceCutForm(Mended(m, p, rest, prev, h), p, size, rest);
    var a := Mended(PieceWrites(m, p, size), p + 1 + size, rest - size - 1, p, h);
    var c := PieceCut(Mended(m, p, rest, prev, h), p, size);
    var b := Threaded(c, l, j, p);
    OverTwice(m.hdr, p, Header(rest, true, false, false), Header(size, true, false, true));
    OverTwice(m.link, p, p + 1 + size, h);
    if j > 0 { OverAround(m.link, p, prev, h); }
    assert c.seg == m.seg[p + 1 + size := m.Seg(p)];
  }

  lemma OverTwice<V>(f: map<int, V>, p: int, u: V, v: V)
    ensures f[p := u][p := v] == f[p := v]
  {
  }

  lemma OverAround(f: map<int, int>, p: int, prev: int, h: int)
    requires prev != p && prev in f && f[prev] == p
    ensures f[prev := h][p := h][prev := p] == f[p := h]
  {
  }

  lemma PieceWritesForm(m: Mem, p: int, size: nat)
    ensures PieceWrites(m, p, size) ==
      m.(hdr := m.hdr[p := Header(size, true, false, true)], link := m.link[p := p + 1 + size],
          seg := m.seg[p + 1 + size := m.Seg(p)])
  {
    assert PieceWrites(m, p, size).hdr == m.hdr[p := Header(size, true, false, true)];
  }

  lemma PieceCutForm(m: Mem, p: int, size: nat, rest: nat)
    requires 0 < size && size + 2 <= rest && m.Head(p) == Header(rest, true, false, false)
    ensures PieceCut(m, p, size) ==
      m.(hdr := m.hdr[p := Header(size, true, false, true)][p + 1 + size := Header(rest - size - 1, true, false,
          false)], seg := m.seg[p + 1 + size := m.Seg(p)])
  {
    assert PieceCut(m, p, size).hdr ==
           m.hdr[p := Header(size, true, false, true)][p + 1 + size := Header(rest - size - 1, true, false, false)];
  }

  /** The state of the loop after n pieces: s is the arena behind the memory m. */
  ghost predicate Cutting(s0: State, s: State, m: Mem, old0: seq<int>, tp: int, n: nat, p: int, size: nat,
                          rest: nat, prev: int)
  {
    var k := size - 1;
    && |s.cl| == S_CACHE + 1 && 0 < size < MAXCACHE && |s.cl[k]| == n + |old0|
    && Sound(s, {}, S_CACHE + 1) && Allocated(s0, s, p, rest) && p in s.B
    && s.m == Mended(m, p, rest, prev, Nth(old0, 0))
    && s.cl[k][n..] == old0
    && (if n == 0 then prev == NIL && p == tp
        else
          prev == s.cl[k][n - 1] && prev != NIL && prev != p && prev in m.link && m.link[prev] == p && s.cl[k][0] == tp)
  }

  lemma CuttingStep(s0: State, s: State, m: Mem, old0: seq<int>, tp: int, n: nat, p: int, size: nat,
                    rest: nat, prev: int)
    returns (s': State)
    requires |s.cl| == S_CACHE + 1 && 0 < size < MAXCACHE && size + 2 <= rest
    requires Cutting(s0, s, m, old0, tp, n, p, size, rest, prev)
    ensures var np := p + 1 + size;
            && |s'.cl| == S_CACHE + 1
            && Cutting(s0, s', PieceWrites(m, p, size), old0, tp, n + 1, np, size, rest - size - 1, p)
            && s' == s.(m := s'.m, B := s.B + {np}, cl := s.cl[size - 1 := s'.cl[size - 1]])
            && |s.cl[size - 1]| >= n && |s'.cl[size - 1]| >= n + 1
            && s'.cl[size - 1][..n + 1] == s.cl[size - 1][..n] + [p]
  {
    hide Sound, Allocated, InsertAt, Loose, LiveKept, PieceCut, Threaded, PieceWrites;
    var k, np := size - 1, p + 1 + size;
    assert Live(s.m, p) && s.m.Size(p) == rest;
    var s1 := CutPiece(s0, s, p, size, rest);
    ThreadList(s1, {}, p, k, n);
    PieceWritesMend(m, p, size, rest, prev, Nth(old0, 0), s.cl[k], n);
    s' := s1.(m := Threaded(s1.m, s.cl[k], n, p), cl := s.cl[k := InsertAt(s.cl[k], n, p)]);
    KeptIdle(s1, s');
    AllocatedTrans(s0, s1, s', np, rest - size - 1);
    InsertElement(s.cl[k], n, p, n);
    InsertElement(s.cl[k], n, p, 0);
    InsertTail(s.cl[k], n, p);
    PieceLink(m, p, size);
  }

  lemma InsertTail(l: seq<int>, n: int, p: int)
    requires 0 <= n <= |l|
    ensures InsertAt(l, n, p)[n + 1..] == l[n..] && InsertAt(l, n, p)[..n + 1] == l[..n] + [p]
  {
  }

  lemma PieceLink(m: Mem, p: int, size: nat)
    ensures p in PieceWrites(m, p, size).link && PieceWrites(m, p, size).link[p] == p + 1 + size
  {
  }

  /** Blocks of a size side by side, from tp on. */
  ghost predicate InRow(l: seq<int>, tp: int, size: nat) {
    forall i :: 0 <= i < |l| ==> l[i] == tp + i * (size + 1)
  }

  lemma RowNone(tp: int, size: nat)
    ensures InRow([], tp, size)
  {
  }

  lemma RowMore(l: seq<int>, tp: int, size: nat, p: int)
    requires InRow(l, tp, size) && p == tp + |l| * (size + 1)
    ensures InRow(l + [p], tp, size) && p + 1 + size == tp + |l + [p]| * (size + 1)
  {
    assert (|l| + 1) * (size + 1) == |l| * (size + 1) + size + 1;
  }

  lemma RowRest(l: seq<int>, tp: int, size: nat)
    requires InRow(l, tp, size) && l != []
    ensures l[0] == tp && InRow(l[1..], tp + 1 + size, size)
  {
    forall i | 0 <= i < |l[1..]| ensures l[1..][i] == tp + 1 + size + i * (size + 1) {
      assert l[1..][i] == l[i + 1];
      assert (i + 1) * (size + 1) == i * (size + 1) + size + 1;
    }
  }

  // ---------- the last piece ----------

  /** What bestalloc writes for the last piece. */
  function LastWrites(m: Mem, p: int, rest: nat): Mem {
    WithLink(WithHead(m, p, Header(rest, true, false, true)), p, NIL)
  }

  lemma DeadIdle(s0: State, s: State, s': State, p: int, k: nat)
    requires Allocated(s0, s, p, k) && InUse(s') == InUse(s) - {p} && Untouched(s, s', NIL)
    ensures Idle(s0, s')
  {
    hide Untouched, InUse;
    UntouchedBut(s, s', p);
    UntouchedBut(s0, s, p);
    UntouchedTrans(s0, s, s', p);
    UntouchedNew(s0, s', p);
    assert InUse(s0)[p := k] - {p} == InUse(s0);
  }

  /** With an exact fit and an empty list the arena is sound again, the pieces being its junk. */
  lemma CuttingEnd(s0: State, s: State, m: Mem, tp: int, p: int, size: nat, prev: int) returns (s': State)
    requires |s.cl| == S_CACHE + 1 && 0 < size < MAXCACHE
    requires Cutting(s0, s, m, [], tp, N_CACHE - 1, p, size, size, prev)
    ensures s' == s.(m := LastWrites(m, p, size), cl := s.cl[size - 1 := s.cl[size - 1] + [p]])
    ensures Sound(s', {}, S_CACHE + 1) && Idle(s0, s') && s'.cl[size - 1][0] == tp
  {
    hide Sound, Allocated, InsertAt, Loose, LiveKept, Threaded, InUse, Untouched, Idle;
    var k, n := size - 1, N_CACHE - 1;
    var m1 := WithHead(s.m, p, Header(size, true, false, true));
    assert JunkBit(s.m, m1, p);
    MarkJunk(s, m1, {}, S_CACHE + 1, p);
    JunkBitUse(s, m1, p);
    var s1 := s.(m := m1);
    DeadIdle(s0, s, s1, p, size);
    ThreadList(s1, {}, p, k, n);
    s' := s1.(m := Threaded(m1, s.cl[k], n, p), cl := s.cl[k := InsertAt(s.cl[k], n, p)]);
    KeptIdle(s1, s');
    IdleTrans(s0, s1, s');
    LastWritesMend(m, p, size, prev, s.cl[k], n);
    InsertEnd(s.cl[k], p);
  }

  lemma InsertEnd(l: seq<int>, p: int)
    ensures InsertAt(l, |l|, p) == l + [p]
  {
  }

  lemma LastWritesMend(m: Mem, p: int, size: nat, prev: int, l: seq<int>, n: int)
    requires 0 < n == |l| && prev == l[n - 1] && prev != NIL && prev != p && prev in m.link && m.link[prev] == p
    ensures LastWrites(m, p, size) ==
            Threaded(WithHead(Mended(m, p, size, prev, NIL), p, Header(size, true, false, true)), l, n, p)
  {
  }

  /** Otherwise the delayed lists are wrong: either the last piece is one unit larger than the class
      of its list, or the blocks that were on the list before are on no list any more. */
  lemma CuttingBroken(s0: State, s: State, m: Mem, m': Mem, cl': seq<seq<int>>, old0: seq<int>, tp: int, p: int,
                      size: nat, rest: nat, prev: int)
    requires |s.cl| == S_CACHE + 1 && 0 < size < MAXCACHE && rest > 0
    requires Cutting(s0, s, m, old0, tp, N_CACHE - 1, p, size, rest, prev)
    requires rest != size || old0 != []
    requires m'.Head(p) == Header(rest, true, false, true) && forall b :: b != p && b != tp ==> m'.Head(b) == m.Head(b)
    requires cl' == s.cl[size - 1 := (s.cl[size - 1][..N_CACHE - 1] + [p])[1..]]
    ensures !JunkAt(m', s.B, s.last, cl', S_CACHE + 1)
  {
    hide FreeSound, Allocated, Chains;
    var k := size - 1;
    if rest != size {
      assert cl'[k][N_CACHE - 2] == p;
      assert !Entry(m', s.B, k, S_CACHE + 1, p);
    } else {
      var x := old0[0];
      assert s.cl[k][N_CACHE - 1] == x && s.cl[k][0] == tp;
      assert Entry(s.m, s.B, k, S_CACHE + 1, x);
      assert x != p && x != tp && x != prev;
      LostEntry(s.cl, cl', k, p);
      assert !JunkListed(m', cl', x);
    }
  }

  lemma LostEntry(cl: seq<seq<int>>, cl': seq<seq<int>>, k: int, p: int)
    requires Separate(cl) && 0 <= k < S_CACHE && |cl[k]| >= N_CACHE && p != cl[k][N_CACHE - 1]
    requires cl' == cl[k := (cl[k][..N_CACHE - 1] + [p])[1..]]
    ensures forall n :: 0 <= n <= S_CACHE ==> cl[k][N_CACHE - 1] !in cl'[n]
  {
  }

  /** Before the first piece is cut. */
  lemma CuttingStart(s0: State, s: State, tp: int, size: nat, rest: nat)
    requires Sound(s, {}, S_CACHE + 1) && |s.cl| == S_CACHE + 1 && 0 < size < MAXCACHE && rest > 0
    requires Allocated(s0, s, tp, rest) && tp in s.B && s.m.Head(tp) == Header(rest, true, false, false)
    ensures Cutting(s0, s, s.m, s.cl[size - 1], tp, 0, tp, size, rest, NIL)
  {
    hide Sound, Allocated;
    assert tp in s.m.hdr;
    assert s.m.hdr[tp := Header(rest, true, false, false)] == s.m.hdr;
    assert s.cl[size - 1][0..] == s.cl[size - 1];
  }

  /** The first piece links to the second. */
  lemma FirstLink(s0: State, s: State, m: Mem, old0: seq<int>, tp: int, p: int, size: nat, rest: nat, prev: int)
    requires |s.cl| == S_CACHE + 1 && 0 < size < MAXCACHE && rest > 0
    requires Cutting(s0, s, m, old0, tp, N_CACHE - 1, p, size, rest, prev)
    ensures LastWrites(m, p, rest).Link(tp) == s.cl[size - 1][1] && s.cl[size - 1][0] == tp && p != tp
  {
    hide FreeSound, Allocated, Chains;
    var l := s.cl[size - 1];
    assert Entry(s.m, s.B, size - 1, S_CACHE + 1, l[0]);
    assert l[0] != l[N_CACHE - 2];
    ChainAt(s.m, s.cl, size - 1, 0);
  }

  lemma ChainAt(m: Mem, cl: seq<seq<int>>, k: int, i: int)
    requires Chains(m, cl) && 0 <= k < |cl| && 0 <= i < |cl[k]|
    ensures m.Link(cl[k][i]) == Nth(cl[k], i + 1)
  {
    assert Chain(m, cl[k]);
  }

  /** A cached block is taken off its list and comes to life. */
  lemma PopRevive(s: State, k: int)
    requires Sound(s, {}, S_CACHE + 1) && 0 <= k < S_CACHE && s.cl[k] != []
    ensures |s.cl| == S_CACHE + 1
    ensures var b := s.cl[k][0]; var s' := s.(m := Unjunked(s.m, b), cl := Popped(s.cl, k));
            Sound(s', {}, S_CACHE + 1) && Allocated(s, s', b, k + 1) && s.m.Link(b) == Nth(s.cl[k], 1)
  {
    hide Sound, InUse, Untouched, Loose;
    SoundLists(s, {}, S_CACHE + 1);
    var b := s.cl[k][0];
    SoundEntry(s, {}, S_CACHE + 1, k);
    EntryClass(s, {}, k);
    PopLoose(s, {}, S_CACHE + 1, k);
    var s1 := s.(cl := Popped(s.cl, k));
    ReviveAllocated(s1, {}, b);
    IdleSame(s, s1);
    AllocatedTrans(s, s1, s1.(m := Unjunked(s.m, b)), b, k + 1);
  }

  lemma EntryClass(s: State, L: set<int>, k: int)
    requires Sound(s, L, S_CACHE + 1) && 0 <= k < S_CACHE && s.cl[k] != []
    ensures s.cl[k][0] in s.B && s.m.Size(s.cl[k][0]) == k + 1
  {
    hide FreeSound, Chains, Separate;
    assert Entry(s.m, s.B, k, S_CACHE + 1, s.cl[k][0]);
  }

  /** List k is not empty, and its head links to the second entry. */
  ghost predicate Ready(s: State, k: int) {
    && |s.cl| == S_CACHE + 1 && 0 <= k < S_CACHE
    && s.cl[k] != [] && s.m.Link(s.cl[k][0]) == Nth(s.cl[k], 1)
  }

  /** Once the head of list k is taken for use, the delayed lists are wrong. */
  ghost predicate Broken(s: State, k: int) {
    Ready(s, k) && !JunkAt(Unjunked(s.m, s.cl[k][0]), s.B, s.last, Popped(s.cl, k), S_CACHE + 1)
  }

  lemma CuttingReady(s0: State, s: State, m: Mem, old0: seq<int>, tp: int, p: int, size: nat, rest: nat,
                     prev: int, s': State)
    requires |s.cl| == S_CACHE + 1 && 0 < size < MAXCACHE && rest > 0
    requires Cutting(s0, s, m, old0, tp, N_CACHE - 1, p, size, rest, prev)
    requires s' == s.(m := LastWrites(m, p, rest), cl := s.cl[size - 1 := s.cl[size - 1][..N_CACHE - 1] + [p]])
    ensures Ready(s', size - 1) && s'.cl[size - 1][0] == tp
    ensures rest != size || old0 != [] ==> Broken(s', size - 1)
  {
    hide Sound, Allocated, JunkAt;
    FirstLink(s0, s, m, old0, tp, p, size, rest, prev);
    var m' := Unjunked(s'.m, tp);
    if rest != size || old0 != [] {
      LastHeads(m, p, rest, tp);
      CuttingBroken(s0, s, m, m', Popped(s'.cl, size - 1), old0, tp, p, size, rest, prev);
    }
  }

  lemma LastHeads(m: Mem, p: int, rest: nat, tp: int)
    requires p != tp
    ensures var m' := Unjunked(LastWrites(m, p, rest), tp);
            m'.Head(p) == Header(rest, true, false, true) && forall b :: b != p && b != tp ==> m'.Head(b) == m.Head(b)
  {
  }

  /** What became of a bunch: the size of the block that was cut up, and the head of the list that
      the pieces have replaced. */
  datatype Report = NoBunch | Bunch(units: nat, lost: int)

  /** The size asked for to make a bunch of blocks of the given size. */
  function BunchUnits(size: nat): nat { size + (size + 1) * (N_CACHE - 1) }

  /** The block was an exact fit and the list was still empty. */
  predicate Regular(r: Report, size: nat) {
    r.NoBunch? || (r.units == BunchUnits(size) && r.lost == NIL)
  }

  lemma EmptyHead(s: State, k: int)
    requires Sound(s, {}, S_CACHE + 1) && 0 <= k <= S_CACHE
    ensures |s.cl| == S_CACHE + 1 && (s.cl[k] == [] <==> Nth(s.cl[k], 0) == NIL)
  {
    hide Sound;
    SoundLists(s, {}, S_CACHE + 1);
    if s.cl[k] != [] { SoundEntry(s, {}, S_CACHE + 1, k); }
  }

  /** There is room for another piece. */
  lemma Room(size: nat, n: nat, rest: int, s: int)
    requires 0 < size && n < N_CACHE - 1 && rest + n * (size + 1) == s && size + (size + 1) * (N_CACHE - 1) <= s
    ensures size + 2 <= rest && rest - size - 1 + (n + 1) * (size + 1) == s
  {
  }

  lemma PieceShown(m: Mem, p: int, size: nat)
    ensures var m1 := WithHead(m, p, Free(size));
            var np := m1.Next(p);
            var m2 := WithLink(m1, p, np);
            var m3 := WithHead(m2, p, m2.Head(p).(busy := true, junk := true));
            np == p + 1 + size && WithSeg(m3, np, m3.Seg(p)) == PieceWrites(m, p, size)
  {
  }

  lemma RestIs(size: nat, rest: int, s: int)
    requires rest + (N_CACHE - 1) * (size + 1) == s
    requires size + (size + 1) * (N_CACHE - 1) <= s <= size + (size + 1) * (N_CACHE - 1) + 1
    ensures size <= rest <= size + 1 && (rest == size <==> s == size + (size + 1) * (N_CACHE - 1))
  {
  }

  lemma LastShown(m: Mem, p: int, rest: nat)
    ensures LastWrites(m, p, rest) == WithLink(WithHead(m, p, Header(rest, true, false, true)), p, NIL)
  {
  }

  lemma HeadReady(s: State, k: int, tp: int)
    requires Ready(s, k)
    ensures |s.cl| == S_CACHE + 1 && s.cl[k] != [] && Nth(s.cl[k], 0) == s.cl[k][0] &&
            s.m.Link(s.cl[k][0]) == Nth(s.cl[k], 1)
  {
  }

  lemma CuttingLists(s0: State, s: State, m: Mem, tp: int, p: int, size: nat, rest: nat, prev: int)
    requires |s.cl| == S_CACHE + 1 && 0 < size < MAXCACHE
    requires Cutting(s0, s, m, [], tp, N_CACHE - 1, p, size, rest, prev)
    ensures s.cl[size - 1][..N_CACHE - 1] == s.cl[size - 1]
  {
  }

  lemma CuttingLength(s0: State, s: State, m: Mem, old0: seq<int>, tp: int, n: nat, p: int, size: nat,
                      rest: nat, prev: int)
    requires Cutting(s0, s, m, old0, tp, n, p, size, rest, prev)
    ensures |s.cl| == S_CACHE + 1 && 0 < size < MAXCACHE && |s.cl[size - 1]| >= n
  {
  }

  lemma ListReady(s: State, k: int)
    requires Sound(s, {}, S_CACHE + 1) && 0 <= k < S_CACHE && s.cl[k] != []
    ensures Ready(s, k)
  {
  }

  lemma BrokenIs(s: State, s': State, k: int)
    requires Broken(s, k) && s'.m == Unjunked(s.m, s.cl[k][0]) && s'.B == s.B && s'.last == s.last &&
             s'.cl == Popped(s.cl, k)
    ensures !Sound(s', {}, S_CACHE + 1)
  {
    hide FreeSound, JunkAt, Chains;
  }

  lemma AllocatedHead(s: State, s': State, tp: int, k: nat)
    requires Allocated(s, s', tp, k)
    ensures tp in s'.B && s'.m.Size(tp) == k > 0 && Live(s'.m, tp)
  {
    hide Untouched;
    UseSize(s', tp);
  }

  lemma AllocatedNonNil(s: State, s': State, tp: int, k: nat)
    requires Allocated(s, s', tp, k)
    ensures tp != NIL
  {
  }

  // ---------- splitting off the left part of an aligned block ----------

  lemma LeftShown(m: Mem, tp: int, s: nat, g: int)
    requires m.Seg(tp) == g && 2 <= s && s + 1 <= m.Size(tp) && m.Head(tp).busy && !m.Head(tp).junk
    ensures var np, h := tp + s, m.Head(tp);
            var m1 := WithSeg(WithHead(m, np, Header(h.size - s, true, false, false)), np, g);
            WithHead(m1, tp, Header(s - 1, h.busy, h.pfree, true)) == PieceCut(m, tp, s - 1)
  {
  }

  lemma PieceSeg(m: Mem, tp: int, size: nat)
    requires size + 2 <= m.Size(tp)
    ensures PieceCut(m, tp, size).Seg(tp + 1 + size) == m.Seg(tp)
  {
  }
}
