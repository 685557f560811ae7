/** Statistics on a best-fit region: a walk over all segments. */
module VmStat {
  import opened Seqs
  import opened VmMemory
  import opened Index
  import opened Arena
  import opened ArenaSound
  import opened Carve
  import opened VmBest

  /** The units between the first header and the end marker of every segment. */
  function Usable(segs: seq<Segment>): int {
    if segs == [] then 0 else Usable(segs[..|segs| - 1]) + segs[|segs| - 1].end - First(segs[|segs| - 1])
  }

  function Sizes(m: Mem, l: seq<int>): int {
    if l == [] then 0 else Sizes(m, l[..|l| - 1]) + m.Size(l[|l| - 1])
  }

  /** Blocks before position b of segment i. */
  ghost predicate Before(segs: seq<Segment>, i: int, b: int, x: int) {
    SegIx(segs, x) < i || (SegIx(segs, x) == i && x < b)
  }

  /** The lists hold exactly the blocks before position b of segment i, live or not. */
  ghost predicate Listing(s: State, i: int, b: int, busy: seq<int>, free: seq<int>) {
    && Addresses(busy) && Addresses(free)
    && (forall x :: x in busy <==> x in InUse(s) && Before(s.segs, i, b, x))
    && (forall x :: x in free <==> x in s.B && !Live(s.m, x) && Before(s.segs, i, b, x))
  }

  /** m is the greatest size of a listed block, 0 if there is none. */
  ghost predicate Greatest(m: Mem, l: seq<int>, g: int) {
    && (forall x :: x in l ==> m.Size(x) <= g)
    && (if l == [] then g == 0 else exists x :: x in l && m.Size(x) == g)
  }

  lemma Appended(m: Mem, l: seq<int>, b: int, g: int)
    requires Greatest(m, l, g) && g >= 0
    ensures Sizes(m, l + [b]) == Sizes(m, l) + m.Size(b)
    ensures Greatest(m, l + [b], if m.Size(b) > g then m.Size(b) else g)
  {
  }

  /** The next block of the walk. */
  lemma WalkStep(s: State, i: int, b: int, busy: seq<int>, free: seq<int>)
    requires Sound(s, {}, S_CACHE + 1) && 0 <= i < |s.segs| && b in s.B && SegIx(s.segs, b) == i && b < s.segs[i].end
    requires Listing(s, i, b, busy, free)
    ensures var n := s.m.Next(b);
            && s.m.Size(b) > 0 && n in s.B && SegIx(s.segs, n) == i && n <= s.segs[i].end
            && (if Live(s.m, b) then Listing(s, i, n, busy + [b], free) else Listing(s, i, n, busy, free + [b]))
  {
    hide IndexOk, WaitOk, SegWords, FreeAt, JunkAt, Chains, Bits, SegIx, SegsOk, Addresses, InUse;
    assert Inside(s.m, s.segs, b);
    NextSeg(s.m, s.B, s.segs, b);
    NextIn(s.m, s.B, s.segs, b);
    assert Inside(s.m, s.segs, s.m.Next(b));
    AllPositive(s.m, s.B, s.segs);
    forall x | x in s.B ensures Before(s.segs, i, s.m.Next(b), x) <==> Before(s.segs, i, b, x) || x == b {
      assert (b < x ==> s.m.Next(b) <= x);
    }
    InUseIs(s, b);
    assert forall x :: x in InUse(s) ==> x in s.B by { InUseIn(s); }
    if Live(s.m, b) {
      DistinctMore(busy, b);
    } else {
      DistinctMore(free, b);
    }
  }

  lemma DistinctMore(l: seq<int>, b: int)
    requires Addresses(l) && b !in l && b != NIL
    ensures Addresses(l + [b])
    ensures forall x :: x in l + [b] <==> x in l || x == b
  {
  }

  lemma InUseIs(s: State, b: int)
    ensures b in InUse(s) <==> b in s.B && Live(s.m, b) && s.m.Size(b) > 0
  {
  }

  lemma InUseIn(s: State)
    ensures forall x :: x in InUse(s) ==> x in s.B && Live(s.m, x)
  {
  }

  /** A proper block lies before the end marker of its segment. */
  lemma BlockPlace(s: State, x: int)
    requires Sound(s, {}, S_CACHE + 1) && (x in InUse(s) || (x in s.B && !Live(s.m, x)))
    ensures x in s.B && SegIx(s.segs, x) < |s.segs|
    ensures First(s.segs[SegIx(s.segs, x)]) <= x < s.segs[SegIx(s.segs, x)].end
  {
    hide IndexOk, WaitOk, SegWords, FreeAt, JunkAt, Chains, SegIx, SegsOk;
    assert Inside(s.m, s.segs, x);
    assert s.m.Size(x) > 0;
    NextSeg(s.m, s.B, s.segs, x);
    NextIn(s.m, s.B, s.segs, x);
    assert Inside(s.m, s.segs, s.m.Next(x));
  }

  /** On to the next segment. */
  lemma NextSegment(s: State, i: int, b: int, busy: seq<int>, free: seq<int>)
    requires Sound(s, {}, S_CACHE + 1) && 0 <= i < |s.segs| && b == s.segs[i].end && Listing(s, i, b, busy, free)
    ensures i + 1 < |s.segs| ==> Listing(s, i + 1, First(s.segs[i + 1]), busy, free)
    ensures i + 1 == |s.segs| ==> Whole(s, busy, free)
  {
    hide Sound, SegIx, Addresses, InUse, Live;
    forall x | x in InUse(s) || (x in s.B && !Live(s.m, x))
      ensures i + 1 < |s.segs| ==> (Before(s.segs, i, b, x) <==> Before(s.segs, i + 1, First(s.segs[i + 1]), x))
      ensures i + 1 == |s.segs| ==> Before(s.segs, i, b, x)
    {
      BlockPlace(s, x);
    }
  }

  /** The lists hold exactly the blocks in use and the other blocks. */
  ghost predicate Whole(s: State, busy: seq<int>, free: seq<int>) {
    && Addresses(busy) && Addresses(free)
    && (forall x :: x in busy <==> x in InUse(s))
    && (forall x :: x in free <==> x in s.B && !Live(s.m, x))
  }

  lemma WalkStart(s: State, i: int)
    requires Sound(s, {}, S_CACHE + 1) && 0 <= i < |s.segs|
    ensures First(s.segs[i]) in s.B && SegIx(s.segs, First(s.segs[i])) == i && First(s.segs[i]) < s.segs[i].end
    ensures i == 0 ==> Listing(s, 0, First(s.segs[0]), [], [])
  {
    hide IndexOk, WaitOk, SegWords, FreeAt, JunkAt, Chains, Bits, SegIx, InUse;
    SegIxIs(s.segs, First(s.segs[i]), i);
    InUseIn(s);
    forall x | x in s.B ensures !Before(s.segs, 0, First(s.segs[0]), x) { assert Inside(s.m, s.segs, x); }
  }

  lemma WalkNone(s: State)
    requires Sound(s, {}, S_CACHE + 1) && s.segs == []
    ensures Whole(s, [], [])
  {
    hide Sound, InUse;
    InUseIn(s);
    AllPlaced(s);
  }

  lemma AllPlaced(s: State)
    requires Sound(s, {}, S_CACHE + 1)
    ensures forall x :: x in s.B ==> SegIx(s.segs, x) < |s.segs|
  {
    hide IndexOk, WaitOk, SegWords, FreeAt, JunkAt, Chains, Bits;
    forall x | x in s.B ensures SegIx(s.segs, x) < |s.segs| { assert Inside(s.m, s.segs, x); }
  }

  lemma UsableMore(segs: seq<Segment>, i: int)
    requires 0 <= i < |segs|
    ensures Usable(segs[..i + 1]) == Usable(segs[..i]) + segs[i].end - First(segs[i])
  {
    assert segs[..i + 1][..i] == segs[..i];
  }

  /** vmstat: numbers, total sizes and greatest sizes of the blocks in use and of all others. */
  method Stat(r: Region) returns (nBusy: nat, nFree: nat, sBusy: nat, sFree: nat, mBusy: nat, mFree: nat, nSeg: nat,
                                  ghost busy: seq<int>, ghost free: seq<int>)
    requires r.Valid()
    ensures Whole(r.S(), busy, free)
    ensures nBusy == |busy| && nFree == |free| && sBusy == Sizes(r.mem, busy) && sFree == Sizes(r.mem, free)
    ensures Greatest(r.mem, busy, mBusy) && Greatest(r.mem, free, mFree)
    ensures nSeg == |r.segs| && sBusy + sFree + nBusy + nFree == Usable(r.segs)
  {
    hide Sound, Listing, Whole, Greatest;
    nBusy, nFree, sBusy, sFree, mBusy, mFree, nSeg := 0, 0, 0, 0, 0, 0, 0;
    busy, free := [], [];
    GreatestNone(r.mem);
    if r.segs == [] {
      WalkNone(r.S());
    } else {
      WalkStart(r.S(), 0);
    }
    while nSeg < |r.segs|
      invariant 0 <= nSeg <= |r.segs|
      invariant nSeg < |r.segs| ==> Listing(r.S(), nSeg, First(r.segs[nSeg]), busy, free)
      invariant nSeg == |r.segs| ==> Whole(r.S(), busy, free)
      invariant nBusy == |busy| && nFree == |free| && sBusy == Sizes(r.mem, busy) && sFree == Sizes(r.mem, free)
      invariant Greatest(r.mem, busy, mBusy) && Greatest(r.mem, free, mFree)
      invariant sBusy + sFree + nBusy + nFree == Usable(r.segs[..nSeg])
    {
      WalkStart(r.S(), nSeg);
      UsableMore(r.segs, nSeg);
      var b := First(r.segs[nSeg]);
      while b < r.segs[nSeg].end
        invariant b in r.B && SegIx(r.segs, b) == nSeg && b <= r.segs[nSeg].end
        invariant Listing(r.S(), nSeg, b, busy, free)
        invariant nBusy == |busy| && nFree == |free| && sBusy == Sizes(r.mem, busy) && sFree == Sizes(r.mem, free)
        invariant Greatest(r.mem, busy, mBusy) && Greatest(r.mem, free, mFree)
        invariant sBusy + sFree + nBusy + nFree == Usable(r.segs[..nSeg]) + b - First(r.segs[nSeg])
      {
        WalkStep(r.S(), nSeg, b, busy, free);
        var s := r.mem.Size(b);
        if r.mem.Head(b).junk || !r.mem.Head(b).busy {
          Appended(r.mem, free, b, mFree);
          if s > mFree { mFree := s; }
          sFree, nFree, free := sFree + s, nFree + 1, free + [b];
        } else {
          Appended(r.mem, busy, b, mBusy);
          if s > mBusy { mBusy := s; }
          sBusy, nBusy, busy := sBusy + s, nBusy + 1, busy + [b];
        }
        b := r.mem.Next(b);
      }
      NextSegment(r.S(), nSeg, b, busy, free);
      nSeg := nSeg + 1;
    }
    assert r.segs[..nSeg] == r.segs;
  }

  lemma GreatestNone(m: Mem)
    ensures Greatest(m, [], 0)
  {
  }
}
