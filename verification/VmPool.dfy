/**
 * Pool regions: elements of one size, carved from segments and kept on one free list,
 * and the statistics that vmstat derives for such a region.  Addresses count units of
 * 8 bytes; a header takes one unit.
 */
module VmPool {
  const NIL := 0

  /** A segment's usable units [first, end); its uncarved rest starts at free and has `rest` units. */
  datatype Segment = Segment(first: int, end: int, free: int, rest: nat)

  /** Where the discipline may put a new segment, from its first block to its end marker. */
  datatype Offer = Refused | Granted(first: int, end: int)

  /** ROUND(size, ALIGN), in units. */
  function Units(size: nat): nat {
    (size + 7) / 8
  }

  /** The elements that s units at `next` make, the last of them first. */
  function Pieces(next: int, e: nat, s: nat): seq<int>
    decreases s
  {
    if e == 0 || s < e then [] else Pieces(next + e, e, s - e) + [next]
  }

  lemma PiecesStep(next: int, e: nat, s: nat, free: seq<int>)
    requires 0 < e <= s
    ensures Pieces(next, e, s) + free == Pieces(next + e, e, s - e) + ([next] + free)
  {
  }

  lemma PiecesNone(next: int, e: nat, s: nat, free: seq<int>)
    requires s < e
    ensures Pieces(next, e, s) + free == free
  {
  }

  /** The length of n elements of e units. */
  function Mul(n: nat, e: nat): nat {
    n * e
  }

  lemma Spaced(j: nat, k: nat, e: nat)
    requires j < k
    ensures Mul(j, e) + e <= Mul(k, e)
  {
    var d: nat := k - j - 1;
    assert k == (j + 1) + d;
    assert k * e == (j + 1) * e + d * e;
    assert (j + 1) * e == j * e + e;
    assert d * e >= 0;
  }

  function Sum(l: seq<nat>): nat {
    if l == [] then 0 else Sum(l[..|l| - 1]) + l[|l| - 1]
  }

  /** The elements of e units that all segments have room for. */
  function Elements(segs: seq<Segment>, e: nat): int
    requires e > 0
  {
    if segs == [] then 0
    else Elements(segs[..|segs| - 1], e) + (segs[|segs| - 1].end - segs[|segs| - 1].first) / e
  }

  lemma {:induction false} SumPut(l: seq<nat>, i: nat, n: nat)
    requires i < |l|
    ensures Sum(l[i := n]) == Sum(l) - l[i] + n
  {
    var k := |l| - 1;
    if i < k {
      SumPut(l[..k], i, n);
      assert l[i := n][..k] == l[..k][i := n];
    } else {
      assert l[i := n][..k] == l[..k];
    }
  }

  lemma {:induction false} SumFirst(l: seq<nat>, n: nat)
    ensures Sum([n] + l) == n + Sum(l)
  {
    if l == [] {
      assert ([n] + l)[..0] == [];
    } else {
      SumFirst(l[..|l| - 1], n);
      assert ([n] + l)[..|l|] == [n] + l[..|l| - 1];
    }
  }

  // ----- the invariant -----

  /** n elements of e units have been carved from the segment, and no more fit beside its rest. */
  ghost predicate CarvedOk(g: Segment, n: nat, e: nat) {
    if g.free != NIL then g.free == g.first + Mul(n, e) && g.rest == g.end - g.free && g.rest > e + 1
    else g.first + Mul(n, e) <= g.end < g.first + Mul(n, e) + e
  }

  /** x is one of the elements carved from segment i. */
  ghost predicate OnGrid(segs: seq<Segment>, used: seq<nat>, e: nat, i: int, x: int) {
    0 <= i < |segs| == |used| && exists k: nat :: k < used[i] && x == segs[i].first + Mul(k, e)
  }

  ghost predicate Placed(segs: seq<Segment>, used: seq<nat>, e: nat, x: int) {
    exists i :: OnGrid(segs, used, e, i, x)
  }

  predicate Disjoint(g: Segment, h: Segment) {
    g.end < h.first || h.end < g.first
  }

  ghost predicate Separate(segs: seq<Segment>) {
    && (forall i :: 0 <= i < |segs| ==> 0 < segs[i].first <= segs[i].end)
    && (forall i, j :: 0 <= i < j < |segs| ==> Disjoint(segs[i], segs[j]))
  }

  /** Carved elements are live or on the free list, not both. */
  ghost predicate Accounted(segs: seq<Segment>, used: seq<nat>, e: nat, live: set<int>, free: seq<int>) {
    && (forall x :: x in live || x in free ==> Placed(segs, used, e, x))
    && (forall x :: x in free ==> x !in live)
    && (forall i, j :: 0 <= i < j < |free| ==> free[i] != free[j])
    && Sum(used) == |live| + |free|
  }

  /** In segment i the s units at `next` are neither carved nor recorded as its rest. */
  ghost predicate Open(segs: seq<Segment>, used: seq<nat>, e: nat, i: nat, next: int, s: nat) {
    && i < |segs| == |used| && e > 0 && Separate(segs)
    && next == segs[i].first + Mul(used[i], e) && next + s == segs[i].end
    && (forall j :: 0 <= j < |segs| && j != i ==> CarvedOk(segs[j], used[j], e))
  }

  lemma InsideSegment(segs: seq<Segment>, used: seq<nat>, e: nat, i: nat, x: int)
    requires OnGrid(segs, used, e, i, x)
    requires CarvedOk(segs[i], used[i], e) || segs[i].first + Mul(used[i], e) <= segs[i].end
    ensures segs[i].first <= x && x + e <= segs[i].first + Mul(used[i], e) <= segs[i].end
  {
    var k: nat :| k < used[i] && x == segs[i].first + Mul(k, e);
    Spaced(k, used[i], e);
  }

  /** Carving the next element of segment i: it is a new one. */
  lemma NextElement(segs: seq<Segment>, used: seq<nat>, e: nat, i: nat, next: int, s: nat, live: set<int>,
                    free: seq<int>)
    requires Open(segs, used, e, i, next, s) && s >= e && Accounted(segs, used, e, live, free)
    ensures var used' := used[i := used[i] + 1];
            && next > 0 && next !in live && next !in free
            && Open(segs, used', e, i, next + e, s - e)
            && Accounted(segs, used', e, live + {next}, free)
            && Accounted(segs, used', e, live, [next] + free)
  {
    var used' := used[i := used[i] + 1];
    assert Mul(used[i] + 1, e) == Mul(used[i], e) + e;
    SumPut(used, i, used[i] + 1);
    forall x | Placed(segs, used, e, x) ensures x != next && Placed(segs, used', e, x) {
      var j :| OnGrid(segs, used, e, j, x);
      InsideSegment(segs, used, e, j, x);
      assert j != i ==> if i < j then Disjoint(segs[i], segs[j]) else Disjoint(segs[j], segs[i]);
      assert OnGrid(segs, used', e, j, x);
    }
    assert OnGrid(segs, used', e, i, next);
  }

  /** Two elements never overlap. */
  lemma ElementsApart(segs: seq<Segment>, used: seq<nat>, e: nat, x: int, y: int)
    requires Separate(segs) && |used| == |segs| && forall i :: 0 <= i < |segs| ==> CarvedOk(segs[i], used[i], e)
    requires Placed(segs, used, e, x) && Placed(segs, used, e, y) && x < y
    ensures x + e <= y
  {
    var i :| OnGrid(segs, used, e, i, x);
    var j :| OnGrid(segs, used, e, j, y);
    InsideSegment(segs, used, e, i, x);
    InsideSegment(segs, used, e, j, y);
    if i == j {
      var k: nat :| k < used[i] && x == segs[i].first + Mul(k, e);
      var l: nat :| l < used[i] && y == segs[i].first + Mul(l, e);
      if k < l { Spaced(k, l, e); } else if l < k { Spaced(l, k, e); }
    } else {
      assert if i < j then Disjoint(segs[i], segs[j]) else Disjoint(segs[j], segs[i]);
    }
  }

  /** A new segment, nothing of it carved yet, in front of the others. */
  lemma NewSegment(segs: seq<Segment>, used: seq<nat>, e: nat, g: Segment, live: set<int>, free: seq<int>)
    requires Separate(segs) && Accounted(segs, used, e, live, free) && |used| == |segs| && e > 0
    requires forall i :: 0 <= i < |segs| ==> CarvedOk(segs[i], used[i], e) && Disjoint(segs[i], g)
    requires 0 < g.first <= g.end
    ensures Open([g] + segs, [0] + used, e, 0, g.first, g.end - g.first)
    ensures Accounted([g] + segs, [0] + used, e, live, free)
  {
    SumFirst(used, 0);
    forall x | Placed(segs, used, e, x) ensures Placed([g] + segs, [0] + used, e, x) {
      var j :| OnGrid(segs, used, e, j, x);
      assert OnGrid([g] + segs, [0] + used, e, j + 1, x);
    }
  }

  /** The record of a rest does not matter to where the elements are. */
  lemma RestApart(segs: seq<Segment>, used: seq<nat>, e: nat, i: nat, g: Segment, live: set<int>, free: seq<int>)
    requires i < |segs| && g.first == segs[i].first && Accounted(segs, used, e, live, free)
    ensures Accounted(segs[i := g], used, e, live, free)
  {
    forall x | Placed(segs, used, e, x) ensures Placed(segs[i := g], used, e, x) {
      var j :| OnGrid(segs, used, e, j, x);
      assert OnGrid(segs[i := g], used, e, j, x);
    }
  }

  /** Segment i is the first with a rest, and p the start of that; no other has changed. */
  ghost predicate FirstRest(segs: seq<Segment>, segs': seq<Segment>, i: nat, p: int) {
    && i < |segs| == |segs'| && p == segs[i].free
    && (forall j :: 0 <= j < i ==> segs[j].free == NIL)
    && (forall j :: 0 <= j < |segs| && j != i ==> segs'[j] == segs[j])
  }

  lemma OpenIx(segs: seq<Segment>, used: seq<nat>, e: nat, i: nat, next: int, s: nat)
    requires Open(segs, used, e, i, next, s)
    ensures i < |segs| == |used|
  {
  }

  lemma RestOpen(segs: seq<Segment>, used: seq<nat>, e: nat, i: nat)
    requires Separate(segs) && |used| == |segs| && forall j :: 0 <= j < |segs| ==> CarvedOk(segs[j], used[j], e)
    requires i < |segs| && segs[i].free != NIL && e > 0
    ensures Open(segs, used, e, i, segs[i].free, segs[i].rest) && segs[i].rest >= e
  {
  }

  class Region {
    var pool: nat  // the bytes of an element, 0 before the first call
    var free: seq<int>
    var segs: seq<Segment>
    ghost var used: seq<nat>
    ghost var live: set<int>

    ghost predicate Valid()
      reads this
    {
      && (pool == 0 ==> segs == [])
      && Separate(segs) && |used| == |segs|
      && (forall i :: 0 <= i < |segs| ==> CarvedOk(segs[i], used[i], Units(pool)))
      && Accounted(segs, used, Units(pool), live, free)
    }

    constructor ()
      ensures Valid() && live == {}
    {
      pool, free, segs, used, live := 0, [], [], [], {};
    }

    /** No element is left: none on the list and no segment with a rest. */
    ghost predicate Exhausted()
      reads this
    {
      free == [] && forall i :: 0 <= i < |segs| ==> segs[i].free == NIL
    }

    /** A new segment holds at least one element and lies apart from the others. */
    ghost predicate Fits(offer: Offer, size: nat)
      reads this
    {
      offer.Granted? ==>
        && 0 < offer.first && offer.first + Units(size) <= offer.end
        && forall i :: 0 <= i < |segs| ==> Disjoint(segs[i], Segment(offer.first, offer.end, NIL, 0))
    }

    /** The first segment with a rest gives an element. */
    method FromRest() returns (p: int)
      requires Valid() && pool > 0
      modifies this`segs, this`free, this`used, this`live
      ensures Valid() && (p == NIL <==> forall i :: 0 <= i < |old(segs)| ==> old(segs)[i].free == NIL)
      ensures p == NIL ==> segs == old(segs) && used == old(used) && live == old(live) && free == old(free)
      ensures p != NIL ==> p !in old(live) && live == old(live) + {p} && exists i :: FirstRest(old(segs), segs, i, p)
    {
      hide Accounted, CarvedOk, Separate, Open, Sum;
      var i := 0;
      while i < |segs|
        invariant 0 <= i <= |segs| && forall j :: 0 <= j < i ==> segs[j].free == NIL
        invariant Valid() && segs == old(segs) && used == old(used) && live == old(live) && free == old(free)
      {
        if segs[i].free != NIL { RestOpen(segs, used, Units(pool), i); }
        if segs[i].free != NIL && segs[i].rest >= Units(pool) {
          p := Carve(i, segs[i].free, segs[i].rest);
          assert FirstRest(old(segs), segs, i, p);
          return;
        }
        i := i + 1;
      }
      p := NIL;
    }

    /** New memory becomes the first segment, and gives an element. */
    method FromOffer(offer: Offer) returns (p: int)
      requires Valid() && pool > 0 && offer.Granted? && Fits(offer, pool)
      modifies this`segs, this`free, this`used, this`live
      ensures Valid() && p == offer.first != NIL && p !in old(live) && live == old(live) + {p}
      ensures |segs| == |old(segs)| + 1 && segs[1..] == old(segs)
    {
      hide Accounted, CarvedOk, Separate, Open, Sum, Pieces;
      NewSegment(segs, used, Units(pool), Segment(offer.first, offer.end, NIL, 0), live, free);
      segs := [Segment(offer.first, offer.end, NIL, 0)] + segs;
      used := [0] + used;
      p := Carve(0, offer.first, offer.end - offer.first);
    }

    method PoolAlloc(size: nat, offer: Offer) returns (p: int)
      requires Valid() && Fits(offer, size)
      modifies this
      ensures Valid()
      ensures p == NIL <==> size == 0 || (old(pool) != 0 && size != old(pool)) || (old(Exhausted()) && offer.Refused?)
      ensures p == NIL ==> live == old(live) && segs == old(segs) && free == old(free) && used == old(used)
      ensures pool == if size > 0 && old(pool) == 0 then size else old(pool)
      ensures p != NIL ==> pool == size && p !in old(live) && live == old(live) + {p}
      ensures |segs| == |old(segs)| || (old(Exhausted()) && |segs| == |old(segs)| + 1)
      ensures p != NIL && old(free) != [] ==>
                p == old(free)[0] && free == old(free)[1..] && segs == old(segs) && used == old(used)
      ensures p != NIL && old(free) == [] && !old(Exhausted()) ==> exists i :: FirstRest(old(segs), segs, i, p)
      ensures p != NIL && old(Exhausted()) ==>
                offer.Granted? && p == offer.first && |segs| > 0 && segs[1..] == old(segs)
    {
      hide Accounted, CarvedOk, Separate, Open, Sum, Pieces;
      if size == 0 {
        return NIL;
      } else if size != pool {
        if pool != 0 {
          return NIL;
        }
        pool := size;
        NothingPlaced(segs, used, live, free, Units(size));
      }
      if free != [] {
        p := free[0];
        live := live + {p};
        TakeFirst(segs, used, Units(pool), old(live), free);
        free := free[1..];
        return;
      }
      p := FromRest();
      if p != NIL {
        return;
      }
      if offer.Refused? {
        return NIL;
      }
      p := FromOffer(offer);
    }

    /** has_blk: the first element of the s0 units at tp is returned; what is left becomes elements on the
        free list, if it is little, or else the rest of the segment. */
    method Carve(i: nat, tp: int, s0: nat) returns (p: int)
      requires pool > 0 && s0 >= Units(pool)
      requires Open(segs, used, Units(pool), i, tp, s0) && Accounted(segs, used, Units(pool), live, free)
      modifies this`segs, this`free, this`used, this`live
      ensures Valid() && p == tp != NIL && p !in old(live) && live == old(live) + {p} && |segs| == |old(segs)|
      ensures forall j :: 0 <= j < |segs| && j != i ==> segs[j] == old(segs)[j]
      ensures var e, s := Units(pool), s0 - Units(pool);
              if s > e + 1 then segs[i] == old(segs)[i].(free := tp + e, rest := s) && free == old(free)
              else segs[i] == old(segs)[i].(free := NIL) && free == Pieces(tp + e, e, s) + old(free)
    {
      hide Accounted, CarvedOk, Separate, Pieces, Open, Mul;
      var e := Units(pool);
      var next := tp + e;
      var s: nat := s0 - e;
      p := tp;
      OpenIx(segs, used, e, i, tp, s0);
      NextElement(segs, used, e, i, tp, s0, live, free);
      used := used[i := used[i] + 1];
      live := live + {p};
      if s <= e + 1 {
        while s >= e
          invariant Open(segs, used, e, i, next, s) && Accounted(segs, used, e, live, free)
          invariant |used| == |segs|
          invariant segs == old(segs) && live == old(live) + {p}
          invariant Pieces(next, e, s) + free == Pieces(tp + e, e, s0 - e) + old(free)
        {
          PiecesStep(next, e, s, free);
          NextElement(segs, used, e, i, next, s, live, free);
          free := [next] + free;
          used := used[i := used[i] + 1];
          next := next + e;
          s := s - e;
        }
        PiecesNone(next, e, s, free);
        Closed(segs, used, e, i, next, s, segs[i].(free := NIL), live, free);
        segs := segs[i := segs[i].(free := NIL)];
      } else {
        Closed(segs, used, e, i, next, s, segs[i].(free := next, rest := s), live, free);
        segs := segs[i := segs[i].(free := next, rest := s)];
      }
    }

    /** poolfree of a live element; a null pointer is ignored. */
    method PoolFree(data: int)
      requires Valid() && (data == NIL || data in live)
      modifies this`free, this`live
      ensures Valid() && live == old(live) - {data}
      ensures free == if data == NIL then old(free) else [data] + old(free)
    {
      if data == NIL {
        NotNil(segs, used, Units(pool), live, free);
        return;
      }
      free := [data] + free;
      live := live - {data};
    }

    /** The loop of vmstat over the segments: the rests count as free, and all units as elements. */
    method CountSegments(nFree0: nat) returns (nSeg: nat, nBusy: nat, nFree: nat)
      requires Valid() && pool > 0
      ensures nSeg == |segs| && nFree >= nFree0 && nBusy - nFree == Sum(used) - nFree0
      ensures nFree == nFree0 <==> forall i :: 0 <= i < |segs| ==> segs[i].free == NIL
      ensures nBusy == Elements(segs, Units(pool))
    {
      hide Accounted, CarvedOk, Separate, Mul;
      var e := Units(pool);
      nSeg, nBusy, nFree := 0, 0, nFree0;
      while nSeg < |segs|
        invariant nSeg <= |segs| && nFree >= nFree0 && nBusy - nFree == Sum(used[..nSeg]) - nFree0
        invariant nFree == nFree0 <==> forall i :: 0 <= i < nSeg ==> segs[i].free == NIL
        invariant nBusy == Elements(segs[..nSeg], e)
      {
        var g := segs[nSeg];
        Capacity(g, used[nSeg], e);
        if g.free != NIL {
          nFree := nFree + g.rest / e;
        }
        nBusy := nBusy + (g.end - g.first) / e;
        assert used[..nSeg + 1][..nSeg] == used[..nSeg] && segs[..nSeg + 1][..nSeg] == segs[..nSeg];
        nSeg := nSeg + 1;
      }
      assert used[..nSeg] == used && segs[..nSeg] == segs;
    }

    /** vmstat: the free elements and, by subtraction, the busy ones. */
    method Stat() returns (nSeg: nat, nBusy: int, nFree: nat, sBusy: int, sFree: nat)
      requires Valid()
      ensures nSeg == |segs| && nBusy == |live|
      ensures sBusy == |live| * pool && sFree == nFree * pool
      ensures nFree == 0 <==> Exhausted()
      ensures pool > 0 ==> nBusy + nFree == Elements(segs, Units(pool))
    {
      nSeg, nBusy, nFree, sBusy, sFree := 0, 0, 0, 0, 0;
      if pool > 0 {
        var e := Units(pool);
        var b := 0;
        while b < |free|
          invariant 0 <= b <= |free| && nFree == b
        {
          nFree := nFree + 1;
          b := b + 1;
        }
        nSeg, nBusy, nFree := CountSegments(nFree);
        nBusy := nBusy - nFree;
        if nBusy > 0 {
          sBusy := pool * nBusy;
        }
        if nFree > 0 {
          sFree := pool * nFree;
        }
      } else {
        Nothing(segs, used, live, free);
      }
    }
  }

  lemma TakeFirst(segs: seq<Segment>, used: seq<nat>, e: nat, live: set<int>, free: seq<int>)
    requires Separate(segs) && Accounted(segs, used, e, live, free) && free != []
    ensures free[0] != NIL && free[0] !in live && Accounted(segs, used, e, live + {free[0]}, free[1..])
  {
  }

  lemma NotNil(segs: seq<Segment>, used: seq<nat>, e: nat, live: set<int>, free: seq<int>)
    requires Separate(segs) && Accounted(segs, used, e, live, free)
    ensures NIL !in live && NIL !in free
  {
  }

  lemma NothingPlaced(segs: seq<Segment>, used: seq<nat>, live: set<int>, free: seq<int>, e: nat)
    requires segs == [] && used == [] && Accounted(segs, used, 0, live, free)
    ensures Accounted(segs, used, e, live, free)
  {
  }

  lemma Nothing(segs: seq<Segment>, used: seq<nat>, live: set<int>, free: seq<int>)
    requires segs == [] && used == [] && Accounted(segs, used, 0, live, free)
    ensures live == {} && free == []
  {
  }

  /** The elements a segment could hold are those carved and those its rest could hold. */
  lemma Capacity(g: Segment, n: nat, e: nat)
    requires CarvedOk(g, n, e) && e > 0
    ensures (g.end - g.first) / e == n + if g.free != NIL then g.rest / e else 0
    ensures g.free != NIL ==> g.rest / e > 0
  {
    var s := g.end - g.first - Mul(n, e);
    var q, r := Divide(s, e);
    Distribute(n, q, e);
    Quotient(g.end - g.first, n + q, r, e);
    Quotient(s, q, r, e);
  }

  lemma Divide(a: nat, e: nat) returns (q: nat, r: nat)
    requires e > 0
    ensures a == Mul(q, e) + r && r < e && (a >= e ==> q > 0)
  {
    q, r := a / e, a % e;
  }

  lemma Distribute(n: nat, q: nat, e: nat)
    ensures Mul(n + q, e) == Mul(n, e) + Mul(q, e)
  {
  }

  lemma Quotient(a: nat, q: nat, r: nat, e: nat)
    requires a == Mul(q, e) + r && r < e
    ensures a / e == q
  {
    var p, t := a / e, a % e;
    assert a == Mul(p, e) + t && t < e;
    if p < q { Spaced(p, q, e); } else if q < p { Spaced(q, p, e); }
  }

  lemma Closed(segs: seq<Segment>, used: seq<nat>, e: nat, i: nat, next: int, s: nat, g: Segment, live: set<int>,
               free: seq<int>)
    requires Open(segs, used, e, i, next, s) && Accounted(segs, used, e, live, free)
    requires (g == segs[i].(free := NIL) && s < e) || (g == segs[i].(free := next, rest := s) && s > e + 1)
    ensures var segs' := segs[i := g];
            && Separate(segs') && Accounted(segs', used, e, live, free)
            && forall j :: 0 <= j < |segs'| ==> CarvedOk(segs'[j], used[j], e)
  {
    RestApart(segs, used, e, i, g, live, free);
  }
}
