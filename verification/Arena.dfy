/** The arena: segments tiled by blocks, the bits in their headers, and where every block that is
    not live is to be found. */
module Arena {
  import opened Seqs
  import opened VmMemory
  import opened Index

  const S_CACHE := 6
  const MAXCACHE := 7       // 56 bytes
  const SEG_UNITS := 4      // sizeof(Seg_t) is 32 bytes

  /** A segment: its descriptor at `at`, its blocks from `at` + SEG_UNITS on, its end marker, the
      header just below baddr, at `end`. */
  datatype Segment = Segment(at: int, end: int)

  /** SEGBLOCK(seg). */
  function First(g: Segment): int { g.at + SEG_UNITS }

  /** Segments are kept in descending order of address. */
  ghost predicate SegsOk(segs: seq<Segment>) {
    && (forall i :: 0 <= i < |segs| ==> 0 < segs[i].at && First(segs[i]) + 2 <= segs[i].end)
    && (forall i, j :: 0 <= i < j < |segs| ==> segs[j].end < segs[i].at)
  }

  /** Position in the segment list of the segment that contains address b; |segs| if none does. */
  function SegIx(segs: seq<Segment>, b: int): (i: nat)
    ensures i <= |segs|
    ensures i < |segs| ==> segs[i].at < b <= segs[i].end
  {
    if segs == [] then 0
    else if segs[0].at < b <= segs[0].end then 0
    else 1 + SegIx(segs[1..], b)
  }

  lemma {:induction false} SegIxIs(segs: seq<Segment>, b: int, i: int)
    requires SegsOk(segs) && 0 <= i < |segs| && segs[i].at < b <= segs[i].end
    ensures SegIx(segs, b) == i
  {
    if i > 0 {
      assert segs[1..][i - 1] == segs[i];
      SegIxIs(segs[1..], b, i - 1);
    }
  }

  /** A scan of the list from the front stops at position SegIx. */
  lemma {:induction false} SegIxAfter(segs: seq<Segment>, b: int, i: nat)
    requires i <= SegIx(segs, b) < |segs| && !(segs[i].at < b <= segs[i].end)
    ensures i < SegIx(segs, b)
  {
    if i > 0 { SegIxAfter(segs[1..], b, i - 1); }
  }

  lemma {:induction false} SegIxHere(segs: seq<Segment>, b: int, i: nat)
    requires i <= SegIx(segs, b) < |segs| && (segs[i].at < b <= segs[i].end || |segs| == 1)
    ensures i == SegIx(segs, b)
  {
    if i > 0 { SegIxHere(segs[1..], b, i - 1); }
  }

  /** Address b is a block or end marker of some segment; the end marker is the one of size 0. */
  ghost predicate Inside(m: Mem, segs: seq<Segment>, b: int) {
    var i := SegIx(segs, b);
    i < |segs| && First(segs[i]) <= b && (m.Size(b) == 0 <==> b == segs[i].end)
  }

  ghost predicate EndsIn(B: set<int>, segs: seq<Segment>) {
    forall i :: 0 <= i < |segs| ==> First(segs[i]) in B && segs[i].end in B
  }

  ghost predicate AllInside(m: Mem, B: set<int>, segs: seq<Segment>) {
    forall b {:trigger Inside(m, segs, b)} :: b in B ==> Inside(m, segs, b)
  }

  ghost predicate Closed(m: Mem, B: set<int>) {
    forall b {:trigger m.Next(b)} :: b in B && m.Size(b) > 0 ==> m.Next(b) in B
  }

  /** No block begins inside another. */
  ghost predicate Apart(m: Mem, B: set<int>) {
    forall b, x {:trigger m.Next(b), x in B} :: b in B && x in B && b < x ==> m.Next(b) <= x
  }

  /** The blocks and end markers in B tile the segments without gap or overlap. */
  ghost predicate Tiled(m: Mem, B: set<int>, segs: seq<Segment>) {
    SegsOk(segs) && EndsIn(B, segs) && AllInside(m, B, segs) && Closed(m, B) && Apart(m, B)
  }

  ghost predicate FirstBits(m: Mem, segs: seq<Segment>) {
    forall i :: 0 <= i < |segs| ==> !m.Head(First(segs[i])).pfree
  }

  /** End markers are busy; free blocks carry no bit at all. */
  ghost predicate OwnBits(m: Mem, B: set<int>) {
    && (forall b {:trigger m.Head(b)} :: b in B && m.Size(b) == 0 ==> m.Head(b).busy && !m.Head(b).junk)
    && (forall b {:trigger m.Head(b)} :: b in B && !m.Head(b).busy ==> !m.Head(b).junk && !m.Head(b).pfree)
  }

  /** PFREE is set exactly in the successor of a free block, and that block has left its address there. */
  ghost predicate NextBits(m: Mem, B: set<int>, L: set<int>) {
    && (forall b {:trigger m.Next(b)} :: b in B && m.Size(b) > 0 && b !in L ==>
        m.Head(m.Next(b)).pfree == !m.Head(b).busy)
    && (forall b {:trigger m.Next(b)} :: b in B && !m.Head(b).busy && b !in L ==> m.Last(m.Next(b)) == b)
  }

  /** The bits.  L holds blocks in transit: merged or taken, but not yet announced to their successor. */
  ghost predicate Bits(m: Mem, B: set<int>, L: set<int>, segs: seq<Segment>) {
    && FirstBits(m, segs) && OwnBits(m, B) && NextBits(m, B, L)
    && (forall b :: b in L ==> b in B && !m.Head(b).busy)
  }

  /** SEG(b) is the segment of b, except that tiniest blocks on their list use the word as TLEFT. */
  ghost predicate SegWords(m: Mem, B: set<int>, segs: seq<Segment>, cls: Classes) {
    forall b :: b in B && b !in List(cls, TINYSIZE) ==>
      SegIx(segs, b) < |segs| && m.Seg(b) == segs[SegIx(segs, b)].at
  }

  /** The wilderness: a free block at the end of the first segment is the wild block. */
  ghost predicate WildTop(m: Mem, B: set<int>, L: set<int>, segs: seq<Segment>, wild: int) {
    |segs| > 0 ==> forall b {:trigger m.Next(b)} ::
      b in B && !m.Head(b).busy && b !in L && m.Next(b) == segs[0].end ==> b == wild
  }

  /** Every free block is the wild block or held by the index, and nothing else is. */
  ghost predicate FreeAt(m: Mem, B: set<int>, L: set<int>, segs: seq<Segment>, cls: Classes, wait: seq<int>, wild: int)
  {
    && (wild != NIL ==> |segs| > 0 && wild in B && !m.Head(wild).busy && wild !in L && m.Next(wild) == segs[0].end
                        && !Held(m, cls, wait, wild))
    && (forall b :: b in B && !m.Head(b).busy && b !in L ==> b == wild || Held(m, cls, wait, b))
    && (forall b :: Held(m, cls, wait, b) ==> b in B && !m.Head(b).busy && b !in L)
    && WildTop(m, B, L, segs, wild)
  }

  /** C_INDEX: the cache list for a size. */
  function CIndex(s: nat): int { if s < MAXCACHE then s - 1 else S_CACHE }

  /** The delayed lists: all entries different. */
  ghost predicate Separate(cl: seq<seq<int>>) {
    && |cl| == S_CACHE + 1
    && (forall n :: 0 <= n <= S_CACHE ==> Addresses(cl[n]))
    && (forall n, i, n', i' :: 0 <= n < n' <= S_CACHE && 0 <= i < |cl[n]| && 0 <= i' < |cl[n']| ==>
        cl[n][i] != cl[n'][i'])
  }

  /** A junk block is the last freed one, or on the list of its class, or on the list for the rest. */
  ghost predicate JunkListed(m: Mem, cl: seq<seq<int>>, b: int)
    requires |cl| == S_CACHE + 1
  {
    b in cl[S_CACHE] || (0 < m.Size(b) < MAXCACHE && b in cl[m.Size(b) - 1])
  }

  /** An entry is a junk block of the right class, or (on list c and above, while these are being
      drained) the former header of a block that has been merged into its predecessor. */
  ghost predicate Entry(m: Mem, B: set<int>, n: int, c: int, e: int) {
    && (if e in B then m.Head(e).junk else !m.Head(e).junk && c <= n)
    && (n < S_CACHE && e in B ==> m.Size(e) == n + 1)
    && e > 0
  }

  ghost predicate JunkAt(m: Mem, B: set<int>, last: int, cl: seq<seq<int>>, c: int) {
    && |cl| == S_CACHE + 1 && Separate(cl)
    && (forall n, i :: 0 <= n <= S_CACHE && 0 <= i < |cl[n]| ==> Entry(m, B, n, c, cl[n][i]) && cl[n][i] != last)
    && (last != NIL ==> last in B && m.Head(last).junk)
    && (forall b :: b in B && m.Head(b).junk ==> b == last || JunkListed(m, cl, b))
  }

  /** The LINK words of a singly linked list. */
  ghost predicate Chain(m: Mem, l: seq<int>) {
    forall i :: 0 <= i < |l| ==> m.Link(l[i]) == Nth(l, i + 1)
  }

  ghost predicate Chains(m: Mem, cl: seq<seq<int>>) {
    forall n :: 0 <= n < |cl| ==> Chain(m, cl[n])
  }

  // ---------- what follows from a tiling ----------

  lemma NextUnique(m: Mem, B: set<int>, segs: seq<Segment>, b: int, x: int)
    requires Tiled(m, B, segs) && b in B && x in B && m.Next(b) == m.Next(x)
    ensures b == x
  {
  }

  lemma NextSeg(m: Mem, B: set<int>, segs: seq<Segment>, b: int)
    requires Tiled(m, B, segs) && b in B && m.Size(b) > 0
    ensures SegIx(segs, m.Next(b)) == SegIx(segs, b) < |segs|
  {
    var i := SegIx(segs, b);
    assert Inside(m, segs, b);
    SegIxIs(segs, m.Next(b), i);
  }

  lemma BlockStep(m: Mem, B: set<int>, segs: seq<Segment>, i: int, p: int, b: int)
    requires Tiled(m, B, segs) && 0 <= i < |segs|
    requires p in B && b in B && segs[i].at < p < b <= segs[i].end
    ensures m.Size(p) > 0 && m.Next(p) in B && p < m.Next(p) <= b
  {
    SegIxIs(segs, p, i);
    assert Inside(m, segs, p);
  }

  lemma {:induction false} PrevFrom(m: Mem, B: set<int>, segs: seq<Segment>, i: int, q: int, b: int) returns (p: int)
    requires Tiled(m, B, segs) && 0 <= i < |segs|
    requires q in B && b in B && segs[i].at < q < b <= segs[i].end
    ensures p in B && m.Size(p) > 0 && m.Next(p) == b
    decreases b - q
  {
    hide Tiled;
    BlockStep(m, B, segs, i, q, b);
    if m.Next(q) == b {
      p := q;
    } else {
      p := PrevFrom(m, B, segs, i, m.Next(q), b);
    }
  }

  /** A block that is not the first of its segment has a predecessor. */
  lemma Prev(m: Mem, B: set<int>, segs: seq<Segment>, b: int) returns (p: int)
    requires Tiled(m, B, segs) && b in B && Inside(m, segs, b) && b != First(segs[SegIx(segs, b)])
    ensures p in B && m.Size(p) > 0 && m.Next(p) == b
  {
    var i := SegIx(segs, b);
    assert Inside(m, segs, b);
    p := PrevFrom(m, B, segs, i, First(segs[i]), b);
  }

  /** A scan for the segment of a block passes over the others. */
  lemma ScanSegments(m: Mem, segs: seq<Segment>, b: int, i: int)
    requires SegsOk(segs) && Inside(m, segs, b)
    requires 0 <= i <= SegIx(segs, b) < |segs| && !(First(segs[i]) <= b < segs[i].end + 1)
    ensures i < SegIx(segs, b)
  {
  }
}
