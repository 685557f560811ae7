/** The best-fit region: the fields of Vmdata_t, the memory, and the allocator's functions. */
module VmBest {
  import opened Seqs
  import opened VmMemory
  import opened FreeTree
  import opened Splay
  import opened Extract
  import opened Index
  import opened Arena
  import opened Steps
  import opened ArenaSound
  import opened Delayed
  import opened Carve
  import opened Bunch

  /** Sizes are 32-bit numbers of bytes; arithmetic on them wraps around at 2^32 bytes, that is 2^29 units. */
  const UNITS := 0x2000_0000

  /** _Vmpagesize: 8192 bytes. */
  const PAGE := 1024

  /** The memory discipline: `offer` answers a request for so many units with the byte address of new
      memory, or 0; `grows` says whether the segment at an address may grow by so many units where it is. */
  datatype Discipline = Discipline(offer: int -> int, grows: (int, int) -> bool)

  /** New memory overlaps no segment, and no segment grows into the one above it. */
  ghost predicate Honest(d: Discipline, segs: seq<Segment>) {
    && (forall n {:trigger d.offer(n)} :: n > 0 && d.offer(n) != 0 ==> Vacant(segs, d.offer(n), n))
    && (forall j, n {:trigger d.grows(segs[j].at, n)} ::
          0 <= j < |segs| && n > 0 && d.grows(segs[j].at, n) ==> Above(segs, j, n))
  }

  /** A discipline that gives no memory at all. */
  ghost predicate Refuses(d: Discipline) {
    (forall n :: d.offer(n) == 0) && (forall at, n :: !d.grows(at, n))
  }

  /** The segment list has gained a segment that was offered, or one of its segments has grown as was
      granted, or nothing has changed. */
  ghost predicate Given(d: Discipline, segs: seq<Segment>, segs': seq<Segment>) {
    || segs' == segs
    || (exists n: nat {:trigger d.offer(n)} :: n > 0 && d.offer(n) != 0 && Joins(segs, SegmentAt(d.offer(n), n), segs'))
    || (exists j: nat, e: nat {:trigger WithEnd(segs, j, e)} ::
          j < |segs| && e > 0 && d.grows(segs[j].at, e) && segs' == WithEnd(segs, j, e))
  }

  /** Segment g has been put where it belongs. */
  ghost predicate Joins(segs: seq<Segment>, g: Segment, segs': seq<Segment>) {
    exists p :: Fits(segs, p, g) && segs' == WithSegment(segs, p, g)
  }

  lemma RefusedDenied(s: State, d: Discipline, size: nat)
    requires Refuses(d)
    ensures Denied(s, d, size)
  {
  }

  /** A request in whole units; a request for nothing gets the smallest block. */
  function Rounded(request: nat): nat { if request == 0 then TINYSIZE else request }

  /** Unit i of the data at a. */
  function Word(data: map<int, int>, a: int, i: int): int { Read(data, a + i) }

  /** MULTIPLE(alignment, ALIGN) in units: a common multiple of the alignment and of 8 bytes. */
  function Units(alignment: nat): nat {
    if alignment % 8 == 0 then alignment / 8
    else if 8 % alignment == 0 then 1
    else alignment
  }

  /** The next multiple of a, and the one after it. */
  lemma AlignStep(p: int, a: nat)
    requires a > 0
    ensures p % a != 0 ==> (p + (a - p % a)) % a == 0 && (p + (a - p % a) + a) % a == 0 && 0 < a - p % a < a
    ensures p % a != 0 && a - p % a < 3 ==> a - p % a + a >= 3
  {
    var q := p / a;
    assert p == q * a + p % a;
    if p % a != 0 {
      MultipleMod(q + 1, a);
      MultipleMod(q + 2, a);
      assert (q + 1) * a == q * a + a && (q + 2) * a == q * a + a + a;
    }
  }

  lemma MultipleMod(q: int, a: nat)
    requires a > 0
    ensures q * a % a == 0
  {
    var d, r := q * a / a, q * a % a;
    assert q * a == a * d + r;
    assert (q - d) * a == r;
    assert q - d >= 1 ==> (q - d) * a >= a;
    assert q - d <= -1 ==> (q - d) * a + a <= 0;
  }

  /** Where bestalign has the data of block tp begin: at the next multiple of a, or at the one after it when
      what is before would be less than a full block. */
  function AlignedAt(tp: int, a: nat): int
    requires a > 0
  {
    var p := if (tp + 1) % a == 0 then tp + 1 else tp + 1 + (a - (tp + 1) % a);
    if 0 < p - 1 - tp < 3 then p + a else p
  }

  /** From there on the block, of `room` units, has space for the request. */
  predicate HasRoom(tp: int, room: nat, request: nat, a: nat)
    requires a > 0
  {
    AlignedAt(tp, a) + request <= tp + 1 + room
  }

  lemma AlignedHere(tp: int, a: nat)
    requires a > 0
    ensures AlignedAt(tp, a) % a == 0 && tp + 1 <= AlignedAt(tp, a) < tp + 1 + 2 * a
    ensures AlignedAt(tp, a) == tp + 1 || AlignedAt(tp, a) >= tp + 4
  {
    AlignStep(tp + 1, a);
  }

  /** It is the first multiple with nothing before it, or a full block. */
  lemma AlignedFirst(tp: int, a: nat, q: int)
    requires a > 0 && q % a == 0 && (q == tp + 1 || q >= tp + 4)
    ensures AlignedAt(tp, a) <= q
  {
    var r := FirstMultiple(tp + 1, a, q);
    NextMultiple(r, a, q);
  }

  lemma FirstMultiple(p: int, a: nat, q: int) returns (r: int)
    requires a > 0 && q % a == 0 && p <= q
    ensures r == (if p % a == 0 then p else p + (a - p % a)) && r % a == 0 && r <= q
  {
    r := p;
    if p % a != 0 {
      var n := p / a;
      assert p == n * a + p % a;
      MultipleMod(n, a);
      MultipleMod(n + 1, a);
      assert (n + 1) * a == n * a + a;
      NextMultiple(n * a, a, q);
      r := (n + 1) * a;
    }
  }

  /** Between a multiple and the next there is none. */
  lemma NextMultiple(r: int, a: nat, q: int)
    requires a > 0 && r % a == 0 && q % a == 0
    ensures q > r ==> q >= r + a
  {
    var m, n := r / a, q / a;
    assert r == m * a && q == n * a;
    assert n <= m ==> n * a <= m * a;
    assert n >= m + 1 ==> n * a >= (m + 1) * a;
    assert (m + 1) * a == m * a + a;
  }

  /** MULTIPLE, with products wrapping around. */
  function Stride(alignment: nat): nat { Units(alignment) % UNITS }

  lemma StridePositive(alignment: nat)
    requires 0 < alignment < 8 * UNITS
    ensures Stride(alignment) > 0
    ensures alignment % 8 == 0 || 8 % alignment == 0 ==> Units(alignment) < UNITS
  {
  }

  /** The units bestalign asks for: the request, and room for two steps of the alignment, wrapping around. */
  function AlignSum(request: nat, alignment: nat): nat { request + 2 * (Stride(alignment) + 1) }

  function AlignAsks(request: nat, alignment: nat): nat { Rounded(AlignSum(request, alignment) % UNITS) }

  /** When the sum does not wrap around, the block has room whatever its address.  When it does, and the
      alignment is less than 2^31 bytes by a little, the block is smaller than the request. */
  lemma AlignFits(tp: int, room: nat, request: nat, alignment: nat)
    requires 0 < alignment < 8 * UNITS && 0 < request < UNITS
    requires AlignAsks(request, alignment) <= room <= AlignAsks(request, alignment) + 1
    ensures Stride(alignment) > 0
    ensures AlignSum(request, alignment) < UNITS ==> HasRoom(tp, room, request, Stride(alignment))
    ensures AlignSum(request, alignment) >= UNITS && Stride(alignment) < UNITS / 2 - 2 ==>
              room < request && !HasRoom(tp, room, request, Stride(alignment))
  {
    StridePositive(alignment);
    AlignedHere(tp, Stride(alignment));
  }

  /** Odd alignments of 2^29 bytes and more: the product wraps around, and no address of 32 bits that is
      a multiple of 8 is aligned. */
  lemma AlignMissed(p: int, alignment: nat)
    requires UNITS <= alignment && alignment % 2 == 1 && 0 < p < UNITS
    ensures Units(alignment) >= UNITS && 8 * p % alignment != 0
  {
    var m := alignment / 2;
    if 8 * p % alignment == 0 {
      var q := 8 * p / alignment;
      SmallQuotient(8 * p, alignment, q);
      var h := q * m;
      assert 8 * p == q * (2 * m + 1) == 2 * h + q;
      OddTimes(p, m, q);
    }
  }

  lemma SmallQuotient(x: int, y: int, q: int)
    requires 0 < x < 8 * y && x % y == 0 && q == x / y
    ensures 0 < q < 8 && x == q * y
  {
    assert x == q * y;
    assert q >= 8 ==> q * y >= 8 * y;
    assert q <= 0 ==> q * y <= 0;
  }

  lemma OddTimes(p: int, m: int, q: int)
    requires 0 < q < 8
    ensures 8 * p != 2 * (q * m) + q
  {
    match q {
      case 2 => assert 4 * p != 2 * m + 1;
      case 4 => assert 2 * p != 2 * m + 1;
      case 6 => assert 4 * p != 2 * (3 * m) + 3;
      case _ =>
    }
  }

  /** An address that is a multiple of that many units is a multiple of the alignment in bytes. */
  lemma AlignBytes(p: int, a: nat, alignment: nat)
    requires alignment > 0 && a == Units(alignment) && p % a == 0
    ensures a > 0 && 8 * p % alignment == 0
  {
    var q := p / a;
    assert p == q * a;
    if alignment % 8 == 0 {
      assert 8 * p == q * alignment;
      MultipleMod(q, alignment);
    } else if 8 % alignment == 0 {
      var j := 8 / alignment;
      assert 8 * p == (p * j) * alignment;
      MultipleMod(p * j, alignment);
    } else {
      assert 8 * p == (8 * q) * alignment;
      MultipleMod(8 * q, alignment);
    }
  }

  lemma HonestOffer(d: Discipline, segs: seq<Segment>, n: int)
    requires Honest(d, segs) && n > 0 && d.offer(n) != 0
    ensures Vacant(segs, d.offer(n), n)
  {
  }

  /** What bestalloc looks at after full coalescing is too small.  It never looks at the lists of tiny
      free blocks. */
  ghost predicate Exhausted(s: State, size: nat) {
    && s.last == NIL && (forall n :: 0 <= n < |s.cl| ==> s.cl[n] == [])
    && Unoffered(s, size)
    && (s.wild != NIL ==> s.m.Size(s.wild) < size)
  }

  ghost predicate Vacant(segs: seq<Segment>, addr: int, n: int) {
    0 < addr && forall i :: 0 <= i < |segs| ==> 8 * (segs[i].end + 1) <= addr || addr + 8 * n <= 8 * segs[i].at
  }

  /** ROUND, with sizes wrapping around. */
  function RoundUp(x: int, y: int): int
    requires y > 0
  {
    (x + y - 1) % UNITS / y * y
  }

  /** What vmextend asks for: the request and what the segment itself takes, in whole pages. */
  function Requested(size: nat): int { RoundUp(size + 10, PAGE) }

  /** Whole pages that the request and what the segment takes fit into, less than a page more; near 2^32
      bytes the sum wraps around. */
  lemma RequestedIs(size: nat)
    requires size + 10 < UNITS
    ensures if size + 10 + PAGE <= UNITS
            then Requested(size) % PAGE == 0 && size + 10 <= Requested(size) < size + 10 + PAGE
            else Requested(size) == 0
  {
  }

  /** The whole pages of the wild block, by which the first segment need not grow. */
  function Spare(s: State): int { if s.wild == NIL then 0 else (s.m.Size(s.wild) + 1) / PAGE * PAGE }

  lemma SpareIs(s: State)
    requires s.wild != NIL && s.m.Size(s.wild) >= 0
    ensures Spare(s) % PAGE == 0 && Spare(s) <= s.m.Size(s.wild) + 1 < Spare(s) + PAGE
  {
  }

  ghost predicate Grows(s: State, d: Discipline, size: nat) {
    s.segs != [] && d.grows(s.segs[0].at, Requested(size) - Spare(s))
  }

  /** vmextend gives no memory: the size is out of range, or the discipline refuses. */
  ghost predicate Denied(s: State, d: Discipline, size: nat) {
    size + 10 >= UNITS || Requested(size) < size + 10 || (!Grows(s, d, size) && d.offer(Requested(size)) == 0)
  }

  /** By how much bestresize lets the segment grow under block r. */
  function More(s: State, r: int, size: nat): int { RoundUp(size - s.m.Size(r) + 1, PAGE) }

  /** Block r in use ends its segment, and the discipline lets that grow under it. */
  ghost predicate GrowsUnder(s: State, d: Discipline, r: int, size: nat) {
    var j := SegIx(s.segs, r);
    && j < |s.segs| && s.m.Next(r) == s.segs[j].end && size > PAGE
    && More(s, r, size) > 0 && d.grows(s.segs[j].at, More(s, r, size))
  }

  /** No block in use and no end of a segment is in the way of block r having `size` units where it is. */
  ghost predicate Clear(s: State, r: int, size: nat) {
    && (forall x :: x in InUse(s) ==> !(r < x <= r + size))
    && (forall i :: 0 <= i < |s.segs| ==> !(r < s.segs[i].end <= r + size))
  }

  /** No block in use is behind block r in its segment, and the discipline lets the segment grow by what
      is missing from there on. */
  ghost predicate GrowsBehind(s: State, d: Discipline, r: int, size: nat) {
    var j := SegIx(s.segs, r);
    && j < |s.segs| && size > PAGE && (forall x :: x in InUse(s) ==> !(r < x < s.segs[j].end))
    && var e := RoundUp(size - (s.segs[j].end - r - 1) + 1, PAGE);
       e > 0 && d.grows(s.segs[j].at, e)
  }

  /** Block r has taken in its successors until it was large enough or the next was live: it is large
      enough exactly if nothing was in the way. */
  lemma ClearBehind(s: State, d: Discipline, r: int, size: nat)
    requires Sound(s, {}, S_CACHE + 1) && r in InUse(s) && (size <= s.m.Size(r) || Live(s.m, s.m.Next(r)))
    ensures size <= s.m.Size(r) <==> Clear(s, r, size)
    ensures size > s.m.Size(r) ==> (GrowsUnder(s, d, r, size) <==> GrowsBehind(s, d, r, size))
  {
    hide IndexOk, WaitOk, SegWords, FreeAt, JunkAt, Chains, Bits, SegIx, SegsOk;
    var n := s.m.Next(r);
    UseSize(s, r);
    NextIn(s.m, s.B, s.segs, r);
    NextSeg(s.m, s.B, s.segs, r);
    assert Inside(s.m, s.segs, n) && Inside(s.m, s.segs, r);
    EndsAre(s);
    assert forall x :: x in s.B && r < x ==> n <= x;
    assert n != s.segs[SegIx(s.segs, r)].end && Live(s.m, n) ==> n in InUse(s);
  }

  lemma EndsAre(s: State)
    requires Sound(s, {}, S_CACHE + 1)
    ensures forall i :: 0 <= i < |s.segs| ==> s.segs[i].end in s.B
  {
    hide IndexOk, WaitOk, SegWords, FreeAt, JunkAt, Chains, Bits, SegIx, SegsOk;
  }

  lemma ClearSame(s: State, s': State, d: Discipline, r: int, size: nat)
    requires InUse(s').Keys == InUse(s).Keys && s'.segs == s.segs
    ensures Clear(s', r, size) <==> Clear(s, r, size)
    ensures GrowsBehind(s', d, r, size) <==> GrowsBehind(s, d, r, size)
  {
    hide InUse, SegIx;
  }

  lemma ClearEnlarged(s: State, s': State, d: Discipline, r: int, k: nat, size: nat)
    requires Enlarged(s, s', r, k) && s'.segs == s.segs
    ensures Clear(s', r, size) <==> Clear(s, r, size)
    ensures GrowsBehind(s', d, r, size) <==> GrowsBehind(s, d, r, size)
  {
    hide InUse, Untouched;
    ClearSame(s, s', d, r, size);
  }

  /** Block r can have `size` units where it is. */
  ghost predicate InPlace(s: State, d: Discipline, r: int, size: nat) {
    Clear(s, r, size) || GrowsBehind(s, d, r, size)
  }

  /** The block tp that a resize moves to is what bestalloc gives once block r has taken in what it could. */
  ghost predicate Elsewhere(s: State, d: Discipline, r: int, size: nat, tp: int, k: nat) {
    exists s1, s2, n: nat {:trigger Enlarged(s, s1, r, n), Answered(s1, s2, d, size, tp, k)} ::
      Sound(s1, {}, S_CACHE + 1) && Enlarged(s, s1, r, n) && s1.segs == s.segs && Answered(s1, s2, d, size, tp, k)
  }

  const NO_MEMORY := Discipline(n => 0, (at, n) => false)

  /** A block that is not made larger stays as it is, but three units and more are cut off, and what has
      been delayed of the larger blocks is then reclaimed. */
  ghost predicate Trimmed(s: State, s': State, r: int, size: nat, k: nat) {
    if s.m.Size(r) < size + 3 then s' == s && k == s.m.Size(r)
    else k == size && s'.last == NIL && |s'.cl| == S_CACHE + 1 && s'.cl[S_CACHE] == []
  }

  /** The segment that a SEG word names, by its place in the list. */
  function SegNamed(segs: seq<Segment>, at: int): (j: nat)
    ensures j <= |segs| && (j < |segs| ==> segs[j].at == at)
  {
    if segs == [] then 0 else if segs[0].at == at then 0 else 1 + SegNamed(segs[1..], at)
  }

  lemma {:induction false} SegNamedIs(segs: seq<Segment>, j: nat)
    requires SegsOk(segs) && j < |segs|
    ensures SegNamed(segs, segs[j].at) == j
  {
    if j > 0 {
      assert segs[j].end < segs[0].at;
      SegNamedIs(segs[1..], j - 1);
    }
  }

  /** The SEG word of a block in use names its segment. */
  lemma SegOfUsed(s: State, r: int)
    requires Sound(s, {}, S_CACHE + 1) && r in InUse(s)
    ensures SegNamed(s.segs, s.m.Seg(r)) == SegIx(s.segs, r) < |s.segs|
  {
    hide IndexOk, WaitOk, Bits, FreeAt, JunkAt, Chains, SegIx, Closed, Apart;
    SoundSegs(s, {}, S_CACHE + 1);
    UseSize(s, r);
    SoundInside(s, {}, S_CACHE + 1, r);
    BusyNotHeld(s, {}, r);
    SoundIndex(s, {}, S_CACHE + 1);
    UsedUnlisted(s, r);
    SegNamedIs(s.segs, SegIx(s.segs, r));
  }

  lemma UsedUnlisted(s: State, r: int)
    requires IndexOk(s.m, s.cls, s.tree, s.root, s.tiny) && !Held(s.m, s.cls, s.wait, r)
    ensures r !in List(s.cls, TINYSIZE)
  {
    hide HeadsOk, Linked, Rep, Ordered;
  }

  lemma HonestGrowth(d: Discipline, segs: seq<Segment>, j: nat, e: nat)
    requires Honest(d, segs) && j < |segs| && e > 0 && d.grows(segs[j].at, e)
    ensures Above(segs, j, e)
  {
  }

  /** Every block that is not in use is smaller. */
  ghost predicate AllSmaller(s: State, size: nat) {
    forall x :: x in s.B && !Live(s.m, x) ==> s.m.Size(x) < size
  }

  /** Why there is no memory: after full coalescing neither a tree block nor the wild block is large
      enough, and the discipline gives no more.  No block at all is large enough then, unless the
      request is so small that a block on a tiny list would do. */
  ghost predicate NoMemory(s: State, d: Discipline, size: nat) {
    && Exhausted(s, size) && Denied(s, d, size)
    && (AllSmaller(s, size) <==> forall t :: size <= t < MAXTINY ==> List(s.cls, t) == [])
  }

  lemma Leftovers(s: State, size: nat)
    requires Sound(s, {}, S_CACHE + 1) && s.wait == [] && Exhausted(s, size)
    ensures AllSmaller(s, size) <==> forall t :: size <= t < MAXTINY ==> List(s.cls, t) == []
  {
    hide Sound, Tiled, SegIx;
    AllCoalesced(s);
    forall x | x in s.B && !Live(s.m, x)
      ensures s.m.Size(x) < size || (s.m.Size(x) < MAXTINY && List(s.cls, s.m.Size(x)) != [])
    {
      FreeWhere(s, {}, S_CACHE + 1, x);
      assert !Offered(s, size, x);
    }
    forall t | List(s.cls, t) != [] ensures var x := List(s.cls, t)[0]; x in s.B && !Live(s.m, x) && s.m.Size(x) == t {
      var x := List(s.cls, t)[0];
      SoundIndex(s, {}, S_CACHE + 1);
      IndexElement(s.m, s.cls, s.tree, s.root, s.tiny, t, 0);
      assert Held(s.m, s.cls, s.wait, x);
      HeldInB(s, x);
    }
  }

  lemma HeldInB(s: State, x: int)
    requires Sound(s, {}, S_CACHE + 1) && Held(s.m, s.cls, s.wait, x)
    ensures x in s.B && !s.m.Head(x).busy
  {
    hide IndexOk, WaitOk, Tiled, Bits, SegWords, JunkAt, Chains, Held;
  }

  /** A segment of n units at a byte address. */
  function SegmentAt(addr: int, n: int): Segment {
    Segment((addr + 7) / 8, (addr + 7) / 8 + n - 1 - (if addr % 8 != 0 then 2 else 0))
  }

  /** A new segment lies in the memory offered, and takes all of it but for three units that alignment may
      cost. */
  lemma SegmentInside(addr: int, n: nat)
    requires addr >= 0
    ensures var g := SegmentAt(addr, n);
            && addr <= 8 * g.at < addr + 8 && 8 * (g.end + 1) <= addr + 8 * n < 8 * (g.end + 1) + 24
            && (addr % 8 == 0 ==> 8 * g.at == addr && 8 * (g.end + 1) == addr + 8 * n)
  {
  }

  /** A segment becomes the first of the list. */
  predicate Tops(segs: seq<Segment>, g: Segment) { segs == [] || segs[0].at < g.at }

  /** The size of the live block when one of `free` units serves a request: less than two units are not
      cut off. */
  function UsedSize(free: int, size: nat): int { if free >= size + 2 then size else free }

  /** Of a block in use that is too large less than three units are not cut off. */
  function KeptSize(n: int, size: nat): int { if n >= size + 3 then size else n }

  /** How a request is served when nothing is delayed: s and s' are the states before and after. */
  ghost predicate Served(s: State, s': State, d: Discipline, size: nat, tp: int, k: int) {
    if !Unoffered(s, size) then
      tp != NIL && Least(s, size, tp) && k == UsedSize(s.m.Size(tp), size) && s'.cl == s.cl && s'.segs == s.segs
    else if s.wild != NIL && size <= s.m.Size(s.wild) then
      tp == s.wild && k == UsedSize(s.m.Size(tp), size) && s'.cl == s.cl && s'.segs == s.segs
    else if Denied(s, d, size) then
      tp == NIL && s'.cl == s.cl && s'.segs == s.segs
    else if Grows(s, d, size) then
      var e := Requested(size) - Spare(s);
      && tp != NIL && s'.cl == s.cl && (size + 3 <= e ==> k == size)
      && e > 0 && s'.segs == WithEnd(s.segs, 0, e)
    else
      var g := SegmentAt(d.offer(Requested(size)), Requested(size));
      && tp == First(g) && tp != NIL && k == UsedSize(g.end - First(g) - 1, size) && Joins(s.segs, g, s'.segs)
      && if s.wild != NIL && Tops(s.segs, g) then RetiredTo(s, s'.cl) else s'.cl == s.cl
  }

  /** When a bunch for blocks of a size spoils a region in which nothing is delayed: the block that will
      be cut up has one unit too many, or vmextend will put the old wild block on the list that the
      bunch replaces. */
  ghost predicate Spoils(s: State, d: Discipline, size: nat) {
    var n := BunchUnits(size);
    if !Unoffered(s, n) then exists x :: Least(s, n, x) && s.m.Size(x) == n + 1
    else if s.wild != NIL && n <= s.m.Size(s.wild) then s.m.Size(s.wild) == n + 1
    else
      && s.wild != NIL && s.m.Size(s.wild) == size && !Grows(s, d, n) && d.offer(PAGE) != 0
      && Tops(s.segs, SegmentAt(d.offer(PAGE), PAGE))
  }

  /** z is s after everything delayed has been coalesced. */
  ghost predicate Settles(s: State, z: State) {
    Sound(z, {}, S_CACHE + 1) && Quiet(z) && Idle(s, z) && z.segs == s.segs
  }

  /** The block that serves n units once everything delayed in s has been coalesced. */
  ghost predicate Obtains(s: State, d: Discipline, n: nat, tp: int, k: nat) {
    exists z, z' :: Settles(s, z) && Allocated(z, z', tp, k) && n <= k <= n + 1 &&
                    (n >= MAXCACHE ==> Served(z, z', d, n, tp, k)) &&
                    Answered(z, z', d, n, tp, k)
  }

  lemma ObtainsShown(s: State, z: State, z': State, d: Discipline, n: nat, tp: int, k: nat)
    requires Sound(z, {}, S_CACHE + 1) && Quiet(z) && Idle(s, z) && z.segs == s.segs
    requires Allocated(z, z', tp, k) && n <= k <= n + 1 && (n >= MAXCACHE ==> Served(z, z', d, n, tp, k))
    requires Answered(z, z', d, n, tp, k)
    ensures Obtains(s, d, n, tp, k)
  {
    hide Sound, Quiet, Idle, Allocated, Served, Answered;
    assert Settles(s, z);
  }

  lemma ServedByTree(s: State, s': State, d: Discipline, size: nat, tp: int, k: int)
    requires Least(s, size, tp) && tp != NIL && k == UsedSize(s.m.Size(tp), size) && s'.cl == s.cl && s'.segs == s.segs
    ensures Served(s, s', d, size, tp, k)
  {
    hide Offered;
  }

  lemma ServedByWild(s: State, z: State, s': State, d: Discipline, size: nat, tp: int, k: int)
    requires Still(s, z) && Unoffered(s, size) && z.wild != NIL && size <= z.m.Size(z.wild)
    requires tp == z.wild && k == UsedSize(z.m.Size(tp), size) && s'.cl == z.cl && s'.segs == z.segs
    ensures Served(s, s', d, size, tp, k)
  {
  }

  /** s1 is the state that vmextend leads to from z. */
  ghost predicate MoreGot(z: State, s1: State, d: Discipline, size: nat, bp: int) {
    if Denied(z, d, size) then bp == NIL && s1 == z
    else if Grows(z, d, size) then
      var e := Requested(size) - Spare(z);
      bp != NIL && s1.cl == z.cl && s1.m.Size(bp) >= e - 1 && e > 0 && s1.segs == WithEnd(z.segs, 0, e)
    else
      var g := SegmentAt(d.offer(Requested(size)), Requested(size));
      && bp == First(g) && bp != NIL && s1.m.Size(bp) == g.end - First(g) - 1 && Joins(z.segs, g, s1.segs)
      && if z.wild != NIL && Tops(z.segs, g) then RetiredTo(z, s1.cl) else s1.cl == z.cl
  }

  lemma MoreGiven(z: State, s1: State, d: Discipline, size: nat, bp: int)
    requires MoreGot(z, s1, d, size, bp)
    ensures Given(d, z.segs, s1.segs)
  {
    hide Joins, RetiredTo;
    if !Denied(z, d, size) { assert Requested(size) > 0; }
  }

  lemma ServedByMore(s: State, z: State, s1: State, s': State, d: Discipline, size: nat, tp: int, k: int)
    requires Still(s, z) && Unoffered(s, size) && !(z.wild != NIL && size <= z.m.Size(z.wild)) &&
             MoreGot(z, s1, d, size, tp)
    requires s'.cl == s1.cl && s'.segs == s1.segs && (tp != NIL ==> k == UsedSize(s1.m.Size(tp), size))
    ensures Served(s, s', d, size, tp, k)
  {
    StillDenied(s, z, d, size);
  }

  /** The state after the lists from n up have been reclaimed, and others as forward merges met their
      entries. */
  ghost predicate Reclaimed(s: State, s': State, n: int) {
    && Sound(s', {}, S_CACHE + 1) && Idle(s, s') && s'.segs == s.segs && s'.last == NIL && Merged(s, s', {})
    && exists c: nat :: c <= n && Drained(s.cl, s'.cl, c) && Lowers(s, s', n, c)
  }

  /** The rounds of bestalloc's search from s, from list S_CACHE down to list n, have led to y without a
      block on offer after any of them. */
  ghost predicate Searched(s: State, y: State, size: nat, n: int)
    decreases S_CACHE + 1 - n
  {
    if n > S_CACHE then y == s
    else exists x, z {:trigger Reclaimed(x, z, n)} ::
           Searched(s, x, size, n + 1) && Reclaimed(x, z, n) && Still(z, y) && Unoffered(y, size)
  }

  lemma SearchedNone(s: State, size: nat)
    ensures Searched(s, s, size, S_CACHE + 1)
  {
  }

  lemma SearchedMore(s: State, x: State, z: State, y: State, size: nat, n: int)
    requires Searched(s, x, size, n + 1) && n <= S_CACHE && Reclaimed(x, z, n) && Still(z, y) && Unoffered(y, size)
    ensures Searched(s, y, size, n)
  {
    hide Reclaimed, Still, Unoffered;
  }

  /** A search that is successful in round n: the lists from n up are reclaimed and the least block that
      then is on offer is taken. */
  ghost predicate Round(s: State, y: State, z: State, s': State, size: nat, n: int, tp: int, k: int) {
    && 0 <= n <= S_CACHE && Searched(s, y, size, n + 1) && Reclaimed(y, z, n) && Least(z, size, tp)
    && tp != NIL && k == UsedSize(z.m.Size(tp), size) && s'.cl == z.cl && s'.segs == s.segs
  }

  /** No round was successful; everything delayed has been coalesced, to z. */
  ghost predicate Later(s: State, z: State, s': State, d: Discipline, size: nat, tp: int, k: int) {
    Searched(s, z, size, 0) && Settles(s, z) && Served(z, s', d, size, tp, k)
  }

  /** How a request is served, s being the state before: by a search that is successful, or, once
      everything delayed has been coalesced, by the wild block or by new memory. */
  ghost predicate Picked(s: State, s': State, d: Discipline, size: nat, tp: int, k: int) {
    (exists y, z, n :: Round(s, y, z, s', size, n, tp, k)) || (exists z :: Later(s, z, s', d, size, tp, k))
  }

  lemma PickedSame(s: State, s1: State, s': State, d: Discipline, size: nat, tp: int, k1: int, k: int)
    requires Picked(s, s1, d, size, tp, k1) && s'.cl == s1.cl && s'.segs == s1.segs && (tp != NIL ==> k == k1)
    ensures Picked(s, s', d, size, tp, k)
  {
    hide Settles, Served, Searched, Reclaimed, Idle, Least;
    if y, z, n :| Round(s, y, z, s1, size, n, tp, k1) {
      assert Round(s, y, z, s', size, n, tp, k);
    } else {
      var z :| Later(s, z, s1, d, size, tp, k1);
      ServedSame(z, s1, s', d, size, tp, k1, k);
      assert Later(s, z, s', d, size, tp, k);
    }
  }

  /** What is cut off block tp is the last-freed block or, at the end of the first segment and with
      blocks in the tree, the wild block. */
  ghost predicate RestAt(s: State, s': State, tp: int, size: nat) {
    if s.root == NIL || s.segs == [] || s.m.Next(tp) < s.segs[0].end
    then s'.last == tp + 1 + size && s'.wild == s.wild
    else s'.last == s.last && s'.wild == tp + 1 + size
  }

  /** The last-freed block serves a request. */
  ghost predicate LastServes(s: State, size: nat) {
    s.last != NIL && size <= s.m.Size(s.last) < (2 * size) % UNITS
  }

  /** It is cut to size if two units or more are left, which then are the last-freed block. */
  function Reused(s: State, size: nat): State {
    var np := s.last + 1 + size;
    if s.m.Size(s.last) < size + 2 then s.(m := Unjunked(s.m, s.last), last := NIL)
    else s.(m := Cut(Unjunked(s.m, s.last), s.last, size), B := s.B + {np}, last := np)
  }

  /** The last-freed block has joined the list for the rest. */
  function LastDelayed(s: State): State {
    if s.last == NIL || |s.cl| <= S_CACHE then s
    else s.(m := WithLink(s.m, s.last, Nth(s.cl[S_CACHE], 0)), cl := Pushed(s.cl, S_CACHE, s.last), last := NIL)
  }

  lemma GivenSame(d: Discipline, segs: seq<Segment>)
    ensures Given(d, segs, segs)
  {
  }

  lemma LastSegs(s: State, size: nat)
    ensures LastDelayed(s).segs == s.segs && Reused(s, size).segs == s.segs
    ensures s.last == NIL ==> LastDelayed(s) == s && !LastServes(s, size)
  {
  }

  /** The block of some units that is cut up to make a bunch. */
  ghost predicate BunchFrom(z: State, d: Discipline, size: nat, tp: int, units: nat) {
    exists s1 :: Picked(z, s1, d, BunchUnits(size), tp, units)
  }

  /** A request for which no small block is delayed gets the first block of a bunch of 32, and if there is no
      memory for that it is served like a larger one. */
  ghost predicate Bunched(s: State, z: State, s': State, d: Discipline, size: nat, tp: int, k: nat, r: Report) {
    && Reclaimed(s, z, S_CACHE)
    && if r.Bunch? then k == size && BunchFrom(z, d, size, tp, r.units) &&
                        |s'.cl| == S_CACHE + 1 && 0 < size < MAXCACHE && |s'.cl[size - 1]| == 31 &&
                        InRow(s'.cl[size - 1], tp + 1 + size, size)
       else exists s1 :: Picked(z, s1, d, BunchUnits(size), NIL, BunchUnits(size)) && Picked(s1, s', d, size, tp, k)
  }

  /** A request for which there is a cached block gets the one that was delayed last, and nothing else
      changes. */
  ghost predicate FromCache(s: State, s': State, size: nat, tp: int, k: nat)
    requires Cached(s, size)
  {
    tp == s.cl[size - 1][0] && k == size && s' == s.(m := Unjunked(s.m, tp), cl := Popped(s.cl, size - 1))
  }

  /** Other requests are served by the last-freed block if that is not much larger. */
  ghost predicate Handled(s: State, s': State, d: Discipline, size: nat, tp: int, k: nat) {
    if LastServes(s, size) then tp == s.last && k == UsedSize(s.m.Size(tp), size) && s' == Reused(s, size)
    else Picked(LastDelayed(s), s', d, size, tp, k)
  }

  /** Which block a request gets, by the state before; z is the state in which a bunch is made. */
  ghost predicate Answers(s: State, z: State, s': State, d: Discipline, size: nat, tp: int, k: nat, r: Report) {
    if Cached(s, size) then FromCache(s, s', size, tp, k)
    else if size < MAXCACHE then Bunched(s, z, s', d, size, tp, k, r)
    else Handled(s, s', d, size, tp, k)
  }

  ghost predicate Answered(s: State, s': State, d: Discipline, size: nat, tp: int, k: nat) {
    exists z, r :: Answers(s, z, s', d, size, tp, k, r)
  }

  /** Where bestfree keeps block b: on the list of its size, as the last-freed block, or on the list for
      the rest. */
  function Laid(s: State, b: int): State {
    var n, m := s.m.Size(b), Junked(s.m, b);
    if |s.cl| != S_CACHE + 1 || n <= 0 then s
    else if n < MAXCACHE then s.(m := WithLink(m, b, Nth(s.cl[n - 1], 0)), cl := Pushed(s.cl, n - 1, b))
    else if s.last == NIL then s.(m := m, last := b)
    else s.(m := WithLink(m, b, Nth(s.cl[S_CACHE], 0)), cl := Pushed(s.cl, S_CACHE, b))
  }

  /** What comes back is delayed; when it is a page or more, the larger delayed blocks are reclaimed. */
  ghost predicate Delays(s: State, s': State, b: int) {
    if s.m.Size(b) < PAGE then s' == Laid(s, b) else Reclaimed(Laid(s, b), s', S_CACHE)
  }

  lemma BunchNone(s: State, z: State, s1: State, s': State, d: Discipline, size: nat, tp: int, k: nat)
    requires Reclaimed(s, z, S_CACHE) && Picked(z, s1, d, BunchUnits(size), NIL, BunchUnits(size))
    requires Picked(s1, s', d, size, tp, k)
    ensures Bunched(s, z, s', d, size, tp, k, NoBunch)
  {
    hide Picked, Reclaimed;
  }

  /** A small block of that size is delayed. */
  ghost predicate Cached(s: State, size: nat) {
    0 < size < MAXCACHE && |s.cl| == S_CACHE + 1 && s.cl[size - 1] != []
  }

  lemma ServedSame(s: State, s1: State, s': State, d: Discipline, size: nat, tp: int, k1: int, k: int)
    requires Served(s, s1, d, size, tp, k1) && s'.cl == s1.cl && s'.segs == s1.segs && (tp != NIL ==> k == k1)
    ensures Served(s, s', d, size, tp, k)
  {
    hide Least, Unoffered, RetiredTo, Denied, Grows;
  }

  lemma QuietShown(s: State)
    requires s.last == NIL && |s.cl| == S_CACHE + 1 && forall n :: 0 <= n <= S_CACHE ==> s.cl[n] == []
    ensures Quiet(s)
  {
  }

  lemma WildSize(s: State)
    requires Sound(s, {}, S_CACHE + 1)
    ensures s.wild != NIL ==> s.m.Size(s.wild) > 0
  {
    hide Sound;
    if s.wild != NIL { WildNext(s, {}, S_CACHE + 1); }
  }

  lemma ServedSpoils(s: State, s': State, d: Discipline, size: nat, tp: int, k: int)
    requires Quiet(s) && 0 < size < MAXCACHE && Served(s, s', d, BunchUnits(size), tp, k)
    requires s.wild != NIL ==> s.m.Size(s.wild) > 0
    ensures tp == NIL ==> !Spoils(s, d, size)
    ensures tp != NIL && |s'.cl| == S_CACHE + 1 ==>
            (k == BunchUnits(size) && s'.cl[size - 1] == [] <==> !Spoils(s, d, size))
  {
    hide Unoffered;
    var n := BunchUnits(size);
    assert Requested(n) == PAGE;
    if !Unoffered(s, n) {
      assert forall x :: Least(s, n, x) ==> s.m.Size(x) == s.m.Size(tp);
    } else if s.wild == NIL || s.m.Size(s.wild) < n {
      assert Spare(s) == 0;
      assert s.wild != NIL ==> (CIndex(s.m.Size(s.wild)) == size - 1 <==> s.m.Size(s.wild) == size);
    }
  }

  lemma StillDenied(s: State, z: State, d: Discipline, size: nat)
    requires Still(s, z)
    ensures (Denied(z, d, size) <==> Denied(s, d, size)) && (Grows(z, d, size) <==> Grows(s, d, size))
    ensures Spare(z) == Spare(s) && forall cl' :: RetiredTo(z, cl') <==> RetiredTo(s, cl')
  {
  }

  lemma StillSpoils(s: State, z: State, d: Discipline, size: nat)
    requires Still(s, z) && size > 0
    ensures Spoils(z, d, size) <==> Spoils(s, d, size)
  {
    hide Offered;
    var n := BunchUnits(size);
    StillOffers(s, z, n);
    assert forall x :: Least(z, n, x) <==> Least(s, n, x);
  }

  class Region {
    var mem: Mem
    var segs: seq<Segment>    // the segment list, highest address first
    var incr: nat             // segments come in multiples of this; 0 before the first
    var last: int             // vd->free, the most recently freed block
    var wild: int             // the free block at the very end of the first segment
    var root: int             // the free tree
    var tiny: seq<int>        // heads of the lists of tiny free blocks
    var cache: seq<int>       // heads of the lists of delayed free blocks
    var data: map<int, int>   // the clients' data, by unit

    ghost var B: set<int>            // blocks and end markers
    ghost var cls: Classes           // indexed free blocks by size
    ghost var tree: Tree             // the free tree as a tree of sizes
    ghost var wait: seq<int>         // merged blocks not yet in the tree
    ghost var cl: seq<seq<int>>      // the delayed lists

    /** Tree, tiny lists and waiting list are what the ghost fields say. */
    ghost predicate IndexValid()
      reads this
    {
      IndexOk(mem, cls, tree, root, tiny) && WaitOk(mem, cls, wait)
    }

    /** The heap before the first call. */
    constructor ()
      ensures Valid() && segs == [] && InUse(S()) == map[] && Quiet(S()) && B == {} && wild == NIL
    {
      hide Sound, InUse;
      mem := Mem(map[], map[], map[], map[], map[], map[]);
      segs, incr, last, wild, root, data := [], 0, NIL, NIL, NIL, map[];
      tiny := [NIL, NIL, NIL, NIL, NIL, NIL, NIL];
      cache := [NIL, NIL, NIL, NIL, NIL, NIL, NIL];
      B, cls, tree, wait := {}, map[], Leaf, [];
      cl := [[], [], [], [], [], [], []];
      new;
      EmptySound(S());
    }

    // ---------- the free tree ----------

    /** Rotates right until the least node is the root. */
    method MinToRoot(p: int, ghost t: Tree) returns (q: int, ghost t': Tree)
      requires t.Node? && Ordered(t) && Sized(mem, cls) && Positive(cls, Keys(t)) && Rep(mem, cls, t, p)
      modifies this`mem
      ensures t'.Node? && t'.l == Leaf && Keys(t') == Keys(t) && Ordered(t') && Rep(mem, cls, t', q)
      ensures TreeWrites(old(mem), mem, cls, Keys(t))
      ensures mem.Left(LINK_NODE) == old(mem).Left(LINK_NODE) && mem.Right(LINK_NODE) == old(mem).Right(LINK_NODE)
    {
      q, t' := p, t;
      var u := mem.Left(q);
      ghost var m0 := mem;
      while u != NIL
        invariant t'.Node? && Keys(t') == Keys(t) && Ordered(t') && Rep(mem, cls, t', q) && u == mem.Left(q)
        invariant Sized(mem, cls)
        invariant TreeWrites(m0, mem, cls, Keys(t))
        invariant mem.Left(LINK_NODE) == m0.Left(LINK_NODE) && mem.Right(LINK_NODE) == m0.Right(LINK_NODE)
        decreases t'.l
      {
        RotateRightRep(mem, cls, t', q);
        assert NodeFor(m0, cls, Keys(t), q) && NodeFor(m0, cls, Keys(t), u) by {
          assert Rep(mem, cls, t'.l, u) && t'.l.key in Keys(t') && t'.key in Keys(t');
        }
        mem := WithLeft(mem, q, mem.Right(u));
        mem := WithRight(mem, u, q);
        q, t' := u, RotatedRight(t');
        u := mem.Left(q);
      }
    }

    /** The top-down pass of bestsearch: splits the tree into what is below `size`, what is
        above it, and the subtree whose root has exactly that size, if there is one. */
    method Descend(size: int) returns (node: int, l: int, r: int, ghost lo: Tree, ghost t: Tree, ghost hi: Tree)
      requires Ordered(tree) && Sized(mem, cls) && Positive(cls, Keys(tree)) && Rep(mem, cls, tree, root)
      modifies this`mem
      ensures Descent(old(mem), mem, cls, Keys(tree), size, lo, l, t, node, hi, r)
      ensures if node == NIL then t == Leaf else t.Node? && t.key == size
    {
      hide Split, TreeWrites, Upper, Lower, Keys, Ordered, NodeFor, RotatedRight, RotatedLeft;
      l, r, node := LINK_NODE, LINK_NODE, root;
      lo, t, hi := Leaf, tree, Leaf;
      ghost var keys := Keys(tree);
      ghost var m0 := mem;
      DescentStart(m0, cls, size, tree, root);
      while node != NIL
        invariant Descent(m0, mem, cls, keys, size, lo, l, t, node, hi, r)
        decreases t
      {
        DescentReads(m0, mem, cls, keys, size, lo, l, t, node, hi, r);
        var s := mem.Size(node);
        var u;
        if size == s {
          break;
        }
        if size < s {
          u := mem.Left(node);
          if u != NIL {
            s := mem.Size(u);
            if size <= s {
              DescentRotateRight(m0, mem, cls, keys, size, lo, l, t, node, hi, r);
              mem := WithLeft(mem, node, mem.Right(u));
              mem := WithRight(mem, u, node);
              node, t := u, RotatedRight(t);
              if size == s {
                break;
              }
              u := mem.Left(node);
              DescentLinkRight(m0, mem, cls, keys, size, lo, l, t, node, hi, r);
              hi, t := Upper(t, hi), t.l;
            } else {
              DescentZigZagRight(m0, mem, cls, keys, size, lo, l, t, node, hi, r);
              lo, hi, t := Lower(lo, t.l), Upper(t, hi), t.l.r;
              mem := WithRight(mem, l, u);
              l := u;
              u := mem.Right(u);
            }
          } else {
            DescentLinkRight(m0, mem, cls, keys, size, lo, l, t, node, hi, r);
            hi, t := Upper(t, hi), t.l;
          }
          mem := WithLeft(mem, r, node);
          r := node;
        } else {
          u := mem.Right(node);
          if u != NIL {
            s := mem.Size(u);
            if size >= s {
              DescentRotateLeft(m0, mem, cls, keys, size, lo, l, t, node, hi, r);
              mem := WithRight(mem, node, mem.Left(u));
              mem := WithLeft(mem, u, node);
              node, t := u, RotatedLeft(t);
              if size == s {
                break;
              }
              u := mem.Right(node);
              DescentLinkLeft(m0, mem, cls, keys, size, lo, l, t, node, hi, r);
              lo, t := Lower(lo, t), t.r;
            } else {
              DescentZigZagLeft(m0, mem, cls, keys, size, lo, l, t, node, hi, r);
              lo, hi, t := Lower(lo, t), Upper(t.r, hi), t.r.l;
              mem := WithLeft(mem, r, u);
              r := u;
              u := mem.Left(u);
            }
          } else {
            DescentLinkLeft(m0, mem, cls, keys, size, lo, l, t, node, hi, r);
            lo, t := Lower(lo, t), t.r;
          }
          mem := WithRight(mem, l, node);
          l := node;
        }
        node := u;
      }
      DescentReads(m0, mem, cls, keys, size, lo, l, t, node, hi, r);
    }

    /** Find and delete a block of the least sufficient size in the free tree. */
    method SearchTree(size: int) returns (b: int, ghost k: int)
      requires Ordered(tree) && Rep(mem, cls, tree, root)
      requires Listed(mem, cls) && Positive(cls, Keys(tree))
      requires forall s :: s in Keys(tree) ==> mem.Link(HeadOf(cls, s)) == Nth(List(cls, s), 1)
      modifies this`mem, this`root, this`cls, this`tree
      ensures BestFit(old(cls), cls, Keys(old(tree)), Keys(tree), size, b, k)
      ensures Ordered(tree) && Rep(mem, cls, tree, root)
      ensures SearchWrites(old(mem), mem, old(cls), Keys(old(tree)), if b == NIL then NIL else HeadOf(cls, k))
    {
      hide Split, Descent, TreeWrites, SearchWrites, NodeFor, Keys, Ordered, Rep, JoinLeft, JoinRight, BestFit,
           Listed, Sized;
      ghost var m0, keys := mem, Keys(tree);
      ListedIsSized(mem, cls);
      var node, l, r;
      ghost var lo, t, hi;
      node, l, r, lo, t, hi := Descend(size);
      ghost var a, z;
      if node != NIL {
        DescentReads(m0, mem, cls, keys, size, lo, l, t, node, hi, r);
        CloseDescent(m0, mem, cls, keys, size, lo, l, t, node, hi, r, t.l, mem.Left(node), t.r, mem.Right(node));
        a, z, k := JoinRight(lo, t.l), JoinLeft(t.r, hi), size;
        mem := WithRight(mem, l, mem.Left(node));
        mem := WithLeft(mem, r, mem.Right(node));
      } else {
        CloseDescent(m0, mem, cls, keys, size, lo, l, t, node, hi, r, Leaf, NIL, Leaf, NIL);
        a, z, k := JoinRight(lo, Leaf), JoinLeft(Leaf, hi), 0;
        mem := WithRight(mem, l, NIL);
        mem := WithLeft(mem, r, NIL);
        node := mem.Left(LINK_NODE);
        RootNil(mem, cls, z, node);
        if node != NIL {
          ghost var m1, z1 := mem, z;
          TreeWritesKeep(m0, mem, cls, keys);
          node, z := MinToRoot(node, z);
          RepApart(m1, mem, cls, Keys(z1), a, mem.Right(LINK_NODE));
          TreeWritesTrans(m0, m1, mem, cls, keys, Keys(z1));
          TreeWritesKeep(m0, mem, cls, keys);
          IsolateMin(m0, mem, cls, keys, size, a, z, node);
          mem := WithLeft(mem, LINK_NODE, mem.Right(node));
          k, z := z.key, z.r;
        }
      }
      TreeWritesKeep(m0, mem, cls, keys);
      b := node;
      LastListed(mem, cls, k);
      Replant(b, size, k, a, z, m0, keys);
    }

    /** The end of bestsearch: the next block of the same size, or else the least node of the upper
        tree, becomes the root of what the search has taken apart. */
    method Replant(b: int, ghost size: int, ghost k: int, ghost a: Tree, ghost z0: Tree, ghost m0: Mem,
                   ghost keys: set<int>)
      requires Isolated(m0, mem, cls, keys, size, b, k, a, z0, mem.Left(LINK_NODE))
      requires Listed(m0, cls) && Listed(mem, cls) && Positive(cls, keys)
      requires b != NIL ==> List(cls, k) != [] && mem.Link(b) == Nth(List(cls, k), 1)
      modifies this`mem, this`root, this`cls, this`tree
      ensures BestFit(old(cls), cls, keys, Keys(tree), size, b, k)
      ensures Ordered(tree) && Rep(mem, cls, tree, root)
      ensures SearchWrites(m0, mem, old(cls), keys, if b == NIL then NIL else HeadOf(cls, k))
    {
      hide TreeWrites, SearchWrites, Keys, Ordered, Rep, BestFit, Listed, Sized;
      var r;
      ghost var z := z0;
      TreeWritesKeep(m0, mem, cls, keys);
      LastListed(mem, cls, k);
      if b != NIL && mem.Link(b) != NIL {
        r := mem.Link(b);
        FinishPromote(m0, mem, cls, keys, size, b, k, a, z, r);
        mem := WithLeft(mem, r, mem.Right(LINK_NODE));
        mem := WithRight(mem, r, mem.Left(LINK_NODE));
        tree := Node(a, k, z);
      } else {
        r := mem.Left(LINK_NODE);
        RootNil(mem, cls, z, r);
        if r == NIL {
          FinishLower(m0, mem, cls, keys, size, b, k, a, z);
          r := mem.Right(LINK_NODE);
          tree := a;
        } else {
          ghost var m1, z1, r1 := mem, z, r;
          r, z := MinToRoot(r, z);
          TreeWritesTrans(m0, m1, mem, cls, keys, Keys(z1));
          TreeWritesKeep(m0, mem, cls, keys);
          IsolatedRotated(m0, m1, mem, cls, keys, size, b, k, a, z1, r1, z, r);
          FinishGraft(m0, mem, cls, keys, size, b, k, a, z, r);
          mem := WithLeft(mem, r, mem.Right(LINK_NODE));
          tree := Node(a, z.key, z.r);
        }
      }
      root := r;
      if b != NIL {
        cls := DropHead(cls, k);
      }
    }


    /** UNLINK(vd,b,i,t), where b is element k of a list l with back links. */
    method Unlink(b: int, i: int, ghost s: int, ghost l: seq<int>, ghost k: int)
      requires 0 <= k < |l| && l[k] == b && Addresses(l) && Linked(mem, s, l)
      requires s > TINYSIZE && (s < MAXTINY || k > 0)
      requires k == 0 ==> 0 <= i < |tiny|
      modifies this`mem, this`tiny
      ensures mem == Unlinked(old(mem), s, l, k) && mem.hdr == old(mem).hdr
      ensures tiny == if k == 0 then old(tiny)[i := Nth(l, 1)] else old(tiny)
    {
      assert LinkedAt(mem, s, l, k);
      var t := mem.Link(b);
      if t != NIL {
        mem := WithLeft(mem, t, mem.Left(b));
      }
      t := mem.Left(b);
      if t != NIL {
        mem := WithLink(mem, t, mem.Link(b));
      } else {
        tiny := tiny[i := mem.Link(b)];
      }
    }

    /** The first part of bestsearch: a tiniest block leaves its list and gets its SEG word back. */
    method UnlinkTiniest(b: int, ghost k: int)
      requires 0 <= k < |List(cls, TINYSIZE)| && List(cls, TINYSIZE)[k] == b
      requires IndexOk(mem, cls, tree, root, tiny)
      requires SegIx(segs, b) < |segs|
      modifies this`mem, this`tiny
      ensures var l := List(cls, TINYSIZE);
              && mem == WithSeg(Unlinked(old(mem), TINYSIZE, l, k), b, segs[SegIx(segs, b)].at)
              && tiny == if k == 0 then old(tiny)[0 := Nth(l, 1)] else old(tiny)
    {
      ghost var l := List(cls, TINYSIZE);
      assert Linked(mem, TINYSIZE, l) && LinkedAt(mem, TINYSIZE, l, k);
      ListedDistinct(mem, cls, TINYSIZE);
      var p := mem.Seg(b);
      var n := mem.Link(b);
      if n != NIL {
        mem := WithSeg(mem, n, p);
      }
      if p != NIL {
        mem := WithLink(mem, p, n);
      } else {
        tiny := tiny[0 := n];
      }
      var i := 0;
      ghost var m1, t1 := mem, tiny;
      if |segs| > 1 {
        while !(segs[i].at < b <= segs[i].end)
          invariant 0 <= i <= SegIx(segs, b) < |segs| && mem == m1 && tiny == t1
          decreases |segs| - i
        {
          SegIxAfter(segs, b, i);
          i := i + 1;
        }
      }
      SegIxHere(segs, b, i);
      mem := WithSeg(mem, b, segs[i].at);
    }

    method TakeTiniest(b: int)
      requires b in List(cls, TINYSIZE) && mem.Size(b) == TINYSIZE && SegIx(segs, b) < |segs|
      requires IndexOk(mem, cls, tree, root, tiny)
      modifies this`mem, this`tiny, this`cls
      ensures IndexOk(mem, cls, tree, root, tiny)
      ensures IndexWrites(old(mem), mem, old(cls), NIL)
      ensures mem.hdr == old(mem).hdr
      ensures cls == old(cls)[TINYSIZE := Minus(List(old(cls), TINYSIZE), b)]
      ensures mem.Seg(b) == segs[SegIx(segs, b)].at
    {
      hide Linked, Rep, Ordered, IndexWrites, HeadsOk, Unlinked, ListsLinked;
      ghost var m0, cls0 := mem, cls;
      ghost var l := List(cls, TINYSIZE);
      ghost var k :| 0 <= k < |l| && l[k] == b;
      UnlinkIndex(mem, cls, tree, root, tiny, TINYSIZE, k);
      ListedDistinct(mem, cls, TINYSIZE);
      MinusIsWithout(l, k);
      UnlinkTiniest(b, k);
      cls := cls[TINYSIZE := Minus(l, b)];
      WithoutHas(l, k, b);
      UnlinkedWords(m0, TINYSIZE, l, k);
      RestoreSeg(m0, Unlinked(m0, TINYSIZE, l, k), cls0, cls, tree, root, tiny, b, segs[SegIx(segs, b)].at);
    }

    /** A search that leaves the whole index in order. */
    method SearchFree(size: int) returns (b: int, ghost s: int)
      requires IndexOk(mem, cls, tree, root, tiny)
      modifies this`mem, this`root, this`cls, this`tree
      ensures IndexOk(mem, cls, tree, root, tiny)
      ensures IndexWrites(old(mem), mem, old(cls), NIL) && mem.hdr == old(mem).hdr
      ensures BestFit(old(cls), cls, Keys(old(tree)), Keys(tree), size, b, s)
      ensures b != NIL ==>
              s == mem.Size(b) && b in List(old(cls), s) && cls == old(cls)[s := Minus(List(old(cls), s), b)]
    {
      hide Linked, Rep, Ordered, IndexWrites, HeadsOk, SearchWrites, Listed, BestFit;
      ghost var m0, cls0, tree0 := mem, cls, tree;
      IndexReads(mem, cls, tree, root, tiny);
      b, s := SearchTree(size);
      SearchHdr(m0, mem, cls0, Keys(tree0), if b == NIL then NIL else HeadOf(cls, s));
      if b != NIL {
        BestFitSize(m0, cls0, cls, Keys(tree0), Keys(tree), size, b, s);
        assert cls == DropHead(cls0, s) by { BestFitDrops(cls0, cls, Keys(tree0), Keys(tree), size, b, s); }
        SearchIndex(m0, mem, cls0, tree0, tree, root, tiny, size, b, s);
      } else {
        assert cls == cls0 && Keys(tree) == Keys(tree0) by { BestFitNone(cls0, cls, Keys(tree0), Keys(tree), size, s); }
        SearchNone(m0, mem, cls0, tree0, tree, root, tiny);
      }
    }

    /** Find and delete a suitable element in the free tree, or take a wanted tiniest block off its list. */
    method BestSearch(size: int, wanted: int) returns (b: int, ghost s: int)
      requires IndexOk(mem, cls, tree, root, tiny)
      requires wanted != NIL ==> mem.Size(wanted) == size && Indexed(mem, cls, wanted) && SegIx(segs, wanted) < |segs|
      requires wanted != NIL && size != TINYSIZE ==> wanted == HeadOf(cls, size) && size >= MAXTINY
      modifies this`mem, this`root, this`tiny, this`cls, this`tree
      ensures IndexOk(mem, cls, tree, root, tiny)
      ensures IndexWrites(old(mem), mem, old(cls), NIL) && mem.hdr == old(mem).hdr
      ensures wanted != NIL ==> b == wanted
      ensures wanted == NIL ==> BestFit(old(cls), cls, Keys(old(tree)), Keys(tree), size, b, s)
      ensures b == NIL ==> cls == old(cls)
      ensures b != NIL ==>
              s == mem.Size(b) && b in List(old(cls), s) && cls == old(cls)[s := Minus(List(old(cls), s), b)]
      ensures b != NIL && mem.Size(b) == TINYSIZE ==> SegIx(segs, b) < |segs| && mem.Seg(b) == segs[SegIx(segs, b)].at
    {
      hide IndexOk, IndexWrites, BestFit;
      if wanted != NIL && size == TINYSIZE {
        TakeTiniest(wanted);
        b, s := wanted, TINYSIZE;
      } else {
        IndexReads(mem, cls, tree, root, tiny);
        ghost var cls0, tree0 := cls, tree;
        b, s := SearchFree(size);
        BestFitHits(cls0, cls, Keys(tree0), Keys(tree), size, b, s);
      }
    }

    /** REMOVE(vd,b,i,t,bestsearch): delete a free block from whichever list, chain or tree node holds it. */
    method Remove(b: int)
      requires IndexValid() && Held(mem, cls, wait, b) && SegIx(segs, b) < |segs|
      modifies this`mem, this`root, this`tiny, this`cls, this`tree, this`wait
      ensures IndexValid()
      ensures Removed(old(mem), mem, old(cls), cls, old(wait), wait, b)
      ensures mem.Size(b) == TINYSIZE ==> mem.Seg(b) == segs[SegIx(segs, b)].at
      ensures if old(b in wait) then cls == old(cls) && wait == Minus(old(wait), b)
              else wait == old(wait) && cls == old(cls)[mem.Size(b) := Minus(List(old(cls), mem.Size(b)), b)]
    {
      hide Linked, IndexOk, WaitOk, Removed, Minus, Unlinked, Addresses, IndexWrites, Listed, Without;
      ghost var m0, cls0, s := mem, cls, mem.Size(b);
      ghost var l, k := List(cls, s), 0;
      IndexListed(mem, cls, tree, root, tiny);
      WaitIsNew(mem, cls, wait);
      if b in wait {
        k :| 0 <= k < |wait| && wait[k] == b;
        l, s := [TREE_NODE] + wait, MAXTINY;
        WaitDistinct(mem, cls, wait);
        WaitElement(mem, cls, wait, k);
        UnlinkWaiting(mem, cls, tree, root, tiny, wait, k);
        k := k + 1;
        cls, wait := cls, Minus(wait, b);
      } else {
        k :| 0 <= k < |l| && l[k] == b;
        IndexElement(mem, cls, tree, root, tiny, s, k);
        MinusIndexed(mem, mem, cls, b);
        if s < MAXTINY || k > 0 { UnlinkIndex(mem, cls, tree, root, tiny, s, k); }
      }
      if mem.Size(b) != TINYSIZE && mem.Right(b) == b {
        Unlink(b, mem.Size(b) - TINYSIZE, s, l, k);
        if old(b !in wait) { cls := cls[s := Minus(List(cls, s), b)]; }
      } else {
        var r;
        ghost var s';
        r, s' := BestSearch(mem.Size(b), b);
      }
      if old(b !in wait) {
        MinusIndexed(m0, mem, cls0, b);
        WaitKept(m0, mem, cls0, cls, wait, NIL);
        RemovedIndexed(m0, mem, cls0, cls, wait, b);
      }
    }

    /** A tiny free block goes to the front of its list. */
    method ToTinyList(b: int)
      requires IndexValid() && b > 0 && !Held(mem, cls, wait, b) && TINYSIZE <= mem.Size(b) < MAXTINY
      modifies this`mem, this`tiny, this`cls
      ensures IndexValid()
      ensures Added(old(mem), mem, old(cls), cls, wait, wait, b)
      ensures cls == old(cls)[mem.Size(b) := InsertAt(List(old(cls), mem.Size(b)), 0, b)]
    {
      hide Linked, IndexOk, WaitOk, Added, Inserted, Listed, InsertAt, IndexWrites;
      ghost var m0, s, l := mem, mem.Size(b), List(cls, mem.Size(b));
      IndexListed(mem, cls, tree, root, tiny);
      InsertIndex(mem, cls, tree, root, tiny, s, b);
      TinyHead(mem, cls, tree, root, tiny, s);
      var i := mem.Size(b) - TINYSIZE;
      var n := tiny[i];
      mem := WithLink(mem, b, n);
      if i == 0 {
        if n != NIL { mem := WithSeg(mem, n, b); }
        mem := WithSeg(mem, b, NIL);
      } else {
        if n != NIL { mem := WithLeft(mem, n, b); }
        mem := WithLeft(mem, b, NIL);
        mem := WithRight(mem, b, b);
      }
      tiny := tiny[i := b];
      assert mem == Inserted(m0, s, l, 0, b) by { InsertedFront(m0, s, l, b); }
      ghost var cls0 := cls;
      cls := cls[s := InsertAt(l, 0, b)];
      AddedIndexed(m0, mem, cls0, cls, wait, s, 0, b);
      WaitKept(m0, mem, cls0, cls, wait, b);
    }

    /** A merged block joins the blocks waiting for the tree. */
    method ToWaitingList(b: int)
      requires IndexValid() && b > 0 && !Held(mem, cls, wait, b) && mem.Size(b) >= MAXTINY
      modifies this`mem, this`wait
      ensures IndexValid()
      ensures Added(old(mem), mem, cls, cls, old(wait), wait, b)
      ensures wait == [b] + old(wait)
    {
      hide Linked, IndexOk, WaitOk, Added, Inserted, Listed;
      ghost var m0, wait0 := mem, wait;
      InsertWaiting(mem, cls, tree, root, tiny, wait, b);
      var n := mem.Link(TREE_NODE);
      mem := WithLink(mem, b, n);
      if n != NIL { mem := WithLeft(mem, n, b); }
      mem := WithLink(mem, TREE_NODE, b);
      mem := WithLeft(mem, b, TREE_NODE);
      mem := WithRight(mem, b, b);
      assert mem == Inserted(m0, MAXTINY, [TREE_NODE] + wait, 1, b) by {
        InsertedBehind(m0, MAXTINY, [TREE_NODE] + wait, b);
      }
      wait := [b] + wait;
    }

    /** Insertion behind the tree node of the same size; m0 is the memory before b's links were cleared. */
    method JoinNode(n: int, b: int, ghost m0: Mem)
      requires IndexOk(m0, cls, tree, root, tiny) && b > 0 && !Indexed(m0, cls, b) && m0.Size(b) >= MAXTINY
      requires tree.Node? && EndOf(tree, m0.Size(b)) == m0.Size(b) && n == HeadOf(cls, m0.Size(b))
      requires mem == m0.(left := m0.left[b := NIL], right := m0.right[b := NIL], link := m0.link[b := NIL])
      modifies this`mem, this`cls
      ensures IndexOk(mem, cls, tree, root, tiny)
      ensures IndexWrites(m0, mem, old(cls), b) && mem.hdr == m0.hdr
      ensures forall a :: Indexed(mem, cls, a) <==> Indexed(m0, old(cls), a) || a == b
      ensures forall s :: s != m0.Size(b) ==> List(cls, s) == List(old(cls), s)
    {
      hide Linked, Inserted, Listed, InsertAt, Keys, HeadsOk, IndexWrites, EndOf, Rep, Ordered, ListsLinked,
           Indexed, IndexOk;
      ghost var k := m0.Size(b);
      NodeLink(m0, cls, tree, root, tiny, k, b);
      var t := mem.Link(n);
      if t != NIL {
        mem := WithLink(mem, b, t);
        mem := WithLeft(mem, t, b);
      }
      mem := WithLink(mem, n, b);
      mem := WithLeft(mem, b, n);
      mem := WithRight(mem, b, b);
      JoinedAre(m0, n, t, b);
      AddToNode(m0, mem, cls, tree, root, tiny, b);
      cls := cls[k := InsertAt(List(cls, k), 1, b)];
    }

    /** Leaf insertion of a large free block, or insertion behind the tree node of its size. */
    method ToTree(b: int)
      requires IndexOk(mem, cls, tree, root, tiny) && b > 0 && !Indexed(mem, cls, b) && mem.Size(b) >= MAXTINY
      modifies this`mem, this`root, this`cls, this`tree
      ensures IndexOk(mem, cls, tree, root, tiny)
      ensures IndexWrites(old(mem), mem, old(cls), b) && mem.hdr == old(mem).hdr
      ensures forall a :: Indexed(mem, cls, a) <==> Indexed(old(mem), old(cls), a) || a == b
      ensures forall s :: s != mem.Size(b) ==> List(cls, s) == List(old(cls), s)
    {
      hide Linked, Added, Inserted, Listed, InsertAt, Keys, HeadsOk, IndexWrites, Grown, EndOf, Rep, Ordered,
           ListsLinked, Indexed, IndexOk;
      ghost var k, m0, cls0, tree0, root0 := mem.Size(b), mem, cls, tree, root;
      var size := mem.Size(b);
      mem := mem.(left := mem.left[b := NIL], right := mem.right[b := NIL], link := mem.link[b := NIL]);
      ghost var m1 := mem;
      ClearedWords(m0, mem, cls, tree, root, tiny, b);
      RootNil(mem, cls, tree, root);
      var n := root;
      if n == NIL {
        root := b;
        AddFirst(m0, mem, cls, tree, tiny, b);
        tree := Grown(tree, k);
        cls := cls[k := [b]];
      } else {
        ghost var u := tree;
        while true
          invariant mem == m1 && cls == cls0 && tree == tree0 && root == root0
          invariant u.Node? && Rep(m1, cls, u, n) && EndOf(tree0, k) == EndOf(u, k)
          decreases u
        {
          EndOfStep(tree, u, k);
          NodeReads(m1, cls, u, n);
          var s := mem.Size(n);
          var t;
          if s > size {
            t := mem.Left(n);
            if t == NIL {
              mem := WithLeft(mem, n, b);
              AddLeaf(m0, mem, cls, tree, root, tiny, b, n);
              tree := Grown(tree, k);
              cls := cls[k := [b]];
              break;
            }
            u := u.l;
          } else if s < size {
            t := mem.Right(n);
            if t == NIL {
              mem := WithRight(mem, n, b);
              AddLeaf(m0, mem, cls, tree, root, tiny, b, n);
              tree := Grown(tree, k);
              cls := cls[k := [b]];
              break;
            }
            u := u.r;
          } else {
            JoinNode(n, b, m0);
            break;
          }
          n := t;
        }
      }
    }

    // ---------- delayed blocks ----------

    ghost function S(): State
      reads this
    {
      State(mem, B, segs, cls, tree, root, tiny, wait, wild, last, cl)
    }

    /** The array cache holds the heads of the delayed lists, all but list n. */
    ghost predicate Heads(n: int)
      reads this
    {
      |cache| == S_CACHE + 1 == |cl| && forall k :: 0 <= k <= S_CACHE && k != n ==> cache[k] == Nth(cl[k], 0)
    }

    /** vd->incr is set before the first segment is made. */
    ghost predicate Paged()
      reads this
    {
      incr == PAGE || (incr == 0 && segs == [])
    }

    /** The invariant between calls of the allocator. */
    ghost predicate Valid()
      reads this
    {
      Sound(S(), {}, S_CACHE + 1) && Heads(-1) && wait == [] && Paged()
    }

    /** LINK(x) = cache[n]; cache[n] = x: a loose junk block joins list n. */
    method PushCache(x: int, n: int, ghost L: set<int>, ghost c: int)
      requires Loose(S(), L, c, x) && Heads(-1) && 0 <= n <= S_CACHE && (n < S_CACHE ==> mem.Size(x) == n + 1)
      modifies this`mem, this`cache, this`cl
      ensures Sound(S(), L, c) && LiveKept(old(S()), S()) && Heads(-1)
      ensures mem == WithLink(old(mem), x, Nth(old(cl)[n], 0)) && cl == Pushed(old(cl), n, x)
    {
      hide Loose, Sound, LiveKept;
      ghost var s := S();
      PushList(s, WithLink(mem, x, Nth(cl[n], 0)), L, c, x, n);
      mem := WithLink(mem, x, cache[n]);
      cache := cache[n := x];
      cl := Pushed(cl, n, x);
    }

    /** A free block leaves the place where it is kept. */
    method TakeFree(n: int, ghost L: set<int>, ghost c: int)
      requires Sound(S(), L, c) && n in B && !mem.Head(n).busy && n !in L
      modifies this`mem, this`root, this`tiny, this`cls, this`tree, this`wait, this`wild
      ensures Sound(S(), L + {n}, c) && LiveKept(old(S()), S())
      ensures Unlisted(cl, n) && n != last && mem.hdr == old(mem).hdr
      ensures old(wait) == [] ==> wait == []
    {
      hide Sound, LiveKept, Held, IndexOk, WaitOk, Removed, Minus, SegIx, Unlisted;
      ghost var s := S();
      FreeWhere(s, L, c, n);
      SoundIndex(s, L, c);
      if n == wild {
        TakeWild(s, L, c);
        LiveKeptSame(s, s.(wild := NIL));
        wild := NIL;
      } else {
        Remove(n);
        RemovedHdr(s.m, mem, s.cls, cls, s.wait, wait, n);
        TakeHeld(s, S(), L, c, n);
      }
    }

    /** One round of the forward merge: block f takes in its successor unless that is live. */
    method MergeNext(f: int, c0: int, ghost L: set<int>) returns (more: bool, c: int)
      requires Sound(S(), L, c0) && f in L && mem.Size(f) > 0 && mem.Next(f) !in L && last == NIL
      modifies this`mem, this`root, this`tiny, this`cls, this`tree, this`wait, this`wild, this`B
      ensures Sound(S(), L, c) && LiveKept(old(S()), S()) && (c == c0 || 0 <= c < c0) && mem.Size(f) > 0
      ensures Lowers(old(S()), S(), c0, c)
      ensures c == if old(mem.Head(mem.Next(f)).junk && CIndex(mem.Size(mem.Next(f))) < c0)
              then old(CIndex(mem.Size(mem.Next(f)))) else c0
      ensures forall b :: b != f && b != old(mem.Next(f)) ==> mem.Head(b) == old(mem).Head(b)
      ensures if more then old(mem.Next(f)) in old(B) && B == old(B) - {old(mem.Next(f))} &&
              mem.Size(f) > old(mem.Size(f))
              else S() == old(S()) && c == c0 && Live(mem, mem.Next(f))
    {
      hide Sound, LiveKept, SegIx, Unlisted;
      ghost var s0 := S();
      var n := mem.Next(f);
      SoundNext(s0, L, c0, f);
      c := c0;
      if !mem.Head(n).busy {
        FreeWhere(s0, L, c, n);
        TakeFree(n, L, c);
        ghost var s1 := S();
        mem := WithHead(mem, f, Free(mem.Size(f) + 1 + mem.Size(n)));
        AbsorbSound(s1, mem, L + {n}, c, c, f, n);
        B := B - {n};
        assert L + {n} - {n} == L;
        LiveKeptTrans(s0, s1, S());
        LowersTaken(s0, S(), c0, c, f, n);
        more := true;
      } else if mem.Head(n).junk {
        if CIndex(mem.Size(n)) < c {
          c := CIndex(mem.Size(n));
        }
        var size := mem.Size(f) + 1 + mem.Size(n);
        mem := WithHead(mem, n, CLEARED);
        mem := WithHead(mem, f, Free(size));
        AbsorbSound(s0, mem, L, c0, c, f, n);
        B := B - {n};
        assert L - {n} == L;
        LowersTaken(s0, S(), c0, c, f, n);
        more := true;
      } else {
        LiveKeptSame(s0, s0);
        LowersSame(s0, s0, c0);
        more := false;
      }
    }

    /** A merged block is announced to its successor and goes to the wilderness, to its tiny list or
        to the blocks waiting for the tree. */
    method Release(f: int, ghost L: set<int>, ghost c: int)
      requires Sound(S(), L, c) && f in L && mem.Size(f) > 0 && Live(mem, mem.Next(f))
      modifies this`mem, this`tiny, this`cls, this`wait, this`wild
      ensures Sound(S(), L - {f}, c) && LiveKept(old(S()), S())
      ensures forall b :: b != old(mem.Next(f)) ==> mem.Head(b) == old(mem).Head(b)
      ensures mem.Head(old(mem.Next(f))) == old(mem).Head(old(mem.Next(f))).(pfree := true)
      ensures |segs| > 0
      ensures if old(mem).Next(f) == segs[0].end then wild == f && cls == old(cls) && wait == old(wait)
              else wild == old(wild) &&
                   if mem.Size(f) >= MAXTINY then cls == old(cls) && wait == [f] + old(wait)
                   else wait == old(wait) &&
                        cls == old(cls)[mem.Size(f) := InsertAt(List(old(cls), mem.Size(f)), 0, f)]
    {
      hide Sound, LiveKept, SegIx, Held, IndexOk, WaitOk, Tiled, Bits, SegWords, JunkAt, Chains, Added;
      ghost var s0 := S();
      var n := mem.Next(f);
      SoundNext(s0, L, c, f);
      AnnounceSound(s0, L, c, f);
      AnnouncedHeads(mem, f);
      mem := WithHead(mem, n, mem.Head(n).(pfree := true));
      mem := WithSelf(mem, mem.Next(f) - 1, f);
      ghost var m1 := mem;
      assert m1 == Announced(s0.m, f);
      if n >= segs[0].end {
        TopEnd(s0, L, c, n);
        wild := f;
        ReleaseWild(s0, L, c, f);
      } else {
        if mem.Size(f) < MAXTINY {
          ToTinyList(f);
        } else {
          ToWaitingList(f);
        }
        AddedHdr(m1, mem, s0.cls, cls, s0.wait, wait, f);
        ReleaseHeld(s0, S(), L, c, f);
      }
    }

    /** The search of the segment list for the segment of an address. */
    method FindSegment(b: int) returns (i: int)
      requires SegsOk(segs) && Inside(mem, segs, b)
      ensures i == SegIx(segs, b) < |segs|
    {
      i := 0;
      while i < |segs| && !(First(segs[i]) <= b < segs[i].end + 1)
        invariant 0 <= i <= SegIx(segs, b) < |segs|
      {
        ScanSegments(mem, segs, b, i);
        i := i + 1;
      }
      SegIxHere(segs, b, i);
    }

    /** Merges a popped entry with its free predecessor, or takes it by itself. */
    method MergeBack(b: int, n: int, ghost L: set<int>, ghost c: int) returns (f: int)
      requires Sound(S(), L, c) && 0 <= n <= S_CACHE && cl[n] != [] && b == cl[n][0] && mem.Head(b).junk
      requires forall x :: x in L ==> Live(mem, mem.Next(x))
      modifies this`mem, this`root, this`tiny, this`cls, this`tree, this`wait, this`B, this`cl
      ensures f !in L && Sound(S(), L + {f}, c) && LiveKept(old(S()), S()) && mem.Size(f) > 0 && !mem.Head(f).junk
      ensures cl == Popped(old(cl), n)
      ensures forall x :: x != f && x != b ==> mem.Head(x) == old(mem).Head(x)
      ensures (f == b && b in B && B == old(B)) || (b in old(B) && f in old(B) && B == old(B) - {b} &&
              !old(mem).Head(f).busy && old(mem).Next(f) == b)
    {
      hide Sound, LiveKept, SegIx, Unlisted, Held, IndexOk, WaitOk, Removed, Minus, Separate;
      ghost var s0 := S();
      SoundEntry(s0, L, c, n);
      var size := mem.Size(b);
      if mem.Head(b).pfree {
        f := mem.Last(b);
        FreeBefore(s0, L, c, b);
        FreeWhere(s0, L, c, f);
        SoundIndex(s0, L, c);
        var s := mem.Size(f);
        Remove(f);
        RemovedHdr(s0.m, mem, s0.cls, cls, s0.wait, wait, f);
        TakeHeld(s0, S(), L, c, f);
        ghost var s1 := S();
        mem := WithHead(mem, f, Free(size + 1 + s));
        PopAbsorb(s1, mem, L + {f}, c, f, n);
        B := B - {b};
        cl := Popped(cl, n);
        LiveKeptTrans(s0, s1, S());
      } else {
        f := b;
        TakeJunk(s0, WithHead(mem, b, Free(size)), L, c, n);
        mem := WithHead(mem, b, Free(size));
        cl := Popped(cl, n);
      }
    }

    /** The forward merge: block f takes in everything up to the next live block. */
    method MergeAll(f: int, c0: int, ghost wanted: int, ghost rp: int, ghost got: bool, ghost L: set<int>)
      returns (c: int)
      requires Sound(S(), L, c0) && f in L && L <= {f, wanted} && mem.Size(f) > 0 && 0 <= c0 && last == NIL
      requires GuardedRp(S(), wanted, rp) && (f != wanted ==> Guarded(S(), c0, wanted, rp, got))
      modifies this`mem, this`root, this`tiny, this`cls, this`tree, this`wait, this`wild, this`B
      ensures Sound(S(), L, c) && mem.Size(f) > 0 && 0 <= c <= c0 && LiveKept(old(S()), S())
      ensures GuardedRp(S(), wanted, rp) && (f != wanted ==> Guarded(S(), c, wanted, rp, got))
      ensures Live(mem, mem.Next(f)) && Lowers(old(S()), S(), c0, c)
      ensures OthersKept(old(S()), S(), f)
    {
      hide Sound, LiveKept, Guarded, GuardedRp, Lowers;
      ghost var s0 := S();
      c := c0;
      LiveKeptSame(s0, s0);
      LowersSame(s0, s0, c);
      var more := true;
      while more
        invariant Sound(S(), L, c) && f in L && mem.Size(f) > 0 && 0 <= c <= c0 && LiveKept(s0, S())
        invariant GuardedRp(S(), wanted, rp) && (f != wanted ==> Guarded(S(), c, wanted, rp, got))
        invariant cl == s0.cl && last == NIL
        invariant !more ==> Live(mem, mem.Next(f))
        invariant Lowers(s0, S(), c0, c)
        invariant forall x :: x in B && x != f ==> x in s0.B && mem.Head(x) == s0.m.Head(x)
        decreases B, more
      {
        ghost var s, c1 := S(), c;
        GuardNext(s, L, c, wanted, rp, f);
        more, c := MergeNext(f, c, L);
        LiveKeptTrans(s0, s, S());
        LowersTrans(s0, s, S(), c0, c1, c);
        if f != wanted {
          GuardStep(s, S(), c1, c, wanted, rp, got);
        } else {
          GuardRpStep(s, S(), wanted, rp);
        }
      }
    }

    /** What bestreclaim does with the block that an entry has become: the forward merge, and the release
        unless it is the wanted block. */
    method MergeOn(f: int, c0: int, wanted: int, ghost rp: int, ghost got0: bool) returns (c: int, ghost got: bool)
      requires Sound(S(), Taken(wanted, got0) + {f}, c0) && f !in Taken(wanted, got0) && mem.Size(f) > 0
      requires GuardedRp(S(), wanted, rp) && (f != wanted ==> Guarded(S(), c0, wanted, rp, got0))
      requires 0 <= c0 && last == NIL && (f == wanted ==> wanted != NIL)
      modifies this`mem, this`root, this`tiny, this`cls, this`tree, this`wait, this`wild, this`B
      ensures Sound(S(), Taken(wanted, got), c) && Guarded(S(), c, wanted, rp, got) && 0 <= c <= c0
      ensures LiveKept(old(S()), S()) && Lowers(old(S()), S(), c0, c)
      ensures MergedAt(old(S()), S(), Taken(wanted, got), f) && (got0 ==> got)
    {
      hide Sound, LiveKept, SegIx, GuardedRp, Guarded, Lowers, OthersKept, MergedAt;
      got := got0;
      ghost var L, s1 := Taken(wanted, got) + {f}, S();
      c := MergeAll(f, c0, wanted, rp, got, L);
      ghost var s2 := S();
      SoundNext(s2, L, c, f);
      if f == wanted {
        got := true;
        GuardGot(s2, c, wanted, rp, L);
        MergedWanted(s1, s2, L, f);
        return;
      }
      Release(f, L, c);
      LowersReleased(s2, S(), c, s2.m.Next(f));
      LowersTrans(s1, s2, S(), c0, c, c);
      LiveKeptTrans(s1, s2, S());
      GuardReleased(s2, S(), c, wanted, rp, got, f);
      assert L - {f} == Taken(wanted, got);
      MergedReleased(s1, s2, S(), Taken(wanted, got), f);
    }

    /** What bestreclaim does with one entry of list n. */
    method Collect(b: int, n: int, c0: int, wanted: int, ghost rp: int, ghost got0: bool)
      returns (c: int, ghost got: bool)
      requires Sound(S(), Taken(wanted, got0), c0) && Guarded(S(), c0, wanted, rp, got0) && last == NIL
      requires 0 <= c0 <= n <= S_CACHE && cl[n] != [] && b == cl[n][0]
      modifies this`mem, this`root, this`tiny, this`cls, this`tree, this`wait, this`wild, this`B, this`cl
      ensures Sound(S(), Taken(wanted, got), c) && Guarded(S(), c, wanted, rp, got) && 0 <= c <= c0
      ensures LiveKept(old(S()), S()) && cl == Popped(old(cl), n) && Lowers(old(S()), S(), c0, c)
      ensures Merged(old(S()), S(), Taken(wanted, got)) && (got0 ==> got)
    {
      hide Sound, LiveKept, SegIx, Unlisted, Held, IndexOk, WaitOk, Separate, JunkAt, GuardedRp, Guarded, Lowers,
           Merged, MergedAt;
      ghost var s0 := S();
      c, got := c0, got0;
      SoundEntry(s0, Taken(wanted, got), c, n);
      if !mem.Head(b).junk {
        DropStale(s0, Taken(wanted, got), c, n);
        cl := Popped(cl, n);
        LiveKeptSame(s0, S());
        LowersSame(s0, S(), c);
        MergedSame(s0, S(), Taken(wanted, got));
        GuardStep(s0, S(), c, c, wanted, rp, got);
        return;
      }
      SoundInside(s0, Taken(wanted, got), c, b);
      var i := FindSegment(b);
      assert i < |segs|;
      GuardAhead(s0, c, wanted, rp, got);
      var f := MergeBack(b, n, Taken(wanted, got), c);
      ghost var s1 := S();
      GuardTaken(s0, s1, c, wanted, rp, got, b, f);
      LowersBack(s0, s1, c, f, b);
      SoundNext(s1, Taken(wanted, got) + {f}, c, f);
      c, got := MergeOn(f, c, wanted, rp, got);
      LowersTrans(s0, s1, S(), c0, c0, c);
      LiveKeptTrans(s0, s1, S());
      MergedBack(s0, s1, S(), Taken(wanted, got), f, b);
    }

    /** Empties list n. */
    method DrainList(n: int, c0: int, wanted: int, ghost rp: int, ghost got0: bool)
      returns (c: int, count: nat, ghost got: bool)
      requires Sound(S(), Taken(wanted, got0), c0) && Guarded(S(), c0, wanted, rp, got0) && last == NIL
      requires 0 <= c0 <= n <= S_CACHE && Heads(-1)
      modifies this`mem, this`root, this`tiny, this`cls, this`tree, this`wait, this`wild, this`B, this`cl, this`cache
      ensures Sound(S(), Taken(wanted, got), c) && Guarded(S(), c, wanted, rp, got) && 0 <= c <= c0
      ensures LiveKept(old(S()), S()) && cl == old(cl)[n := []] && Heads(-1) && count == |old(cl)[n]|
      ensures old(cl)[n] == [] ==> S() == old(S()) && c == c0
      ensures Lowers(old(S()), S(), c0, c)
      ensures Merged(old(S()), S(), Taken(wanted, got)) && (got0 ==> got)
    {
      hide Sound, LiveKept, Guarded, Lowers, Merged;
      ghost var s0 := S();
      LowersSame(s0, s0, c0);
      MergedSame(s0, s0, Taken(wanted, got0));
      c, count, got := c0, 0, got0;
      var list := cache[n];
      cache := cache[n := NIL];
      LiveKeptSame(s0, S());
      while list != NIL
        invariant Sound(S(), Taken(wanted, got), c) && Guarded(S(), c, wanted, rp, got) && 0 <= c <= c0
        invariant LiveKept(s0, S()) && |cl| == |s0.cl| && cl == s0.cl[n := cl[n]]
        invariant count + |cl[n]| == |s0.cl[n]| && list == Nth(cl[n], 0)
        invariant Heads(n) && cache[n] == NIL && last == NIL
        invariant s0.cl[n] == [] ==> S() == s0 && c == c0
        invariant Lowers(s0, S(), c0, c) && Merged(s0, S(), Taken(wanted, got)) && (got0 ==> got)
        decreases |cl[n]|
      {
        ghost var s, c1, got1 := S(), c, got;
        SoundEntry(s, Taken(wanted, got), c, n);
        var b := list;
        count := count + 1;
        list := mem.Link(list);
        c, got := Collect(b, n, c, wanted, rp, got);
        MergedTrans(s0, s, S(), Taken(wanted, got1), Taken(wanted, got), c1);
        LiveKeptTrans(s0, s, S());
        LowersTrans(s0, s, S(), c0, c1, c);
      }
      if cl[n] != [] { SoundEntry(S(), Taken(wanted, got), c, n); }
    }

    /** Moves the waiting blocks into the tree. */
    method PlantAll(ghost L: set<int>, ghost c: int)
      requires Sound(S(), L, c)
      modifies this`mem, this`root, this`cls, this`tree, this`wait
      ensures Sound(S(), L, c) && LiveKept(old(S()), S()) && wait == [] && mem.hdr == old(mem).hdr
      ensures old(wait) == [] ==> cls == old(cls)
    {
      hide Sound, LiveKept, IndexOk, WaitOk, IndexWrites, Planting, Planted, Indexed;
      ghost var s, k := S(), 0;
      SoundIndex(s, L, c);
      PlantStart(mem, cls, wait);
      var list := mem.Link(TREE_NODE);
      while list != NIL
        invariant IndexOk(mem, cls, tree, root, tiny) && Planting(s.m, mem, s.cls, cls, wait, k)
        invariant 0 <= k <= |wait| && list == Nth(wait, k) && wait == s.wait && mem.hdr == s.m.hdr
        invariant wait == [] ==> cls == s.cls
        decreases |wait| - k
      {
        ghost var m, cls1 := mem, cls;
        PlantNext(s.m, mem, s.cls, cls, wait, k);
        var b := list;
        list := mem.Link(list);
        PlantReads(s.m, mem, s.cls, cls, wait, k);
        ToTree(b);
        PlantStep(s.m, m, mem, s.cls, cls1, cls, wait, k);
        k := k + 1;
      }
      // the local variable goes out of scope
      PlantEnd(s.m, mem, WithLink(mem, TREE_NODE, NIL), s.cls, cls, tree, root, tiny, wait, k);
      PlantedHdr(s.m, WithLink(mem, TREE_NODE, NIL), s.cls, cls, wait);
      mem := WithLink(mem, TREE_NODE, NIL);
      wait := [];
      PlantedSound(s, S(), L, c);
    }

    /** The lists from S_CACHE down to c0, and further down as forward merges demand. */
    method DrainLists(c0: int, wanted: int, ghost rp: int) returns (c: nat, count: nat, ghost got: bool)
      requires Sound(S(), {}, S_CACHE + 1) && Guarded(S(), c0, wanted, rp, false) && last == NIL
      requires 0 <= c0 <= S_CACHE && Heads(-1)
      modifies this`mem, this`root, this`tiny, this`cls, this`tree, this`wait, this`wild, this`B, this`cl, this`cache
      ensures Sound(S(), Taken(wanted, got), c) && Guarded(S(), c, wanted, rp, got)
      ensures c <= c0 && LiveKept(old(S()), S()) && Heads(-1)
      ensures Drained(old(cl), cl, c) && count == Entries(old(cl), c)
      ensures Quiet(old(S())) ==> S() == old(S())
      ensures Lowers(old(S()), S(), c0, c) && Merged(old(S()), S(), Taken(wanted, got))
    {
      hide Sound, LiveKept, Guarded, Lowers, Merged;
      ghost var s0 := S();
      LowersSame(s0, s0, c0);
      got := false;
      MergedSame(s0, s0, Taken(wanted, got));
      SoundLists(s0, {}, S_CACHE + 1);
      SoundWeaker(s0, {}, S_CACHE + 1, c0);
      LiveKeptSame(s0, s0);
      c, count := c0, 0;
      var n := S_CACHE;
      while n >= c
        invariant -1 <= n <= S_CACHE && c <= c0 && c <= n + 1
        invariant Sound(S(), Taken(wanted, got), c) && Guarded(S(), c, wanted, rp, got)
        invariant LiveKept(s0, S()) && Heads(-1) && last == NIL && Drained(s0.cl, cl, n + 1)
        invariant count == Entries(s0.cl, n + 1)
        invariant Quiet(s0) ==> S() == s0
        invariant Lowers(s0, S(), c0, c) && Merged(s0, S(), Taken(wanted, got))
        decreases n
      {
        ghost var s, c1, got1 := S(), c, got;
        var k;
        c, k, got := DrainList(n, c, wanted, rp, got);
        MergedTrans(s0, s, S(), Taken(wanted, got1), Taken(wanted, got), c1);
        LiveKeptTrans(s0, s, S());
        LowersTrans(s0, s, S(), c0, c1, c);
        count := count + k;
        n := n - 1;
      }
    }

    /** The most recently freed block goes to the list for the larger sizes. */
    method DelayLast(ghost wanted: int, ghost c0: int, ghost rp: int)
      requires Valid() && 0 <= c0 <= S_CACHE
      requires Guarded(S(), c0, wanted, rp, false) && (wanted != NIL ==> wanted != last)
      modifies this`mem, this`cl, this`cache, this`last
      ensures Sound(S(), {}, S_CACHE + 1) && Guarded(S(), c0, wanted, rp, false)
      ensures Heads(-1) && LiveKept(old(S()), S()) && last == NIL && |old(cl)| == S_CACHE + 1
      ensures if old(last) == NIL then S() == old(S()) else cl == Pushed(old(cl), S_CACHE, old(last))
      ensures mem.hdr == old(mem).hdr
    {
      hide Sound, LiveKept, Guarded, Loose;
      ghost var s0 := S();
      LiveKeptSame(s0, s0);
      SoundLists(s0, {}, S_CACHE + 1);
      if last != NIL {
        TakeLast(s0, {}, S_CACHE + 1);
        var b := last;
        last := NIL;
        PushCache(b, S_CACHE, {}, S_CACHE + 1);
        LiveKeptSame(s0, s0.(last := NIL));
        LiveKeptTrans(s0, s0.(last := NIL), S());
        GuardStep(s0, S(), c0, c0, wanted, rp, false);
      }
    }

    /** The end of bestreclaim: what waits is planted, and with all lists from c up drained no entry of the
        others is stale. */
    method PlantDrained(ghost wanted: int, ghost c: int, ghost rp: int, ghost got: bool)
      requires Sound(S(), Taken(wanted, got), c) && Guarded(S(), c, wanted, rp, got) && Heads(-1) && last == NIL
      requires 0 <= c <= S_CACHE && forall n :: 0 <= n < |cl| && c <= n ==> cl[n] == []
      modifies this`mem, this`root, this`cls, this`tree, this`wait
      ensures got == (wanted != NIL) && LiveKept(old(S()), S()) && wait == [] && mem.hdr == old(mem).hdr
      ensures Sound(S(), Taken(wanted, got), S_CACHE + 1) && Guarded(S(), 0, wanted, rp, got)
      ensures old(wait) == [] ==> cls == old(cls)
    {
      hide Sound, LiveKept, Guarded, Taken;
      ghost var s3 := S();
      GuardDone(s3, c, wanted, rp, got);
      PlantAll(Taken(wanted, got), c);
      GuardStep(s3, S(), c, 0, wanted, rp, got);
      SoundDrained(S(), Taken(wanted, got), c);
    }

    /** Reclaim all delayed free blocks on list c0 and above, and on the lists of the blocks that
        forward merges meet there.  A wanted block is left in transit for the caller. */
    method Reclaim(wanted: int, c0: int, ghost rp: int) returns (count: nat, ghost c: nat)
      requires Valid() && 0 <= c0 <= S_CACHE
      requires Guarded(S(), c0, wanted, rp, false) && (wanted != NIL ==> wanted != last)
      modifies this`mem, this`root, this`tiny, this`cls, this`tree, this`wait, this`wild, this`B, this`cl,
               this`cache, this`last
      ensures Sound(S(), Taken(wanted, wanted != NIL), S_CACHE + 1) && Guarded(S(), 0, wanted, rp, wanted != NIL)
      ensures wait == [] && Heads(-1) && LiveKept(old(S()), S()) && last == NIL
      ensures c <= c0 && Drained(old(cl), cl, c)
      ensures count == Entries(old(cl), c) + if old(last) != NIL then 1 else 0
      ensures Quiet(old(S())) ==> Still(old(S()), S())
      ensures Lowers(old(S()), S(), c0, c) && Merged(old(S()), S(), Taken(wanted, wanted != NIL))
    {
      hide Sound, LiveKept, Guarded, Loose, Taken, Lowers, Merged, Entries;
      ghost var s0, got := S(), false;
      assert Taken(wanted, false) == {} by { TakenNone(wanted); }
      DelayLast(wanted, c0, rp);
      ghost var s1 := S();
      TreeNodeCleared(s1, {}, S_CACHE + 1);
      mem := WithLink(mem, TREE_NODE, NIL);
      LiveKeptTrans(s0, s1, S());
      GuardStep(s1, S(), c0, c0, wanted, rp, false);
      ghost var s2 := S();
      c, count, got := DrainLists(c0, wanted, rp);
      EntriesLast(s0, s1, c);
      ghost var s3 := S();
      PlantDrained(wanted, c, rp, got);
      ReclaimSteps(s0, s2, s3, S(), Taken(wanted, got), c0, c);
    }

    /** bestreclaim with no block wanted. */
    method ReclaimFrom(c0: int) returns (ghost c: nat)
      requires Valid() && 0 <= c0 <= S_CACHE
      modifies this`mem, this`root, this`tiny, this`cls, this`tree, this`wait, this`wild, this`B, this`cl,
               this`cache, this`last
      ensures Valid() && Idle(old(S()), S()) && segs == old(segs) && last == NIL
      ensures c <= c0 && Drained(old(cl), cl, c) && Reclaimed(old(S()), S(), c0) && |old(cl)| == S_CACHE + 1
      ensures Quiet(old(S())) ==> Still(old(S()), S())
    {
      hide Sound, Idle, LiveKept, Guarded, Taken, Lowers, Merged;
      ghost var s0 := S();
      GuardNone(s0, c0);
      SoundLists(s0, {}, S_CACHE + 1);
      var count;
      count, c := Reclaim(NIL, c0, NIL);
      TakenNone(NIL);
      KeptSegs(s0, S());
      KeptIdle(s0, S());
    }

    // ---------- allocation ----------

    /** The part of the block that is not needed becomes the most recently freed or the wild block. */
    method CutRest(tp: int, size: nat, s: nat, ghost s0: State)
      requires Sound(s0, {tp}, S_CACHE + 1) && s0.last == NIL && s0.m.Head(tp) == Free(s0.m.Size(tp))
      requires 0 < size && size + 2 <= s0.m.Size(tp) == size + s && s0.m.Head(s0.m.Next(tp)).busy
      requires S() == s0.(m := WithHead(s0.m, s0.m.Next(tp), s0.m.Head(s0.m.Next(tp)).(pfree := false)))
      requires root == NIL || |segs| > 0
      modifies this`mem, this`B, this`last, this`wild
      ensures var s1 := S().(m := WithHead(mem, tp, mem.Head(tp).(busy := true)));
              Sound(s1, {}, S_CACHE + 1) && Allocated(s0, s1, tp, size) && !mem.Head(tp).pfree
      ensures RestAt(s0, S(), tp, size)
    {
      hide Sound, Allocated, Committed, Cut, Loose, Announced, SegIx, CutWrites, WildWrites;
      mem := WithHead(mem, tp, Free(size));
      var np := mem.Next(tp);
      mem := WithSeg(mem, np, mem.Seg(tp));
      mem := WithHead(mem, np, Header(s - 1, true, false, true));
      assert mem == CutWrites(s0.m, tp, size) by { CutWritesShown(s0.m, tp, size); }
      CutWritesAre(s0.m, tp, size);
      CutWritesHeads(s0.m, tp, size);
      ghost var m2 := mem;
      B := B + {np};
      if root == NIL || mem.Next(np) < segs[0].end {
        last := np;
        UseLast(s0, tp, size);
      } else {
        mem := WithHead(mem, np, Free(mem.Size(np)));
        mem := WithSelf(mem, np + mem.Size(np), np);
        mem := WithHead(mem, mem.Next(np), mem.Head(mem.Next(np)).(pfree := true));
        wild := np;
        assert mem == WildWrites(m2, np) by { WildWritesShown(m2, np); }
        WildWritesAre(m2, Cut(Committed(s0.m, tp), tp, size), tp, np);
        UseWild(s0, tp, size);
      }
    }

    /** The end of bestalloc: a block in transit is cut to size and becomes live. */
    method Use(tp: int, size: nat) returns (ghost k: nat)
      requires Sound(S(), {tp}, S_CACHE + 1) && Heads(-1) && wait == [] && last == NIL
      requires 0 < size <= mem.Size(tp) && mem.Head(mem.Next(tp)).busy && Paged()
      modifies this`mem, this`B, this`last, this`wild
      ensures Valid() && Allocated(old(S()), S(), tp, k) && size <= k <= size + 1 && !mem.Head(tp).pfree
      ensures k == UsedSize(old(mem).Size(tp), size)
      ensures if old(mem).Size(tp) >= size + 2 then RestAt(old(S()), S(), tp, size)
              else last == NIL && wild == old(wild)
    {
      hide Sound, Allocated, Committed, Cut, Loose, Announced, SegIx, CutWrites, WildWrites;
      ghost var s0 := S();
      k := mem.Size(tp);
      SoundNext(s0, {tp}, S_CACHE + 1, tp);
      var n := mem.Next(tp);
      WholeWritesAre(mem, tp);
      mem := WithHead(mem, n, mem.Head(n).(pfree := false));
      var s := mem.Size(tp) - size;
      if s >= 2 {
        k := size;
        CutRest(tp, size, s, s0);
      } else {
        UseWhole(s0, tp);
      }
      mem := WithHead(mem, tp, mem.Head(tp).(busy := true));
    }

    /** The most recently freed block becomes live, cut to size if two units or more are left. */
    method CutLast(size: nat) returns (tp: int, ghost k: nat)
      requires Valid() && size > 0 && last != NIL && size <= mem.Size(last)
      modifies this`mem, this`B, this`last
      ensures Valid() && tp == old(last) && Allocated(old(S()), S(), tp, k)
      ensures k == UsedSize(old(mem).Size(tp), size) && S() == Reused(old(S()), size)
    {
      hide Sound, Allocated, Idle, Cut, Loose, LiveKept;
      ghost var s0 := S();
      LastBits(s0);
      tp, last := last, NIL;
      var s := mem.Size(tp);
      k := s;
      if s >= size + 2 {
        k := size;
        var bits := mem.Head(tp);
        ReuseCut(s0, size);
        ReuseWritesAre(mem, tp, size);
        mem := WithHead(mem, tp, Free(size));
        var np := mem.Next(tp);
        mem := WithSeg(mem, np, mem.Seg(tp));
        mem := WithHead(mem, np, Header(s - (size + 1), true, false, true));
        last := np;
        mem := WithHead(mem, tp, bits.(size := size));
        B := B + {np};
      } else {
        ReuseWhole(s0);
      }
      mem := WithHead(mem, tp, mem.Head(tp).(junk := false));
    }

    /** The most recently freed block serves a request that is not much smaller; otherwise it joins
        the list for the rest. */
    method ReuseLast(size: nat) returns (tp: int, ghost k: nat)
      requires Valid() && 0 < size < UNITS
      modifies this`mem, this`B, this`last, this`cache, this`cl
      ensures Valid()
      ensures tp != NIL ==> Allocated(old(S()), S(), tp, k) && size <= k <= size + 1
      ensures tp == NIL ==> last == NIL && Idle(old(S()), S())
      ensures tp != NIL <==> LastServes(old(S()), size)
      ensures if tp == NIL then S() == LastDelayed(old(S()))
              else tp == old(last) && k == UsedSize(old(mem).Size(tp), size) && S() == Reused(old(S()), size)
    {
      hide Sound, Allocated, Idle, Loose, LiveKept, Reused;
      ghost var s0 := S();
      IdleSame(s0, s0);
      tp, k := last, 0;
      if tp == NIL {
        return;
      }
      var s := mem.Size(tp);
      if s >= size && s < (2 * size) % UNITS {
        tp, k := CutLast(size);
        return;
      }
      last := NIL;
      TakeLast(s0, {}, S_CACHE + 1);
      SoundLists(s0, {}, S_CACHE + 1);
      PushCache(tp, S_CACHE, {}, S_CACHE + 1);
      KeptIdle(s0.(last := NIL), S());
      IdleSame(s0, s0.(last := NIL));
      IdleTrans(s0, s0.(last := NIL), S());
      tp := NIL;
    }

    /** A search of the free tree for a block to use. */
    method Search(size: nat) returns (tp: int)
      requires Valid() && size > 0
      modifies this`mem, this`root, this`tiny, this`cls, this`tree
      ensures LiveKept(old(S()), S())
      ensures tp == NIL ==> Valid() && Unoffered(S(), size)
      ensures if tp == NIL then Still(old(S()), S()) else Least(old(S()), size, tp)
      ensures mem.hdr == old(mem).hdr
      ensures tp != NIL ==> Sound(S(), {tp}, S_CACHE + 1) && 0 < size <= mem.Size(tp) && mem.Head(mem.Next(tp)).busy
      ensures tp != NIL ==> forall x :: Offered(S(), size, x) ==> mem.Size(tp) <= mem.Size(x)
    {
      hide Sound, LiveKept, Offered, IndexOk, IndexWrites, BestFit, Keys, SegIx, Minus;
      ghost var s := S();
      SoundIndex(s, {}, S_CACHE + 1);
      ghost var k;
      tp, k := BestSearch(size, NIL);
      if tp == NIL {
        NoneFound(s, S(), size, k);
      } else {
        Found(s, S(), size, tp, k);
        FoundLeast(s, cls, Keys(tree), size, tp, k);
      }
    }

    /** Where a new segment goes in the list. */
    method Place(addr: int, n: int) returns (p: int, g: Segment)
      requires SegsOk(segs) && n >= PAGE && Vacant(segs, addr, n)
      ensures Fits(segs, p, g) && g == SegmentAt(addr, n) && (p == 0 <==> Tops(segs, g))
    {
      g := Segment((addr + 7) / 8, (addr + 7) / 8 + n - 1 - (if addr % 8 != 0 then 2 else 0));
      p := 0;
      while p < |segs| && g.at <= segs[p].at
        invariant 0 <= p <= |segs|
        invariant forall i :: 0 <= i < p ==> g.end < segs[i].at
        invariant p > 0 ==> g.at <= segs[0].at
      {
        p := p + 1;
      }
    }

    /** See if the wild block is still wild: covered by a new segment, it becomes junk.  The ghost
        result is the arena without the new segment. */
    method HandOver(ghost s0: State, ghost p: int, ghost g: Segment) returns (ghost s2: State)
      requires Sound(s0, {}, S_CACHE + 1) && Fits(s0.segs, p, g) && Heads(-1)
      requires S() == s0.(m := SegmentWrites(s0.m, g), segs := WithSegment(s0.segs, p, g))
      modifies this`mem, this`wild, this`cache, this`cl
      ensures Sound(s2, {}, S_CACHE + 1) && Idle(s0, s2) && s2.B == s0.B && s2.segs == s0.segs &&
              (s2.wild != NIL ==> p > 0)
      ensures NewHeaders(s2.m, mem, g) && S() == s2.(m := mem, segs := WithSegment(s0.segs, p, g)) && Heads(-1)
      ensures mem.Head(First(g)) == old(mem).Head(First(g)) && mem.Head(g.end) == old(mem).Head(g.end)
      ensures if s0.wild != NIL && p == 0 then RetiredTo(s0, cl) else cl == s0.cl
    {
      hide Sound, Idle, Tamed, Loose, NewHeaders, SegIx, SegsOk, SegmentWrites;
      s2 := s0;
      SegmentWritesAre(s0.m, g);
      SoundSegs(s0, {}, S_CACHE + 1);
      IdleSame(s0, s0);
      if wild == NIL { return; }
      WildNext(s0, {}, S_CACHE + 1);
      RetireWild(s0);
      SoundOutside(s0, S_CACHE + 1, p, g, wild);
      SoundOutside(s0, S_CACHE + 1, p, g, s0.m.Next(wild));
      SegmentKeeps(s0.m, mem, g, wild);
      TopOfWith(s0.segs, p, g);
      if mem.Seg(wild) != segs[0].at {
        s2 := Retired(s0);
        var w := wild;
        TamedShown(mem, w);
        mem := WithHead(mem, mem.Next(w), mem.Head(mem.Next(w)).(pfree := false));
        mem := WithHead(mem, w, mem.Head(w).(busy := true, junk := true));
        TamedHead(s0.m, w);
        TamedHead(SegmentWrites(s0.m, g), w);
        var k := CIndex(mem.Size(w));
        RetireCommutes(s0.m, w, cache[k], g);
        mem := WithLink(mem, w, cache[k]);
        cache := cache[k := w];
        cl := Pushed(cl, k, w);
        wild := NIL;
      }
    }

    /** The creation of a segment of n units at a byte address. */
    method AddSegment(addr: int, n: int) returns (bp: int)
      requires Sound(S(), {}, S_CACHE + 1) && Heads(-1) && n >= PAGE && Vacant(segs, addr, n)
      modifies this`mem, this`B, this`wild, this`cache, this`cl, this`segs
      ensures Sound(S(), {bp}, S_CACHE + 1) && Heads(-1) && Idle(old(S()), S()) && bp != NIL
      ensures mem.Head(mem.Next(bp)).busy
      ensures var g := SegmentAt(addr, n);
              && bp == First(g) && mem.Size(bp) == g.end - First(g) - 1 && Joins(old(segs), g, segs)
              && if old(wild) != NIL && Tops(old(segs), g) then RetiredTo(old(S()), cl) else cl == old(cl)
    {
      hide Sound, Idle, Tamed, Loose, NewHeaders, SegIx, SegsOk, SegmentWrites, Vacant;
      ghost var s0 := S();
      SoundSegs(s0, {}, S_CACHE + 1);
      var p, g := Place(addr, n);
      SegmentWritesAre(mem, g);
      bp := First(g);
      mem := WithSeg(mem, bp, g.at);
      mem := WithHead(mem, bp, Free(g.end - bp - 1));
      segs := segs[..p] + [g] + segs[p..];
      var t := mem.Next(bp);
      mem := WithSeg(mem, t, g.at);
      mem := WithHead(mem, t, Header(0, true, false, false));
      assert mem == SegmentWrites(s0.m, g) by { SegmentShown(s0.m, g); }
      ghost var s2 := HandOver(s0, p, g);
      B := B + {bp, t};
      NewSegment(s2, mem, {}, p, g);
      assert {} + {bp} == {bp};
      IdleTrans(s0, s2, S());
    }

    /** The first segment grows by e units where it is, and its last block with it if that is free. */
    method ExtendTop(e: nat) returns (bp: int)
      requires Sound(S(), {}, S_CACHE + 1) && wait == [] && last == NIL && |segs| > 0 && e >= 2
      modifies this`mem, this`B, this`wild, this`segs, this`root, this`tiny, this`cls, this`tree, this`wait
      ensures Sound(S(), {bp}, S_CACHE + 1) && wait == [] && Idle(old(S()), S()) && bp != NIL
      ensures mem.Head(mem.Next(bp)).busy && wild == NIL
      ensures mem.Size(bp) >= e - 1 && (old(wild) != NIL ==> mem.Size(bp) == old(mem).Size(old(wild)) + e)
      ensures old(|segs| > 0) && segs == WithEnd(old(segs), 0, e)
    {
      hide Sound, Idle, LiveKept, SegIx, TopWrites, Unlisted;
      ghost var s0 := S();
      TopNoWild(s0, {}, S_CACHE + 1, 0);
      ghost var E := segs[0].end;
      bp := segs[0].end;
      if !mem.Head(bp).pfree {
        GrowFresh(s0, 0, e);
        TopWritesAre(mem, segs[0], e);
        mem := WithHead(mem, bp, Free(e - 1));
        B := B + {E + e};
        assert WithHead(WithSeg(mem, E + e, segs[0].at), E + e, Header(0, true, false, false)) ==
               TopWrites(s0.m, segs[0], e) by {
          TopShown(s0.m, segs[0], e);
        }
      } else {
        bp := mem.Last(bp);
        FreeBefore(s0, {}, S_CACHE + 1, E);
        FreeWhere(s0, {}, S_CACHE + 1, bp);
        if wild != NIL { WildUnique(s0, {}, S_CACHE + 1, bp); }
        TakeFree(bp, {}, S_CACHE + 1);
        assert {} + {bp} == {bp};
        KeptIdle(s0, S());
        ghost var s1 := S();
        TopWild(s1, {bp}, S_CACHE + 1, bp);
        mem := WithHead(mem, bp, Free(mem.Size(bp) + e));
        GrowLast(s1, WithHead(WithSeg(mem, E + e, segs[0].at), E + e, Header(0, true, false, false)), e, bp);
        B := B + {E + e} - {E};
        IdleTrans(s0, s1, s1.(m := WithHead(WithSeg(mem, E + e, segs[0].at), E + e, Header(0, true, false, false)),
            B := s1.B + {E + e} - {E}, segs := WithEnd(segs, 0, e)));
      }
      segs := segs[0 := Segment(segs[0].at, segs[0].end + e)];
      var t := mem.Next(bp);
      mem := WithSeg(mem, t, segs[0].at);
      mem := WithHead(mem, t, Header(0, true, false, false));
    }

    /** How much to ask for, 0 if the size is out of range, and whether the first segment grows by that. */
    method Need(size: nat, d: Discipline) returns (n: int, grown: bool)
      requires Valid() && Exhausted(S(), size) && 0 < size < UNITS
      modifies this`incr
      ensures incr == PAGE && grown == (n > 0 && Grows(S(), d, size))
      ensures if size + 10 >= UNITS || Requested(size) < size + 10 then n == 0
              else n == Requested(size) - (if grown then Spare(S()) else 0) >= 2 && (!grown ==> n >= PAGE)
    {
      hide Sound, SegIx, Unoffered;
      n, grown := 0, false;
      if incr == 0 { incr := PAGE; }
      var s := (size + 10) % UNITS;
      if s <= size { return; }
      n := RoundUp(s, incr);
      if n < s { return 0, false; }
      if |segs| > 0 {
        var t := 0;
        if wild != NIL { WildNext(S(), {}, S_CACHE + 1); }
        if wild != NIL && mem.Seg(wild) == segs[0].at {
          t := (mem.Size(wild) + 1) / incr * incr;
          if t == n { n := n + incr; }   // not here: the wild block is smaller than the request
        }
        if d.grows(segs[0].at, n - t) {
          n := n - t;
          grown := true;
        }
      }
    }

    /** vmextend: get more memory for the region.  The caller has coalesced all it could and found
        neither a tree block nor a wild block large enough. */
    method Extend(size: nat, d: Discipline) returns (bp: int)
      requires Valid() && Exhausted(S(), size) && Honest(d, segs) && 0 < size < UNITS
      modifies this
      ensures data == old(data)
      ensures MoreGot(old(S()), S(), d, size, bp)
      ensures bp == NIL ==> Valid() && S() == old(S()) && Denied(S(), d, size)
      ensures bp != NIL ==>
              Sound(S(), {bp}, S_CACHE + 1) && Heads(-1) && wait == [] && last == NIL && Idle(old(S()), S())
      ensures bp != NIL ==> size <= mem.Size(bp) && mem.Head(mem.Next(bp)).busy
      ensures incr == PAGE
    {
      hide Sound, Idle, Offered, Honest, Vacant, RetiredTo, Unoffered;
      ghost var s0 := S();
      bp := NIL;
      var n, grown := Need(size, d);
      if n == 0 { return; }
      if grown {
        bp := ExtendTop(n);
        assert wild == NIL;   // so there is none to hand over
      } else {
        var addr := d.offer(n);
        if addr == 0 { return; }
        assert Vacant(segs, addr, n) by { HonestOffer(d, segs, n); }
        bp := AddSegment(addr, n);
      }
    }

    /** The search of bestalloc: best fit but for coalescing, which proceeds list by list. */
    method FindFit(size: nat) returns (tp: int, ghost y: State, ghost z: State, ghost n0: int)
      requires Valid() && last == NIL && size > 0
      modifies this`mem, this`root, this`tiny, this`cls, this`tree, this`wait, this`wild, this`B, this`cl,
               this`cache, this`last
      ensures Heads(-1) && wait == [] && last == NIL && Idle(old(S()), S())
      ensures tp != NIL ==> Sound(S(), {tp}, S_CACHE + 1) && size <= mem.Size(tp) && mem.Head(mem.Next(tp)).busy
      ensures tp != NIL ==> forall x :: Offered(S(), size, x) ==> mem.Size(tp) <= mem.Size(x)
      ensures tp == NIL ==> Valid() && ((wild != NIL && size <= mem.Size(wild)) || Exhausted(S(), size))
      ensures tp == NIL ==> Quiet(S()) && Unoffered(S(), size) && Searched(old(S()), S(), size, 0)
      ensures tp != NIL ==> Round(old(S()), y, z, S(), size, n0, tp, UsedSize(mem.Size(tp), size))
      ensures Quiet(old(S())) && tp == NIL ==> Still(old(S()), S()) && Unoffered(old(S()), size)
      ensures Quiet(old(S())) && tp != NIL ==> Least(old(S()), size, tp) && mem.hdr == old(mem).hdr && cl == old(cl)
    {
      hide Sound, Idle, LiveKept, SegIx, Offered, Still, Quiet, Least, Unoffered, Reclaimed, Searched;
      ghost var s0 := S();
      SearchedNone(s0, size);
      IdleSame(s0, s0);
      StillSame(s0);
      SoundLists(s0, {}, S_CACHE + 1);
      tp, y, z, n0 := NIL, s0, s0, 0;
      var n := S_CACHE;
      while n >= 0
        invariant -1 <= n <= S_CACHE && Valid() && last == NIL && Idle(s0, S()) && tp == NIL
        invariant n < S_CACHE ==> Unoffered(S(), size)
        invariant n < S_CACHE && Quiet(s0) ==> Unoffered(s0, size)
        invariant forall k :: n < k <= S_CACHE ==> cl[k] == []
        invariant Quiet(s0) ==> Still(s0, S())
        invariant Searched(s0, S(), size, n + 1) && segs == s0.segs
      {
        ghost var s := S();
        ghost var c := ReclaimFrom(n);
        ghost var s1 := S();
        y, z, n0 := s, s1, n;
        IdleTrans(s0, s, s1);
        tp := Search(size);
        KeptIdle(s1, S());
        IdleTrans(s0, s1, S());
        SearchRound(s0, s, s1, S(), size, tp);
        if tp != NIL {
          return;
        }
        SearchedMore(s0, s, s1, S(), size, n);
        n := n - 1;
      }
      QuietShown(S());
    }

    /** The wild block is taken for use. */
    method UseWildBlock() returns (tp: int)
      requires Valid() && wild != NIL
      modifies this`wild
      ensures tp == old(wild) && S() == old(S()).(wild := NIL) && Idle(old(S()), S())
      ensures Sound(S(), {tp}, S_CACHE + 1) && mem.Size(tp) > 0 && mem.Head(mem.Next(tp)).busy
    {
      hide Sound, Idle;
      tp := wild;
      WildNext(S(), {}, S_CACHE + 1);
      TakeWild(S(), {}, S_CACHE + 1);
      assert {} + {wild} == {wild};
      ghost var s := S();
      wild := NIL;
      IdleSame(s, S());
    }

    /** A block large enough, in transit: from the tree, or the wild block, or from the discipline. */
    method Obtain(size: nat, d: Discipline) returns (tp: int)
      requires Valid() && last == NIL && Honest(d, segs) && 0 < size < UNITS
      modifies this
      ensures data == old(data) && Idle(old(S()), S())
      ensures tp == NIL ==> Valid() && segs == old(segs) && NoMemory(S(), d, size)
      ensures Given(d, old(segs), segs)
      ensures last == NIL && (tp != NIL ==> Sound(S(), {tp}, S_CACHE + 1) && Heads(-1) && wait == [] && Paged())
      ensures tp != NIL ==> size <= mem.Size(tp) && mem.Head(mem.Next(tp)).busy
      ensures Quiet(old(S())) ==> Served(old(S()), S(), d, size, tp, UsedSize(mem.Size(tp), size))
      ensures Picked(old(S()), S(), d, size, tp, UsedSize(mem.Size(tp), size))
    {
      hide Sound, Idle, SegIx, Offered, Unoffered, Least, Honest, Exhausted, Denied, MoreGot, Served, Still;
      hide RetiredTo, AllSmaller, Nth, Given, Round, Searched;
      ghost var s0 := S();
      GivenSame(d, segs);
      ghost var y, z, n;
      tp, y, z, n := FindFit(size);
      if tp != NIL {
        if Quiet(s0) { ServedByTree(s0, S(), d, size, tp, UsedSize(mem.Size(tp), size)); }
        return;
      }
      ghost var s2 := S();
      StillSame(s2);
      if wild != NIL && mem.Size(wild) >= size {
        tp := UseWildBlock();
        IdleTrans(s0, s2, S());
        if Quiet(s0) { ServedByWild(s0, s2, S(), d, size, tp, UsedSize(mem.Size(tp), size)); }
        ServedByWild(s2, s2, S(), d, size, tp, UsedSize(mem.Size(tp), size));
      } else {
        tp := Extend(size, d);
        MoreGiven(s2, S(), d, size, tp);
        if tp == NIL { Leftovers(S(), size); } else { IdleTrans(s0, s2, S()); }
        if Quiet(s0) { ServedByMore(s0, s2, S(), S(), d, size, tp, UsedSize(mem.Size(tp), size)); }
        ServedByMore(s2, s2, S(), S(), d, size, tp, UsedSize(mem.Size(tp), size));
      }
      assert Later(s0, s2, S(), d, size, tp, UsedSize(mem.Size(tp), size));
    }

    /** The part of bestalloc that follows the cached small blocks. */
    method AllocRest(size: nat, d: Discipline) returns (tp: int, ghost k: nat)
      requires Valid() && Honest(d, segs) && 0 < size < UNITS
      modifies this
      ensures data == old(data)
      ensures Valid()
      ensures tp == NIL ==> Idle(old(S()), S()) && segs == old(segs) && NoMemory(S(), d, size) && last == NIL
      ensures tp != NIL ==> Allocated(old(S()), S(), tp, k) && size <= k <= size + 1
      ensures tp != NIL && old(last) == NIL ==> !mem.Head(tp).pfree
      ensures Given(d, old(segs), segs)
      ensures Quiet(old(S())) ==> Served(old(S()), S(), d, size, tp, k)
      ensures Handled(old(S()), S(), d, size, tp, k)
    {
      hide Sound, Idle, Allocated, SegIx, NoMemory, Honest, Served, Given, Reused, LastDelayed, Picked;
      ghost var s0 := S();
      GivenSame(d, segs);
      LastSegs(s0, size);
      tp, k := ReuseLast(size);
      if tp != NIL { return; }
      ghost var s1 := S();
      tp := Obtain(size, d);
      ghost var s2 := S();
      IdleTrans(s0, s1, s2);
      if tp != NIL {
        k := Use(tp, size);
        AllocatedTrans(s0, s2, S(), tp, k);
      }
      PickedSame(s1, s2, S(), d, size, tp, UsedSize(s2.m.Size(tp), size), k);
      if Quiet(s0) { ServedSame(s0, s2, S(), d, size, tp, UsedSize(s2.m.Size(tp), size), k); }
    }

    /** The head of a cache list is taken for use. */
    method PopCache(k: int) returns (tp: int)
      requires Heads(-1) && 0 <= k < S_CACHE && cl[k] != [] && mem.Link(cl[k][0]) == Nth(cl[k], 1)
      modifies this`mem, this`cache, this`cl
      ensures tp == old(cl)[k][0] && cl == Popped(old(cl), k) && mem == Unjunked(old(mem), tp) && Heads(-1)
    {
      tp := cache[k];
      cache := cache[k := mem.Link(tp)];
      cl := Popped(cl, k);
      mem := WithHead(mem, tp, mem.Head(tp).(junk := false));
    }

    /** All pieces of a bunch but the last are cut off and linked. */
    method CutPieces(tp: int, size: nat, ghost s0: State)
      returns (p: int, n: nat, ghost rest: nat, ghost prev: int, ghost st: State)
      requires Sound(S(), {}, S_CACHE + 1) && 0 < size < MAXCACHE && Allocated(s0, S(), tp, mem.Size(tp)) && tp in B
      requires mem.Head(tp) == Header(mem.Size(tp), true, false, false)
      requires size + (size + 1) * (N_CACHE - 1) <= mem.Size(tp)
      modifies this`mem
      ensures n == N_CACHE - 1 && rest + n * (size + 1) == old(mem).Size(tp)
      ensures |cl| == S_CACHE + 1 == |st.cl| && |st.cl[size - 1]| >= n
      ensures InRow(st.cl[size - 1][..n] + [p], tp, size)
      ensures Cutting(s0, st, mem, cl[size - 1], tp, n, p, size, rest, prev)
      ensures st == old(S()).(m := st.m, B := st.B, cl := cl[size - 1 := st.cl[size - 1]])
    {
      hide Sound, Allocated, Cutting, PieceWrites, InRow;
      ghost var s := mem.Size(tp);
      SoundLists(S(), {}, S_CACHE + 1);
      ghost var old0 := cl[size - 1];
      st := S();
      CuttingStart(s0, st, tp, size, s);
      p, n, rest, prev := tp, 0, s, NIL;
      RowNone(tp, size);
      assert st.cl[size - 1][..0] == [];
      while n < N_CACHE - 1
        invariant 0 <= n <= N_CACHE - 1 && rest + n * (size + 1) == s && |st.cl| == S_CACHE + 1
        invariant Cutting(s0, st, mem, old0, tp, n, p, size, rest, prev)
        invariant st == old(S()).(m := st.m, B := st.B, cl := cl[size - 1 := st.cl[size - 1]])
        invariant |st.cl[size - 1]| >= n && InRow(st.cl[size - 1][..n], tp, size) && p == tp + n * (size + 1)
      {
        Room(size, n, rest, s);
        RowMore(st.cl[size - 1][..n], tp, size, p);
        st := CuttingStep(s0, st, mem, old0, tp, n, p, size, rest, prev);
        PieceShown(mem, p, size);
        mem := WithHead(mem, p, Free(size));
        var np := mem.Next(p);
        mem := WithLink(mem, p, np);
        mem := WithHead(mem, p, mem.Head(p).(busy := true, junk := true));
        mem := WithSeg(mem, np, mem.Seg(p));
        prev, p, rest, n := p, np, rest - size - 1, n + 1;
      }
      CuttingLength(s0, st, mem, old0, tp, n, p, size, rest, prev);
      RowMore(st.cl[size - 1][..n], tp, size, p);
    }

    /** A bunch for fast allocations: block tp is cut into N_CACHE pieces, linked as a list. */
    method CutBunch(tp: int, size: nat, ghost s0: State) returns (report: Report)
      requires Valid() && 0 < size < MAXCACHE && Allocated(s0, S(), tp, mem.Size(tp)) && tp in B
      requires mem.Head(tp) == Header(mem.Size(tp), true, false, false)
      requires size + (size + 1) * (N_CACHE - 1) <= mem.Size(tp) <= size + (size + 1) * (N_CACHE - 1) + 1
      modifies this`mem, this`cache, this`cl, this`B
      ensures report.Bunch? && report.units == old(mem).Size(tp) && report.lost == old(cache[size - 1])
      ensures Heads(-1) && Ready(S(), size - 1) && |cl| == S_CACHE + 1
      ensures |cl[size - 1]| == N_CACHE && cl[size - 1][0] == tp && InRow(cl[size - 1], tp, size)
      ensures cl == old(cl)[size - 1 := cl[size - 1]]
      ensures segs == old(segs)
      ensures Regular(report, size) ==> Valid() && Idle(s0, S())
      ensures !Regular(report, size) ==> Broken(S(), size - 1)
    {
      hide Sound, Allocated, Idle, Cutting, LastWrites, JunkAt, Ready, Broken, InRow;
      ghost var k := size - 1;
      var s := mem.Size(tp);
      ghost var old0 := cl[k];
      EmptyHead(S(), k);
      report := Report.Bunch(s, cache[size - 1]);
      cache := cache[size - 1 := tp];
      var p, n;
      ghost var rest, prev, st;
      p, n, rest, prev, st := CutPieces(tp, size, s0);
      RestIs(size, rest, s);
      ghost var m0 := mem;
      mem := WithHead(mem, p, Header(s - n * (size + 1), true, false, true));
      mem := WithLink(mem, p, NIL);
      B := st.B;
      cl := st.cl[k := st.cl[k][..N_CACHE - 1] + [p]];
      LastShown(m0, p, rest);
      CuttingReady(s0, st, m0, old0, tp, p, size, rest, prev, S());
      HeadReady(S(), k, tp);
      if rest == size && old0 == [] {
        CuttingLists(s0, st, m0, tp, p, size, rest, prev);
        st := CuttingEnd(s0, st, m0, tp, p, size, prev);
      }
    }

    /** Makes a bunch of blocks of a small size, of which the first is still to be taken.  The nested
        bestalloc asks for more than any cached size, so it goes straight to the second part. */
    method MakeBunch(size: nat, d: Discipline) returns (ok: bool, report: Report, ghost settled: State)
      requires Valid() && Honest(d, segs) && 0 < size < MAXCACHE
      modifies this
      ensures data == old(data)
      ensures !ok ==> Valid() && Idle(old(S()), S()) && segs == old(segs) && report.NoBunch?
      ensures !ok ==> NoMemory(S(), d, BunchUnits(size))
      ensures ok ==> Heads(-1) && Ready(S(), size - 1) && report.Bunch?
      ensures ok && Regular(report, size) ==> Valid() && Idle(old(S()), S())
      ensures ok && !Regular(report, size) ==> Broken(S(), size - 1)
      ensures LargeOnly(old(S())) ==>
              Settles(old(S()), settled) && (Regular(report, size) <==> !Spoils(settled, d, size))
      ensures Quiet(old(S())) ==> Still(old(S()), settled)
      ensures Given(d, old(segs), segs)
      ensures Reclaimed(old(S()), settled, S_CACHE)
      ensures ok ==> BunchFrom(settled, d, size, cl[size - 1][0], report.units)
      ensures ok ==> |cl[size - 1]| == N_CACHE && InRow(cl[size - 1], cl[size - 1][0], size)
      ensures !ok ==> Picked(settled, S(), d, BunchUnits(size), NIL, BunchUnits(size)) && last == NIL
    {
      hide Sound, Allocated, Idle, Ready, Broken, Honest, LiveKept, Guarded, InUse, Taken, Still, NoMemory,
           Served, Spoils, Picked, Reused, LastDelayed, LastServes, Given, Lowers, InRow;
      ghost var s0 := S();
      ghost var c := ReclaimFrom(S_CACHE);
      settled := S();
      ghost var k;
      var tp;
      LastSegs(settled, BunchUnits(size));
      WildSize(settled);
      var s := size + (size + 1) * (N_CACHE - 1);
      tp, k := AllocRest(s, d);
      assert BunchFrom(settled, d, size, tp, k);
      PickedSame(settled, S(), S(), d, s, tp, k, if tp == NIL then s else k);
      if Quiet(settled) { ServedSpoils(settled, S(), d, size, tp, k); }
      report := NoBunch;
      if tp == NIL {
        ok := false;
        IdleTrans(s0, settled, S());
      } else {
        ok := true;
        AllocatedTrans(s0, settled, S(), tp, k);
        AllocatedHead(s0, S(), tp, k);
        SoundLists(S(), {}, S_CACHE + 1);
        EmptyHead(S(), size - 1);
        report := CutBunch(tp, size, s0);
      }
    }

    /** The first block of a list of small blocks is taken for use; s0 is the state before the call. */
    method TakeCached(size: nat, report: Report, ghost s0: State) returns (tp: int)
      requires Cached(S(), size) && Heads(-1) && Ready(S(), size - 1)
      requires if Regular(report, size) then Valid() && Idle(s0, S()) else Broken(S(), size - 1)
      modifies this`mem, this`cache, this`cl
      ensures FromCache(old(S()), S(), size, tp, size)
      ensures Valid() <==> Regular(report, size)
      ensures Regular(report, size) ==> tp != NIL && Allocated(s0, S(), tp, size)
    {
      hide Sound, Allocated, Idle, Ready, Broken, JunkAt;
      ghost var s1 := S();
      HeadReady(s1, size - 1, NIL);
      if Regular(report, size) { PopRevive(s1, size - 1); }
      tp := PopCache(size - 1);
      if Regular(report, size) {
        AllocatedTrans(s0, s1, S(), tp, size);
        AllocatedNonNil(s0, S(), tp, size);
      } else {
        BrokenIs(s1, S(), size - 1);
      }
    }

    /** bestalloc: a block of at least `size` units.  The region is spoilt exactly by an irregular bunch.
        Whether that happens can be told beforehand when no small block is delayed: from the state that
        coalescing the others leads to, which is the state itself when nothing at all is delayed. */
    method BestAlloc(size: nat, d: Discipline) returns (tp: int, ghost k: nat, report: Report, ghost settled: State)
      requires Valid() && Honest(d, segs) && 0 < size < UNITS
      modifies this
      ensures data == old(data)
      ensures Valid() <==> Regular(report, size)
      ensures size >= MAXCACHE || Cached(old(S()), size) ==> report.NoBunch?
      ensures size < MAXCACHE && LargeOnly(old(S())) ==>
                Settles(old(S()), settled) && (Valid() <==> !Spoils(settled, d, size))
      ensures size < MAXCACHE && Quiet(old(S())) ==> (Valid() <==> !Spoils(old(S()), d, size))
      ensures size >= MAXCACHE && Quiet(old(S())) ==> Served(old(S()), S(), d, size, tp, k)
      ensures Given(d, old(segs), segs)
      ensures Answers(old(S()), settled, S(), d, size, tp, k, report)
      ensures Regular(report, size) && tp == NIL ==> NoMemory(S(), d, size)
      ensures Regular(report, size) ==> if tp == NIL then Idle(old(S()), S())
              else Allocated(old(S()), S(), tp, k) && size <= k <= size + 1
    {
      hide Sound, Allocated, Idle, Ready, Broken, Honest, JunkAt, NoMemory, Served, Spoils, Settles, Still;
      hide Picked, BunchFrom, InRow, Reused, LastDelayed, LastServes, Given, Reclaimed;
      ghost var s0 := S();
      IdleSame(s0, s0);
      report, k, settled := NoBunch, size, s0;
      GivenSame(d, segs);
      if size < MAXCACHE {
        SoundLists(s0, {}, S_CACHE + 1);
        EmptyHead(s0, size - 1);
        var ok := cache[size - 1] != NIL;
        if ok {
          ListReady(s0, size - 1);
        } else {
          ok, report, settled := MakeBunch(size, d);
          if Quiet(s0) { StillSpoils(s0, settled, d, size); }
        }
        if ok {
          HeadReady(S(), size - 1, NIL);
          if report.Bunch? { RowRest(cl[size - 1], cl[size - 1][0], size); }
          tp := TakeCached(size, report, s0);
          return;
        }
      }
      ghost var s2 := S();
      tp, k := AllocRest(size, d);
      if size < MAXCACHE {
        LastSegs(s2, size);
        BunchNone(s0, settled, s2, S(), d, size, tp, k);
      }
      if tp == NIL {
        IdleTrans(s0, s2, S());
      } else {
        AllocatedTrans(s0, s2, S(), tp, k);
        AllocatedNonNil(s0, S(), tp, k);
      }
    }

    /** bestfree: a block comes back; its reuse is delayed. */
    method BestFree(p: int)
      requires Valid() && (p != NIL ==> p - 1 in InUse(S()))
      modifies this
      ensures Valid() && segs == old(segs) && data == old(data)
      ensures if p == NIL then S() == old(S()) else Freed(old(S()), S(), p - 1) && Delays(old(S()), S(), p - 1)
    {
      hide Sound, Idle, Freed, InUse, Loose, LiveKept, Drained, Reclaimed;
      if p == NIL { return; }
      ghost var s0 := S();
      var b := p - 1;
      FreeLoose(s0, b);
      UseSize(s0, b);
      SoundInside(s0, {}, S_CACHE + 1, b);
      mem := WithHead(mem, b, mem.Head(b).(junk := true));
      ghost var s1 := S();
      if mem.Size(b) < MAXCACHE {
        PushCache(b, mem.Size(b) - TINYSIZE, {}, S_CACHE + 1);
        KeptIdle(s1, S());
      } else if last == NIL {
        PutLast(S(), {}, S_CACHE + 1, b);
        last := b;
        IdleSame(s1, S());
      } else {
        PushCache(b, S_CACHE, {}, S_CACHE + 1);
        KeptIdle(s1, S());
      }
      FreedTrans(s0, s1, S(), b);
      if mem.Size(b) >= incr {
        ghost var s2 := S();
        ghost var c := ReclaimFrom(S_CACHE);
        FreedTrans(s0, s2, S(), b);
      }
    }

    /** The successor of block r in use is taken from where it is kept, unless it is in use too. */
    method TakeNext(r: int) returns (more: bool)
      requires Valid() && r in InUse(S())
      modifies this`mem, this`root, this`tiny, this`cls, this`tree, this`wait, this`wild, this`B, this`cl,
               this`cache, this`last
      ensures more ==> InHand(S(), mem.Next(r)) && Idle(old(S()), S()) && Heads(-1) && wait == [] && B <= old(B)
      ensures more ==> segs == old(segs)
      ensures !more ==> Valid() && S() == old(S()) && Live(mem, mem.Next(r))
    {
      hide Sound, Idle, InUse, Loose, LiveKept, Guarded, SegIx, Drained, InHand, Still, Quiet;
      ghost var s0 := S();
      NextOfUsed(s0, {}, S_CACHE + 1, r);
      var n := mem.Next(r);
      more := true;
      if n == last {
        TakeLast(s0, {}, S_CACHE + 1);
        last := NIL;
        IdleSame(s0, S());
        LooseInHand(S(), n);
      } else if mem.Head(n).junk {
        GuardWanted(s0, n, r);
        ghost var c;
        var count;
        count, c := Reclaim(n, CIndex(mem.Size(n)), r);
        GuardIs(S(), n, r);
        KeptIdle(s0, S());
        KeptSegs(s0, S());
        SoundInHand(S(), n);
      } else if !mem.Head(n).busy {
        TakeFree(n, {}, S_CACHE + 1);
        assert {} + {n} == {n};
        KeptIdle(s0, S());
        SoundInHand(S(), n);
      } else {
        more := false;
      }
    }

    /** One round of the forward merge of bestresize: block r in use takes in its successor unless
        that is in use too. */
    method MergeUsed(r: int) returns (more: bool)
      requires Valid() && r in InUse(S())
      modifies this`mem, this`root, this`tiny, this`cls, this`tree, this`wait, this`wild, this`B, this`cl,
               this`cache, this`last
      ensures Valid() && Enlarged(old(S()), S(), r, mem.Size(r))
      ensures more ==> B < old(B) && mem.Size(r) > old(mem.Size(r))
      ensures !more ==> S() == old(S()) && Live(mem, mem.Next(r))
    {
      hide Sound, Idle, Enlarged, Extended, InUse, InHand, SegIx;
      ghost var s0 := S();
      EnlargedSame(s0, r);
      more := TakeNext(r);
      if !more { return; }
      ghost var s1 := S();
      IdleUse(s0, s1);
      var n := mem.Next(r);
      GrowInHand(s1, r, n);
      EnlargedIdle(s0, s1, r, mem.Size(r));
      ExtendedShown(mem, r, n);
      mem := WithHead(mem, r, mem.Head(r).(size := mem.Size(r) + 1 + mem.Size(n)));
      mem := WithHead(mem, mem.Next(r), mem.Head(mem.Next(r)).(pfree := false));
      B := B - {n};
      EnlargedTrans(s0, s1, S(), r, s1.m.Size(r), mem.Size(r));
    }

    /** The larger delayed blocks have been reclaimed. */
    ghost predicate Tidied()
      reads this
    {
      last == NIL && |cl| == S_CACHE + 1 && cl[S_CACHE] == []
    }

    /** The junk that a resize leaves goes to the list for the rest, which is then reclaimed: the
        reuse of such blocks is delayed as long as possible. */
    method Delay(x: int)
      requires Loose(S(), {}, S_CACHE + 1, x) && Heads(-1) && wait == [] && Paged()
      modifies this`mem, this`root, this`tiny, this`cls, this`tree, this`wait, this`wild, this`B, this`cl,
               this`cache, this`last
      ensures Valid() && Idle(old(S()), S()) && segs == old(segs) && Tidied()
    {
      hide Sound, Idle, Loose, LiveKept, Guarded, Taken, Lowers;
      ghost var s1 := S();
      LooseIs(s1, {}, S_CACHE + 1, x);
      PushCache(x, S_CACHE, {}, S_CACHE + 1);
      ghost var s2 := S();
      KeptIdle(s1, s2);
      ghost var c := ReclaimFrom(S_CACHE);
      IdleTrans(s1, s2, S());
    }

    /** Block r takes in free neighbours until it is large enough. */
    method GrowUsedTo(r: int, size: nat)
      requires Valid() && r in InUse(S())
      modifies this`mem, this`root, this`tiny, this`cls, this`tree, this`wait, this`wild, this`B, this`cl,
               this`cache, this`last
      ensures Valid() && Enlarged(old(S()), S(), r, mem.Size(r))
      ensures size <= mem.Size(r) <==> Clear(old(S()), r, size)
      ensures size > mem.Size(r) ==> Live(mem, mem.Next(r))
    {
      hide Sound, Enlarged, InUse, Clear;
      ghost var s0 := S();
      EnlargedSame(s0, r);
      var more := true;
      while more && mem.Size(r) < size
        invariant !more ==> Live(mem, mem.Next(r))
        invariant Valid() && Enlarged(s0, S(), r, mem.Size(r))
        decreases B, more
      {
        ghost var s := S();
        EnlargedIn(s0, s, r, mem.Size(r));
        more := MergeUsed(r);
        EnlargedTrans(s0, s, S(), r, s.m.Size(r), mem.Size(r));
      }
      EnlargedIn(s0, S(), r, mem.Size(r));
      ClearBehind(S(), NO_MEMORY, r, size);
      ClearEnlarged(s0, S(), NO_MEMORY, r, mem.Size(r), size);
    }

    /** What block r does not need is cut off and freed. */
    method CutUsed(r: int, size: nat, ghost s0: State)
      requires Valid() && Enlarged(s0, S(), r, mem.Size(r)) && 0 < size && size + 3 <= mem.Size(r) && r != NIL
      modifies this`mem, this`root, this`tiny, this`cls, this`tree, this`wait, this`wild, this`B, this`cl,
               this`cache, this`last
      ensures Valid() && Resized(s0, S(), r, size) && segs == old(segs) && Tidied()
    {
      hide Sound, Enlarged, InUse, Resized, Cut, Loose, Idle;
      ghost var s1 := S();
      CutResized(s0, s1, r, mem.Size(r), size);
      CutShown(mem, r, size);
      var h := mem.Head(r);
      mem := WithHead(mem, r, Free(size));
      var np := mem.Next(r);
      mem := WithSeg(mem, np, mem.Seg(r));
      mem := WithHead(mem, np, Header(h.size - size - 1, true, false, true));
      mem := WithHead(mem, r, h.(size := size));
      B := B + {np};
      ghost var s2 := S();
      Delay(np);
      ResizedTrans(s0, s2, S(), r, size);
    }

    /** Copies n units of data between two blocks. */
    method CopyWords(to: int, from: int, n: nat)
      requires to + n <= from || from + n <= to
      modifies this`data
      ensures forall i :: 0 <= i < n ==> Word(data, to, i) == Word(old(data), from, i)
      ensures forall a :: !(to <= a < to + n) ==> Read(data, a) == Read(old(data), a)
    {
      var i := 0;
      while i < n
        invariant 0 <= i <= n
        invariant forall j :: 0 <= j < i ==> Word(data, to, j) == Word(old(data), from, j)
        invariant forall a :: !(to <= a < to + i) ==> Read(data, a) == Read(old(data), a)
      {
        data := data[to + i := Read(data, from + i)];
        i := i + 1;
      }
    }

    method ZeroWords(to: int, n: nat)
      modifies this`data
      ensures forall a :: Read(data, a) == if to <= a < to + n then 0 else Read(old(data), a)
    {
      var i := 0;
      while i < n
        invariant 0 <= i <= n
        invariant forall a :: Read(data, a) == if to <= a < to + i then 0 else Read(old(data), a)
      {
        data := data[to + i := 0];
        i := i + 1;
      }
    }

    /** The second part of bestresize: block r, perhaps enlarged, is too small, so a new block is
        obtained, the data copied if that is asked for, and block r freed. */
    method MoveUsed(r: int, size: nat, copy: bool, d: Discipline, ghost s0: State)
      returns (res: int, ghost k: nat, report: Report)
      requires Valid() && Honest(d, segs) && Enlarged(s0, S(), r, mem.Size(r)) && r != NIL && mem.Size(r) < size < UNITS
      requires segs == s0.segs
      modifies this
      ensures Valid() <==> Regular(report, size)
      ensures Regular(report, size) && res == NIL ==>
              Resized(s0, S(), r, k) && r in InUse(s0) && InUse(s0)[r] <= k < size
      ensures Regular(report, size) && res != NIL ==>
              Moved(s0, S(), r, res - 1, k) && size <= k <= size + 1 && res != r + 1
      ensures res != NIL ==> Elsewhere(s0, d, r, size, res - 1, k)
      ensures !Regular(report, size) || res == NIL ==> data == old(data)
      ensures Regular(report, size) && res == NIL ==> NoMemory(S(), d, size)
      ensures Regular(report, size) && res != NIL ==> Tidied()
      ensures Given(d, old(segs), segs)
      ensures size >= MAXCACHE ==> report.NoBunch?
      ensures forall a :: !(res <= a < res + size) ==> Read(data, a) == Read(old(data), a)
      ensures Regular(report, size) && res != NIL && copy ==>
                forall i :: 0 <= i < old(mem).Size(r) ==> Word(data, res, i) == Word(old(data), r + 1, i)
    {
      hide Sound, Idle, Loose, Enlarged, Allocated, Freed, Moved, Resized, Honest, InUse, NoMemory, Given;
      hide Answers, Served, Spoils, Settles;
      ghost var s1 := S();
      var n := mem.Size(r);
      var tp;
      EnlargedIn(s0, s1, r, n);
      EnlargedFrom(s0, s1, r, n);
      ghost var settled;
      tp, k, report, settled := BestAlloc(size, d);
      res := if tp == NIL then NIL else tp + 1;
      ghost var s2 := S();
      assert Answered(s1, s2, d, size, tp, k) && Elsewhere(s0, d, r, size, tp, k);
      if !Regular(report, size) { return; }
      if tp == NIL {
        k := n;
        EnlargedTrans(s0, s1, s2, r, n, n);
        EnlargedResized(s0, s2, r, n);
        return;
      }
      AllocatedApart(s1, s2, tp, k, r);
      if copy {
        CopyWords(res, r + 1, n);
      }
      FreeLoose(s2, r);
      mem := WithHead(mem, r, mem.Head(r).(junk := true));
      ghost var s3 := S();
      Delay(r);
      FreedTrans(s2, s3, S(), r);
      MovedFreed(s0, s1, s2, S(), r, n, tp, k);
    }

    /** Segment j and its last block r, which is in use, grow by e units. */
    method RaiseEnd(j: nat, r: int, e: nat)
      requires j < |segs| && e >= 2 && mem.Next(r) == segs[j].end
      modifies this`mem, this`B, this`segs
      ensures mem == UnderWrites(old(mem), r, old(segs)[j], e) && segs == WithEnd(old(segs), j, e)
      ensures B == old(B) + {old(segs)[j].end + e} - {old(segs)[j].end}
    {
      hide UnderWrites;
      UnderIs(mem, r, segs[j], e);
      mem := WithHead(mem, r, mem.Head(r).(size := mem.Size(r) + e));
      B := B + {segs[j].end + e} - {segs[j].end};
      segs := segs[j := Segment(segs[j].at, segs[j].end + e)];
      var np := mem.Next(r);
      mem := WithSeg(mem, np, segs[j].at);
      mem := WithHead(mem, np, Header(0, true, false, false));
    }

    /** The growth of a segment under its last block, which is in use and too small. */
    method GrowSegment(r: int, size: nat, d: Discipline)
      requires Valid() && Honest(d, segs) && r in InUse(S()) && mem.Size(r) < size < UNITS
      modifies this`mem, this`B, this`segs
      ensures Valid() && Enlarged(old(S()), S(), r, mem.Size(r))
      ensures if GrowsUnder(old(S()), d, r, size) then mem.Size(r) == old(mem).Size(r) + More(old(S()), r, size) >= size
              else S() == old(S())
      ensures Given(d, old(segs), segs)
    {
      hide Sound, Enlarged, InUse, UnderWrites, SegIx, Nth, Honest, SegNamed;
      GivenSame(d, segs);
      ghost var s0 := S();
      EnlargedSame(s0, r);
      SegOfUsed(s0, r);
      var j := SegNamed(segs, mem.Seg(r));
      if size <= incr || mem.Next(r) != segs[j].end { return; }
      var e := RoundUp(size - mem.Size(r) + 1, incr);
      if e == 0 || !d.grows(segs[j].at, e) { return; }
      HonestGrowth(d, segs, j, e);
      EnlargedIn(s0, s0, r, mem.Size(r));
      GrowUnder(s0, j, r, e);
      RaiseEnd(j, r, e);
      EnlargedIn(s0, S(), r, s0.m.Size(r) + e);
    }

    /** bestresize on a block in use: grow or shrink it where it is, or move it. */
    method ResizeUsed(r: int, size: nat, move: bool, copy: bool, d: Discipline)
      returns (res: int, ghost k: nat, report: Report)
      requires Valid() && Honest(d, segs) && 0 < size < UNITS && r in InUse(S())
      modifies this
      ensures Valid() <==> Regular(report, size)
      ensures Regular(report, size) ==> ResizeDone(old(S()), S(), r, res, size, k)
      ensures res == NIL || res == r + 1 ==> data == old(data)
      ensures Regular(report, size) && !(move || copy) ==> res == NIL || res == r + 1
      ensures InPlace(old(S()), d, r, size) ==> res == r + 1 && report.NoBunch?
      ensures Regular(report, size) && res == r + 1 ==>
                size <= k < size + 3 && InPlace(old(S()), d, r, size)
      ensures size <= InUse(old(S()))[r] ==> res == r + 1 && report.NoBunch? && Trimmed(old(S()), S(), r, size, k)
      ensures size >= MAXCACHE ==> report.NoBunch?
      ensures res == NIL && Regular(report, size) ==> k < size
      ensures Regular(report, size) && res == NIL && (move || copy) ==> NoMemory(S(), d, size)
      ensures Regular(report, size) && res != NIL && res != r + 1 ==> Tidied() && size <= k <= size + 1
      ensures res != NIL && res != r + 1 ==> Elsewhere(old(S()), d, r, size, res - 1, k)
      ensures Given(d, old(segs), segs)
      ensures forall a :: !(res <= a < res + size) ==> Read(data, a) == Read(old(data), a)
      ensures Regular(report, size) && res != NIL && res != r + 1 && copy ==>
                forall i :: 0 <= i < InUse(old(S()))[r] ==> Word(data, res, i) == Word(old(data), r + 1, i)
    {
      hide Sound, Enlarged, Moved, Resized, Honest, InUse, NoMemory, Given, Clear, GrowsBehind, GrowsUnder,
           Elsewhere;
      ghost var s0 := S();
      EnlargedSame(s0, r);
      InUsePositive(s0, r);
      GivenSame(d, segs);
      if size <= mem.Size(r) { ClearBehind(s0, d, r, size); }
      report, res, k := NoBunch, r + 1, mem.Size(r);
      if mem.Size(r) < size {
        GrowUsedTo(r, size);
        ghost var s2, n := S(), mem.Size(r);
        EnlargedIn(s0, s2, r, n);
        if mem.Size(r) < size {
          ClearBehind(s2, d, r, size);
          ClearEnlarged(s0, s2, d, r, n, size);
          GrowSegment(r, size, d);
          EnlargedTrans(s0, s2, S(), r, n, mem.Size(r));
        }
      }
      ghost var s1 := S();
      k := mem.Size(r);
      EnlargedIn(s0, s1, r, k);
      EnlargedResized(s0, s1, r, k);
      if mem.Size(r) >= size + 3 {
        CutUsed(r, size, s0);
        k := size;
      } else if mem.Size(r) < size {
        if !(move || copy) {
          res := NIL;
        } else {
          res, k, report := MoveUsed(r, size, copy, d, s0);
        }
      }
    }

    /** bestresize.  The flags are VM_RSMOVE, VM_RSCOPY and VM_RSZERO. */
    method BestResize(p: int, request: nat, move: bool, copy: bool, zero: bool, d: Discipline)
      returns (res: int, ghost k: nat, report: Report)
      requires Valid() && Honest(d, segs) && request < UNITS && (p != NIL ==> p - 1 in InUse(S()))
      modifies this
      ensures Valid() <==> Regular(report, Rounded(request))
      ensures Regular(report, Rounded(request)) ==>
                if p == NIL then (if res == NIL then Idle(old(S()), S())
                    else Allocated(old(S()), S(), res - 1, k) && Rounded(request) <= k <= Rounded(request) + 1)
                else if request == 0 then res == NIL && Freed(old(S()), S(), p - 1)
                else ResizeDone(old(S()), S(), p - 1, res, request, k)
      ensures Regular(report, Rounded(request)) && res == NIL && (p == NIL || (request > 0 && (move || copy))) ==>
                NoMemory(S(), d, Rounded(request))
      ensures p != NIL && request > 0 && InPlace(old(S()), d, p - 1, request) ==> res == p && report.NoBunch?
      ensures p != NIL && request > 0 && Regular(report, Rounded(request)) && res == p ==>
                InPlace(old(S()), d, p - 1, request) && request <= k < request + 3
      ensures p != NIL && 0 < request <= InUse(old(S()))[p - 1] ==> Trimmed(old(S()), S(), p - 1, request, k)
      ensures p != NIL && Regular(report, request) && res != NIL && res != p ==>
                Tidied() && request <= k <= request + 1
      ensures p != NIL && res != NIL && res != p ==> Elsewhere(old(S()), d, p - 1, request, res - 1, k)
      ensures p != NIL && request == 0 ==> Delays(old(S()), S(), p - 1)
      ensures p == NIL && Regular(report, Rounded(request)) ==>
                Answered(old(S()), S(), d, Rounded(request), if res == NIL then NIL else res - 1, k)
      ensures Given(d, old(segs), segs)
      ensures p != NIL && 0 < request <= InUse(old(S()))[p - 1] ==> res == p && report.NoBunch?
      ensures p != NIL && !(move || copy) && Regular(report, Rounded(request)) ==> res == NIL || res == p
      ensures p != NIL && request > 0 && res == NIL && Regular(report, Rounded(request)) ==> k < request
      ensures request >= MAXCACHE || (p != NIL && request == 0) ==> report.NoBunch?
      ensures res == NIL ==> data == old(data)
      ensures forall a :: !(res <= a < res + Rounded(request)) ==> Read(data, a) == Read(old(data), a)
      ensures var old0 := if p == NIL then 0 else InUse(old(S()))[p - 1];
              Regular(report, Rounded(request)) && res != NIL && (res == p || copy) ==>
                forall i :: 0 <= i < old0 && i < request ==> Word(data, res, i) == Word(old(data), p, i)
      ensures var old0 := if p == NIL then 0 else InUse(old(S()))[p - 1];
              Regular(report, Rounded(request)) && res != NIL && zero ==>
                forall i :: old0 <= i < Rounded(request) ==> Word(data, res, i) == 0
    {
      hide Sound, Moved, Resized, Honest, InUse, Allocated, Freed, Idle, NoMemory, Answers, Given, InPlace,
           Elsewhere, Trimmed, Delays;
      var size, old0 := request, 0;
      k, report := 0, NoBunch;
      GivenSame(d, segs);
      if p == NIL {
        size := Rounded(request);
        var tp;
        ghost var settled;
        tp, k, report, settled := BestAlloc(size, d);
        res := if tp == NIL then NIL else tp + 1;
        assert Answered(old(S()), S(), d, size, tp, k);
        if Regular(report, size) && tp != NIL {
          AllocatedIn(old(S()), S(), tp, k);
          InUsePositive(S(), tp);
        }
      } else if request == 0 {
        BestFree(p);
        return NIL, 0, NoBunch;
      } else {
        UseSize(S(), p - 1);
        old0 := mem.Size(p - 1);
        res, k, report := ResizeUsed(p - 1, size, move, copy, d);
        if !Regular(report, size) { return; }
      }
      ghost var data1 := data;
      if res != NIL && zero && size > old0 {
        ZeroWords(res + old0, size - old0);
      }
      assert forall i :: 0 <= i < old0 ==> Word(data, res, i) == Word(data1, res, i);
    }

    /** The part of block tp before address np becomes junk. */
    method CutLeft(tp: int, np: int, g: int, ghost s0: State)
      requires Valid() && Allocated(s0, S(), tp, mem.Size(tp)) && tp in B && Live(mem, tp)
      requires mem.Seg(tp) == g && tp + 3 <= np && np - tp + 1 <= mem.Size(tp)
      modifies this`mem, this`B, this`cl, this`cache
      ensures Valid() && Allocated(s0, S(), np, mem.Size(np)) && mem.Size(np) == old(mem).Size(tp) - (np - tp)
      ensures np in B && Live(mem, np) && mem.Seg(np) == g
    {
      hide Sound, Allocated, Loose, PieceCut, LiveKept, Idle;
      ghost var s1, s2, n := S(), S(), mem.Size(tp);
      var s := np - tp;
      s2 := CutPiece(s0, s1, tp, s - 1, n);
      LeftShown(mem, tp, s, g);
      PieceSeg(mem, tp, s - 1);
      var h := mem.Head(tp);
      mem := WithHead(mem, np, Header(h.size - s, true, false, false));
      mem := WithSeg(mem, np, g);
      mem := WithHead(mem, tp, Header(s - 1, h.busy, h.pfree, true));
      B := B + {np};
      PushCache(tp, CIndex(mem.Size(tp)), {}, S_CACHE + 1);
      KeptIdle(s2, S());
      AllocatedTrans(s0, s2, S(), np, n - s);
      AllocatedHead(s0, S(), np, n - s);
    }

    /** What follows the first `size` units of block np becomes junk. */
    method CutRight(np: int, size: nat, g: int, ghost s0: State)
      requires Valid() && Allocated(s0, S(), np, mem.Size(np)) && np in B && Live(mem, np)
      requires mem.Seg(np) == g && 0 < size && size + 3 <= mem.Size(np)
      modifies this`mem, this`B, this`cl, this`cache
      ensures Valid() && Allocated(s0, S(), np, size)
    {
      hide Sound, Allocated, Loose, Cut, LiveKept, Idle, InUse, Untouched;
      ghost var s1, n := S(), mem.Size(np);
      CutSound(s1, {}, np, size);
      CutShown(mem, np, size);
      CutHeads(mem, np, size);
      var h := mem.Head(np);
      mem := WithHead(mem, np, Free(size));
      var tp := mem.Next(np);
      mem := WithHead(mem, tp, Header(h.size - size - 1, true, false, true));
      mem := WithSeg(mem, tp, g);
      mem := WithHead(mem, np, h.(size := size));
      B := B + {tp};
      ghost var s2 := S();
      AllocatedCut(s0, s1, s2, np, n, size);
      PushCache(tp, CIndex(mem.Size(tp)), {}, S_CACHE + 1);
      KeptIdle(s2, S());
      AllocatedTrans(s0, s2, S(), np, size);
    }

    /** Everything delayed is coalesced. */
    method CoalesceAll()
      requires Valid()
      modifies this`mem, this`root, this`tiny, this`cls, this`tree, this`wait, this`wild, this`B, this`cl,
               this`cache, this`last
      ensures Valid() && Idle(old(S()), S()) && Coalesced(S()) && Quiet(S()) && segs == old(segs)
    {
      hide Sound, Idle, LiveKept, Guarded, Taken, Coalesced;
      ghost var s0 := S();
      ghost var c := ReclaimFrom(0);
      AllCoalesced(S());
    }

    /** The aligned part of block tp that is kept; the rest is freed.  One step of the alignment more
        always leaves room for a full block on the left. */
    method AlignWithin(tp: int, size: nat, a: nat, ghost s0: State) returns (p: int, ghost k: nat)
      requires Valid() && Allocated(s0, S(), tp, mem.Size(tp)) && tp in B && Live(mem, tp)
      requires 0 < size && 0 < a && HasRoom(tp, mem.Size(tp), size, a)
      modifies this`mem, this`root, this`tiny, this`cls, this`tree, this`wait, this`wild, this`B, this`cl,
               this`cache, this`last
      ensures Valid() && Allocated(s0, S(), p - 1, k) && size <= k <= size + 2 && p == AlignedAt(tp, a) && p > 0
      ensures k == KeptSize(old(mem).Size(tp) - (p - 1 - tp), size) && Quiet(S()) && segs == old(segs)
    {
      hide Sound, Idle, Allocated;
      AllocatedIn(s0, S(), tp, mem.Size(tp));
      InUsePositive(S(), tp);
      AlignedHere(tp, a);
      var g := mem.Seg(tp);
      p := tp + 1;
      if p % a != 0 { p := p + (a - p % a); }
      var np := p - 1;
      if np != tp {
        if np - tp < 3 {
          p := p + a;
          np := p - 1;
        }
        CutLeft(tp, np, g, s0);
      }
      k := mem.Size(np);
      if mem.Size(np) - size >= 3 {
        CutRight(np, size, g, s0);
        k := size;
      }
      ghost var s2 := S();
      CoalesceAll();
      AllocatedTrans(s0, s2, S(), np, k);
    }

    /** bestalign: a block of at least `request` units whose data begin at a multiple of the
        alignment, which is given in bytes.  The room asked for may wrap around; the block obtained, of
        `room` units at `from`, may then be too short for the request at the aligned address p (`short`).
        The source cuts it up all the same, writing outside; the model stops there. */
    method BestAlign(request: nat, alignment: nat, d: Discipline)
      returns (p: int, ghost k: nat, report: Report, short: bool, ghost from: int, ghost room: nat)
      requires Valid() && Honest(d, segs) && request < UNITS && alignment < 8 * UNITS
      modifies this
      ensures p != NIL ==> request > 0 && alignment > 0 && Stride(alignment) > 0
      ensures request > 0 && alignment > 0 ==> (Valid() <==> Regular(report, AlignAsks(request, alignment)))
      ensures request == 0 || alignment == 0 ==> Valid() && Idle(old(S()), S()) && p == NIL
      ensures request == 0 || alignment == 0 || AlignAsks(request, alignment) >= MAXCACHE ==> report.NoBunch?
      ensures Valid() && p == NIL && request > 0 && alignment > 0 ==>
                Idle(old(S()), S()) && NoMemory(S(), d, AlignAsks(request, alignment))
      ensures Valid() && p != NIL ==>
                && Obtains(old(S()), d, AlignAsks(request, alignment), from, room)
                && p == AlignedAt(from, Stride(alignment)) && p % Stride(alignment) == 0
                && (short <==> !HasRoom(from, room, request, Stride(alignment)))
                && if short then Allocated(old(S()), S(), from, room)
                   else Allocated(old(S()), S(), p - 1, k) && request <= k <= request + 2 && Quiet(S()) &&
                        k == KeptSize(room - (p - 1 - from), request)
      ensures short ==> Valid() && p != NIL && AlignSum(request, alignment) >= UNITS
      ensures Valid() && p != NIL && Stride(alignment) < UNITS / 2 - 2 ==>
                (short <==> AlignSum(request, alignment) >= UNITS) && (short ==> room < request)
      ensures Valid() && p != NIL && Units(alignment) < UNITS ==> 8 * p % alignment == 0
      ensures data == old(data) && Given(d, old(segs), segs)
    {
      hide Sound, Idle, Allocated, Honest, NoMemory, Settles, Served, Spoils, Obtains, HasRoom, AlignedAt;
      hide Given, Quiet, Answers;
      ghost var s0 := S();
      IdleSame(s0, s0);
      GivenSame(d, segs);
      p, k, report, short, from, room := NIL, 0, NoBunch, false, NIL, 0;
      if request == 0 || alignment == 0 { return; }
      StridePositive(alignment);
      var a := Stride(alignment);
      CoalesceAll();
      ghost var s1 := S();
      var s := AlignAsks(request, alignment);
      var tp;
      ghost var settled;
      tp, k, report, settled := BestAlloc(s, d);
      if !Regular(report, s) { return; }
      if tp == NIL {
        IdleTrans(s0, s1, S());
        return;
      }
      from, room := tp, k;
      ObtainsShown(s0, s1, S(), d, s, tp, k);
      AllocatedTrans(s0, s1, S(), tp, k);
      AllocatedHead(s0, S(), tp, k);
      AllocatedIn(s0, S(), tp, k);
      InUsePositive(S(), tp);
      AlignFits(tp, k, request, alignment);
      AlignedHere(tp, a);
      if !HasRoom(tp, mem.Size(tp), request, a) {
        // the source goes on as if the block were large enough
        p, short := AlignedAt(tp, a), true;
      } else {
        p, k := AlignWithin(tp, request, a, s0);
      }
      if Units(alignment) < UNITS { AlignBytes(p, a, alignment); }
    }
  }
}
