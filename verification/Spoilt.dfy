/**
 * What the allocator's own comments do not allow for: a run of two calls after which the region is out
 * of order, aligned requests whose room wraps around, and a run that ends with a small request refused
 * although a free block would do.
 */
module Spoilt {
  import opened VmMemory
  import opened Index
  import opened Arena
  import opened ArenaSound
  import opened Carve
  import opened Bunch
  import opened VmBest
  import opened KernelHeap

  // ---------- the block that is one unit too large ----------

  /** One page with a block of u units in use at its start, and nothing delayed: what is behind it is one
      free block. */
  lemma PageGap(z: State, p: int, u: nat)
    requires Sound(z, {}, S_CACHE + 1) && Quiet(z) && 0 < u <= 1016
    requires z.segs == [Segment(p, p + 1023)] && InUse(z) == map[p + 4 := u]
    ensures var n := p + 5 + u; p > 0 && n in z.B && !z.m.Head(n).busy && z.m.Size(n) == 1017 - u
    ensures forall x :: x in z.B && !z.m.Head(x).busy ==> x == p + 5 + u
  {
    hide IndexOk, WaitOk, Bits, SegWords, FreeAt, JunkAt, Chains, SegIx;
    SoundSegs(z, {}, S_CACHE + 1);
    assert z.segs[0] == Segment(p, p + 1023);
    var b := p + 4;
    assert b in InUse(z) && InUse(z)[b] == u;
    UseSize(z, b);
    var n := z.m.Next(b);
    assert n == p + 5 + u && n in z.B;
    PageBlock(z, p, n);
    AllCoalesced(z);
    assert !Live(z.m, n) by { assert n !in InUse(z); }
    PageBlock(z, p, z.m.Next(n));
    assert z.m.Next(n) !in InUse(z);
    forall x | x in z.B && !z.m.Head(x).busy ensures x == n {
      PageBlock(z, p, x);
      assert x < b || x == b || n <= x;
      assert n < x ==> z.m.Next(n) <= x;
    }
  }

  lemma PageBlock(z: State, p: int, x: int)
    requires Tiled(z.m, z.B, z.segs) && z.segs == [Segment(p, p + 1023)] && x in z.B
    ensures p + 4 <= x <= p + 1023 && (z.m.Size(x) == 0 <==> x == p + 1023)
  {
    assert Inside(z.m, z.segs, x);
  }

  /** A bunch of 1-unit blocks takes 63 units. */
  lemma PageSpoils(z: State, d: Discipline, p: int)
    requires Sound(z, {}, S_CACHE + 1) && Quiet(z)
    requires z.segs == [Segment(p, p + 1023)] && InUse(z) == map[p + 4 := 953]
    ensures Spoils(z, d, 1)
  {
    hide Sound, InUse, Quiet;
    PageGap(z, p, 953);
    var n := p + 958;
    if z.wild == n {
      assert Unoffered(z, BunchUnits(1));
    } else {
      assert Offered(z, BunchUnits(1), n);
      assert Least(z, BunchUnits(1), n);
    }
  }

  /** The first request of a run is served from the first page of the pool. */
  lemma FirstPage(m: Moment, m': Moment, pool: nat)
    requires Leads(m, m', Malloc(953), pool) && pool > 0 && pool % 8 == 0
    requires m.s.segs == [] && m.s.B == {} && m.s.wild == NIL && Quiet(m.s) && InUse(m.s) == map[]
    ensures m'.s.segs == [Segment(pool / 8, pool / 8 + 1023)] && InUse(m'.s) == map[pool / 8 + 4 := 953]
    ensures LargeOnly(m'.s)
  {
    hide InUse, Untouched, Answered, NoMemory;
    var d := PoolMemory([], pool);
    assert Unoffered(m.s, 953);
    assert Requested(953) == 1024 && d.offer(1024) == pool;
    assert Served(m.s, m'.s, d, 953, pool / 8 + 4, 953);
  }

  /** From the start, malloc of 953 units and then of 8 bytes: the second call spoils the region. */
  method SpoiltRun(pool: nat) returns (r: Region, done: nat)
    requires pool > 0 && pool % 8 == 0
    ensures done == 1 && !r.Valid()
  {
    hide Sound, InUse, Effect, Quiet, LargeOnly, Spoils, Settles, Unoffered;
    r := new Region();
    var calls := [Malloc(953), Malloc(1)];
    var held;
    ghost var run;
    held, done, run := Run(r, pool, calls);
    if done > 0 {
      assert Leads(run[0], run[1], calls[0], pool);
      FirstPage(run[0], run[1], pool);
    }
    if done > 1 {
      assert Leads(run[1], run[2], calls[1], pool);
      NeverServed(run[1], run[2], pool, pool / 8);
    }
  }

  lemma NeverServed(m: Moment, m': Moment, pool: nat, p: int)
    requires m.s.segs == [Segment(p, p + 1023)] && InUse(m.s) == map[p + 4 := 953] && LargeOnly(m.s)
    ensures !Leads(m, m', Malloc(1), pool)
  {
    hide Sound, InUse, Spoils, Quiet, Untouched, LargeOnly;
    if Leads(m, m', Malloc(1), pool) {
      var d := PoolMemory(m.s.segs, pool);
      var z :| Settles(m.s, z) && !Spoils(z, d, 1);
      PageSpoils(z, d, p);
    }
  }

  // ---------- the aligned block that does not fit ----------

  const LARGE_ALIGNMENT := 0x7FFF_FFE0

  /** The room for 100 units at such an alignment wraps around to 94 units. */
  lemma LargeSum()
    ensures Stride(LARGE_ALIGNMENT) == 0x0FFF_FFFC && AlignSum(100, LARGE_ALIGNMENT) == UNITS + 94
    ensures AlignAsks(100, LARGE_ALIGNMENT) == 94
  {
  }

  /** From the start, an aligned request for 100 units: the block obtained is shorter than that, and ends
      before the address that the call settles on. */
  method ShortRun(pool: nat) returns (r: Region, done: nat, ghost from: int, ghost room: nat)
    requires pool > 0
    ensures done == 0 && r.Valid() && InUse(r.S()) == map[from := room]
    ensures room < 100 && !HasRoom(from, room, 100, 0x0FFF_FFFC)
  {
    hide Sound, InUse, Effect, HasRoom, AlignedAt, Obtains;
    r := new Region();
    var calls := [Memalign(100, LARGE_ALIGNMENT)];
    LargeSum();
    ghost var start := r.S();
    var held;
    ghost var run;
    held, done, run := Run(r, pool, calls);
    if done > 0 {
      assert Leads(run[0], run[1], calls[0], pool);
      NeverAligned(run[0], run[1], pool);
    }
    ghost var d := PoolMemory(start.segs, pool);
    assert TooShort(start, r.S(), calls[0], d);
    from, room :| Obtains(start, d, AlignAsks(100, LARGE_ALIGNMENT), from, room) &&
    Allocated(start, r.S(), from, room) &&
                  !HasRoom(from, room, 100, Stride(LARGE_ALIGNMENT));
    ObtainsSize(start, d, 94, from, room);
    OnlyOne(start, r.S(), from, room);
  }

  lemma ObtainsSize(s: State, d: Discipline, n: nat, tp: int, k: nat)
    requires Obtains(s, d, n, tp, k)
    ensures n <= k <= n + 1
  {
    hide Settles, Allocated, Served;
  }

  lemma OnlyOne(s: State, s': State, tp: int, k: nat)
    requires InUse(s) == map[] && Allocated(s, s', tp, k)
    ensures InUse(s') == map[tp := k]
  {
    hide InUse;
  }

  lemma NeverAligned(m: Moment, m': Moment, pool: nat)
    requires m.s.segs == [] && pool > 0
    ensures !Leads(m, m', Memalign(100, LARGE_ALIGNMENT), pool)
  {
    hide Sound, InUse, HasRoom, AlignedAt, Obtains, Idle, OneGained, AllSmaller, Exhausted;
    LargeSum();
    if Leads(m, m', Memalign(100, LARGE_ALIGNMENT), pool) {
      var d := PoolMemory([], pool);
      assert Requested(94) == 1024 && d.offer(1024) == pool;
      var from, room :| Obtains(m.s, d, 94, from, room) && HasRoom(from, room, 100, Stride(LARGE_ALIGNMENT));
      ObtainsSize(m.s, d, 94, from, room);
      AlignFits(from, room, 100, LARGE_ALIGNMENT);
    }
  }

  /** With an alignment of 2^31 bytes the room wraps around too, to 102 units; but from a pool that starts
      40 bytes below 2^31 the block obtained is aligned as it is, and the call is served. */
  method LuckyRun() returns (r: Region, held: seq<int>, done: nat)
    ensures done == 1 && r.Valid() && held == [0x1000_0000]
    ensures 0x1000_0000 - 1 in InUse(r.S()) && InUse(r.S())[0x1000_0000 - 1] >= 100
    ensures AlignSum(100, 0x8000_0000) >= UNITS
  {
    hide Sound, InUse, Effect, HasRoom, AlignedAt, Obtains;
    var pool := 8 * (0x1000_0000 - 5);
    r := new Region();
    ghost var start := r.S();
    var calls := [Memalign(100, 0x8000_0000)];
    assert Stride(0x8000_0000) == 0x1000_0000;
    ghost var run;
    held, done, run := Run(r, pool, calls);
    ghost var d := PoolMemory([], pool);
    if done == 0 {
      if r.Valid() {
        assert TooShort(start, r.S(), calls[0], d);
        ghost var from, room :| Obtains(start, d, 102, from, room) && !HasRoom(from, room, 100, 0x1000_0000);
        LuckyBlock(start, pool, from, room);
      }
    } else {
      assert Leads(run[0], run[1], calls[0], pool);
      LuckyServed(run[0], run[1], pool);
    }
  }

  lemma EmptyRegion(z: State, n: nat)
    requires Sound(z, {}, S_CACHE + 1) && z.segs == []
    ensures z.B == {} && z.wild == NIL && Unoffered(z, n)
  {
    hide IndexOk, WaitOk, Tiled, Bits, SegWords, JunkAt, Chains, Held, SegIx;
    forall b ensures b !in z.B {
      if b in z.B { SoundInside(z, {}, S_CACHE + 1, b); }
    }
  }

  lemma LuckyBlock(s: State, pool: nat, from: int, room: nat)
    requires pool == 8 * (0x1000_0000 - 5) && s.segs == [] && Obtains(s, PoolMemory([], pool), 102, from, room)
    ensures from == 0x1000_0000 - 1 && room == 102
    ensures AlignedAt(from, 0x1000_0000) == 0x1000_0000 && HasRoom(from, room, 100, 0x1000_0000)
  {
    hide Sound, Idle, Allocated, Unoffered, RetiredTo, Least;
    var d := PoolMemory([], pool);
    var z, z' :| Settles(s, z) && Served(z, z', d, 102, from, room);
    EmptyRegion(z, 102);
    assert Requested(102) == 1024 && d.offer(1024) == pool;
    assert !Grows(z, d, 102) && !Denied(z, d, 102);
    assert SegmentAt(pool, 1024) == Segment(0x1000_0000 - 5, 0x1000_0000 - 5 + 1023);
    FreshBlock(z, z', d, 102, from, room);
  }

  lemma FreshBlock(z: State, z': State, d: Discipline, n: nat, tp: int, k: nat)
    requires Served(z, z', d, n, tp, k) && Unoffered(z, n) && z.wild == NIL && !Grows(z, d, n) && !Denied(z, d, n)
    ensures var g := SegmentAt(d.offer(Requested(n)), Requested(n));
            tp == First(g) && k == UsedSize(g.end - First(g) - 1, n)
  {
    hide Unoffered, Least, RetiredTo, Grows, Denied, Requested;
  }

  lemma LuckyServed(m: Moment, m': Moment, pool: nat)
    requires pool == 8 * (0x1000_0000 - 5) && m.s.segs == [] && m.held == [] && InUse(m.s) == map[]
    requires Leads(m, m', Memalign(100, 0x8000_0000), pool)
    ensures m'.held == [0x1000_0000] && 0x1000_0000 - 1 in InUse(m'.s) && InUse(m'.s)[0x1000_0000 - 1] >= 100
  {
    hide Sound, InUse, HasRoom, AlignedAt, Obtains, Idle, AllSmaller, Exhausted, Untouched;
    var d := PoolMemory([], pool);
    assert Stride(0x8000_0000) == 0x1000_0000 && AlignAsks(100, 0x8000_0000) == 102;
    assert Requested(102) == 1024 && d.offer(1024) == pool;
    var q := m'.held[0];
    var from, room :| Obtains(m.s, d, 102, from, room) && q == AlignedAt(from, 0x1000_0000);
    LuckyBlock(m.s, pool, from, room);
  }

  // ---------- the free block that is never looked at ----------

  /** A page of which 7 units at the start and at least 1009 others are in use is full. */
  lemma FullPage(z: State, p: int, t: int, k: nat)
    requires Sound(z, {}, S_CACHE + 1) && z.segs == [Segment(p, p + 1023)]
    requires InUse(z) == map[p + 4 := 7, t := k] && t != p + 4 && k >= 1009
    ensures t == p + 12 && k == 1010
  {
    hide IndexOk, WaitOk, Bits, SegWords, FreeAt, JunkAt, Chains, SegIx;
    assert p + 4 in InUse(z) && t in InUse(z) && InUse(z)[t] == k && InUse(z)[p + 4] == 7;
    UseSize(z, p + 4);
    UseSize(z, t);
    var n, e := z.m.Next(p + 4), z.m.Next(t);
    assert n == p + 12 && n in z.B && e == t + 1 + k && e in z.B;
    PageBlock(z, p, n);
    PageBlock(z, p, t);
    PageBlock(z, p, e);
    assert n < t ==> z.m.Next(n) <= t;
    if e < p + 1023 {
      assert z.m.Next(e) in z.B;
      PageBlock(z, p, z.m.Next(e));
    }
  }

  /** A page with a block in use from its thirteenth unit to its end, and nothing delayed: at its start
      there are 7 units free, and no others. */
  lemma FrontGap(z: State, p: int)
    requires Sound(z, {}, S_CACHE + 1) && Quiet(z) && z.segs == [Segment(p, p + 1023)]
    requires InUse(z) == map[p + 12 := 1010]
    ensures p + 4 in z.B && !z.m.Head(p + 4).busy && z.m.Size(p + 4) == 7
    ensures forall x :: x in z.B && !z.m.Head(x).busy ==> x == p + 4
  {
    hide IndexOk, WaitOk, Bits, SegWords, FreeAt, JunkAt, Chains, SegIx;
    SoundSegs(z, {}, S_CACHE + 1);
    assert z.segs[0] == Segment(p, p + 1023);
    assert p + 12 in InUse(z) && InUse(z)[p + 12] == 1010;
    UseSize(z, p + 12);
    TopNoWild(z, {}, S_CACHE + 1, 0);
    var b := p + 4;
    PageBlock(z, p, b);
    AllCoalesced(z);
    assert !Live(z.m, b) by { assert b !in InUse(z); }
    var n := z.m.Next(b);
    PageBlock(z, p, n);
    assert n in z.B && Live(z.m, n) && n <= p + 12;
    assert n in InUse(z);
    forall x | x in z.B && !z.m.Head(x).busy ensures x == b {
      PageBlock(z, p, x);
      assert n == p + 12 && z.m.Next(n) == p + 1023;
      assert n < x ==> z.m.Next(n) <= x;
      assert b < x ==> z.m.Next(b) <= x;
    }
  }

  /** The free 7 units are not offered to a request for 7, nor are they the wild block. */
  lemma FrontUnoffered(z: State, p: int)
    requires Sound(z, {}, S_CACHE + 1) && Quiet(z) && z.segs == [Segment(p, p + 1023)]
    requires InUse(z) == map[p + 12 := 1010]
    ensures Unoffered(z, 7) && z.wild == NIL
  {
    hide IndexOk, WaitOk, Tiled, Bits, SegWords, JunkAt, Chains, SegIx, Held, InUse;
    FrontGap(z, p);
    assert z.segs[0] == Segment(p, p + 1023);
  }

  /** No block in use of a page is larger than the page. */
  lemma PageTooSmall(z: State, p: int, t: int)
    requires Sound(z, {}, S_CACHE + 1) && z.segs == [Segment(p, p + 1023)] && t in InUse(z)
    ensures InUse(z)[t] < 1023
  {
    hide IndexOk, WaitOk, Bits, SegWords, FreeAt, JunkAt, Chains, SegIx;
    UseSize(z, t);
    PageBlock(z, p, t);
    assert z.m.Next(t) in z.B;
    PageBlock(z, p, z.m.Next(t));
  }

  /** The page has 1010 units behind 7 in use at its start: they serve a request for 1009. */
  lemma PageServes(z: State, p: int)
    requires Sound(z, {}, S_CACHE + 1) && z.segs == [Segment(p, p + 1023)] && InUse(z) == map[p + 4 := 7]
    ensures !Exhausted(z, 1009)
  {
    hide Sound, InUse;
    SoundSegs(z, {}, S_CACHE + 1);
    if |z.cl| == S_CACHE + 1 && z.last == NIL && forall n :: 0 <= n < |z.cl| ==> z.cl[n] == [] {
      PageGap(z, p, 7);
      if z.wild != p + 12 { assert Offered(z, 1009, p + 12); }
    }
  }

  /** The first request, for 7 units, is served from the start of the page that it gets. */
  lemma FirstTiny(s: State, s': State, d: Discipline, p: int, tp: int, k: nat)
    requires s.B == {} && s.segs == [] && s.wild == NIL && InUse(s) == map[] && p > 0
    requires d.offer(1024) == 8 * p && Served(s, s', d, 7, tp, k) && (tp != NIL ==> Allocated(s, s', tp, k))
    ensures tp == p + 4 && s'.segs == [Segment(p, p + 1023)] && InUse(s') == map[p + 4 := 7]
  {
    hide InUse, Untouched;
    assert Unoffered(s, 7);
    assert Requested(7) == 1024;
    assert !Grows(s, d, 7) && !Denied(s, d, 7);
    assert SegmentAt(8 * p, 1024) == Segment(p, p + 1023);
  }

  /** From the start, with one page given and no more: 7 and 1009 units are allocated, the 7 given back,
      and a request too large for anything makes the region coalesce.  Then a request for 7 units is
      refused, although a free block has exactly that size. */
  method TinyRun(p: int) returns (r: Region, res: int)
    requires p > 0
    ensures r.Valid() && res == NIL && Exhausted(r.S(), 7)
    ensures p + 4 in r.B && !r.mem.Head(p + 4).busy && r.mem.Size(p + 4) == 7 && !AllSmaller(r.S(), 7)
  {
    hide Sound, InUse, Served, Allocated, Freed, Idle, Exhausted, Denied, Quiet, AllSmaller, Answers, Delays, Settles,
         Spoils;
    var page, none := Discipline(n => if n == 1024 then 8 * p
        else 0, (at, n) => false), Discipline(n => 0, (at, n) => false);
    r := new Region();
    ghost var s0 := r.S();
    var report;
    ghost var k, settled;
    res, k, report, settled := r.BestAlloc(7, page);
    ghost var s1 := r.S();
    FirstTiny(s0, s1, page, p, res, k);
    res, k, report, settled := r.BestAlloc(1009, none);
    ghost var s2 := r.S();
    SecondFills(s1, s2, p, res, k);
    r.BestFree(p + 5);
    ghost var s3 := r.S();
    OnlySecond(s2, s3, p);
    res, k, report, settled := r.BestAlloc(2000, none);
    ghost var s4 := r.S();
    ThirdRefused(s3, s4, p, res, k);
    res, k, report, settled := r.BestAlloc(7, none);
    LastRefused(s4, r.S(), none, p, res, k);
  }

  lemma SecondFills(s: State, s': State, p: int, tp: int, k: nat)
    requires Sound(s', {}, S_CACHE + 1) && s'.segs == [Segment(p, p + 1023)] && InUse(s) == map[p + 4 := 7]
    requires if tp == NIL then Idle(s, s') && Exhausted(s', 1009) else Allocated(s, s', tp, k) && k >= 1009
    ensures InUse(s') == map[p + 4 := 7, p + 12 := 1010]
  {
    hide Sound, InUse, Untouched, Exhausted;
    if tp == NIL {
      PageServes(s', p);
    } else {
      FullPage(s', p, tp, k);
    }
  }

  lemma OnlySecond(s: State, s': State, p: int)
    requires InUse(s) == map[p + 4 := 7, p + 12 := 1010] && Freed(s, s', p + 4)
    ensures InUse(s') == map[p + 12 := 1010]
  {
    hide InUse, Untouched;
  }

  lemma ThirdRefused(s: State, s': State, p: int, tp: int, k: nat)
    requires Sound(s', {}, S_CACHE + 1) && s'.segs == [Segment(p, p + 1023)] && InUse(s) == map[p + 12 := 1010]
    requires if tp == NIL then Idle(s, s') && Exhausted(s', 2000) else Allocated(s, s', tp, k) && k >= 2000
    ensures InUse(s') == InUse(s) && Quiet(s')
  {
    hide Sound, InUse, Untouched, Unoffered;
    SoundSegs(s', {}, S_CACHE + 1);
    if tp != NIL { PageTooSmall(s', p, tp); }
  }

  lemma LastRefused(s: State, s': State, d: Discipline, p: int, tp: int, k: nat)
    requires Sound(s, {}, S_CACHE + 1) && Quiet(s) && s.segs == [Segment(p, p + 1023)] == s'.segs && Refuses(d)
    requires InUse(s) == map[p + 12 := 1010] && Served(s, s', d, 7, tp, k) && Sound(s', {}, S_CACHE + 1)
    requires tp == NIL ==> Idle(s, s') && Exhausted(s', 7)
    ensures tp == NIL && p + 4 in s'.B && !s'.m.Head(p + 4).busy && s'.m.Size(p + 4) == 7 && !AllSmaller(s', 7)
  {
    hide Sound, InUse, Untouched, Unoffered, Denied, Least, Grows;
    FrontUnoffered(s, p);
    RefusedDenied(s, d, 7);
    SoundSegs(s', {}, S_CACHE + 1);
    FrontGap(s', p);
  }
}
