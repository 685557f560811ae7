/** The kernel heap: the best-fit region over the kernel's memory pool, and whole runs of calls. */
module KernelHeap {
  import opened Seqs
  import opened VmMemory
  import opened Index
  import opened Arena
  import opened ArenaSound
  import opened Delayed
  import opened Carve
  import opened Bunch
  import opened VmBest

  const POOL_SIZE := 4096 * 100

  /** alloc_base: the pool is handed out from its start, so new memory begins where the highest
      segment stopped. */
  function PoolNext(segs: seq<Segment>, pool: nat): int {
    if segs == [] then pool
    else 8 * (segs[0].end + 1) + (if pool % 8 == 0 then 0 else 8 + pool % 8)
  }

  /** memoryf: new memory comes from the pool, and nothing ever grows or shrinks.  Where the pool runs
      out the kernel panics; here no memory is given. */
  function PoolMemory(segs: seq<Segment>, pool: nat): Discipline {
    Discipline(n => if PoolNext(segs, pool) + 8 * n >= pool + POOL_SIZE then 0
        else PoolNext(segs, pool), (at, n) => false)
  }

  lemma PoolHonest(segs: seq<Segment>, pool: nat)
    requires SegsOk(segs) && pool > 0
    ensures Honest(PoolMemory(segs, pool), segs)
  {
  }

  /** The segments lie in the pool, and it has been handed out from its start without a gap, but for what
      alignment takes where the pool does not begin at a multiple of 8 bytes. */
  ghost predicate InPool(segs: seq<Segment>, pool: nat) {
    && (forall i :: 0 <= i < |segs| ==> pool <= 8 * segs[i].at && 8 * (segs[i].end + 1) < pool + POOL_SIZE)
    && (forall i :: 0 <= i < |segs| ==>
          segs[i].at == if i == |segs| - 1 then (pool + 7) / 8
                        else segs[i + 1].end + (if pool % 8 == 0 then 1 else 3))
  }

  lemma GivenInPool(segs: seq<Segment>, segs': seq<Segment>, pool: nat)
    requires SegsOk(segs) && InPool(segs, pool) && Given(PoolMemory(segs, pool), segs, segs')
    ensures InPool(segs', pool)
  {
    hide InPool, WithSegment;
    var d, addr := PoolMemory(segs, pool), PoolNext(segs, pool);
    if segs' != segs {
      PoolNextAfter(segs, pool);
      var n: nat :| n > 0 && d.offer(n) != 0 && Joins(segs, SegmentAt(d.offer(n), n), segs');
      SegmentInside(addr, n);
      var p :| Fits(segs, p, SegmentAt(addr, n)) && segs' == WithSegment(segs, p, SegmentAt(addr, n));
      JoinedTop(segs, p, SegmentAt(addr, n));
      PoolJoined(segs, SegmentAt(addr, n), pool);
    }
  }

  lemma PoolNextAfter(segs: seq<Segment>, pool: nat)
    requires SegsOk(segs) && InPool(segs, pool)
    ensures var addr := PoolNext(segs, pool);
            addr >= pool && addr % 8 == pool % 8 && (segs != [] ==> addr >= 8 * (segs[0].end + 1)) &&
            (addr + 7) / 8 == if segs == [] then (pool + 7) / 8 else segs[0].end + (if pool % 8 == 0 then 1 else 3)
  {
  }

  /** A segment above the others becomes the first of the list. */
  lemma JoinedTop(segs: seq<Segment>, p: int, g: Segment)
    requires SegsOk(segs) && Fits(segs, p, g) && (segs != [] ==> segs[0].end < g.at)
    ensures WithSegment(segs, p, g) == [g] + segs
  {
  }

  lemma PoolJoined(segs: seq<Segment>, g: Segment, pool: nat)
    requires InPool(segs, pool) && pool <= 8 * g.at && 8 * (g.end + 1) < pool + POOL_SIZE
    requires g.at == if segs == [] then (pool + 7) / 8 else segs[0].end + (if pool % 8 == 0 then 1 else 3)
    ensures InPool([g] + segs, pool)
  {
    var segs' := [g] + segs;
    assert forall i :: 0 < i < |segs'| ==> segs'[i] == segs[i - 1];
  }

  /** A call of the kernel's allocation functions; blocks held are named by their position. */
  datatype Call =
    | Malloc(size: nat)
    | Free(i: nat)
    | Realloc(i: nat, size: nat, move: bool, copy: bool, zero: bool)
    | Memalign(size: nat, alignment: nat)

  /** The addresses held are exactly those of the blocks in use. */
  ghost predicate Holding(s: State, held: seq<int>) {
    && Addresses(held)
    && (forall p :: p in held <==> p - 1 in InUse(s))
  }

  /** Whatever is held lies inside some segment and overlaps nothing else that is held. */
  lemma HoldingApart(s: State, held: seq<int>, i: nat, j: nat)
    requires Sound(s, {}, S_CACHE + 1) && Holding(s, held) && i < |held| && j < |held| && i != j
    ensures var b, x := held[i] - 1, held[j] - 1;
            && b in InUse(s) && x in InUse(s)
            && (exists k :: 0 <= k < |s.segs| && First(s.segs[k]) <= b && b + InUse(s)[b] < s.segs[k].end)
            && (x + InUse(s)[x] < b || b + InUse(s)[b] < x)
  {
    hide Sound, InUse;
    assert held[i] in held && held[j] in held && held[i] != held[j];
    InUseApart(s, {}, S_CACHE + 1, held[i] - 1);
  }

  lemma HeldMore(s: State, s': State, held: seq<int>, b: int, k: nat)
    requires Holding(s, held) && Allocated(s, s', b, k) && b > 0
    ensures Holding(s', held + [b + 1])
  {
    hide InUse;
    assert b + 1 !in held;
  }

  lemma HeldIdle(s: State, s': State, held: seq<int>)
    requires Holding(s, held) && Idle(s, s')
    ensures Holding(s', held)
  {
    hide InUse;
  }

  lemma HeldResized(s: State, s': State, held: seq<int>, r: int, k: nat)
    requires Holding(s, held) && Resized(s, s', r, k)
    ensures Holding(s', held)
  {
    hide InUse;
  }

  lemma WithoutElement(held: seq<int>, i: int, p: int)
    requires Addresses(held) && 0 <= i < |held|
    ensures Addresses(Without(held, i))
    ensures p in Without(held, i) <==> p in held && p != held[i]
  {
    WithoutHas(held, i, p);
  }

  lemma HeldLess(s: State, s': State, held: seq<int>, i: nat)
    requires Holding(s, held) && i < |held| && Freed(s, s', held[i] - 1)
    ensures Holding(s', Without(held, i))
  {
    hide InUse, Without, Addresses;
    WithoutElement(held, i, NIL);
    forall p ensures p in Without(held, i) <==> p - 1 in InUse(s') { WithoutElement(held, i, p); }
  }

  lemma HeldMoved(s: State, s': State, held: seq<int>, i: nat, b: int, k: nat)
    requires Holding(s, held) && i < |held| && Moved(s, s', held[i] - 1, b, k) && b > 0
    ensures Holding(s', held[i := b + 1])
  {
    hide InUse;
    assert b + 1 !in held;
    var held' := held[i := b + 1];
    forall p ensures p in held' <==> p - 1 in InUse(s') {
      if p in held && p != held[i] {
        var j :| 0 <= j < |held| && held[j] == p;
        assert held'[j] == p;
      }
      assert held'[i] == b + 1;
    }
  }

  /** The size of a block in use, 0 for others. */
  ghost function SizeOf(s: State, b: int): nat {
    if b in InUse(s) then InUse(s)[b] else 0
  }

  /** One more block is held: it is new, as large as asked for or larger by less than three units, and no
      other has changed. */
  ghost predicate OneGained(s: State, s': State, held: seq<int>, held': seq<int>, size: nat) {
    && |held'| == |held| + 1 && held'[..|held|] == held
    && var b := held'[|held|] - 1;
       Allocated(s, s', b, SizeOf(s', b)) && size <= SizeOf(s', b) <= size + 2
  }

  ghost predicate OneLost(s: State, s': State, held: seq<int>, held': seq<int>, i: nat)
    requires i < |held|
  {
    held' == Without(held, i) && Freed(s, s', held[i] - 1) && Delays(s, s', held[i] - 1)
  }

  /** Block i is resized where it is exactly if nothing is in the way; otherwise it is moved, or stays too
      small. */
  ghost predicate OneResized(s: State, s': State, held: seq<int>, held': seq<int>, i: nat, size: nat, may: bool,
                             d: Discipline)
    requires i < |held|
  {
    && |held'| == |held| && held' == held[i := held'[i]]
    && var r, b := held[i] - 1, held'[i] - 1;
       if InPlace(s, d, r, size) then
         && b == r && Resized(s, s', r, SizeOf(s', r)) && size <= SizeOf(s', r) <= size + 2
         && (size <= SizeOf(s, r) ==> Trimmed(s, s', r, size, SizeOf(s', r)))
       else if b == r then Resized(s, s', r, SizeOf(s', r)) && SizeOf(s', r) < size && (may ==> NoMemory(s', d, size))
       else
         && may && Moved(s, s', r, b, SizeOf(s', b)) && size <= SizeOf(s', b) <= size + 1
         && Elsewhere(s, d, r, size, b, SizeOf(s', b))
  }

  /** The data of a resized block, before at p and now at q: the old units up to the new size are kept,
      in place always and by a move when they are to be copied; the others are zero when that is asked
      for and the block is large enough.  No other data change. */
  ghost predicate DataResized(data: map<int, int>, data': map<int, int>, p: int, q: int, old0: nat, size: nat,
                              enough: bool, copy: bool, zero: bool)
  {
    && (forall a :: !(q <= a < q + size) ==> Read(data', a) == Read(data, a))
    && (p == q || copy ==> forall i :: 0 <= i < old0 && i < size ==> Word(data', q, i) == Word(data, p, i))
    && (zero && enough ==> forall i :: old0 <= i < size ==> Word(data', q, i) == 0)
    && (!enough ==> data' == data)
  }

  /** How a request is served, and more where nothing, or nothing but larger blocks, is delayed. */
  ghost predicate Foretold(s: State, s': State, d: Discipline, size: nat, held: seq<int>, held': seq<int>) {
    ForetoldAt(s, s', d, size, if |held'| > |held| then held'[|held|] - 1 else NIL)
  }

  ghost predicate ForetoldAt(s: State, s': State, d: Discipline, size: nat, tp: int) {
    && (exists k :: Answered(s, s', d, size, tp, k) && (tp != NIL ==> k == SizeOf(s', tp)))
    && (size >= MAXCACHE && Quiet(s) ==> Served(s, s', d, size, tp, SizeOf(s', tp)))
    && (size < MAXCACHE && LargeOnly(s) ==> exists z :: Settles(s, z) && !Spoils(z, d, size))
  }

  /** Address p is where bestalign has the data begin in the block it obtains, and that has room there.  It
      is a multiple of the alignment unless the product of the alignment and 8 bytes wraps around. */
  ghost predicate Aligns(s: State, d: Discipline, size: nat, alignment: nat, p: int) {
    && alignment > 0 && Stride(alignment) > 0 && (Units(alignment) < UNITS ==> 8 * p % alignment == 0)
    && exists from, room {:trigger Obtains(s, d, AlignAsks(size, alignment), from, room)} ::
         && Obtains(s, d, AlignAsks(size, alignment), from, room)
         && p == AlignedAt(from, Stride(alignment)) && HasRoom(from, room, size, Stride(alignment))
  }

  /** bestalign has obtained a block that has no room for the request at the aligned address. */
  ghost predicate TooShort(s: State, s': State, call: Call, d: Discipline) {
    && call.Memalign? && 0 < call.size < UNITS && 0 < call.alignment < 8 * UNITS
    && Stride(call.alignment) > 0 && AlignSum(call.size, call.alignment) >= UNITS
    && exists from, room {:trigger Obtains(s, d, AlignAsks(call.size, call.alignment), from, room)} ::
         && Obtains(s, d, AlignAsks(call.size, call.alignment), from, room) && Allocated(s, s', from, room)
         && !HasRoom(from, room, call.size, Stride(call.alignment))
  }

  /** What a call does to the blocks in use, to the addresses held and to the clients' data.  Sizes out
      of range, and positions that hold nothing, are no calls at all. */
  ghost predicate Effect(s: State, s': State, data: map<int, int>, data': map<int, int>, call: Call, held: seq<int>,
                         held': seq<int>, d: Discipline)
  {
    match call
    case Malloc(size) =>
      if size >= UNITS then s' == s && held' == held && data' == data
      else
        && data' == data && Foretold(s, s', d, Rounded(size), held, held')
        && (OneGained(s, s', held, held', Rounded(size)) ||
            (held' == held && Idle(s, s') && NoMemory(s', d, Rounded(size))))
    case Free(i) =>
      data' == data && if i >= |held| then s' == s && held' == held else OneLost(s, s', held, held', i)
    case Realloc(i, size, move, copy, zero) =>
      if i >= |held| || size >= UNITS then s' == s && held' == held && data' == data
      else if size == 0 then OneLost(s, s', held, held', i) && data' == data
      else
        && OneResized(s, s', held, held', i, size, move || copy, d)
        && DataResized(data, data', held[i], held'[i], SizeOf(s, held[i] - 1), size,
           size <= SizeOf(s', held'[i] - 1), copy, zero)
    case Memalign(size, alignment) =>
      && data' == data
      && if size >= UNITS || alignment >= 8 * UNITS then s' == s && held' == held
         else if size == 0 || alignment == 0 then held' == held && Idle(s, s')
         else (OneGained(s, s', held, held', size) && Aligns(s, d, size, alignment, held'[|held|])) ||
              (held' == held && Idle(s, s') && NoMemory(s', d, AlignAsks(size, alignment)))
  }

  /** Only calls that may make a bunch can spoil the region. */
  predicate MaySpoil(call: Call) {
    match call
    case Malloc(size) => Rounded(size) < MAXCACHE
    case Free(i) => false
    case Realloc(i, size, move, copy, zero) => 0 < size < MAXCACHE
    case Memalign(size, alignment) => AlignAsks(size, alignment) < MAXCACHE
  }

  /** One moment of a run. */
  datatype Moment = Moment(s: State, data: map<int, int>, held: seq<int>)

  ghost predicate Leads(m: Moment, m': Moment, call: Call, pool: nat) {
    Effect(m.s, m'.s, m.data, m'.data, call, m.held, m'.held, PoolMemory(m.s.segs, pool))
  }

  ghost predicate InOrder(m: Moment, pool: nat) {
    Sound(m.s, {}, S_CACHE + 1) && Holding(m.s, m.held) && InPool(m.s.segs, pool)
  }

  /** Whatever is held lies in the pool. */
  lemma HeldInPool(m: Moment, pool: nat, i: nat)
    requires InOrder(m, pool) && i < |m.held|
    ensures pool <= 8 * (m.held[i] - 1) && 8 * (m.held[i] + SizeOf(m.s, m.held[i] - 1)) < pool + POOL_SIZE
  {
    hide Sound, InUse;
    HoldingAt(m.s, m.held, i);
    InUseApart(m.s, {}, S_CACHE + 1, m.held[i] - 1);
  }

  /** A request for as much as the pool, or more, is always refused. */
  lemma TooLarge(m: Moment, m': Moment, pool: nat, size: nat)
    requires Leads(m, m', Malloc(size), pool) && InOrder(m', pool) && POOL_SIZE <= 8 * size && size < UNITS
    ensures m'.held == m.held && Idle(m.s, m'.s)
  {
    hide Sound, Holding, InUse, InPool, Foretold, Idle, NoMemory;
    if m'.held != m.held {
      HeldInPool(m', pool, |m.held|);
    }
  }

  /** A block is resized where it is exactly if no other in use, and no end of a segment, is in the way. */
  lemma ResizedInPlace(m: Moment, m': Moment, pool: nat, i: nat, size: nat, move: bool, copy: bool, zero: bool)
    requires Leads(m, m', Realloc(i, size, move, copy, zero), pool) && i < |m.held| && 0 < size < UNITS
    ensures |m'.held| == |m.held|
    ensures m'.held[i] == m.held[i] && size <= SizeOf(m'.s, m'.held[i] - 1) <==> Clear(m.s, m.held[i] - 1, size)
    ensures !(move || copy) ==> m'.held == m.held
  {
    hide InUse, Clear, Resized, Moved, Elsewhere, NoMemory, DataResized, SegIx;
  }

  /** What has been freed last of a size is what the next request of that size gets. */
  lemma FreedThenUsed(m: Moment, m1: Moment, m2: Moment, pool: nat, i: nat, size: nat)
    requires Leads(m, m1, Call.Free(i), pool) && Leads(m1, m2, Malloc(size), pool) && i < |m.held|
    requires InOrder(m, pool) && InOrder(m1, pool)
    requires var n := SizeOf(m.s, m.held[i] - 1);
             if Rounded(size) < MAXCACHE then n == Rounded(size)
             else m.s.last == NIL && size <= n < 2 * size && n < PAGE
    ensures m2.held == m1.held + [m.held[i]]
  {
    hide Sound, InUse, Settles, Spoils, Untouched, Served, NoMemory, Holding, InPool, Picked, Bunched, Delays,
         Allocated, Idle, Freed, Without, Answered;
    var b, n := m.held[i] - 1, SizeOf(m.s, m.held[i] - 1);
    HoldingAt(m.s, m.held, i);
    UseSize(m.s, b);
    InUsePositive(m.s, b);
    LaidFirst(m.s, m1.s, b);
    var tp := if |m2.held| > |m1.held| then m2.held[|m1.held|] - 1 else NIL;
    var k :| Answered(m1.s, m2.s, PoolMemory(m1.s.segs, pool), Rounded(size), tp, k);
    FirstAnswers(m1.s, m2.s, PoolMemory(m1.s.segs, pool), b, n, Rounded(size), tp, k);
  }

  /** Where a block goes that comes back and is smaller than a page. */
  lemma LaidFirst(s: State, s': State, b: int)
    requires Sound(s, {}, S_CACHE + 1) && b in InUse(s) && Delays(s, s', b) && s.m.Size(b) < PAGE
    ensures var n := s.m.Size(b);
            && |s'.cl| == S_CACHE + 1 && n > 0
            && if n < MAXCACHE then s'.cl[n - 1] != [] && s'.cl[n - 1][0] == b
               else s.last == NIL ==> s'.last == b && s'.m.Size(b) == n
  {
    hide Sound, InUse;
    SoundLists(s, {}, S_CACHE + 1);
    UseSize(s, b);
  }

  lemma FirstAnswers(s: State, s': State, d: Discipline, b: int, n: nat, size: nat, tp: int, k: nat)
    requires Answered(s, s', d, size, tp, k) && |s.cl| == S_CACHE + 1 && b != NIL
    requires if size < MAXCACHE then size > 0 && s.cl[size - 1] != [] && s.cl[size - 1][0] == b
             else s.last == b && s.m.Size(b) == n && size <= n < 2 * size && n < PAGE
    ensures tp == b
  {
    hide Picked, Bunched, Cut, Unjunked;
  }

  /** A run of calls, with the moments before and after each.  It stops early only where an irregular
      bunch has spoilt the region, or where an aligned block is about to be cut out of one that is too
      short for it. */
  method Run(r: Region, pool: nat, calls: seq<Call>) returns (held: seq<int>, done: nat, ghost run: seq<Moment>)
    requires r.Valid() && InUse(r.S()) == map[] && pool > 0 && InPool(r.segs, pool)
    modifies r
    ensures done <= |calls| && |run| == done + 1 && run[0] == Moment(old(r.S()), old(r.data), [])
    ensures forall n :: 0 <= n < done ==> Leads(run[n], run[n + 1], calls[n], pool)
    ensures forall n :: 0 <= n <= done ==> InOrder(run[n], pool)
    ensures if done == |calls| then r.Valid() && run[done] == Moment(r.S(), r.data, held)
            else if r.Valid() then TooShort(run[done].s, r.S(), calls[done], PoolMemory(run[done].s.segs, pool))
            else MaySpoil(calls[done])
  {
    hide Sound, Holding, InUse, Effect, InPool;
    held, done := [], 0;
    run := [Moment(r.S(), r.data, [])];
    HoldingNone(r.S());
    while done < |calls|
      invariant 0 <= done <= |calls| && r.Valid() && Holding(r.S(), held) && InPool(r.segs, pool) && |run| == done + 1
      invariant run[0] == Moment(old(r.S()), old(r.data), []) && run[done] == Moment(r.S(), r.data, held)
      invariant forall n :: 0 <= n < done ==> Leads(run[n], run[n + 1], calls[n], pool)
      invariant forall n :: 0 <= n <= done ==> InOrder(run[n], pool)
    {
      var ok;
      held, ok := Perform(r, pool, calls[done], held);
      if !ok { return; }
      run := run + [Moment(r.S(), r.data, held)];
      done := done + 1;
    }
  }

  lemma HoldingNone(s: State)
    requires InUse(s) == map[]
    ensures Holding(s, [])
  {
  }

  /** One call. */
  method Perform(r: Region, pool: nat, call: Call, held0: seq<int>) returns (held: seq<int>, ok: bool)
    requires r.Valid() && Holding(r.S(), held0) && pool > 0 && InPool(r.segs, pool)
    modifies r
    ensures ok ==> r.Valid() && Holding(r.S(), held)
    ensures InPool(r.segs, pool)
    ensures !ok ==> if r.Valid() then TooShort(old(r.S()), r.S(), call, PoolMemory(old(r.segs), pool))
            else MaySpoil(call)
    ensures ok ==> Effect(old(r.S()), r.S(), old(r.data), r.data, call, held0, held, PoolMemory(old(r.segs), pool))
  {
    hide Sound, Holding, InUse, Allocated, Freed, Idle, Resized, Moved, Without, NoMemory, OneGained, OneResized,
         Foretold, DataResized, InPool, Delays, Given;
    ghost var s := r.S();
    SoundSegs(s, {}, S_CACHE + 1);
    PoolHonest(r.segs, pool);
    var d := PoolMemory(r.segs, pool);
    GivenSame(d, r.segs);
    held, ok := held0, true;
    match call {
      case Malloc(size) =>
        if size < UNITS {
          held, ok := PerformMalloc(r, d, size, held0);
        }
      case Free(i) =>
        if i < |held| {
          HoldingAt(s, held, i);
          r.BestFree(held[i]);
          HeldLess(s, r.S(), held, i);
          held := Without(held, i);
        }
      case Realloc(i, size, move, copy, zero) =>
        if i < |held| && size < UNITS {
          held, ok := PerformRealloc(r, d, i, size, move, copy, zero, held);
        }
      case Memalign(size, alignment) =>
        if size < UNITS && alignment < 8 * UNITS {
          held, ok := PerformMemalign(r, d, size, alignment, held0);
        }
    }
    GivenInPool(s.segs, r.segs, pool);
  }

  method PerformMalloc(r: Region, d: Discipline, size: nat, held0: seq<int>) returns (held: seq<int>, ok: bool)
    requires r.Valid() && Holding(r.S(), held0) && Honest(d, r.segs) && size < UNITS
    modifies r
    ensures if ok then r.Valid() && Holding(r.S(), held) else !r.Valid() && Rounded(size) < MAXCACHE
    ensures Given(d, old(r.segs), r.segs)
    ensures r.data == old(r.data) && (ok ==> Foretold(old(r.S()), r.S(), d, Rounded(size), held0, held))
    ensures ok ==> OneGained(old(r.S()), r.S(), held0, held, Rounded(size)) ||
                   (held == held0 && Idle(old(r.S()), r.S()) && NoMemory(r.S(), d, Rounded(size)))
  {
    hide Sound, Holding, InUse, Allocated, Idle, NoMemory, OneGained, Foretold, Given, Answers;
    ghost var s := r.S();
    held := held0;
    var tp, report;
    ghost var k, settled;
    tp, k, report, settled := r.BestAlloc(Rounded(size), d);
    ok := Regular(report, Rounded(size));
    assert Answered(s, r.S(), d, Rounded(size), tp, k);
    if ok { ForetoldShown(s, r.S(), d, Rounded(size), held, tp, k, settled); }
    if ok && tp != NIL {
      AllocatedPositive(s, r.S(), tp, k);
      HeldMore(s, r.S(), held, tp, k);
      MoreShown(s, r.S(), held, tp, k, Rounded(size));
      held := held + [tp + 1];
    } else if ok {
      HeldIdle(s, r.S(), held);
    }
  }

  lemma ForetoldShown(s: State, s': State, d: Discipline, size: nat, held: seq<int>, tp: int, k: nat, z: State)
    requires size >= MAXCACHE && Quiet(s) ==> Served(s, s', d, size, tp, k)
    requires Answered(s, s', d, size, tp, k)
    requires size < MAXCACHE && LargeOnly(s) ==> Settles(s, z) && !Spoils(z, d, size)
    requires tp != NIL ==> Allocated(s, s', tp, k)
    ensures Foretold(s, s', d, size, held, if tp == NIL then held else held + [tp + 1])
  {
    hide InUse, Settles, Spoils, Untouched, Offered, Unoffered, Denied, Grows, RetiredTo, Answered, Served;
    var held' := if tp == NIL then held else held + [tp + 1];
    AllocatedSize(s, s', tp, k);
    if size >= MAXCACHE && Quiet(s) { ServedSame(s, s', s', d, size, tp, k, SizeOf(s', tp)); }
    assert ForetoldAt(s, s', d, size, tp);
    hide ForetoldAt;
    assert tp == if |held'| > |held| then held'[|held|] - 1 else NIL;
  }

  lemma AllocatedSize(s: State, s': State, tp: int, k: nat)
    requires tp != NIL ==> Allocated(s, s', tp, k)
    ensures tp != NIL ==> SizeOf(s', tp) == k
  {
    hide InUse, Untouched;
  }

  lemma MoreShown(s: State, s': State, held: seq<int>, b: int, k: nat, size: nat)
    requires Allocated(s, s', b, k) && size <= k <= size + 2
    ensures OneGained(s, s', held, held + [b + 1], size)
  {
    hide InUse, Untouched;
  }

  method PerformMemalign(r: Region, d: Discipline, size: nat, alignment: nat, held0: seq<int>)
    returns (held: seq<int>, ok: bool)
    requires r.Valid() && Holding(r.S(), held0) && Honest(d, r.segs) && size < UNITS && alignment < 8 * UNITS
    modifies r
    ensures ok ==> r.Valid() && Holding(r.S(), held)
    ensures !ok ==> if r.Valid() then TooShort(old(r.S()), r.S(), Memalign(size, alignment), d)
                    else MaySpoil(Memalign(size, alignment))
    ensures r.data == old(r.data) && Given(d, old(r.segs), r.segs)
    ensures ok && (size == 0 || alignment == 0) ==> held == held0 && Idle(old(r.S()), r.S())
    ensures ok && size > 0 && alignment > 0 ==>
              (OneGained(old(r.S()), r.S(), held0, held, size) && |held| == |held0| + 1 &&
               Aligns(old(r.S()), d, size, alignment, held[|held0|])) ||
              (held == held0 && Idle(old(r.S()), r.S()) && NoMemory(r.S(), d, AlignAsks(size, alignment)))
  {
    hide Sound, Holding, InUse, Allocated, Idle, NoMemory, OneGained, Obtains, HasRoom, AlignedAt, Given, Quiet;
    ghost var s := r.S();
    held := held0;
    var p, report, short;
    ghost var k, from, room;
    p, k, report, short, from, room := r.BestAlign(size, alignment, d);
    ok := (p == NIL || !short) && (size == 0 || alignment == 0 || Regular(report, AlignAsks(size, alignment)));
    if ok && p != NIL {
      AllocatedPositive(s, r.S(), p - 1, k);
      HeldMore(s, r.S(), held, p - 1, k);
      MoreShown(s, r.S(), held, p - 1, k, size);
      held := held + [p];
    } else if ok {
      HeldIdle(s, r.S(), held);
    }
  }

  method PerformRealloc(r: Region, d: Discipline, i: nat, size: nat, move: bool, copy: bool, zero: bool,
                        held0: seq<int>)
    returns (held: seq<int>, ok: bool)
    requires r.Valid() && Holding(r.S(), held0) && Honest(d, r.segs) && i < |held0| && size < UNITS
    modifies r
    ensures if ok then r.Valid() && Holding(r.S(), held) else !r.Valid() && 0 < size < MAXCACHE
    ensures Given(d, old(r.segs), r.segs)
    ensures ok && size == 0 ==> OneLost(old(r.S()), r.S(), held0, held, i) && r.data == old(r.data)
    ensures ok && size > 0 ==> OneResized(old(r.S()), r.S(), held0, held, i, size, move || copy, d)
    ensures ok && size > 0 ==>
              && |held| == |held0|
              && DataResized(old(r.data), r.data, held0[i], held[i], SizeOf(old(r.S()), held0[i] - 1), size,
                             size <= SizeOf(r.S(), held[i] - 1), copy, zero)
  {
    hide Sound, Holding, InUse, Allocated, Freed, Idle, Resized, Moved, Without, NoMemory, OneResized, InPlace,
         Elsewhere, Trimmed, Delays, Given;
    ghost var s := r.S();
    held := held0;
    HoldingAt(s, held, i);
    var res, report;
    ghost var k;
    res, k, report := r.BestResize(held[i], size, move, copy, zero, d);
    ok := Regular(report, Rounded(size));
    if !ok { return; }
    if size == 0 {
      HeldLess(s, r.S(), held, i);
      held := Without(held, i);
    } else if res == NIL || res == held[i] {
      HeldResized(s, r.S(), held, held[i] - 1, k);
      ResizedShown(s, r.S(), held, i, k, size, move || copy, d);
    } else {
      MovedPositive(s, r.S(), held[i] - 1, res - 1, k);
      HeldMoved(s, r.S(), held, i, res - 1, k);
      MovedShown(s, r.S(), held, i, res - 1, k, size, d);
      held := held[i := res];
    }
  }

  lemma ResizedShown(s: State, s': State, held: seq<int>, i: nat, k: nat, size: nat, may: bool, d: Discipline)
    requires i < |held| && Resized(s, s', held[i] - 1, k)
    requires if InPlace(s, d, held[i] - 1, size)
             then size <= k <= size + 2 && (size <= InUse(s)[held[i] - 1] ==> Trimmed(s, s', held[i] - 1, size, k))
             else k < size && (may ==> NoMemory(s', d, size))
    ensures OneResized(s, s', held, held, i, size, may, d) && SizeOf(s', held[i] - 1) == k
  {
    hide InUse, Untouched, NoMemory, KeptTo, InPlace, Trimmed;
  }

  lemma MovedShown(s: State, s': State, held: seq<int>, i: nat, b: int, k: nat, size: nat, d: Discipline)
    requires i < |held| && Moved(s, s', held[i] - 1, b, k) && size <= k <= size + 1
    requires !InPlace(s, d, held[i] - 1, size) && b != held[i] - 1 && Elsewhere(s, d, held[i] - 1, size, b, k)
    ensures OneResized(s, s', held, held[i := b + 1], i, size, true, d) && SizeOf(s', b) == k
  {
    hide InUse, Untouched, NoMemory, InPlace, Elsewhere;
  }

  lemma HoldingAt(s: State, held: seq<int>, i: nat)
    requires Holding(s, held) && i < |held|
    ensures held[i] - 1 in InUse(s) && held[i] != NIL
  {
    assert held[i] in held;
  }

  lemma AllocatedPositive(s: State, s': State, b: int, k: nat)
    requires Allocated(s, s', b, k) && Sound(s', {}, S_CACHE + 1)
    ensures b > 0
  {
    hide Sound, InUse, Untouched;
    InUsePositive(s', b);
  }

  lemma MovedPositive(s: State, s': State, r: int, b: int, k: nat)
    requires Moved(s, s', r, b, k) && Sound(s', {}, S_CACHE + 1)
    ensures b > 0
  {
    hide Sound, InUse, Untouched;
    InUsePositive(s', b);
  }
}
