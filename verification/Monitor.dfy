/** The keyboard monitor: readers that wait for characters, and the keyboard interrupt that enqueues them
    on whatever thread it interrupts, under one mutex and one condition variable, with every interleaving
    that preemption and interrupts allow. */
module Monitor {

  const NOBODY := -1
  const CAPACITY := 1023

  /** Where a thread is in keyboard_read. */
  datatype Pc =
    | Outside
    | ReadLock         // in mutex_lock, at the top of the loop of keyboard_read
    | ReadMissed       // there, after a failed try and before it joins the threads that wait
    | ReadCheck        // testing the queue, with the mutex
    | ReadRelock       // in condvar_wait: parked, or in the mutex_lock that ends it
    | ReadRemissed     // there, after a failed try
    | ReadDrain        // taking characters, with the mutex
    | ReadUnlock

  /** Where the interrupt handler is that runs on a thread, and the characters it has yet to enqueue. */
  datatype Irq =
    | NoIrq
    | IrqLock(chs: seq<int>)
    | IrqMissed(chs: seq<int>)
    | IrqEnqueue(chs: seq<int>)
    | IrqBroadcast(rest: seq<int>)
    | IrqUnlock(rest: seq<int>)

  /** A thread: where it is, the handler on top of it, how many characters it still wants, all it has
      ever stored, how many its last call asked for and how many it had stored before, and how often the
      mutex had been released when it, or the handler, last failed to get it. */
  datatype Thread = Thread(pc: Pc, irq: Irq, len: nat, got: seq<int>, asked: nat, start: nat, seen: nat,
                           irqSeen: nat)

  /** A call of keyboard_read. */
  function Begun(th: Thread, len: nat): Thread {
    th.(pc := ReadLock, len := len, asked := len, start := |th.got|)
  }

  predicate HoldsRead(pc: Pc) { pc.ReadCheck? || pc.ReadDrain? || pc.ReadUnlock? }

  predicate HoldsIrq(irq: Irq) { irq.IrqEnqueue? || irq.IrqBroadcast? || irq.IrqUnlock? }

  /** Inside a critical section, itself or in the handler on top of it. */
  predicate Holds(th: Thread) { HoldsRead(th.pc) || HoldsIrq(th.irq) }

  predicate Trying(th: Thread) {
    th.irq.IrqLock? || (th.irq.NoIrq? && (th.pc.ReadLock? || th.pc.ReadRelock?))
  }

  predicate Missed(th: Thread) {
    th.irq.IrqMissed? || (th.irq.NoIrq? && (th.pc.ReadMissed? || th.pc.ReadRemissed?))
  }

  /** The try has succeeded. */
  function Entered(th: Thread): Thread
    requires Trying(th)
  {
    if th.irq.IrqLock? then th.(irq := IrqEnqueue(th.irq.chs)) else th.(pc := ReadCheck)
  }

  /** The try has failed. */
  function Failed(th: Thread, releases: nat): Thread
    requires Trying(th)
  {
    if th.irq.IrqLock? then th.(irq := IrqMissed(th.irq.chs), irqSeen := releases)
    else th.(pc := if th.pc.ReadLock? then ReadMissed else ReadRemissed, seen := releases)
  }

  /** What the thread will do when it runs again. */
  function Again(th: Thread): Thread
    requires Missed(th)
  {
    if th.irq.IrqMissed? then th.(irq := IrqLock(th.irq.chs))
    else th.(pc := if th.pc.ReadMissed? then ReadLock else ReadRelock)
  }

  /** A character taken off the queue, and by whom. */
  datatype Taken = Taken(reader: int, ch: int)

  /** The whole system.  The mutex is locked when it has a holder; `handler` is the thread that runs the
      interrupt handler, of which there is one at most, since the interrupt is acknowledged at its end. */
  datatype Sys = Sys(threads: map<int, Thread>, idle: int,
                     rq: seq<int>, waiting: seq<int>, parked: seq<int>, holder: int, handler: int, releases: nat,
                     queue: seq<int>, given: seq<int>, log: seq<Taken>, stopped: bool)

  function With(s: Sys, t: int, th: Thread): Sys { s.(threads := s.threads[t := th]) }

  /** mutex_unlock: all waiting threads become runnable. */
  function Released(s: Sys): Sys {
    s.(rq := s.rq + s.waiting, waiting := [], holder := NOBODY, releases := s.releases + 1)
  }

  /** spin_try_lock. */
  function Tried(s: Sys, t: int): Sys
    requires t in s.threads && Trying(s.threads[t])
  {
    if s.holder == NOBODY then With(s, t, Entered(s.threads[t])).(holder := t)
    else With(s, t, Failed(s.threads[t], s.releases))
  }

  /** The section of mutex_lock after a failed try: the running thread joins those that wait, whatever
      has become of the mutex meanwhile.  With no other thread to run, the scheduler takes the head of
      the empty run queue for one; the model stops there. */
  function Joined(s: Sys, t: int): Sys
    requires t in s.threads && Missed(s.threads[t]) && s.rq != []
  {
    if |s.rq| == 1 then s.(stopped := true)
    else With(s, t, Again(s.threads[t])).(rq := s.rq[1..], waiting := s.waiting + [t])
  }

  /** The atomic part of condvar_wait. */
  function Parked(s: Sys, t: int): Sys
    requires t in s.threads && s.rq != []
  {
    var s1 := Released(With(s, t, s.threads[t].(pc := ReadRelock)));
    s1.(rq := s1.rq[1..], parked := s1.parked + [t])
  }

  /** Taking one character, or finding that there is none to take. */
  function Drained(s: Sys, t: int): Sys
    requires t in s.threads
  {
    var th := s.threads[t];
    if th.len == 0 || s.queue == [] then With(s, t, th.(pc := ReadUnlock))
    else
      var ch := s.queue[0];
      var s1 := s.(queue := s.queue[1..], log := s.log + [Taken(t, ch)]);
      With(s1, t, if ch == 0 then th.(pc := ReadUnlock) else th.(len := th.len - 1, got := th.got + [ch]))
  }

  /** The end of the critical section of keyboard_read. */
  function ReadDone(s: Sys, t: int): Sys
    requires t in s.threads
  {
    Released(With(s, t, s.threads[t].(pc := if s.threads[t].len == 0 then Outside else ReadLock)))
  }

  /** char_enqueue_nolock; a full queue panics. */
  function Enqueued(s: Sys, t: int): Sys
    requires t in s.threads && s.threads[t].irq.IrqEnqueue?
  {
    var chs := s.threads[t].irq.chs;
    if chs == [] then s
    else if |s.queue| >= CAPACITY then s.(stopped := true)
    else With(s.(queue := s.queue + [chs[0]], given := s.given + [chs[0]]), t,
        s.threads[t].(irq := IrqBroadcast(chs[1..])))
  }

  function Woken(s: Sys, t: int): Sys
    requires t in s.threads && s.threads[t].irq.IrqBroadcast?
  {
    With(s.(rq := s.rq + s.parked, parked := []), t, s.threads[t].(irq := IrqUnlock(s.threads[t].irq.rest)))
  }

  /** The end of keyboard_enqueue: the next character of the same key, or the end of the handler. */
  function IrqDone(s: Sys, t: int): Sys
    requires t in s.threads && s.threads[t].irq.IrqUnlock?
  {
    var rest := s.threads[t].irq.rest;
    var s1 := Released(With(s, t, s.threads[t].(irq := if rest == [] then NoIrq else IrqLock(rest))));
    if rest == [] then s1.(handler := NOBODY) else s1
  }

  /** One step of the running thread. */
  function Step(s: Sys): Sys
    requires s.rq != []
  {
    var t := s.rq[0];
    if s.stopped || t !in s.threads then s
    else
      var th := s.threads[t];
      if Trying(th) then Tried(s, t)
      else if Missed(th) then Joined(s, t)
      else match th.irq
        case IrqEnqueue(_) => Enqueued(s, t)
        case IrqBroadcast(_) => Woken(s, t)
        case IrqUnlock(_) => IrqDone(s, t)
        case _ =>
          match th.pc
          case ReadCheck => if s.queue == [] then Parked(s, t) else With(s, t, th.(pc := ReadDrain))
          case ReadDrain => Drained(s, t)
          case ReadUnlock => ReadDone(s, t)
          case _ => s
  }

  /** What may happen next: a step of the running thread, the end of its turn, a call of keyboard_read
      by it, or a keyboard interrupt on it that will enqueue some characters. */
  datatype Action = Run | Preempt | Read(len: nat) | Interrupt(chs: seq<int>)

  /** A key is handled, on the running thread, unless another one still is. */
  predicate Taking(s: Sys, chs: seq<int>) {
    chs != [] && s.handler == NOBODY && !s.stopped && s.rq != [] && s.rq[0] in s.threads
  }

  function Do(s: Sys, a: Action): Sys {
    if s.rq == [] then s else
    var t := s.rq[0];
    match a
    case Run => Step(s)
    case Preempt => s.(rq := s.rq[1..] + [t])
    case Read(len) =>
      if t in s.threads && t != s.idle && s.threads[t].pc.Outside? && s.threads[t].irq.NoIrq? && len > 0
      then With(s, t, Begun(s.threads[t], len)) else s
    case Interrupt(chs) =>
      if Taking(s, chs) then With(s, t, s.threads[t].(irq := IrqLock(chs))).(handler := t) else s
  }

  // ---------- the invariant ----------

  /** Every thread, the idle one included, is on exactly one list, once, and some thread is runnable. */
  ghost predicate OnOneList(s: Sys) {
    && s.idle in s.threads && NOBODY !in s.threads && s.rq != []
    && forall t :: multiset(s.rq)[t] + multiset(s.waiting)[t] + multiset(s.parked)[t] == if t in s.threads then 1 else 0
  }

  /** Interrupted inside its own critical section: the handler will wait for a mutex that only the
      interrupted code could release. */
  predicate Caught(th: Thread) { HoldsRead(th.pc) && !th.irq.NoIrq? }

  /** The holder of the mutex is the one thread inside a critical section; it is runnable, or caught. */
  ghost predicate Exclusive(s: Sys) {
    && (forall t :: t in s.threads ==> (Holds(s.threads[t]) <==> t == s.holder))
    && (forall t :: t in s.threads ==> !(HoldsRead(s.threads[t].pc) && HoldsIrq(s.threads[t].irq)))
    && (s.holder != NOBODY ==> s.holder in s.threads && (s.holder in s.rq || Caught(s.threads[s.holder])))
  }

  /** The handler runs on one thread at most, and has something to enqueue. */
  ghost predicate Handling(s: Sys) {
    && (forall t :: t in s.threads ==> (!s.threads[t].irq.NoIrq? <==> t == s.handler))
    && (forall t :: t in s.threads ==> match s.threads[t].irq
          case IrqLock(chs) => chs != []
          case IrqMissed(chs) => chs != []
          case IrqEnqueue(chs) => chs != []
          case _ => true)
    && (s.handler != NOBODY ==> s.handler in s.threads)
  }

  /** Who waits for the mutex will try again; who is parked is in condvar_wait; the idle thread reads
      nothing. */
  ghost predicate WaitersOk(s: Sys) {
    && (forall t :: t in s.waiting ==> t in s.threads && Trying(s.threads[t]))
    && (forall t :: t in s.parked ==> t in s.threads && s.threads[t].irq.NoIrq? && s.threads[t].pc.ReadRelock?)
    && (s.idle in s.threads ==> s.threads[s.idle].pc.Outside?)
  }

  /** The mutex was locked when it had been released `seen` times; if it is free now, it has been
      released since. */
  predicate Since(s: Sys, seen: nat) { seen <= s.releases && (s.holder == NOBODY ==> seen < s.releases) }

  /** The last failed try of a thread that waits. */
  function LastTry(th: Thread): nat { if th.irq.NoIrq? then th.seen else th.irqSeen }

  /** So it is for all who have failed to get the mutex and have not tried again. */
  ghost predicate Late(s: Sys) {
    && (forall t :: t in s.threads && (s.threads[t].pc.ReadMissed? || s.threads[t].pc.ReadRemissed?) ==>
        Since(s, s.threads[t].seen))
    && (forall t :: t in s.threads && s.threads[t].irq.IrqMissed? ==> Since(s, s.threads[t].irqSeen))
    && (forall t :: t in s.threads && t in s.waiting ==> Since(s, LastTry(s.threads[t])))
  }

  /** No lost wake-up: a reader is parked with characters in the queue only while a producer is
      between enqueue and broadcast. */
  ghost predicate NoneForgotten(s: Sys) {
    s.parked != [] && s.queue != [] ==>
      s.holder != NOBODY && s.holder in s.threads && s.threads[s.holder].irq.IrqBroadcast?
  }

  function Bytes(log: seq<Taken>): seq<int> { if log == [] then [] else Bytes(log[..|log| - 1]) + [log[|log| - 1].ch] }

  /** What thread t has stored of what it has taken: all but zeros. */
  function Stored(log: seq<Taken>, t: int): seq<int> {
    if log == [] then [] else
    var last := log[|log| - 1];
    Stored(log[..|log| - 1], t) + if last.reader == t && last.ch != 0 then [last.ch] else []
  }

  /** What the call has stored, and what it still wants, make up what it asked for; it ends when it wants
      nothing more. */
  predicate Counts(th: Thread) {
    th.start <= |th.got| && |th.got| - th.start + th.len == th.asked && (th.pc.Outside? ==> th.len == 0)
  }

  /** Characters come out in the order in which they went in, and none is lost. */
  ghost predicate InSequence(s: Sys) {
    && (forall t :: t in s.threads ==> Counts(s.threads[t]))
    && s.given == Bytes(s.log) + s.queue && |s.queue| <= CAPACITY
    && forall t :: t in s.threads ==> s.threads[t].got == Stored(s.log, t)
  }

  ghost predicate Inv(s: Sys) {
    OnOneList(s) && Exclusive(s) && Handling(s) && WaitersOk(s) && Late(s) && NoneForgotten(s) && InSequence(s)
  }

  // ---------- every step keeps it ----------

  lemma HeadCount(s: seq<int>)
    requires s != []
    ensures multiset(s) == multiset{s[0]} + multiset(s[1..])
  {
    assert s == [s[0]] + s[1..];
  }

  lemma LogMore(log: seq<Taken>, x: Taken)
    ensures Bytes(log + [x]) == Bytes(log) + [x.ch]
    ensures forall t :: Stored(log + [x], t) == Stored(log, t) + if x.reader == t && x.ch != 0 then [x.ch] else []
  {
    assert (log + [x])[..|log|] == log;
  }

  lemma SequenceSame(s: Sys, s': Sys)
    requires InSequence(s) && s'.queue == s.queue && s'.given == s.given && s'.log == s.log
    requires forall t :: t in s'.threads ==> t in s.threads && s'.threads[t].got == s.threads[t].got
    requires forall t :: t in s'.threads ==> (Counts(s.threads[t]) ==> Counts(s'.threads[t]))
    ensures InSequence(s')
  {
  }

  lemma TriedKeeps(s: Sys)
    requires Inv(s) && s.rq[0] in s.threads && Trying(s.threads[s.rq[0]])
    ensures Inv(Tried(s, s.rq[0]))
  {
    hide InSequence, OnOneList, Exclusive, Handling, WaitersOk, Late;
    RqThreads(s);
    var t, s' := s.rq[0], Tried(s, s.rq[0]);
    NotAway(s, t);
    TriedHolds(s, t);
    TriedWaits(s, t);
    SequenceSame(s, s');
    SameLists(s, s');
  }

  lemma TriedHolds(s: Sys, t: int)
    requires Exclusive(s) && Handling(s) && t in s.rq && t in s.threads && Trying(s.threads[t]) && NOBODY !in s.threads
    ensures Exclusive(Tried(s, t)) && Handling(Tried(s, t))
  {
  }

  lemma TriedWaits(s: Sys, t: int)
    requires WaitersOk(s) && Late(s) && NoneForgotten(s) && t in s.threads && Trying(s.threads[t])
    requires t !in s.waiting && t !in s.parked
    ensures WaitersOk(Tried(s, t)) && Late(Tried(s, t)) && NoneForgotten(Tried(s, t))
  {
    var s' := Tried(s, t);
    assert forall x :: x in s.threads && x != t ==> s'.threads[x] == s.threads[x];
  }

  /** The running thread is neither waiting nor parked. */
  lemma NotAway(s: Sys, t: int)
    requires OnOneList(s) && t in s.rq
    ensures t !in s.waiting && t !in s.parked && t in s.threads && s.rq != []
  {
    var r, w, p := multiset(s.rq), multiset(s.waiting), multiset(s.parked);
    assert r[t] >= 1 && r[t] + w[t] + p[t] == if t in s.threads then 1 else 0;
    assert t !in w && t !in p;
  }

  lemma SameLists(s: Sys, s': Sys)
    requires OnOneList(s) && s'.rq == s.rq && s'.waiting == s.waiting && s'.parked == s.parked && s'.idle == s.idle
    requires forall t :: t in s'.threads <==> t in s.threads
    ensures OnOneList(s')
  {
  }

  lemma JoinedKeeps(s: Sys)
    requires Inv(s) && s.rq[0] in s.threads && Missed(s.threads[s.rq[0]])
    ensures Inv(Joined(s, s.rq[0]))
  {
    hide InSequence, OnOneList, Exclusive, Handling, WaitersOk, Late;
    RqThreads(s);
    var t, s' := s.rq[0], Joined(s, s.rq[0]);
    NotAway(s, t);
    SequenceSame(s, s');
    if |s.rq| > 1 {
      JoinedLists(s);
      JoinedHolds(s);
      JoinedWaits(s);
    } else {
      StoppedKeeps(s);
    }
  }

  lemma StoppedHolds(s: Sys)
    requires Exclusive(s) && WaitersOk(s)
    ensures Exclusive(s.(stopped := true)) && WaitersOk(s.(stopped := true))
  {
  }

  lemma StoppedKeeps(s: Sys)
    requires Inv(s)
    ensures Inv(s.(stopped := true))
  {
    hide InSequence, Exclusive, OnOneList, Handling, Late, WaitersOk;
    var s' := s.(stopped := true);
    SequenceSame(s, s');
    SameLists(s, s');
    StoppedHolds(s);
    SameThreads(s, s');
  }

  lemma JoinedHolds(s: Sys)
    requires Exclusive(s) && Handling(s) && |s.rq| > 1 && s.rq[0] in s.threads && Missed(s.threads[s.rq[0]])
    ensures Exclusive(Joined(s, s.rq[0])) && Handling(Joined(s, s.rq[0]))
  {
    var s' := Joined(s, s.rq[0]);
    forall x | x in s.rq && x != s.rq[0] ensures x in s'.rq { TailHas(s.rq, x); }
    assert forall x :: x in s.threads && x != s.rq[0] ==> s'.threads[x] == s.threads[x];
  }

  lemma JoinedWaits(s: Sys)
    requires WaitersOk(s) && Late(s) && NoneForgotten(s) && |s.rq| > 1 && s.rq[0] in s.threads &&
             Missed(s.threads[s.rq[0]])
    requires s.rq[0] !in s.waiting && s.rq[0] !in s.parked
    ensures WaitersOk(Joined(s, s.rq[0])) && Late(Joined(s, s.rq[0])) && NoneForgotten(Joined(s, s.rq[0]))
  {
    var s' := Joined(s, s.rq[0]);
    assert forall x :: x in s.threads && x != s.rq[0] ==> s'.threads[x] == s.threads[x];
    assert forall x :: x in s'.waiting <==> x in s.waiting || x == s.rq[0];
  }

  lemma TailHas(s: seq<int>, x: int)
    requires s != [] && x in s && x != s[0]
    ensures x in s[1..]
  {
    assert s == [s[0]] + s[1..];
  }

  lemma JoinedLists(s: Sys)
    requires OnOneList(s) && s.rq[0] in s.threads && Missed(s.threads[s.rq[0]]) && |s.rq| > 1
    ensures OnOneList(Joined(s, s.rq[0]))
  {
    var t := s.rq[0];
    HeadCount(s.rq);
    assert forall x :: multiset(s.waiting + [t])[x] == multiset(s.waiting)[x] + if x == t then 1 else 0;
  }

  /** What may become of the holder when it leaves its critical section: the reader goes on outside it;
      the handler ends, or goes on to its next character. */
  predicate Leaves(th0: Thread, th: Thread) {
    || (th0.irq.NoIrq? && HoldsRead(th0.pc) && th == th0.(pc := th.pc) &&
        ((th.pc.Outside? && th.len == 0) || th.pc.ReadLock? || th.pc.ReadRelock?))
    || (th0.irq.IrqUnlock? && !HoldsRead(th0.pc) && th == th0.(irq := th.irq) &&
        (th.irq.NoIrq? || (th.irq.IrqLock? && th.irq.chs != [])))
  }

  function Left(s: Sys, th: Thread): Sys
    requires s.holder in s.threads
  {
    var ended := !s.threads[s.holder].irq.NoIrq? && th.irq.NoIrq?;
    Released(With(s, s.holder, th)).(handler := if ended then NOBODY else s.handler)
  }

  /** The holder leaves its critical section: what waits becomes runnable. */
  lemma ReleasedKeeps(s: Sys, th: Thread)
    requires Inv(s) && s.rq[0] == s.holder && s.holder in s.threads && Leaves(s.threads[s.holder], th)
    requires s.holder == s.idle ==> th.pc.Outside?
    ensures Inv(Left(s, th))
  {
    hide InSequence, OnOneList, Exclusive, Handling, WaitersOk, Late;
    RqThreads(s);
    NotAway(s, s.holder);
    SequenceSame(s, Left(s, th));
    ReleasedLists(s, th);
    LeftHolds(s, th);
    LeftWaits(s, th);
  }

  lemma LeftHolds(s: Sys, th: Thread)
    requires Exclusive(s) && Handling(s) && s.holder in s.threads && Leaves(s.threads[s.holder], th) &&
             NOBODY !in s.threads
    ensures Exclusive(Left(s, th)) && Handling(Left(s, th))
  {
    var s' := Left(s, th);
    assert forall x :: x in s.threads && x != s.holder ==> s'.threads[x] == s.threads[x];
  }

  lemma LeftWaits(s: Sys, th: Thread)
    requires WaitersOk(s) && Late(s) && NoneForgotten(s) && s.holder in s.threads && Leaves(s.threads[s.holder], th)
    requires s.holder !in s.parked && (s.holder == s.idle ==> th.pc.Outside?)
    ensures WaitersOk(Left(s, th)) && Late(Left(s, th)) && NoneForgotten(Left(s, th))
  {
    var s' := Left(s, th);
    assert forall x :: x in s.threads && x != s.holder ==> s'.threads[x] == s.threads[x];
  }

  lemma ReleasedLists(s: Sys, th: Thread)
    requires OnOneList(s) && s.holder in s.threads
    ensures OnOneList(Left(s, th))
  {
    assert forall x :: multiset(s.rq + s.waiting)[x] == multiset(s.rq)[x] + multiset(s.waiting)[x];
  }

  lemma ParkedKeeps(s: Sys)
    requires Inv(s) && s.rq[0] in s.threads && s.threads[s.rq[0]].pc.ReadCheck? && s.threads[s.rq[0]].irq.NoIrq? &&
             s.queue == []
    ensures Inv(Parked(s, s.rq[0]))
  {
    hide InSequence, OnOneList;
    RqThreads(s);
    var t := s.rq[0];
    RunningHolds(s, t);
    var s1, s' := Left(s, s.threads[t].(pc := ReadRelock)), Parked(s, t);
    ReleasedKeeps(s, s.threads[t].(pc := ReadRelock));
    assert s1.rq[0] == t;
    IdleRuns(s1, t);
    assert OnOneList(s') by { ParkedLists(s1, s'); }
    assert InSequence(s') by { SequenceSame(s1, s'); }
  }

  /** With nobody waiting, the idle thread is runnable. */
  lemma IdleRuns(s: Sys, t: int)
    requires Inv(s) && s.waiting == [] && s.rq[0] == t != s.idle
    ensures s.idle in s.rq[1..]
  {
    assert s.idle in s.rq;
    TailHas(s.rq, s.idle);
  }

  lemma ParkedLists(s: Sys, s': Sys)
    requires OnOneList(s) && s' == s.(rq := s.rq[1..], parked := s.parked + [s.rq[0]]) && s.rq[1..] != []
    ensures OnOneList(s')
  {
    HeadCount(s.rq);
    assert forall x :: multiset(s.parked + [s.rq[0]])[x] == multiset(s.parked)[x] + if x == s.rq[0] then 1 else 0;
  }

  /** The holder moves on inside its critical section. */
  lemma HolderKeeps(s: Sys, s': Sys, th: Thread)
    requires Inv(s) && s.holder in s.threads && s.holder in s.rq && InSequence(s') && NoneForgotten(s')
    requires s' == With(s, s.holder, th).(queue := s'.queue, given := s'.given, log := s'.log)
    requires MovesOn(s.threads[s.holder], th)
    ensures Inv(s')
  {
    hide InSequence, OnOneList, NoneForgotten, Exclusive, Handling, WaitersOk, Late;
    NotAway(s, s.holder);
    SameLists(s, s');
    HolderHolds(s, s', th);
    HolderWaits(s, s', th);
  }

  /** What may become of the holder inside its critical section. */
  predicate MovesOn(th0: Thread, th: Thread) {
    || (th.irq.NoIrq? && th0.irq.NoIrq? && HoldsRead(th.pc) && HoldsRead(th0.pc))
    || (HoldsIrq(th0.irq) && HoldsIrq(th.irq) && !th.irq.IrqEnqueue? && th == th0.(irq := th.irq))
  }

  lemma HolderHolds(s: Sys, s': Sys, th: Thread)
    requires Exclusive(s) && Handling(s) && s.holder in s.threads && s.holder in s.rq &&
             MovesOn(s.threads[s.holder], th)
    requires s' == With(s, s.holder, th).(queue := s'.queue, given := s'.given, log := s'.log)
    ensures Exclusive(s') && Handling(s')
  {
    assert forall x :: x in s.threads && x != s.holder ==> s'.threads[x] == s.threads[x];
  }

  lemma HolderWaits(s: Sys, s': Sys, th: Thread)
    requires WaitersOk(s) && Late(s) && s.holder in s.threads && s.holder !in s.waiting && s.holder !in s.parked
    requires MovesOn(s.threads[s.holder], th)
    requires s' == With(s, s.holder, th).(queue := s'.queue, given := s'.given, log := s'.log)
    ensures WaitersOk(s') && Late(s')
  {
    assert forall x :: x in s.threads && x != s.holder ==> s'.threads[x] == s.threads[x];
  }

  lemma WithKeeps(s: Sys, th: Thread)
    requires Inv(s) && s.holder in s.threads && s.holder in s.rq
    requires var th0 := s.threads[s.holder];
             && th.irq == th0.irq && th.irq.NoIrq? && HoldsRead(th0.pc) && HoldsRead(th.pc) && th.got == th0.got &&
             (Counts(th0) ==> Counts(th))
    ensures Inv(With(s, s.holder, th))
  {
    hide InSequence, OnOneList, Exclusive, Handling, WaitersOk, Late;
    SequenceSame(s, With(s, s.holder, th));
    HolderKeeps(s, With(s, s.holder, th), th);
  }

  lemma DrainedKeeps(s: Sys)
    requires Inv(s) && s.holder in s.threads && s.holder in s.rq && s.threads[s.holder].pc.ReadDrain? &&
             s.threads[s.holder].irq.NoIrq?
    ensures Inv(Drained(s, s.holder))
  {
    hide InSequence, OnOneList, Exclusive, Handling, WaitersOk, Late;
    var s', th := Drained(s, s.holder), s.threads[s.holder];
    if th.len == 0 || s.queue == [] {
      WithKeeps(s, th.(pc := ReadUnlock));
    } else {
      DrainedSequence(s, s.holder);
      HolderKeeps(s, s', s'.threads[s.holder]);
    }
  }

  lemma DrainedSequence(s: Sys, t: int)
    requires InSequence(s) && t in s.threads && s.threads[t].len > 0 && s.queue != []
    ensures InSequence(Drained(s, t))
  {
    hide Stored, Bytes;
    var ch := s.queue[0];
    LogMore(s.log, Taken(t, ch));
    assert s.queue == [ch] + s.queue[1..];
    assert s.given == Bytes(s.log) + [ch] + s.queue[1..];
  }

  lemma EnqueuedKeeps(s: Sys)
    requires Inv(s) && s.holder in s.threads && s.holder in s.rq && s.threads[s.holder].irq.IrqEnqueue?
    ensures Inv(Enqueued(s, s.holder))
  {
    hide InSequence, OnOneList, Exclusive, WaitersOk, Late;
    var s' := Enqueued(s, s.holder);
    RqThreads(s);
    if |s.queue| < CAPACITY {
      EnqueuedSequence(s);
      HolderKeeps(s, s', s'.threads[s.holder]);
    } else {
      StoppedKeeps(s);
    }
  }

  lemma EnqueuedSequence(s: Sys)
    requires InSequence(s) && s.holder in s.threads && s.threads[s.holder].irq.IrqEnqueue? && |s.queue| < CAPACITY
    ensures InSequence(Enqueued(s, s.holder))
  {
    hide Bytes, Stored;
  }

  lemma WokenKeeps(s: Sys)
    requires Inv(s) && s.holder in s.threads && s.holder in s.rq && s.threads[s.holder].irq.IrqBroadcast?
    ensures Inv(Woken(s, s.holder))
  {
    hide InSequence, OnOneList;
    var s' := Woken(s, s.holder);
    NotAway(s, s.holder);
    assert InSequence(s') by { SequenceSame(s, s'); }
    assert OnOneList(s') by { WokenLists(s); }
  }

  lemma WokenLists(s: Sys)
    requires OnOneList(s) && s.holder in s.threads && s.threads[s.holder].irq.IrqBroadcast?
    ensures OnOneList(Woken(s, s.holder))
  {
    assert forall x :: multiset(s.rq + s.parked)[x] == multiset(s.rq)[x] + multiset(s.parked)[x];
  }

  lemma RunningHolds(s: Sys, t: int)
    requires Inv(s) && t in s.threads && Holds(s.threads[t])
    ensures t == s.holder
  {
  }

  /** A handler inside its critical section runs on a thread that is in none. */
  lemma HandlerFree(s: Sys, t: int)
    requires Inv(s) && t in s.threads && HoldsIrq(s.threads[t].irq)
    ensures t == s.holder == s.handler && !Caught(s.threads[t]) && !HoldsRead(s.threads[t].pc)
  {
  }

  lemma RqThreads(s: Sys)
    requires Inv(s)
    ensures s.rq != [] && s.rq[0] in s.threads && s.rq[0] in s.rq && NOBODY !in s.threads
    ensures s.idle in s.threads && s.threads[s.idle].pc.Outside?
  {
    var t := s.rq[0];
    assert multiset(s.rq)[t] + multiset(s.waiting)[t] + multiset(s.parked)[t] >= 1;
  }

  lemma StepKeeps(s: Sys)
    requires Inv(s)
    ensures Inv(Step(s))
  {
    hide Inv, Tried, Joined, Parked, Drained, Enqueued, Woken, Released;
    RqThreads(s);
    var t := s.rq[0];
    var th := s.threads[t];
    if s.stopped { return; }
    if Holds(th) { RunningHolds(s, t); }
    if HoldsIrq(th.irq) { HandlerFree(s, t); }
    if Trying(th) {
      TriedKeeps(s);
    } else if Missed(th) {
      JoinedKeeps(s);
    } else if HoldsIrq(th.irq) {
      match th.irq {
        case IrqEnqueue(_) => EnqueuedKeeps(s);
        case IrqBroadcast(_) => WokenKeeps(s);
        case IrqUnlock(rest) => IrqDoneKeeps(s);
        case _ =>
      }
    } else {
      match th.pc {
        case ReadCheck => if s.queue == [] { ParkedKeeps(s); } else { WithKeeps(s, th.(pc := ReadDrain)); }
        case ReadDrain => DrainedKeeps(s);
        case ReadUnlock => ReadDoneKeeps(s);
        case _ =>
      }
    }
  }

  lemma IrqDoneKeeps(s: Sys)
    requires Inv(s) && s.rq[0] == s.holder == s.handler && s.holder in s.threads && s.threads[s.holder].irq.IrqUnlock?
    requires !HoldsRead(s.threads[s.holder].pc)
    ensures Inv(IrqDone(s, s.holder))
  {
    hide Inv;
    var th := s.threads[s.holder];
    var rest := th.irq.rest;
    RqThreads(s);
    ReleasedKeeps(s, th.(irq := if rest == [] then NoIrq else IrqLock(rest)));
  }

  lemma ReadDoneKeeps(s: Sys)
    requires Inv(s) && s.rq[0] == s.holder && s.holder in s.threads && s.threads[s.holder].pc.ReadUnlock? &&
             s.threads[s.holder].irq.NoIrq?
    ensures Inv(ReadDone(s, s.holder))
  {
    hide Inv;
    var th := s.threads[s.holder];
    RqThreads(s);
    ReleasedKeeps(s, th.(pc := if th.len == 0 then Outside else ReadLock));
  }

  lemma RotatedLists(s: Sys)
    requires OnOneList(s) && Exclusive(s)
    ensures var s' := s.(rq := s.rq[1..] + [s.rq[0]]); OnOneList(s') && Exclusive(s')
  {
    var rq' := s.rq[1..] + [s.rq[0]];
    HeadCount(s.rq);
    assert forall x :: multiset(rq')[x] == multiset(s.rq)[x];
    assert forall x :: x in s.rq ==> x in rq' by { assert s.rq == [s.rq[0]] + s.rq[1..]; }
  }

  lemma QueueBound(s: Sys)
    requires Inv(s)
    ensures |s.queue| <= CAPACITY
  {
  }

  lemma PreemptKeeps(s: Sys)
    requires Inv(s)
    ensures Inv(s.(rq := s.rq[1..] + [s.rq[0]]))
  {
    hide InSequence, Handling, Late, Exclusive, OnOneList;
    RqThreads(s);
    var s' := s.(rq := s.rq[1..] + [s.rq[0]]);
    RotatedLists(s);
    SequenceSame(s, s');
    SameThreads(s, s');
  }

  lemma SameThreads(s: Sys, s': Sys)
    requires Handling(s) && Late(s) && s' == s.(rq := s'.rq, stopped := s'.stopped)
    ensures Handling(s') && Late(s')
  {
  }

  /** A reader that does nothing yet begins a call. */
  lemma ReadKeeps(s: Sys, len: nat)
    requires Inv(s) && s.rq[0] in s.threads && s.rq[0] != s.idle && s.threads[s.rq[0]].pc.Outside? &&
             s.threads[s.rq[0]].irq.NoIrq?
    ensures Inv(With(s, s.rq[0], Begun(s.threads[s.rq[0]], len)))
  {
    hide InSequence, OnOneList, Exclusive, Handling, WaitersOk, Late;
    RqThreads(s);
    var s' := With(s, s.rq[0], Begun(s.threads[s.rq[0]], len));
    NotAway(s, s.rq[0]);
    SequenceSame(s, s');
    SameLists(s, s');
    BegunHolds(s, s', s.rq[0], s'.threads[s.rq[0]]);
    BegunWaits(s, s', s.rq[0], s'.threads[s.rq[0]]);
  }

  /** A running thread outside its handler begins something: a call, or a handler. */
  predicate Begins(s: Sys, s': Sys, t: int, th: Thread) {
    && t in s.threads && s.threads[t].irq.NoIrq?
    && if th.irq.NoIrq? then
         s.threads[t].pc.Outside? && th == Begun(s.threads[t], th.len) && s' == With(s, t, th)
       else
         && s.handler == NOBODY && th.irq.IrqLock? && th.irq.chs != []
         && th == s.threads[t].(irq := th.irq) && s' == With(s, t, th).(handler := t)
  }

  lemma BegunHolds(s: Sys, s': Sys, t: int, th: Thread)
    requires Exclusive(s) && Handling(s) && Begins(s, s', t, th) && t in s.rq && NOBODY !in s.threads
    ensures Exclusive(s') && Handling(s')
  {
    assert forall x :: x in s.threads && x != t ==> s'.threads[x] == s.threads[x];
  }

  lemma BegunWaits(s: Sys, s': Sys, t: int, th: Thread)
    requires WaitersOk(s) && Late(s) && NoneForgotten(s) && Begins(s, s', t, th) && t !in s.waiting && t !in s.parked
    requires th.irq.NoIrq? ==> t != s.idle
    requires s.holder == t ==> !s.threads[t].irq.IrqBroadcast?
    ensures WaitersOk(s') && Late(s') && NoneForgotten(s')
  {
    assert forall x :: x in s.threads && x != t ==> s'.threads[x] == s.threads[x];
  }

  lemma NoHandler(s: Sys, t: int)
    requires Inv(s) && s.handler == NOBODY && t in s.threads
    ensures s.threads[t].irq.NoIrq?
  {
    RqThreads(s);
  }

  /** The interrupt: the handler starts on the running thread, wherever that is. */
  lemma InterruptKeeps(s: Sys, chs: seq<int>)
    requires Inv(s) && Taking(s, chs)
    ensures Inv(Do(s, Interrupt(chs)))
  {
    hide InSequence, OnOneList, Exclusive, Handling, WaitersOk, Late;
    RqThreads(s);
    var s' := Do(s, Interrupt(chs));
    NotAway(s, s.rq[0]);
    SequenceSame(s, s');
    SameLists(s, s');
    NoHandler(s, s.rq[0]);
    BegunHolds(s, s', s.rq[0], s'.threads[s.rq[0]]);
    BegunWaits(s, s', s.rq[0], s'.threads[s.rq[0]]);
  }

  /** Every action in every state keeps the invariant. */
  lemma Keeps(s: Sys, a: Action)
    requires Inv(s)
    ensures Inv(Do(s, a))
  {
    hide Inv, Step;
    if s.rq == [] { return; }
    var t := s.rq[0];
    match a {
      case Run => StepKeeps(s);
      case Preempt => PreemptKeeps(s);
      case Read(len) =>
        if t in s.threads && t != s.idle && s.threads[t].pc.Outside? && s.threads[t].irq.NoIrq? { ReadKeeps(s, len); }
      case Interrupt(chs) => if Taking(s, chs) { InterruptKeeps(s, chs); }
    }
  }

  /** A run of the system. */
  function After(s: Sys, run: seq<Action>): Sys {
    if run == [] then s else Do(After(s, run[..|run| - 1]), run[|run| - 1])
  }

  lemma AfterMore(s: Sys, run: seq<Action>, a: Action)
    ensures After(s, run + [a]) == Do(After(s, run), a)
  {
    assert (run + [a])[..|run|] == run;
  }

  /** The system at rest: all threads runnable and outside, nothing typed yet. */
  ghost predicate Initial(s: Sys) {
    && OnOneList(s) && s.waiting == [] && s.parked == [] && s.holder == NOBODY && s.handler == NOBODY && !s.stopped
    && s.queue == [] && s.given == [] && s.log == []
    && forall t :: t in s.threads ==> s.threads[t] == Thread(Outside, NoIrq, 0, [], 0, 0, 0, 0)
  }

  lemma InitialKeeps(s: Sys)
    requires Initial(s)
    ensures Inv(s)
  {
    assert forall t :: Stored([], t) == [];
  }

  /** So it holds in every reachable state. */
  lemma {:induction false} Always(s: Sys, run: seq<Action>)
    requires Initial(s)
    ensures Inv(After(s, run))
  {
    hide Inv;
    if run == [] {
      InitialKeeps(s);
    } else {
      Always(s, run[..|run| - 1]);
      Keeps(After(s, run[..|run| - 1]), run[|run| - 1]);
    }
  }

  // ---------- what it means ----------

  /** Whenever no producer is between enqueue and broadcast, a parked reader has nothing to read. */
  lemma NoLostWakeUp(s: Sys, run: seq<Action>, t: int)
    requires Initial(s)
    ensures var s' := After(s, run);
            t in s'.parked && s'.queue != [] ==>
              s'.holder in s'.threads && s'.threads[s'.holder].irq.IrqBroadcast? && s'.holder in s'.rq
  {
    Always(s, run);
  }

  /** A call that has ended has stored exactly as many characters as it asked for, and one that goes on
      lacks exactly as many as it still wants. */
  lemma StoresAsked(s: Sys, run: seq<Action>, t: int)
    requires Initial(s) && t in After(s, run).threads
    ensures var th := After(s, run).threads[t];
            && th.start <= |th.got| && |th.got[th.start..]| + th.len == th.asked
            && (th.pc.Outside? ==> |th.got[th.start..]| == th.asked)
  {
    Always(s, run);
  }

  /** What the handler has yet to enqueue. */
  function Pending(s: Sys): seq<int> {
    if s.handler == NOBODY || s.handler !in s.threads then []
    else match s.threads[s.handler].irq
      case NoIrq => []
      case IrqLock(chs) => chs
      case IrqMissed(chs) => chs
      case IrqEnqueue(chs) => chs
      case IrqBroadcast(rest) => rest
      case IrqUnlock(rest) => rest
  }

  /** The characters of all keys that have been handled, or still are, in the order of the interrupts. */
  function Typed(s: Sys, run: seq<Action>): seq<int> {
    if run == [] then []
    else
      var r, a := run[..|run| - 1], run[|run| - 1];
      Typed(s, r) + if a.Interrupt? && Taking(After(s, r), a.chs) then a.chs else []
  }

  /** What has been enqueued, and what the handler has yet to enqueue, is what was typed, in order. */
  lemma {:induction false} AllTyped(s: Sys, run: seq<Action>)
    requires Initial(s)
    ensures After(s, run).given + Pending(After(s, run)) == Typed(s, run)
  {
    hide Inv, Do, Pending, Taking;
    if run == [] {
      NothingTyped(s);
    } else {
      var r, a := run[..|run| - 1], run[|run| - 1];
      AllTyped(s, r);
      Always(s, r);
      KeyTyped(After(s, r), a);
    }
  }

  lemma NothingTyped(s: Sys)
    requires Initial(s)
    ensures s.given + Pending(s) == []
  {
  }

  lemma KeyTyped(s: Sys, a: Action)
    requires Inv(s)
    ensures Do(s, a).given + Pending(Do(s, a)) ==
            s.given + Pending(s) + if a.Interrupt? && Taking(s, a.chs) then a.chs else []
  {
    hide InSequence, OnOneList, NoneForgotten, Late, WaitersOk, Step;
    RqThreads(s);
    if a.Run? { StepTyped(s); }
  }

  lemma StepTyped(s: Sys)
    requires Inv(s)
    ensures Step(s).given + Pending(Step(s)) == s.given + Pending(s)
  {
    hide InSequence, OnOneList, NoneForgotten, Late, WaitersOk;
    RqThreads(s);
    var t := s.rq[0];
    if !s.stopped && s.threads[t].irq.IrqEnqueue? && !Trying(s.threads[t]) {
      var chs := s.threads[t].irq.chs;
      assert chs != [] ==> [chs[0]] + chs[1..] == chs;
    }
  }

  // A thread that is left to run.

  /** The state after n steps of the running thread. */
  function Steps(s: Sys, n: nat): Sys
    decreases n
  {
    if n == 0 || s.rq == [] then s else Steps(Step(s), n - 1)
  }

  /** A reader about to take characters, with enough of them queued, takes what it wants, in order, and
      its call ends. */
  lemma {:induction false} TakesAll(s: Sys, t: int)
    requires s.rq != [] && t == s.rq[0] && t in s.threads && !s.stopped
    requires var th := s.threads[t];
             th.pc == ReadDrain && th.irq == NoIrq && th.len <= |s.queue| && 0 !in s.queue[..th.len]
    ensures var len, s' := s.threads[t].len, Steps(s, s.threads[t].len + 2);
            && t in s'.threads && s'.threads[t].pc == Outside && s'.threads[t].irq == NoIrq && s'.threads[t].len == 0
            && s'.threads[t].got == s.threads[t].got + s.queue[..len] && s'.queue == s.queue[len..]
            && s'.holder == NOBODY && s'.waiting == [] && s'.rq == s.rq + s.waiting && s'.parked == s.parked
    decreases s.threads[t].len
  {
    hide Steps;
    var th := s.threads[t];
    var s1 := Step(s);
    StepsOne(s, th.len + 2);
    if th.len == 0 {
      assert s1 == With(s, t, th.(pc := ReadUnlock));
      StepsOne(s1, 1);
      StepsNone(Step(s1));
      assert s.threads[t].got + s.queue[..0] == s.threads[t].got;
    } else {
      var ch := s.queue[0];
      assert s.queue[..th.len][0] == ch;
      assert s1.threads[t] == th.(len := th.len - 1, got := th.got + [ch]) && s1.queue == s.queue[1..];
      assert s.queue[..th.len] == [ch] + s1.queue[..th.len - 1];
      TakesAll(s1, t);
      assert th.got + s.queue[..th.len] == th.got + [ch] + s1.queue[..th.len - 1];
    }
  }

  lemma StepsOne(s: Sys, n: nat)
    requires n > 0 && s.rq != []
    ensures Steps(s, n) == Steps(Step(s), n - 1)
  {
  }

  lemma StepsNone(s: Sys)
    ensures Steps(s, 0) == s
  {
  }

  /** A reader that tries for the free mutex, with enough characters queued, reads what it wants. */
  lemma ReadsAll(s: Sys, t: int)
    requires s.rq != [] && t == s.rq[0] && t in s.threads && !s.stopped && s.holder == NOBODY && s.queue != []
    requires var th := s.threads[t];
             && (th.pc == ReadLock || th.pc == ReadRelock) && th.irq == NoIrq
             && th.len <= |s.queue| && 0 !in s.queue[..th.len]
    ensures var len, s' := s.threads[t].len, Steps(s, s.threads[t].len + 4);
            && t in s'.threads && s'.threads[t].pc == Outside && s'.holder == NOBODY
            && s'.threads[t].got == s.threads[t].got + s.queue[..len] && s'.queue == s.queue[len..]
  {
    hide Steps;
    var th := s.threads[t];
    var s1 := Step(s);
    assert s1 == With(s, t, th.(pc := ReadCheck)).(holder := t);
    var s2 := Step(s1);
    assert s2 == With(s1, t, th.(pc := ReadDrain));
    StepsOne(s, th.len + 4);
    StepsOne(s1, th.len + 3);
    TakesAll(s2, t);
  }

  /** With nothing queued it parks, and lets go of the mutex. */
  lemma ParksEmpty(s: Sys, t: int)
    requires s.rq != [] && t == s.rq[0] && t in s.threads && !s.stopped && s.holder == NOBODY && s.queue == []
    requires s.threads[t].irq == NoIrq && (s.threads[t].pc == ReadLock || s.threads[t].pc == ReadRelock)
    ensures var s' := Step(Step(s));
            && s'.parked == s.parked + [t] && s'.holder == NOBODY && s'.rq == (s.rq + s.waiting)[1..] &&
               s'.waiting == []
            && t in s'.threads && s'.threads[t].pc == ReadRelock && s'.threads[t].got == s.threads[t].got
  {
    var th := s.threads[t];
    var s1 := Step(s);
    assert s1 == With(s, t, th.(pc := ReadCheck)).(holder := t);
  }

  /** A zero is taken and not stored, and the reader starts again with what it still wants. */
  lemma ZeroTaken(s: Sys, t: int)
    requires s.rq != [] && t == s.rq[0] && t in s.threads && !s.stopped && s.queue != [] && s.queue[0] == 0
    requires s.threads[t].pc == ReadDrain && s.threads[t].irq == NoIrq && s.threads[t].len > 0
    ensures var s' := Step(Step(s));
            && s'.queue == s.queue[1..] && t in s'.threads && s'.threads[t] == s.threads[t].(pc := ReadLock)
            && s'.holder == NOBODY
  {
    var s1 := Step(s);
    assert s1.threads[t] == s.threads[t].(pc := ReadUnlock);
  }

  /** The handler, with the mutex free and room in the queue, enqueues its characters and ends; all that
      were parked or waiting are runnable then. */
  lemma {:induction false} EnqueuesAll(s: Sys, t: int, chs: seq<int>)
    requires s.rq != [] && t == s.rq[0] && t in s.threads && !s.stopped && s.holder == NOBODY && s.handler == t
    requires s.threads[t].irq == IrqLock(chs) && chs != [] && |s.queue| + |chs| <= CAPACITY
    ensures var s' := Steps(s, 4 * |chs|);
            && t in s'.threads && s'.threads[t].irq == NoIrq && s'.handler == NOBODY && s'.holder == NOBODY
            && s'.queue == s.queue + chs && s'.parked == [] && s'.waiting == [] && s'.rq == s.rq + s.parked + s.waiting
    decreases |chs|
  {
    hide Steps;
    var s4 := Step(Step(Step(Step(s))));
    OneKey(s, t, chs);
    FourSteps(s, 4 * |chs|);
    assert s.queue + chs == s.queue + [chs[0]] + chs[1..];
    if |chs| == 1 {
      StepsNone(s4);
    } else {
      EnqueuesAll(s4, t, chs[1..]);
      assert s4.rq + s4.parked + s4.waiting == s4.rq;
    }
  }

  lemma FourSteps(s: Sys, n: nat)
    requires n >= 4 && s.rq != [] && Step(s).rq != [] && Step(Step(s)).rq != [] && Step(Step(Step(s))).rq != []
    ensures Steps(s, n) == Steps(Step(Step(Step(Step(s)))), n - 4)
  {
    hide Step, Steps;
    StepsOne(s, n);
    StepsOne(Step(s), n - 1);
    StepsOne(Step(Step(s)), n - 2);
    StepsOne(Step(Step(Step(s))), n - 3);
  }

  lemma OneKey(s: Sys, t: int, chs: seq<int>)
    requires s.rq != [] && t == s.rq[0] && t in s.threads && !s.stopped && s.holder == NOBODY && s.handler == t
    requires s.threads[t].irq == IrqLock(chs) && chs != [] && |s.queue| < CAPACITY
    ensures Step(s).rq != [] && Step(Step(s)).rq != [] && Step(Step(Step(s))).rq != []
    ensures var s' := Step(Step(Step(Step(s))));
            && s'.rq == s.rq + s.parked + s.waiting && s'.waiting == [] && s'.parked == [] && s'.holder == NOBODY
            && !s'.stopped && s'.queue == s.queue + [chs[0]] && t in s'.threads
            && s'.threads[t].irq == (if |chs| == 1 then NoIrq else IrqLock(chs[1..]))
            && s'.handler == (if |chs| == 1 then NOBODY else t)
  {
    var s1 := Step(s);
    assert s1 == With(s, t, s.threads[t].(irq := IrqEnqueue(chs))).(holder := t);
    var s2 := Step(s1);
    assert s2.threads[t].irq == IrqBroadcast(chs[1..]) && s2.queue == s.queue + [chs[0]] && s2.rq == s.rq;
    var s3 := Step(s2);
    assert s3.threads[t].irq == IrqUnlock(chs[1..]) && s3.rq == s.rq + s.parked && s3.waiting == s.waiting;
  }

  // Waiting for a free mutex.

  predicate WaitsFree(s: Sys) { s.waiting != [] && s.holder == NOBODY }

  /** The one action that has a thread wait for a free mutex is joining those that wait when the mutex is
      free. */
  lemma JoinsFree(s: Sys, a: Action)
    requires Inv(s) && !WaitsFree(s)
    ensures WaitsFree(Do(s, a)) <==>
            && a.Run? && !s.stopped && |s.rq| > 1
            && s.rq[0] in s.threads && Missed(s.threads[s.rq[0]]) && s.holder == NOBODY
  {
    hide InSequence, NoneForgotten, Late, OnOneList;
    RqThreads(s);
  }

  /** Who waits for a free mutex has been overtaken by a release between its failed try and joining. */
  lemma OvertakenWaits(s: Sys, run: seq<Action>, t: int)
    requires Initial(s)
    ensures var s' := After(s, run);
            t in s'.waiting ==> t in s'.threads && LastTry(s'.threads[t]) <= s'.releases &&
                                (s'.holder == NOBODY ==> LastTry(s'.threads[t]) < s'.releases)
  {
    Always(s, run);
  }

  /** No thread is preempted or interrupted between a failed try and joining those that wait. */
  ghost predicate Prompt(s: Sys, run: seq<Action>) {
    forall k :: 0 <= k < |run| ==>
      var z := After(s, run[..k]);
      z.rq != [] && z.rq[0] in z.threads && Missed(z.threads[z.rq[0]]) ==> run[k] == Run
  }

  /** About to join those that wait, now or when the handler is done. */
  predicate Joining(th: Thread) { th.pc.ReadMissed? || th.pc.ReadRemissed? || th.irq.IrqMissed? }

  /** Threads wait only for a locked mutex, and are about to only behind the one that holds it. */
  ghost predicate Tight(s: Sys) {
    && (s.waiting != [] ==> s.holder != NOBODY)
    && (forall t :: t in s.threads && Joining(s.threads[t]) ==>
          s.rq != [] && t == s.rq[0] && s.holder != NOBODY && (s.threads[t].irq.NoIrq? || s.threads[t].irq.IrqMissed?))
    && (forall t :: t in s.threads && s.threads[t].irq.IrqMissed? ==>
        !(s.threads[t].pc.ReadMissed? || s.threads[t].pc.ReadRemissed?))
  }

  lemma TightKeeps(s: Sys, a: Action)
    requires Inv(s) && Tight(s)
    requires s.rq[0] in s.threads && Missed(s.threads[s.rq[0]]) ==> a == Run
    ensures Tight(Do(s, a))
  {
    hide InSequence, OnOneList, NoneForgotten, Step, Late;
    RqThreads(s);
    NotAway(s, s.rq[0]);
    if a == Run { TightStep(s); }
  }

  lemma TightStep(s: Sys)
    requires Inv(s) && Tight(s)
    ensures Tight(Step(s))
  {
    hide InSequence, OnOneList, NoneForgotten, Late, Handling, Tight, Tried, Joined, Enqueued, Woken, IrqDone, Parked,
         Drained, ReadDone;
    RqThreads(s);
    var t := s.rq[0];
    var th := s.threads[t];
    if s.stopped {
    } else if Trying(th) {
      TightTried(s, t);
    } else if Missed(th) {
      TightJoined(s, t);
    } else {
      TightFree(s, Step(s), t);
    }
  }

  lemma TightTried(s: Sys, t: int)
    requires Tight(s) && s.rq != [] && t == s.rq[0] && t in s.threads && Trying(s.threads[t])
    ensures Tight(Tried(s, t))
  {
  }

  lemma TightJoined(s: Sys, t: int)
    requires Tight(s) && s.rq != [] && t == s.rq[0] && t in s.threads && Missed(s.threads[t])
    ensures Tight(Joined(s, t))
  {
  }

  /** While the running thread is not about to join, no thread is. */
  lemma TightFree(s: Sys, s': Sys, t: int)
    requires Tight(s) && s.rq != [] && t == s.rq[0] && t in s.threads && !s.stopped && s' == Step(s)
    requires !Trying(s.threads[t]) && !Missed(s.threads[t])
    ensures Tight(s')
  {
    hide Step;
    assert forall x :: x in s.threads ==> !Joining(s.threads[x]);
    StepJoins(s, t);
  }

  lemma StepJoins(s: Sys, t: int)
    requires s.rq != [] && t == s.rq[0] && t in s.threads && !s.stopped
    requires !Trying(s.threads[t]) && !Missed(s.threads[t]) && !Joining(s.threads[t])
    ensures var s' := Step(s);
            && s'.threads.Keys == s.threads.Keys && !Joining(s'.threads[t])
            && (forall x :: x in s.threads && x != t ==> s'.threads[x] == s.threads[x])
            && (s'.waiting == [] || (s'.waiting == s.waiting && s'.holder == s.holder))
  {
  }

  /** Without that, no thread ever waits for a free mutex. */
  lemma {:induction false} NoneWaitsInVain(s: Sys, run: seq<Action>)
    requires Initial(s) && Prompt(s, run)
    ensures var s' := After(s, run); Tight(s') && (s'.holder == NOBODY ==> s'.waiting == [])
  {
    hide Inv;
    if run != [] {
      var r := run[..|run| - 1];
      assert forall k :: 0 <= k < |r| ==> r[..k] == run[..k];
      NoneWaitsInVain(s, r);
      Always(s, r);
      RqThreads(After(s, r));
      TightKeeps(After(s, r), run[|run| - 1]);
    }
  }

  /** With it, one may: thread 2 fails to get the mutex and is preempted; thread 1, which has it, goes to
      wait for characters; then thread 2 joins those that wait for the mutex, which is free. */
  lemma WaitsInVain(s: Sys)
    requires Initial(s) && s.idle == 0 && s.rq == [1, 2, 0] && s.threads.Keys == {0, 1, 2}
    ensures var s' := After(s, [Read(1), Run, Preempt, Read(1), Run, Preempt, Preempt, Run, Run]);
            s'.holder == NOBODY && s'.waiting == [2]
  {
    hide Do, After, OnOneList;
    var r1 := [Read(1), Run, Preempt];
    var r2 := r1 + [Read(1), Run, Preempt];
    AfterNone(s);
    AfterThree(s, [], Read(1), Run, Preempt);
    AfterThree(s, r1, Read(1), Run, Preempt);
    AfterThree(s, r2, Preempt, Run, Run);
    assert [] + r1 == r1;
    assert r2 + [Preempt, Run, Run] == [Read(1), Run, Preempt, Read(1), Run, Preempt, Preempt, Run, Run];
    FirstLocks(s);
    SecondMisses(After(s, r1));
    FirstParks(After(s, r2));
  }

  lemma AfterNone(s: Sys)
    ensures After(s, []) == s
  {
  }

  lemma FirstLocks(s: Sys)
    requires s.idle == 0 && s.rq == [1, 2, 0] && 1 in s.threads && s.holder == NOBODY && !s.stopped
    requires s.threads[1].pc == Outside && s.threads[1].irq == NoIrq
    ensures var s' := Do(Do(Do(s, Read(1)), Run), Preempt);
            && s' == s.(rq := [2, 0, 1], holder := 1, threads := s'.threads) && s'.threads.Keys == s.threads.Keys
            && s'.threads[1] == Begun(s.threads[1], 1).(pc := ReadCheck)
            && (2 in s.threads ==> s'.threads[2] == s.threads[2])
  {
  }

  lemma SecondMisses(s: Sys)
    requires s.idle == 0 && s.rq == [2, 0, 1] && 1 in s.threads && 2 in s.threads && s.holder == 1 && !s.stopped
    requires s.threads[2].pc == Outside && s.threads[2].irq == NoIrq
    ensures var s' := Do(Do(Do(s, Read(1)), Run), Preempt);
            && s' == s.(rq := [0, 1, 2], threads := s'.threads) && s'.threads.Keys == s.threads.Keys
            && s'.threads[1] == s.threads[1] && s'.threads[2].pc == ReadMissed && s'.threads[2].irq == NoIrq
  {
  }

  lemma FirstParks(s: Sys)
    requires s.rq == [0, 1, 2] && 1 in s.threads && 2 in s.threads && !s.stopped && s.queue == [] && s.waiting == []
    requires s.threads[1].pc == ReadCheck && s.threads[1].irq == NoIrq && s.threads[2].pc == ReadMissed &&
             s.threads[2].irq == NoIrq
    ensures var s' := Do(Do(Do(s, Preempt), Run), Run); s'.holder == NOBODY && s'.waiting == [2]
  {
    var s1 := Do(s, Preempt);
    assert s1.rq == [1, 2, 0];
    var s2 := Do(s1, Run);
    assert s2 == Parked(s1, 1) && s2.rq == [2, 0] && s2.holder == NOBODY;
  }

  lemma AfterThree(s: Sys, run: seq<Action>, a: Action, b: Action, c: Action)
    ensures After(s, run + [a, b, c]) == Do(Do(Do(After(s, run), a), b), c)
  {
    hide After, Do;
    AfterMore(s, run, a);
    AfterMore(s, run + [a], b);
    AfterMore(s, run + [a] + [b], c);
    assert run + [a] + [b] + [c] == run + [a, b, c];
  }

  // A holder that is interrupted.

  /** The interrupt has hit the thread that holds the mutex. */
  ghost predicate Stuck(s: Sys) {
    s.holder != NOBODY && s.holder in s.threads && Caught(s.threads[s.holder])
  }

  /** The holder of the mutex is runnable unless it was interrupted while it held the mutex. */
  lemma HolderRuns(s: Sys, run: seq<Action>)
    requires Initial(s)
    ensures var s' := After(s, run); s'.holder != NOBODY && s'.holder !in s'.rq ==> Stuck(s') && s'.holder in s'.waiting
  {
    Always(s, run);
    var s' := After(s, run);
    if s'.holder != NOBODY {
      var h := s'.holder;
      assert multiset(s'.rq)[h] + multiset(s'.waiting)[h] + multiset(s'.parked)[h] == 1;
    }
  }

  /** The one action that does this is a keyboard interrupt on the holder. */
  lemma StuckBy(s: Sys, a: Action)
    requires Inv(s) && !Stuck(s)
    ensures Stuck(Do(s, a)) <==> a.Interrupt? && Taking(s, a.chs) && s.rq[0] == s.holder
  {
    hide InSequence, OnOneList, NoneForgotten, Late;
    RqThreads(s);
  }

  /** From then on the same thread holds the mutex for ever, and no character comes in or goes out. */
  lemma StuckStep(s: Sys, a: Action)
    requires Inv(s) && Stuck(s)
    ensures var s' := Do(s, a);
            Stuck(s') && s'.holder == s.holder && s'.queue == s.queue && s'.given == s.given && s'.log == s.log
  {
    hide InSequence, OnOneList, NoneForgotten, Late;
    RqThreads(s);
  }

  lemma {:induction false} StuckForever(s: Sys, run: seq<Action>)
    requires Inv(s) && Stuck(s)
    ensures var s' := After(s, run);
            Inv(s') && Stuck(s') && s'.holder == s.holder && s'.queue == s.queue && s'.given == s.given &&
            s'.log == s.log
  {
    hide Inv, Stuck;
    if run != [] {
      var z := After(s, run[..|run| - 1]);
      StuckForever(s, run[..|run| - 1]);
      StuckStep(z, run[|run| - 1]);
      Keeps(z, run[|run| - 1]);
    }
  }

  /** And as soon as it has run twice it waits for itself. */
  lemma StuckWaits(s: Sys)
    requires Inv(s) && Stuck(s) && !s.stopped && s.rq[0] == s.holder && |s.rq| > 1
    ensures s.threads[s.holder].irq.IrqLock? ==> s.holder in Do(Do(s, Run), Run).waiting
    ensures s.threads[s.holder].irq.IrqMissed? ==> s.holder in Do(s, Run).waiting
    ensures s.threads[s.holder].irq.IrqLock? || s.threads[s.holder].irq.IrqMissed?
  {
    hide InSequence, OnOneList, NoneForgotten, Late;
    RqThreads(s);
  }

  /** So the holder stays runnable in exactly the runs in which it is never the interrupted thread. */
  lemma {:induction false} NeverStuck(s: Sys, run: seq<Action>)
    requires Initial(s)
    ensures Stuck(After(s, run)) <==>
            exists k :: 0 <= k < |run| && run[k].Interrupt? && Taking(After(s, run[..k]), run[k].chs) &&
                        After(s, run[..k]).rq[0] == After(s, run[..k]).holder
  {
    hide Inv, Stuck;
    if run == [] {
      assert !Stuck(s) by { InitialFree(s); }
    } else {
      var r, a := run[..|run| - 1], run[|run| - 1];
      var z := After(s, r);
      assert forall k :: 0 <= k < |r| ==> r[..k] == run[..k] && r[k] == run[k];
      NeverStuck(s, r);
      Always(s, r);
      if Stuck(z) { StuckStep(z, a); } else { StuckBy(z, a); }
    }
  }

  lemma InitialFree(s: Sys)
    requires Initial(s)
    ensures !Stuck(s)
  {
  }

  /** The interrupt hits reader 1, which holds the mutex. */
  lemma StuckRun(s: Sys)
    requires Initial(s) && s.idle == 0 && s.rq == [1, 0] && s.threads.Keys == {0, 1}
    ensures Stuck(After(s, [Read(1), Run, Interrupt([65])]))
  {
    hide Do, After, OnOneList;
    AfterNone(s);
    AfterThree(s, [], Read(1), Run, Interrupt([65]));
    assert [] + [Read(1), Run, Interrupt([65])] == [Read(1), Run, Interrupt([65])];
    LockAndKey(s);
  }

  lemma LockAndKey(s: Sys)
    requires Initial(s) && s.idle == 0 && s.rq == [1, 0] && s.threads.Keys == {0, 1}
    ensures Stuck(Do(Do(Do(s, Read(1)), Run), Interrupt([65])))
  {
    hide OnOneList;
    var s1 := Do(s, Read(1));
    assert s1 == With(s, 1, Begun(s.threads[1], 1));
    var s2 := Do(s1, Run);
    assert s2 == Tried(s1, 1) && s2.holder == 1 && s2.rq == [1, 0];
  }

  // No thread left to run.

  /** The last runnable thread is about to join those that wait. */
  predicate Dry(s: Sys) {
    s.rq != [] && s.rq[0] in s.threads && Missed(s.threads[s.rq[0]]) && |s.rq| == 1
  }

  /** The running handler is about to enqueue into a full queue. */
  predicate Overflows(s: Sys) {
    && s.rq != [] && s.rq[0] in s.threads && s.threads[s.rq[0]].irq.IrqEnqueue?
    && s.threads[s.rq[0]].irq.chs != [] && |s.queue| >= CAPACITY
  }

  /** The system stops exactly where the running thread joins those that wait and leaves the run queue
      empty, or where it enqueues into a full queue. */
  lemma StopsBy(s: Sys, a: Action)
    requires Inv(s) && !s.stopped
    ensures Do(s, a).stopped <==> a.Run? && (Dry(s) || Overflows(s))
  {
    hide InSequence, NoneForgotten, Late, OnOneList, Exclusive, WaitersOk;
    RqThreads(s);
    if a.Run? { StepStops(s, s.rq[0]); }
  }

  lemma StepStops(s: Sys, t: int)
    requires s.rq != [] && t == s.rq[0] && t in s.threads && !s.stopped
    ensures Step(s).stopped <==> Dry(s) || Overflows(s)
  {
  }

  /** Which happens in exactly the runs that come by such a state. */
  lemma {:induction false} Stops(s: Sys, run: seq<Action>)
    requires Initial(s)
    ensures After(s, run).stopped <==>
            exists k :: 0 <= k < |run| && run[k].Run? && (Dry(After(s, run[..k])) || Overflows(After(s, run[..k])))
  {
    hide Inv, Dry, Overflows, Do;
    if run != [] {
      var r, a := run[..|run| - 1], run[|run| - 1];
      var z := After(s, r);
      assert forall k :: 0 <= k < |r| ==> r[..k] == run[..k] && r[k] == run[k];
      Stops(s, r);
      Always(s, r);
      if z.stopped { StaysStopped(z, a); } else { StopsBy(z, a); }
    }
  }

  lemma StaysStopped(s: Sys, a: Action)
    requires s.stopped
    ensures Do(s, a).stopped
  {
  }

  /** The last runnable thread that must wait is the idle one, or the idle one waits itself: in either case
      an interrupt has hit the idle thread. */
  lemma LastRunnable(s: Sys)
    requires Inv(s) && Dry(s)
    ensures s.rq[0] == s.idle || s.idle in s.waiting
    ensures s.idle == s.handler
  {
    hide InSequence, NoneForgotten, Late, Exclusive;
    var i := s.idle;
    assert multiset(s.rq)[i] + multiset(s.waiting)[i] + multiset(s.parked)[i] == 1;
    assert s.rq == [s.rq[0]];
  }

  /** Nor does it come to that while threads wait only for a locked mutex. */
  lemma TightRuns(s: Sys)
    requires Inv(s) && Tight(s)
    ensures !Dry(s)
  {
    hide InSequence, NoneForgotten, Late, OnOneList;
    RqThreads(s);
    if Dry(s) { LastRunnable(s); }
  }

  /** No keyboard interrupt is taken on the idle thread. */
  ghost predicate SparesIdle(s: Sys, run: seq<Action>) {
    forall k :: 0 <= k < |run| && run[k].Interrupt? ==>
      var z := After(s, run[..k]); Taking(z, run[k].chs) ==> z.rq[0] != z.idle
  }

  lemma IdleSpared(s: Sys, a: Action)
    requires Inv(s) && s.threads[s.idle].irq.NoIrq?
    requires a.Interrupt? && Taking(s, a.chs) ==> s.rq[0] != s.idle
    ensures var s' := Do(s, a); s'.idle == s.idle && s'.idle in s'.threads && s'.threads[s'.idle].irq.NoIrq?
  {
    hide Inv;
    RqThreads(s);
  }

  /** When no interrupt is taken on the idle thread, its handler never runs. */
  lemma {:induction false} IdleStays(s: Sys, run: seq<Action>)
    requires Initial(s) && SparesIdle(s, run)
    ensures var s' := After(s, run); s'.idle in s'.threads && s'.threads[s'.idle].irq.NoIrq?
  {
    hide Inv, Do;
    if run == [] {
      InitialKeeps(s);
      RqThreads(s);
    } else {
      var r, a := run[..|run| - 1], run[|run| - 1];
      assert forall k :: 0 <= k < |r| ==> r[..k] == run[..k] && r[k] == run[k];
      assert run[..|r|] == r && run[|r|] == a;
      IdleStays(s, r);
      Always(s, r);
      IdleSpared(After(s, r), a);
    }
  }

  /** There is always a thread left to run unless an interrupt hits the idle thread in the run and some
      thread is preempted or interrupted between a failed try and joining those that wait. */
  lemma NeverDry(s: Sys, run: seq<Action>)
    requires Initial(s) && (SparesIdle(s, run) || Prompt(s, run))
    ensures !Dry(After(s, run))
  {
    hide Inv, Dry, Tight;
    Always(s, run);
    var s' := After(s, run);
    if Prompt(s, run) {
      NoneWaitsInVain(s, run);
      TightRuns(s');
    } else {
      IdleStays(s, run);
      IdleRunnable(s');
    }
  }

  lemma IdleRunnable(s: Sys)
    requires Inv(s) && s.threads[s.idle].irq.NoIrq?
    ensures !Dry(s)
  {
    hide InSequence, NoneForgotten, Late, Exclusive, OnOneList;
    RqThreads(s);
    if Dry(s) { LastRunnable(s); }
  }

  /** With both it may come to that: reader 1 has the mutex when the interrupt hits the idle thread, whose
      try fails; that thread is preempted, reader 1 goes to wait for characters, and then the idle thread
      joins those that wait. */
  lemma RunsDry(s: Sys)
    requires Initial(s) && s.idle == 0 && s.rq == [1, 0] && s.threads.Keys == {0, 1}
    ensures var run := [Read(1), Run, Preempt, Interrupt([65]), Run, Preempt, Run];
            Dry(After(s, run)) && After(s, run + [Run]).stopped
  {
    hide Do, After, OnOneList;
    var r1 := [Read(1), Run, Preempt];
    var r2 := r1 + [Interrupt([65]), Run, Preempt];
    AfterNone(s);
    AfterThree(s, [], Read(1), Run, Preempt);
    AfterThree(s, r1, Interrupt([65]), Run, Preempt);
    AfterMore(s, r2, Run);
    AfterMore(s, r2 + [Run], Run);
    assert [] + r1 == r1;
    assert r2 + [Run] == [Read(1), Run, Preempt, Interrupt([65]), Run, Preempt, Run];
    DryLock(s);
    DryMiss(After(s, r1));
    DryPark(After(s, r2));
  }

  lemma DryLock(s: Sys)
    requires Initial(s) && s.idle == 0 && s.rq == [1, 0] && s.threads.Keys == {0, 1}
    ensures var s' := Do(Do(Do(s, Read(1)), Run), Preempt);
            && s'.rq == [0, 1] && s'.holder == 1 && s'.handler == NOBODY && s'.idle == 0 && !s'.stopped
            && s'.waiting == [] && s'.queue == [] && s'.threads.Keys == {0, 1}
            && s'.threads[0] == s.threads[0] && s'.threads[1] == Begun(s.threads[1], 1).(pc := ReadCheck)
  {
    hide OnOneList;
    var s1 := Do(s, Read(1));
    assert s1 == With(s, 1, Begun(s.threads[1], 1));
    var s2 := Do(s1, Run);
    assert s2 == Tried(s1, 1) && s2.rq == [1, 0];
  }

  lemma DryMiss(s: Sys)
    requires s.rq == [0, 1] && s.holder == 1 && s.handler == NOBODY && s.idle == 0 && !s.stopped
    requires s.waiting == [] && s.queue == [] && s.threads.Keys == {0, 1}
    requires s.threads[0].pc == Outside && s.threads[0].irq == NoIrq
    requires s.threads[1].pc == ReadCheck && s.threads[1].irq == NoIrq
    ensures var s' := Do(Do(Do(s, Interrupt([65])), Run), Preempt);
            && s'.rq == [1, 0] && s'.waiting == [] && s'.queue == [] && !s'.stopped && s'.threads.Keys == {0, 1}
            && s'.threads[0].irq == IrqMissed([65]) && s'.threads[1] == s.threads[1]
  {
    var s1 := Do(s, Interrupt([65]));
    assert s1 == With(s, 0, s.threads[0].(irq := IrqLock([65]))).(handler := 0);
    var s2 := Do(s1, Run);
    assert s2 == Tried(s1, 0) && s2.rq == [0, 1];
  }

  lemma DryPark(s: Sys)
    requires s.rq == [1, 0] && s.waiting == [] && s.queue == [] && !s.stopped && s.threads.Keys == {0, 1}
    requires s.threads[0].irq == IrqMissed([65]) && s.threads[1].pc == ReadCheck && s.threads[1].irq == NoIrq
    ensures Dry(Do(s, Run)) && Do(Do(s, Run), Run).stopped
  {
    var s1 := Do(s, Run);
    assert s1 == Parked(s, 1) && s1.rq == [0];
  }

  /** What a single reader stores is what was taken, short of the zeros. */
  lemma {:induction false} OneReader(log: seq<Taken>, r: int)
    requires forall i :: 0 <= i < |log| ==> log[i].reader == r
    ensures |Stored(log, r)| <= |log|
    ensures |Stored(log, r)| == |log| <==> forall i :: 0 <= i < |log| ==> log[i].ch != 0
    ensures |Stored(log, r)| == |log| ==> Stored(log, r) == Bytes(log)
  {
    if log != [] {
      OneReader(log[..|log| - 1], r);
    }
  }

  lemma {:induction false} BytesAt(log: seq<Taken>, i: int)
    requires 0 <= i < |log|
    ensures |Bytes(log)| == |log| && Bytes(log)[i] == log[i].ch
  {
    BytesLength(log);
    BytesLength(log[..|log| - 1]);
    if i < |log| - 1 { BytesAt(log[..|log| - 1], i); }
  }

  lemma {:induction false} BytesLength(log: seq<Taken>)
    ensures |Bytes(log)| == |log|
  {
    if log != [] { BytesLength(log[..|log| - 1]); }
  }

  /** With one reader, what has been read followed by what is queued is what has been enqueued, in
      order, exactly as long as the reader has taken no zero: that ends its loop and is not stored. */
  lemma FirstInFirstOut(s: Sys, run: seq<Action>, r: int)
    requires Initial(s) && r in After(s, run).threads
    requires var s' := After(s, run); forall i :: 0 <= i < |s'.log| ==> s'.log[i].reader == r
    ensures var s' := After(s, run); s'.given == s'.threads[r].got + s'.queue <==> 0 !in Bytes(s'.log)
  {
    Always(s, run);
    var s' := After(s, run);
    BytesLength(s'.log);
    OneReader(s'.log, r);
    forall i | 0 <= i < |s'.log| ensures s'.log[i].ch == Bytes(s'.log)[i] {
      BytesAt(s'.log, i);
    }
  }
}
