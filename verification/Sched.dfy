/** Threads, mutexes and condition variables: the kernel's steps on the run queue and on the lists of
    waiting threads.  A step is a section at dispatch level together with the switch that follows it, or
    a try on a spin lock. */
module Sched {
  import opened Seqs
  import opened Lists

  const THREAD_INITIAL_QUANTUM := 5   // 10 * HZ / 1000, with HZ at 500

  /** Element 0 goes to the end of the list at `to`. */
  function Preempted(ls: map<int, seq<int>>, rq: int, to: int): map<int, seq<int>>
    requires rq in ls && to in ls && ls[rq] != []
  {
    var ls1 := ls[rq := ls[rq][1..]];
    ls1[to := ls1[to] + [ls[rq][0]]]
  }

  /** All of the list at `from` goes to the end of the run queue. */
  function Released(ls: map<int, seq<int>>, rq: int, from: int): map<int, seq<int>>
    requires rq in ls && from in ls && rq != from
  {
    ls[rq := ls[rq] + ls[from]][from := []]
  }

  class Kernel {
    const rq: int                    // runqueue_head
    var l: Links
    var current: int                 // current_tcb
    var quantum: map<int, int>
    ghost var ran: map<int, nat>     // the ticks that a thread has run since its quantum was last filled
    var locked: map<int, bool>       // the spin locks of the mutexes, by the heads of their lists
    ghost var lists: map<int, seq<int>>
    ghost var threads: set<int>      // created, and not yet returned from
    ghost var asleep: set<int>

    /** All lists are well-formed rings without common nodes, and some thread is runnable.  A thread is on
        a list or asleep, not both; nothing else is on a list.  No thread runs longer than its quantum. */
    ghost predicate Woven()
      reads this
    {
      && Rings(l, lists) && rq in lists && lists[rq] != [] && Placed(lists, threads, asleep)
      && Paced(quantum, ran, threads)
    }

    /** And the running thread has time left. */
    ghost predicate Linked()
      reads this
    {
      Woven() && Quantum(current) > 0
    }

    /** Between the steps, moreover, the running thread is the head of the run queue. */
    ghost predicate Valid()
      reads this
    {
      Linked() && current == lists[rq][0]
    }

    /** The kernel with its first thread. */
    constructor (rq: int, first: int, links: Links, heads: set<int>)
      requires rq in heads && first !in heads && Rings(links, map h | h in heads :: if h == rq then [first] else [])
      ensures Valid() && this.rq == rq && threads == {first} && asleep == {} && current == first
      ensures lists.Keys == heads && forall h :: h in heads ==> lists[h] == if h == rq then [first] else []
    {
      this.rq, l, current, locked := rq, links, first, map[];
      quantum, ran := map[first := THREAD_INITIAL_QUANTUM], map[first := 0];
      lists := map h | h in heads :: if h == rq then [first] else [];
      threads, asleep := {first}, {};
    }

    function Quantum(t: int): int
      reads this
    {
      Left(quantum, t)
    }

    /** list_del of an element of list h. */
    method Delete(x: int, ghost h: int, ghost k: int)
      requires Rings(l, lists) && h in lists && 0 <= k < |lists[h]| && lists[h][k] == x
      modifies `l, `lists
      ensures Rings(l, lists) && lists == old(lists)[h := Without(old(lists)[h], k)] && Loose(lists, x)
    {
      DelRings(l, lists, h, k);
      var p, n := l.Prev(x), l.Next(x);
      l := WithPrev(l, n, p);
      l := WithNext(l, p, n);
      lists := lists[h := Without(lists[h], k)];
    }

    /** list_add_tail. */
    method AddTail(x: int, h: int)
      requires Rings(l, lists) && h in lists && Loose(lists, x)
      modifies `l, `lists
      ensures Rings(l, lists) && lists == old(lists)[h := old(lists)[h] + [x]]
    {
      AddRings(l, lists, x, h);
      AddRing(l, x, h, lists[h]);
      var p := l.Prev(h);
      l := WithPrev(l, h, x);
      l := WithNext(l, x, h);
      l := WithPrev(l, x, p);
      l := WithNext(l, p, x);
      lists := lists[h := lists[h] + [x]];
    }

    /** The head of the run queue becomes the running thread. */
    method Dispatch()
      requires Rings(l, lists) && rq in lists && lists[rq] != [] && Paced(quantum, ran, threads)
      modifies `current, `quantum, `ran
      ensures current == lists[rq][0] && Quantum(current) > 0 && Paced(quantum, ran, threads)
      ensures Refilled(old(quantum), quantum, current)
    {
      RingFirst(l, rq, lists[rq]);
      var next := l.Next(rq);
      current := next;
      if Quantum(next) <= 0 {
        quantum := quantum[next := THREAD_INITIAL_QUANTUM];
        ran := ran[next := 0];
      }
    }

    /** thread_schedule_preempted_in_list: the head of the run queue goes to the end of a list, the run
        queue itself or, if another thread is runnable, a list of waiting threads. */
    method SchedulePreempted(to: int)
      requires Woven() && to in lists && (to == rq || |lists[rq]| > 1)
      modifies `l, `lists, `current, `quantum, `ran
      ensures Valid() && lists == Preempted(old(lists), rq, to) && Refilled(old(quantum), quantum, current)
    {
      hide Placed, Paced;
      RingFirst(l, rq, lists[rq]);
      var prev := l.Next(rq);
      ghost var ls0 := lists;
      Delete(prev, rq, 0);
      AddTail(prev, to);
      MovedLists(ls0, rq, to);
      PreemptedPlaced(ls0, rq, to, threads, asleep);
      Dispatch();
    }

    /** thread_schedule. */
    method Schedule()
      requires Woven()
      modifies `l, `lists, `current, `quantum, `ran
      ensures Valid() && lists == old(lists)[rq := Rotated(old(lists)[rq])]
      ensures Refilled(old(quantum), quantum, current)
    {
      MovedHome(lists, rq);
      SchedulePreempted(rq);
    }

    /** thread_timer_hook: the running thread's quantum runs down, and with it its turn. */
    method TimerHook()
      requires Linked()
      modifies `l, `lists, `current, `quantum, `ran
      ensures Linked() && (old(Valid()) || old(Quantum(current)) <= 1 ==> Valid())
      ensures lists == if old(Quantum(current)) > 1 then old(lists) else old(lists)[rq := Rotated(old(lists)[rq])]
      ensures old(Quantum(current)) > 1 ==> current == old(current)
      ensures Refilled(old(quantum)[old(current) := old(Quantum(current)) - 1], quantum, current)
      ensures old(current) in threads && (old(Quantum(current)) > 1 || current != old(current)) ==>
                Ticks(ran, old(current)) == old(Ticks(ran, current)) + 1
    {
      quantum := quantum[current := Quantum(current) - 1];
      ran := ran[current := Ticks(ran, current) + 1];
      if Quantum(current) > 0 {
        return;
      }
      Schedule();
    }

    /** thread_create: a new thread is runnable, with a full quantum. */
    method Create(t: int)
      requires Linked() && Loose(lists, t) && t !in threads
      modifies `l, `lists, `threads, `quantum, `ran
      ensures Linked() && (old(Valid()) ==> Valid())
      ensures lists == old(lists)[rq := old(lists)[rq] + [t]] && threads == old(threads) + {t}
      ensures quantum == old(quantum)[t := THREAD_INITIAL_QUANTUM]
    {
      hide Placed, Paced;
      CreatedPlaced(lists, rq, t, threads, asleep);
      CreatedPaced(quantum, ran, threads, t);
      quantum := quantum[t := THREAD_INITIAL_QUANTUM];
      ran := ran[t := 0];
      AddTail(t, rq);
      threads := threads + {t};
    }

    /** thread_wake: a thread that is asleep becomes runnable. */
    method Wake(t: int)
      requires Linked() && t in asleep
      modifies `l, `lists, `asleep
      ensures Linked() && (old(Valid()) ==> Valid())
      ensures lists == old(lists)[rq := old(lists)[rq] + [t]] && asleep == old(asleep) - {t}
    {
      AddTail(t, rq);
      asleep := asleep - {t};
    }

    /** The first section of thread_sleep: a runnable thread, but not the last one, leaves the run queue.
        Until the second one, which is thread_schedule, the thread may still be the running one. */
    method TakeOff(t: int, ghost k: int)
      requires Linked() && 0 <= k < |lists[rq]| && lists[rq][k] == t && |lists[rq]| > 1
      modifies `l, `lists, `asleep
      ensures Linked() && lists == old(lists)[rq := Without(old(lists)[rq], k)] && asleep == old(asleep) + {t}
      ensures old(Valid()) && k > 0 ==> Valid()
    {
      WithoutPlaced(l, lists, rq, k, threads, asleep);
      NotTwice(l, lists, rq, k);
      Delete(t, rq, k);
      asleep := asleep + {t};
    }

    /** The second section of thread_sleep, whatever has happened since the first: the thread, if it is the
        running one, enters the scheduler, which moves the head of the run queue to its end, though that is
        another thread or the woken thread itself. */
    method SleepRest(t: int)
      requires Linked()
      modifies `l, `lists, `current, `quantum, `ran
      ensures Linked() && (t == old(current) || old(Valid()) ==> Valid())
      ensures lists == if t == old(current) then old(lists)[rq := Rotated(old(lists)[rq])] else old(lists)
      ensures if t == old(current) then Refilled(old(quantum), quantum, current) else quantum == old(quantum)
      ensures t != old(current) ==> current == old(current)
    {
      if t == current {
        Schedule();
      }
    }

    /** thread_sleep, with nothing between its two sections.  When the thread is the running one, the
        scheduler is entered with the next thread already at the head, so that one is passed over. */
    method Sleep(t: int, ghost k: int)
      requires Valid() && 0 <= k < |lists[rq]| && lists[rq][k] == t && |lists[rq]| > 1
      modifies `l, `lists, `asleep, `current, `quantum, `ran
      ensures Valid() && asleep == old(asleep) + {t} && TimeKept(old(quantum), quantum)
      ensures lists == old(lists)[rq := if k == 0 then Rotated(old(lists)[rq][1..]) else Without(old(lists)[rq], k)]
    {
      hide Placed;
      NotTwice(l, lists, rq, k);
      ghost var ls0 := lists;
      TakeOff(t, k);
      if k == 0 { HeadOff(ls0[rq]); }
      SleepRest(t);
      assert k == 0 ==> lists == ls0[rq := Rotated(ls0[rq][1..])];
    }

    /** The first section of thread_returned: the head of the run queue, which is the running thread, is
        taken off for good.  What follows is thread_schedule. */
    method Retire()
      requires Valid() && |lists[rq]| > 1
      modifies `l, `lists, `threads, `asleep
      ensures Linked() && threads == old(threads) - {old(current)} && asleep == old(asleep)
      ensures lists == old(lists)[rq := old(lists)[rq][1..]]
    {
      hide Placed;
      RingFirst(l, rq, lists[rq]);
      ghost var t := current;
      AwakePlaced(lists, rq, 0, threads, asleep);
      HeadOff(lists[rq]);
      TakeOff(l.Next(rq), 0);
      GonePlaced(lists, t, threads, asleep);
      threads, asleep := threads - {t}, asleep - {t};
    }

    /** thread_returned, with nothing between its sections: again the next thread is passed over. */
    method Returned()
      requires Valid() && |lists[rq]| > 1
      modifies `l, `lists, `threads, `asleep, `current, `quantum, `ran
      ensures Valid() && threads == old(threads) - {old(current)} && asleep == old(asleep)
      ensures TimeKept(old(quantum), quantum)
      ensures lists == old(lists)[rq := Rotated(old(lists)[rq][1..])]
    {
      hide Placed, Paced;
      ghost var ls0 := lists;
      Retire();
      Schedule();
      assert lists == ls0[rq := Rotated(ls0[rq][1..])];
    }

    /** The loop of mutex_unlock and condvar_broadcast: all waiting threads become runnable. */
    method ReleaseAll(from: int)
      requires Linked() && from in lists && from != rq
      modifies `l, `lists
      ensures Linked() && (old(Valid()) ==> Valid()) && lists == Released(old(lists), rq, from)
    {
      hide Placed, PartReleased, Released;
      ghost var ls0 := lists;
      RingFirst(l, from, lists[from]);
      var pos := l.Next(from);
      var n := l.Next(pos);
      ReleasedNone(lists, rq, from);
      ghost var i := 0;
      while pos != from
        invariant Rings(l, lists) && 0 <= i <= |ls0[from]| && rq in lists && from in lists
        invariant lists[from] == ls0[from][i..]
        invariant lists == PartReleased(ls0, rq, from, i)
        invariant pos == l.Next(from) && n == l.Next(pos)
        decreases |ls0[from]| - i
      {
        RingFirst(l, from, lists[from]);
        RingNext(l, from, lists[from], 0);
        Delete(pos, from, 0);
        AddTail(pos, rq);
        ReleasedMore(ls0, rq, from, i);
        i := i + 1;
        pos := n;
        RingFirst(l, from, lists[from]);
        n := l.Next(pos);
      }
      RingFirst(l, from, lists[from]);
      FromNotIn(l, lists, from);
      ReleasedWhole(ls0, rq, from, i);
      ReleasedPlaced(ls0, rq, from, threads, asleep);
    }

    function Locked(m: int): bool
      reads this
    {
      m in locked && locked[m]
    }

    /** spin_try_lock on the lock of a mutex. */
    method TryLock(m: int) returns (got: bool)
      modifies `locked
      ensures got == !old(Locked(m)) && locked == if got then old(locked)[m := true] else old(locked)
    {
      got := !Locked(m);
      if got {
        locked := locked[m := true];
      }
    }

    /** The section of mutex_lock behind a failed try: the running thread joins those that wait, and
        another one runs.  The mutex may have become free meanwhile. */
    method Join(m: int)
      requires Valid() && m in lists && m != rq && |lists[rq]| > 1
      modifies `l, `lists, `current, `quantum, `ran
      ensures Valid() && lists == Preempted(old(lists), rq, m) && Refilled(old(quantum), quantum, current)
    {
      SchedulePreempted(m);
    }

    /** mutex_unlock. */
    method Unlock(m: int)
      requires Linked() && m in lists && m != rq && Locked(m)
      modifies `l, `lists, `locked
      ensures Linked() && (old(Valid()) ==> Valid()) && lists == Released(old(lists), rq, m) &&
              locked == old(locked)[m := false]
    {
      ReleaseAll(m);
      locked := locked[m := false];
    }

    /** condvar_signal. */
    method Signal(c: int)
      requires Linked() && c in lists && c != rq
      modifies `l, `lists
      ensures Linked() && (old(Valid()) ==> Valid())
      ensures lists == if old(lists)[c] == [] then old(lists)
                       else old(lists)[c := old(lists)[c][1..]][rq := old(lists)[rq] + [old(lists)[c][0]]]
    {
      hide Placed, Paced;
      RingFirst(l, c, lists[c]);
      FromNotIn(l, lists, c);
      if l.Next(c) != c {
        var tmp := l.Next(c);
        MovedLists(lists, c, rq);
        PreemptedPlaced(lists, c, rq, threads, asleep);
        Delete(tmp, c, 0);
        AddTail(tmp, rq);
      }
    }

    /** condvar_broadcast. */
    method Broadcast(c: int)
      requires Linked() && c in lists && c != rq
      modifies `l, `lists
      ensures Linked() && (old(Valid()) ==> Valid()) && lists == Released(old(lists), rq, c)
    {
      ReleaseAll(c);
    }

    /** The first half of condvar_wait, which is one step: the mutex is released and the running
        thread parked.  The second half is mutex_lock. */
    method Park(c: int, m: int)
      requires Valid() && c in lists && m in lists && c != rq && m != rq && c != m && Locked(m)
      requires |lists[rq]| + |lists[m]| > 1
      modifies `l, `lists, `current, `quantum, `ran, `locked
      ensures Valid() && lists == Preempted(Released(old(lists), rq, m), rq, c) && locked == old(locked)[m := false]
      ensures Refilled(old(quantum), quantum, current)
    {
      Unlock(m);
      SchedulePreempted(c);
    }

    /** As many calls of thread_schedule as there are runnable threads make each of them the running
        thread once, in the order of the queue, and leave the queue as it was. */
    method RoundRobin() returns (order: seq<int>)
      requires Valid()
      modifies `l, `lists, `current, `quantum, `ran
      ensures Valid() && lists == old(lists) && order == Rotated(old(lists)[rq]) && TimeKept(old(quantum), quantum)
    {
      hide Placed, Paced, TimeKept, Refilled;
      ghost var s, ls0, q0 := lists[rq], lists, quantum;
      KeptNow(q0);
      order := [];
      var n := 0;
      assert s[0..] + s[..0] == s;
      assert lists[rq := s] == lists;
      ghost var size := |s|;
      n := CountQueue();
      while |order| < n
        invariant Valid() && |order| <= n == |s| && TimeKept(q0, quantum)
        invariant lists == ls0[rq := s[|order|..] + s[..|order|]]
        invariant order == (s + [s[0]])[1..|order| + 1]
      {
        RotatedOnce(s, |order|);
        ghost var q := quantum;
        Schedule();
        KeptMore(q0, q, quantum, current);
        order := order + [current];
      }
      RotatedAll(s, order);
      assert ls0[rq := s] == ls0;
    }

    /** The length of the run queue. */
    method CountQueue() returns (n: nat)
      requires Valid()
      ensures n == |lists[rq]|
    {
      n := 0;
      RingFirst(l, rq, lists[rq]);
      var pos := l.Next(rq);
      while pos != rq
        invariant n <= |lists[rq]| && pos == if n < |lists[rq]| then lists[rq][n] else rq
        decreases |lists[rq]| - n
      {
        assert n < |lists[rq]|;
        RingNext(l, rq, lists[rq], n);
        n := n + 1;
        pos := l.Next(pos);
      }
      NoHead(l, lists, rq, n);
    }
  }

  function Left(quantum: map<int, int>, t: int): int { if t in quantum then quantum[t] else 0 }

  function Ticks(ran: map<int, nat>, t: int): nat { if t in ran then ran[t] else 0 }

  /** What a thread has run and what it has left make up a full quantum. */
  ghost predicate Paced(quantum: map<int, int>, ran: map<int, nat>, threads: set<int>) {
    forall t :: t in threads ==> Left(quantum, t) >= 0 && Ticks(ran, t) + Left(quantum, t) == THREAD_INITIAL_QUANTUM
  }

  /** Thread t gets a full quantum if it has nothing left; whatever else is left to any thread stays. */
  ghost predicate Refilled(q: map<int, int>, q': map<int, int>, t: int) {
    forall x :: Left(q', x) == if x == t && Left(q, x) <= 0 then THREAD_INITIAL_QUANTUM else Left(q, x)
  }

  /** Whoever has time left keeps it, and who has none may get a full quantum. */
  ghost predicate TimeKept(q: map<int, int>, q': map<int, int>) {
    forall x :: if Left(q, x) > 0 then Left(q', x) == Left(q, x)
                else Left(q', x) == Left(q, x) || Left(q', x) == THREAD_INITIAL_QUANTUM
  }

  lemma KeptNow(q: map<int, int>)
    ensures TimeKept(q, q)
  {
  }

  lemma KeptMore(q: map<int, int>, q': map<int, int>, q'': map<int, int>, t: int)
    requires TimeKept(q, q') && Refilled(q', q'', t)
    ensures TimeKept(q, q'')
  {
  }

  lemma CreatedPaced(quantum: map<int, int>, ran: map<int, nat>, threads: set<int>, t: int)
    requires Paced(quantum, ran, threads)
    ensures Paced(quantum[t := THREAD_INITIAL_QUANTUM], ran[t := 0], threads + {t})
  {
  }

  lemma CreatedPlaced(ls: map<int, seq<int>>, rq: int, t: int, threads: set<int>, asleep: set<int>)
    requires Placed(ls, threads, asleep) && rq in ls && Loose(ls, t) && t !in threads
    ensures Placed(ls[rq := ls[rq] + [t]], threads + {t}, asleep)
  {
    var ls' := ls[rq := ls[rq] + [t]];
    assert t in ls'[rq];
    forall x | x in threads && x !in asleep ensures exists h :: h in ls' && x in ls'[h] {
      var h :| h in ls && x in ls[h];
      assert x in ls'[h];
    }
  }

  /** Between two fillings a thread runs a full quantum at most, and a full one exactly when it is filled
      again. */
  lemma FairShare(quantum: map<int, int>, ran: map<int, nat>, threads: set<int>, t: int)
    requires Paced(quantum, ran, threads) && t in threads
    ensures Ticks(ran, t) <= THREAD_INITIAL_QUANTUM
    ensures Left(quantum, t) <= 0 <==> Ticks(ran, t) == THREAD_INITIAL_QUANTUM
  {
  }

  function Rotated(s: seq<int>): seq<int> { if s == [] then [] else s[1..] + [s[0]] }

  lemma MovedLists(ls: map<int, seq<int>>, rq: int, to: int)
    requires rq in ls && to in ls && ls[rq] != []
    ensures Without(ls[rq], 0) == ls[rq][1..]
    ensures var ls1 := ls[rq := Without(ls[rq], 0)]; ls1[to := ls1[to] + [ls[rq][0]]] == Preempted(ls, rq, to)
  {
  }

  lemma MovedHome(ls: map<int, seq<int>>, rq: int)
    requires rq in ls && ls[rq] != []
    ensures Preempted(ls, rq, rq) == ls[rq := Rotated(ls[rq])] && Rotated(ls[rq]) != []
    ensures Without(ls[rq], 0) == ls[rq][1..]
    ensures forall t :: t in ls[rq] <==> t in Rotated(ls[rq])
  {
  }

  /** Every thread is on some list or asleep, and not both; on the lists there are only threads. */
  ghost predicate Placed(ls: map<int, seq<int>>, threads: set<int>, asleep: set<int>) {
    && asleep <= threads
    && (forall t :: t in asleep ==> Loose(ls, t))
    && (forall t :: t in threads && t !in asleep ==> exists h :: h in ls && t in ls[h])
    && (forall h, t :: h in ls && t in ls[h] ==> t in threads)
  }

  /** Moves of threads between lists. */
  lemma PlacedSame(ls: map<int, seq<int>>, ls': map<int, seq<int>>, threads: set<int>, asleep: set<int>)
    requires Placed(ls, threads, asleep) && ls'.Keys == ls.Keys
    requires forall h, t :: h in ls && t in ls[h] ==> exists k :: k in ls' && t in ls'[k]
    requires forall h, t :: h in ls' && t in ls'[h] ==> exists k :: k in ls && t in ls[k]
    ensures Placed(ls', threads, asleep)
  {
  }

  lemma PreemptedPlaced(ls: map<int, seq<int>>, rq: int, to: int, threads: set<int>, asleep: set<int>)
    requires Placed(ls, threads, asleep) && rq in ls && to in ls && ls[rq] != []
    ensures Placed(Preempted(ls, rq, to), threads, asleep)
  {
    var ls' := Preempted(ls, rq, to);
    forall h, t | h in ls && t in ls[h] ensures exists k :: k in ls' && t in ls'[k] {
      if h == rq && t == ls[rq][0] {
        assert t in ls'[to];
      } else {
        if h == rq { assert ls[rq] == [ls[rq][0]] + ls[rq][1..]; }
        assert t in ls'[h];
      }
    }
    PlacedSame(ls, ls', threads, asleep);
  }

  lemma ReleasedPlaced(ls: map<int, seq<int>>, rq: int, from: int, threads: set<int>, asleep: set<int>)
    requires Placed(ls, threads, asleep) && rq in ls && from in ls && rq != from
    ensures Placed(Released(ls, rq, from), threads, asleep)
    ensures var ls' := Released(ls, rq, from);
            rq in ls' && (ls[rq] != [] ==> ls'[rq] != [] && ls'[rq][0] == ls[rq][0])
  {
    var ls' := Released(ls, rq, from);
    forall h, t | h in ls && t in ls[h] ensures exists k :: k in ls' && t in ls'[k] {
      assert if h == from then t in ls'[rq] else t in ls'[h];
    }
    PlacedSame(ls, ls', threads, asleep);
  }

  /** A thread leaves its list to sleep. */
  lemma WithoutPlaced(l: Links, ls: map<int, seq<int>>, h: int, k: int, threads: set<int>, asleep: set<int>)
    requires Placed(ls, threads, asleep) && Rings(l, ls) && h in ls && 0 <= k < |ls[h]| && |ls[h]| > 1
    ensures Without(ls[h], k) != [] && (k > 0 ==> Without(ls[h], k)[0] == ls[h][0])
    ensures Loose(ls[h := Without(ls[h], k)], ls[h][k]) ==>
            Placed(ls[h := Without(ls[h], k)], threads, asleep + {ls[h][k]})
  {
    var t, ls' := ls[h][k], ls[h := Without(ls[h], k)];
    forall x | x in ls[h] && x != t ensures x in Without(ls[h], k) {
      var i :| 0 <= i < |ls[h]| && ls[h][i] == x;
      assert Without(ls[h], k)[if i < k then i else i - 1] == x;
    }
    forall x | x in Without(ls[h], k) ensures x in ls[h] { }
    forall x | x in threads && x !in asleep && x != t ensures exists j :: j in ls' && x in ls'[j] {
      var j :| j in ls && x in ls[j];
      assert x in ls'[j];
    }
  }

  lemma HeadOff(s: seq<int>)
    requires s != []
    ensures Without(s, 0) == s[1..]
  {
  }

  /** A thread on a list is not asleep. */
  lemma AwakePlaced(ls: map<int, seq<int>>, h: int, k: int, threads: set<int>, asleep: set<int>)
    requires Placed(ls, threads, asleep) && h in ls && 0 <= k < |ls[h]|
    ensures ls[h][k] in threads && ls[h][k] !in asleep
  {
    var t := ls[h][k];
    assert t in ls[h];
    forall a | a in asleep ensures a != t { assert Loose(ls, a); }
  }

  lemma GonePlaced(ls: map<int, seq<int>>, t: int, threads: set<int>, asleep: set<int>)
    requires Placed(ls, threads, asleep) && t in asleep
    ensures Placed(ls, threads - {t}, asleep - {t})
  {
  }

  /** Elsewhere in the run queue than at its head is not the running thread. */
  lemma NotTwice(l: Links, ls: map<int, seq<int>>, rq: int, k: int)
    requires Rings(l, ls) && rq in ls && 0 <= k < |ls[rq]|
    ensures k > 0 ==> ls[rq][k] != ls[rq][0]
  {
    var d := [rq] + ls[rq];
    assert d[k + 1] == ls[rq][k] && d[1] == ls[rq][0];
  }

  function PartReleased(ls: map<int, seq<int>>, rq: int, from: int, i: int): map<int, seq<int>>
    requires rq in ls && from in ls && 0 <= i <= |ls[from]|
  {
    ls[rq := ls[rq] + ls[from][..i]][from := ls[from][i..]]
  }

  lemma ReleasedNone(ls: map<int, seq<int>>, rq: int, from: int)
    requires rq in ls && from in ls && rq != from
    ensures PartReleased(ls, rq, from, 0) == ls
  {
    assert ls[rq] + ls[from][..0] == ls[rq];
  }

  /** Those that waited run after all that are runnable, and in the order in which they came. */
  lemma InTurn(ls: map<int, seq<int>>, rq: int, from: int, i: nat)
    requires rq in ls && from in ls && rq != from && i < |ls[rq]| + |ls[from]|
    ensures var ls' := Released(ls, rq, from);
            && |ls'[rq]| == |ls[rq]| + |ls[from]| && ls'[from] == []
            && ls'[rq][i] == if i < |ls[rq]| then ls[rq][i] else ls[from][i - |ls[rq]|]
  {
  }

  lemma ReleasedMore(ls: map<int, seq<int>>, rq: int, from: int, i: int)
    requires rq in ls && from in ls && rq != from && 0 <= i < |ls[from]|
    ensures var ls1 := PartReleased(ls, rq, from, i);
            var ls2 := ls1[from := Without(ls1[from], 0)];
            ls1[from] != [] && ls1[from][0] == ls[from][i] &&
            ls2[rq := ls2[rq] + [ls[from][i]]] == PartReleased(ls, rq, from, i + 1)
  {
    var ls1 := PartReleased(ls, rq, from, i);
    assert Without(ls1[from], 0) == ls[from][i + 1..];
    assert ls[from][..i + 1] == ls[from][..i] + [ls[from][i]];
    assert ls1[rq] + [ls[from][i]] == ls[rq] + ls[from][..i + 1];
  }

  lemma ReleasedWhole(ls: map<int, seq<int>>, rq: int, from: int, i: int)
    requires rq in ls && from in ls && rq != from && 0 <= i <= |ls[from]| && ls[from][i..] == []
    ensures PartReleased(ls, rq, from, i) == Released(ls, rq, from)
  {
    assert i == |ls[from]| && ls[from][..i] == ls[from];
  }

  lemma FromNotIn(l: Links, ls: map<int, seq<int>>, h: int)
    requires Rings(l, ls) && h in ls
    ensures ls[h] != [] ==> ls[h][0] != h
  {
    var d := [h] + ls[h];
    assert ls[h] != [] ==> d[0] != d[1];
  }

  lemma RotatedOnce(s: seq<int>, k: int)
    requires 0 <= k < |s|
    ensures var c := s[k..] + s[..k];
            c != [] && Rotated(c) == s[k + 1..] + s[..k + 1] && Rotated(c)[0] == (s + [s[0]])[k + 1]
    ensures (s + [s[0]])[1..k + 1] + [(s + [s[0]])[k + 1]] == (s + [s[0]])[1..k + 2]
  {
  }

  lemma RotatedAll(s: seq<int>, ran: seq<int>)
    requires s != [] && ran == (s + [s[0]])[1..|s| + 1]
    ensures ran == Rotated(s) && s[|s|..] + s[..|s|] == s
  {
  }

  lemma NoHead(l: Links, ls: map<int, seq<int>>, h: int, n: int)
    requires Rings(l, ls) && h in ls
    ensures 0 <= n < |ls[h]| ==> ls[h][n] != h
  {
    var d := [h] + ls[h];
    assert 0 <= n < |ls[h]| ==> d[n + 1] == ls[h][n] && d[0] == h;
  }

  /** A live thread is asleep, or on exactly one list and there but once. */
  lemma OneList(l: Links, ls: map<int, seq<int>>, threads: set<int>, asleep: set<int>, t: int)
    requires Rings(l, ls) && Placed(ls, threads, asleep) && t in threads
    ensures t in asleep <==> Loose(ls, t)
    ensures t !in asleep ==> exists h, i :: h in ls && 0 <= i < |ls[h]| && ls[h][i] == t &&
                                            forall k, j :: k in ls && 0 <= j < |ls[k]| && ls[k][j] == t ==>
                                                k == h && j == i
  {
    if t !in asleep {
      var h :| h in ls && t in ls[h];
      var i :| 0 <= i < |ls[h]| && ls[h][i] == t;
      forall k, j | k in ls && 0 <= j < |ls[k]| && ls[k][j] == t ensures k == h && j == i {
        OnePlace(l, ls, h, i, k, j);
      }
    }
  }

  lemma OnePlace(l: Links, ls: map<int, seq<int>>, h: int, i: int, k: int, j: int)
    requires Rings(l, ls) && h in ls && k in ls && 0 <= i < |ls[h]| && 0 <= j < |ls[k]| && ls[h][i] == ls[k][j]
    ensures h == k && i == j
  {
    var t := ls[h][i];
    assert ([h] + ls[h])[i + 1] == t && ([k] + ls[k])[j + 1] == t;
    assert t in [h] + ls[h] && t in [k] + ls[k];
    if h == k { DistinctAt([h] + ls[h], i + 1, j + 1); }
  }

  lemma DistinctAt(s: seq<int>, i: int, j: int)
    requires Distinct(s) && 0 <= i < |s| && 0 <= j < |s| && s[i] == s[j]
    ensures i == j
  {
  }

  /** Round robin in other words: every runnable thread has run, and none twice. */
  lemma EachOnce(s: seq<int>, t: int)
    requires s != [] && Distinct(s)
    ensures Distinct(Rotated(s)) && |Rotated(s)| == |s| && (t in Rotated(s) <==> t in s)
  {
    assert s == [s[0]] + s[1..];
  }
}
