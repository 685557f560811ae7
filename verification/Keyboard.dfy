/** The keyboard driver's reading and its interrupt handler, step by step, over the kernel's lists and the
    ring buffer: every step of the code is the step of the same name of the monitor. */
module Keyboard {
  import opened Monitor
  import Lists
  import Seqs
  import Sched
  import CharQueue

  class Driver {
    const kernel: Sched.Kernel
    const queue: CharQueue.Queue
    const mutex: int                    // keyboard_wait_lock.lazy_list
    const condvar: int                  // keyboard_queue_condvar.lazy_list
    const idle: int                     // the idle thread
    var threads: map<int, Thread>       // where every thread is
    var handler: int                    // the thread that runs the handler
    var stopped: bool
    ghost var holder: int
    var releases: nat                   // how often the mutex has been released, for the record
    ghost var given: seq<int>
    ghost var log: seq<Taken>

    ghost predicate Apart()
      reads this, kernel, queue, queue.buffer
    {
      && kernel.Valid() && queue.Valid()
      && mutex in kernel.lists && condvar in kernel.lists
      && mutex != condvar && mutex != kernel.rq && condvar != kernel.rq
    }

    ghost function S(): Sys
      requires Apart()
      reads this, kernel, queue, queue.buffer
    {
      Sys(threads, idle, kernel.lists[kernel.rq], kernel.lists[mutex], kernel.lists[condvar], holder, handler,
          releases, queue.Contents(), given, log, stopped)
    }

    ghost predicate Valid()
      reads this, kernel, queue, queue.buffer
    {
      Apart() && Inv(S()) && (kernel.Locked(mutex) <==> holder != NOBODY)
    }

    /** keyboard_init, with a number of runnable threads, among them the idle one. */
    constructor (kernel: Sched.Kernel, queue: CharQueue.Queue, mutex: int, condvar: int, ids: set<int>, idle: int)
      requires kernel.Valid() && queue.Valid() && queue.Contents() == [] && NOBODY !in ids && idle in ids
      requires mutex in kernel.lists && condvar in kernel.lists && kernel.lists[mutex] == [] &&
               kernel.lists[condvar] == []
      requires mutex != condvar && mutex != kernel.rq && condvar != kernel.rq && !kernel.Locked(mutex)
      requires forall t :: t in kernel.lists[kernel.rq] <==> t in ids
      ensures Valid() && Initial(S()) && this.kernel == kernel && this.queue == queue
    {
      hide Inv, InSequence, Step;
      this.kernel, this.queue, this.mutex, this.condvar, this.idle := kernel, queue, mutex, condvar, idle;
      threads := map t | t in ids :: Thread(Outside, NoIrq, 0, [], 0, 0, 0, 0);
      stopped, holder, handler, releases, given, log := false, NOBODY, NOBODY, 0, [], [];
      new;
      StartLists(kernel.l, kernel.lists, kernel.rq, S(), ids);
      InitialKeeps(S());
    }

    /** spin_try_lock by the running thread. */
    method TryRound()
      requires Valid() && !stopped && kernel.current in threads && Trying(threads[kernel.current])
      modifies this, kernel`locked
      ensures Apart() && (kernel.Locked(mutex) <==> holder != NOBODY)
      ensures S() == Tried(old(S()), old(kernel.current))
    {
      hide Inv;
      RqThreads(S());
      var t := kernel.current;
      var th := threads[t];
      var got := kernel.TryLock(mutex);
      if got {
        threads := threads[t := Entered(th)];
        holder := t;
      } else {
        threads := threads[t := Failed(th, releases)];
      }
    }

    /** The section of mutex_lock behind a failed try. */
    method JoinRound()
      requires Valid() && !stopped && kernel.current in threads && Missed(threads[kernel.current])
      modifies this, kernel
      ensures Apart() && (kernel.Locked(mutex) <==> holder != NOBODY)
      ensures S() == Joined(old(S()), old(kernel.current))
    {
      hide Inv;
      RqThreads(S());
      var t := kernel.current;
      var n := kernel.CountQueue();
      if n == 1 {
        stopped := true;
      } else {
        threads := threads[t := Again(threads[t])];
        kernel.Join(mutex);
      }
    }

    /** The test of the queue, and condvar_wait's parking when it is empty. */
    method Check()
      requires Valid() && !stopped && kernel.current in threads
      requires threads[kernel.current].pc.ReadCheck? && threads[kernel.current].irq.NoIrq?
      modifies this, kernel
      ensures Apart() && (kernel.Locked(mutex) <==> holder != NOBODY)
      ensures S() == Step(old(S()))
    {
      hide Inv, Sched.Refilled, Sched.Paced;
      RqThreads(S());
      RunningHolds(S(), kernel.current);
      var t := kernel.current;
      var empty := queue.Empty();
      if empty {
        OthersRun(S());
        threads := threads[t := threads[t].(pc := ReadRelock)];
        holder := NOBODY;
        releases := releases + 1;
        kernel.Park(condvar, mutex);
      } else {
        threads := threads[t := threads[t].(pc := ReadDrain)];
      }
    }

    /** One round of the loop that takes characters: `len-- && (ch = keyboard_dequeue())`. */
    method Drain()
      requires Valid() && !stopped && kernel.current in threads
      requires threads[kernel.current].pc.ReadDrain? && threads[kernel.current].irq.NoIrq?
      modifies this, queue
      ensures Apart() && (kernel.Locked(mutex) <==> holder != NOBODY)
      ensures S() == Step(old(S()))
    {
      hide Inv;
      var t := kernel.current;
      var th := threads[t];
      if th.len == 0 {
        threads := threads[t := th.(pc := ReadUnlock)];
        return;
      }
      ghost var before := queue.Contents();
      var ch := queue.Dequeue();
      if before != [] { log := log + [Taken(t, ch)]; }
      if ch == 0 {
        threads := threads[t := th.(pc := ReadUnlock)];
      } else {
        threads := threads[t := th.(len := th.len - 1, got := th.got + [ch])];
      }
    }

    /** mutex_unlock by the running thread, which is th from then on. */
    method UnlockAs(th: Thread)
      requires Valid() && !stopped && kernel.current in threads && Holds(threads[kernel.current])
      modifies this`threads, this`holder, this`releases, kernel
      ensures Apart() && (kernel.Locked(mutex) <==> holder != NOBODY)
      ensures S() == Released(With(old(S()), old(kernel.current), th))
    {
      hide Inv;
      RqThreads(S());
      RunningHolds(S(), kernel.current);
      var t := kernel.current;
      threads := threads[t := th];
      holder := NOBODY;
      releases := releases + 1;
      kernel.Unlock(mutex);
    }

    /** The end of keyboard_enqueue in the handler. */
    method FinishIrq()
      requires Valid() && !stopped && kernel.current in threads && threads[kernel.current].irq.IrqUnlock?
      modifies this, kernel
      ensures Apart() && (kernel.Locked(mutex) <==> holder != NOBODY)
      ensures S() == IrqDone(old(S()), old(kernel.current))
    {
      hide Inv;
      var th := threads[kernel.current];
      var rest := th.irq.rest;
      UnlockAs(th.(irq := if rest == [] then NoIrq else IrqLock(rest)));
      if rest == [] {
        handler := NOBODY;
      }
    }

    /** The enqueueing itself; a full queue stops the kernel. */
    method Enqueue()
      requires Valid() && !stopped && kernel.current in threads && threads[kernel.current].irq.IrqEnqueue?
      modifies this, queue, queue.buffer
      ensures Apart() && (kernel.Locked(mutex) <==> holder != NOBODY)
      ensures S() == Enqueued(old(S()), old(kernel.current))
    {
      hide Inv;
      var t := kernel.current;
      var chs := threads[t].irq.chs;
      if chs == [] { return; }
      QueueBound(S());
      var panic := queue.Enqueue(chs[0]);
      if panic {
        stopped := true;
      } else {
        threads := threads[t := threads[t].(irq := IrqBroadcast(chs[1..]))];
        given := given + [chs[0]];
      }
    }

    method BroadcastAll()
      requires Valid() && !stopped && kernel.current in threads && threads[kernel.current].irq.IrqBroadcast?
      modifies this, kernel
      ensures Apart() && (kernel.Locked(mutex) <==> holder != NOBODY)
      ensures S() == Woken(old(S()), old(kernel.current))
    {
      hide Inv;
      var t := kernel.current;
      threads := threads[t := threads[t].(irq := IrqUnlock(threads[t].irq.rest))];
      kernel.Broadcast(condvar);
    }

    /** One step of the running thread.  Threads outside, the idle one among them, do nothing here. */
    method RunStep()
      requires Valid()
      modifies this, kernel, queue, queue.buffer
      ensures Valid() && S() == Step(old(S()))
    {
      hide Inv, Step, Tried, Joined, Released, Parked, Drained, Enqueued, Woken, IrqDone, ReadDone;
      var t := kernel.current;
      StepKeeps(S());
      StepIs(S());
      RqThreads(S());
      if stopped { return; }
      var th := threads[t];
      if Trying(th) {
        TryRound();
      } else if Missed(th) {
        JoinRound();
      } else {
        if th.irq.IrqEnqueue? {
          Enqueue();
        } else if th.irq.IrqBroadcast? {
          BroadcastAll();
        } else if th.irq.IrqUnlock? {
          FinishIrq();
        } else if th.pc.ReadCheck? {
          Check();
        } else if th.pc.ReadDrain? {
          Drain();
        } else if th.pc.ReadUnlock? {
          UnlockAs(th.(pc := if th.len == 0 then Outside else ReadLock));
        }
      }
    }

    /** The timer ends the turn of the running thread. */
    method PreemptStep()
      requires Valid()
      modifies kernel
      ensures Valid() && S() == Do(old(S()), Preempt)
    {
      hide Inv;
      Keeps(S(), Preempt);
      kernel.Schedule();
    }

    /** The running thread calls keyboard_read. */
    method Call(len: nat)
      requires Valid()
      modifies this
      ensures Valid() && S() == Do(old(S()), Read(len))
    {
      hide Inv;
      Keeps(S(), Read(len));
      var t := kernel.current;
      if t in threads && t != idle && threads[t].pc.Outside? && threads[t].irq.NoIrq? && len > 0 {
        threads := threads[t := Begun(threads[t], len)];
      }
    }

    /** The keyboard interrupts the running thread, whatever that is doing. */
    method Key(chs: seq<int>)
      requires Valid()
      modifies this
      ensures Valid() && S() == Do(old(S()), Interrupt(chs))
    {
      hide Inv;
      Keeps(S(), Interrupt(chs));
      var t := kernel.current;
      if chs != [] && handler == NOBODY && !stopped && t in threads {
        threads := threads[t := threads[t].(irq := IrqLock(chs))];
        handler := t;
      }
    }
  }

  /** The steps by place. */
  lemma StepIs(s: Sys)
    requires s.rq != []
    ensures var t := s.rq[0];
            if s.stopped || t !in s.threads then Step(s) == s
            else
              var th := s.threads[t];
              if Trying(th) then Step(s) == Tried(s, t)
              else if Missed(th) then Step(s) == Joined(s, t)
              else match th.irq
                case IrqEnqueue(_) => Step(s) == Enqueued(s, t)
                case IrqBroadcast(_) => Step(s) == Woken(s, t)
                case IrqUnlock(_) => Step(s) == IrqDone(s, t)
                case _ =>
                  match th.pc
                  case ReadCheck => true
                  case ReadDrain => true
                  case ReadUnlock => Step(s) ==
                      Released(With(s, t, th.(pc := if th.len == 0 then Outside else ReadLock)))
                  case _ => Step(s) == s
  {
  }

  /** A reader that parks leaves some thread runnable. */
  lemma OthersRun(s: Sys)
    requires Inv(s) && s.rq[0] in s.threads && s.threads[s.rq[0]].pc.ReadCheck?
    ensures |s.rq| + |s.waiting| > 1
  {
    var i := s.idle;
    assert multiset(s.rq)[i] + multiset(s.waiting)[i] + multiset(s.parked)[i] == 1;
    assert i in s.rq || i in s.waiting;
    assert i != s.rq[0];
    if i in s.rq { assert |s.rq| > 1; }
  }

  /** The lists at the start. */
  lemma StartLists(l: Lists.Links, ls: map<int, seq<int>>, rq: int, s: Sys, ids: set<int>)
    requires Lists.Rings(l, ls) && rq in ls && s.rq == ls[rq] && s.waiting == [] && s.parked == []
    requires forall t :: t in s.threads <==> t in ids
    requires s.idle in ids && NOBODY !in ids && forall t :: t in ls[rq] <==> t in ids
    ensures OnOneList(s)
  {
    DistinctTail(rq, ls[rq]);
    forall t ensures multiset(s.rq)[t] == if t in ls[rq] then 1 else 0 { CountOne(ls[rq], t); }
  }

  lemma DistinctTail(h: int, s: seq<int>)
    requires Seqs.Distinct([h] + s)
    ensures Seqs.Distinct(s)
  {
    assert forall i :: 0 <= i < |s| ==> ([h] + s)[i + 1] == s[i];
  }

  lemma {:induction false} CountOne(s: seq<int>, t: int)
    requires Seqs.Distinct(s)
    ensures multiset(s)[t] == if t in s then 1 else 0
  {
    if s != [] {
      CountOne(s[1..], t);
      assert s == [s[0]] + s[1..];
      assert forall i :: 0 <= i < |s[1..]| ==> s[1..][i] != s[0];
    }
  }
}
