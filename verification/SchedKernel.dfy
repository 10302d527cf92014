/**
 The scheduler and mutex operations as the kernel performs them, on shared
 queues, threads and mutexes changed in place.  Each is tied to the
 corresponding function on values; the kernel's assertions are proved on the
 way.  A method that ends in sched_switch leaves `cur` empty: the rest of the call
 is `Resume`, performed when the thread runs again.
 */
module SchedKernel {
  import opened Basics
  import opened Sched
  import opened SchedRuns
  import opened SchedFairness

  class Scheduler {
    var threads: seq<Thread>
    var queues: seq<KtQueue>
    var cur: Option<nat>
    var holders: seq<Option<nat>>

    ghost function S(): State
      reads this
    {
      State(threads, queues, cur, holders)
    }

    constructor (mutexes: nat, others: nat)
      ensures S() == Boot(mutexes, others) && Inv(S())
    {
      threads := [Thread(KtRun, false, None, AtWork)];
      queues := seq(1 + mutexes + others, _ => KtQueue([], 0));
      cur := Some(0);
      holders := seq(mutexes, _ => None);
      new;
      BootInv(mutexes, others);
      assert queues == Boot(mutexes, others).queues && holders == Boot(mutexes, others).holders;
    }

    // ---- ktqueue_* ----

    method KtqueueEnqueue(q: nat, t: nat)
      requires q < |queues| && t < |threads| && threads[t].wchan.None?
      modifies this`queues, this`threads
      ensures S() == Enqueue(old(S()), q, t)
    {
      queues := queues[q := queues[q].(list := [t] + queues[q].list)];
      threads := threads[t := threads[t].(wchan := Some(q))];
      queues := queues[q := queues[q].(size := queues[q].size + 1)];
    }

    method KtqueueDequeue(q: nat) returns (t: Option<nat>)
      requires q < |queues| && (queues[q].list != [] ==> Oldest(S(), q) < |threads|)
      modifies this`queues, this`threads
      ensures old(queues[q].list) == [] ==> t.None? && S() == old(S())
      ensures old(queues[q].list) != [] ==> t == Some(Oldest(old(S()), q)) && S() == Dequeue(old(S()), q)
    {
      if queues[q].list == [] {
        return None;
      }
      var l := queues[q].list;
      var thr := l[|l| - 1];
      queues := queues[q := queues[q].(list := l[..|l| - 1])];
      threads := threads[thr := threads[thr].(wchan := None)];
      queues := queues[q := queues[q].(size := queues[q].size - 1)];
      t := Some(thr);
    }

    method KtqueueRemove(q: nat, t: nat)
      requires q < |queues| && t < |threads| && t in queues[q].list
      modifies this`queues, this`threads
      ensures S() == Remove(old(S()), q, t)
    {
      queues := queues[q := queues[q].(list := Erase(queues[q].list, t))];
      threads := threads[t := threads[t].(wchan := None)];
      queues := queues[q := queues[q].(size := queues[q].size - 1)];
    }

    // ---- sched.c and sched_helper.c ----

    method MakeRunnable(t: nat)
      requires 0 < |queues| && t < |threads| && threads[t].wchan.None?
      modifies this`queues, this`threads
      ensures S() == Sched.MakeRunnable(old(S()), t)
    {
      assert threads[t].wchan != Some(RUNQ);
      KtqueueEnqueue(RUNQ, t);
    }

    // `pc` is where the caller goes on once the thread runs again
    method SleepOn(q: nat, pc: Pc)
      requires cur.Some? && cur.value < |threads| && q < |queues| && threads[cur.value].wchan.None?
      modifies this`queues, this`threads, this`cur
      ensures S() == Sleep(old(S()), q, KtSleep, pc)
    {
      var t := cur.value;
      threads := threads[t := threads[t].(pc := pc)];
      threads := threads[t := threads[t].(state := KtSleep)];
      KtqueueEnqueue(q, t);
      threads := threads[t := threads[t].(wchan := Some(q))];
      cur := None;
    }

    // Some(-EINTR) is the early return; None means that the thread sleeps and
    // Resume gives the code
    method CancellableSleepOn(q: nat, pc: Pc) returns (code: Option<int>)
      requires cur.Some? && cur.value < |threads| && q < |queues| && threads[cur.value].wchan.None?
      modifies this`queues, this`threads, this`cur
      ensures old(threads[cur.value].cancelled) ==> code == Some(-4) && S() == old(S())
      ensures !old(threads[cur.value].cancelled) ==> code.None? && S() == Sleep(old(S()), q, KtSleepCancellable, pc)
    {
      var t := cur.value;
      if threads[t].cancelled {
        return Some(-EINTR);
      }
      threads := threads[t := threads[t].(pc := pc)];
      threads := threads[t := threads[t].(state := KtSleepCancellable)];
      KtqueueEnqueue(q, t);
      cur := None;
      code := None;
    }

    method Cancel(t: nat)
      requires Inv(S()) && t < |threads| && cur != Some(t)
      modifies this`queues, this`threads
      ensures (old(threads[t].state) == KtSleepCancellable ==>
              old(threads[t].wchan.Some? && threads[t].wchan.value < |queues|))
      ensures S() == Sched.Cancel(old(S()), t) && Inv(S())
    {
      CancelReady(S(), t);
      CancelInv(S(), t);
      ghost var s := S();
      threads := threads[t := threads[t].(cancelled := true)];
      if threads[t].state == KtSleepCancellable {
        assert QueueOk(s, threads[t].wchan.value);
        KtqueueRemove(threads[t].wchan.value, t);
        MakeRunnable(t);
      }
    }

    // The part of sched_switch after the wait for a runnable thread
    method Switch()
      requires Inv(S()) && cur.None? && queues[RUNQ].list != []
      modifies this
      ensures Oldest(old(S()), RUNQ) < |old(threads)| && S() == Dispatch(old(S())) && Inv(S())
    {
      DispatchInv(S());
      var next := KtqueueDequeue(RUNQ);
      cur := next;
    }

    // The state the kernel asserts of whoever is woken
    ghost predicate Asleep(q: nat)
      reads this
    {
      && 0 < q < |queues| && queues[q].list != [] && Oldest(S(), q) < |threads|
      && (threads[Oldest(S(), q)].state == KtSleep || threads[Oldest(S(), q)].state == KtSleepCancellable)
    }

    method WakeupOn(q: nat) returns (t: nat)
      requires Asleep(q)
      modifies this`queues, this`threads
      ensures t == Oldest(old(S()), q) && t < |old(threads)| && S() == Wakeup(old(S()), q)
    {
      var woken := KtqueueDequeue(q);
      t := woken.value;
      assert threads[t].state == KtSleep || threads[t].state == KtSleepCancellable;
      threads := threads[t := threads[t].(state := KtRun)];
      MakeRunnable(t);
    }

    // All waiters become runnable, in the order of their sleep
    method BroadcastOn(q: nat)
      requires Inv(S()) && |holders| < q < |queues|
      modifies this`queues, this`threads
      ensures forall t | t in old(queues[q].list) :: t < |old(threads)|
      ensures Inv(S()) && S() == Broadcast(old(S()), q)
      ensures |queues| == |old(queues)| && queues[q].list == []
      ensures queues[RUNQ].list == old(queues[q].list) + old(queues[RUNQ].list)
    {
      ghost var s := S();
      BroadcastInv(s, q);
      BroadcastOrder(s, q);
      while queues[q].list != []
        invariant Inv(S()) && |holders| < q < |queues|
        invariant (forall t | t in queues[q].list :: t < |threads|) && Broadcast(S(), q) == Broadcast(s, q)
        decreases |queues[q].list|
      {
        WokenWasAsleep(S(), q);
        WakeupInv(S(), q);
        BroadcastInv(Wakeup(S(), q), q);
        var _ := WakeupOn(q);
      }
    }

    // ---- kmutex.c ----

    method Unlock(m: nat)
      requires Inv(S()) && cur.Some? && m < |holders| && holders[m] == cur
      modifies this`queues, this`threads, this`holders
      ensures old(queues[WaitQ(m)].list) != [] ==> Oldest(old(S()), WaitQ(m)) < |old(threads)|
      ensures S() == Sched.Unlock(old(S()), m) && m < |holders| && holders[m] != cur
    {
      UnlockQueues(S(), m);
      assert MutexOk(S(), m);
      if queues[WaitQ(m)].list != [] {
        WokenWasAsleep(S(), WaitQ(m));
      }
      holders := holders[m := None];
      if queues[WaitQ(m)].list != [] {
        var next := WakeupOn(WaitQ(m));
        holders := holders[m := Some(next)];
      }
      assert cur != holders[m];
    }

    method Lock(m: nat)
      requires Inv(S()) && Running(S()) && m < |holders| && holders[m] != cur
      modifies this
      ensures S() == Sched.Lock(old(S()), m) && Inv(S())
    {
      LockInv(S(), m);
      assert ThreadOk(S(), cur.value);
      if holders[m].None? {
        holders := holders[m := cur];
      } else {
        SleepOn(WaitQ(m), InLock(m));
      }
    }

    // None while the thread sleeps; Resume then gives the code
    method LockCancellable(m: nat) returns (code: Option<int>)
      requires Inv(S()) && Running(S()) && m < |holders| && holders[m] != cur
      modifies this
      ensures S() == Sched.LockCancellable(old(S()), m) && Inv(S())
      ensures code.None? <==> cur.None?
      ensures code.Some? ==> m < |holders| && (code == Some(0) <==> holders[m] == cur) && code.value in {0, -4}
    {
      LockInv(S(), m);
      assert ThreadOk(S(), cur.value);
      if threads[cur.value].cancelled {
        return Some(-EINTR);
      }
      if holders[m].None? {
        holders := holders[m := cur];
        code := Some(0);
      } else {
        code := CancellableSleepOn(WaitQ(m), InLockCancellable(m));
      }
    }

    // A call that slept, from the return of sched_switch to its own
    method Resume() returns (code: int)
      requires Inv(S()) && cur.Some?
      modifies this
      ensures old(threads[cur.value].pc.InLockCancellable?) ==>
                var pc := old(threads[cur.value].pc);
                && pc.m < |old(holders)| < |old(queues)|
                && (old(queues)[WaitQ(pc.m)].list != [] ==> Oldest(old(S()), WaitQ(pc.m)) < |old(threads)|)
                && pc.m < |holders| && (code == 0 <==> holders[pc.m] == cur) && (code == 0 || code == -4)
      ensures old(threads[cur.value].pc) == InSleep(true) ==>
                code == if old(threads[cur.value].cancelled) then -4 else 0
      ensures old(threads[cur.value].pc) == InSleep(false) || old(threads[cur.value].pc.InLock?) ==> code == 0
      ensures S() == Sched.Resume(old(S())) && code == ResumeCode(old(S())) && Inv(S())
    {
      LockReturns(S());
      ResumeInv(S());
      ghost var s := S();
      var t := cur.value;
      var pc := threads[t].pc;
      code := if (pc == InSleep(true) || pc.InLockCancellable?) && threads[t].cancelled then -EINTR else 0;
      if pc.InLockCancellable? && code == -EINTR && holders[pc.m] == cur {
        Unlock(pc.m);
      }
      threads := threads[t := threads[t].(pc := AtWork)];
      assert S() == Sched.Resume(s);
    }
  }
}
