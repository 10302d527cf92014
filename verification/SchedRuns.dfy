/**
 Runs of the scheduler: what every step keeps, and mutual exclusion.
 */
module SchedRuns {
  import opened Basics
  import opened Sched

  // ---- queues under the primitive operations ----

  lemma EnqueueQueues(s: State, q: nat, t: nat)
    requires QueuesOk(s) && q < |s.queues| && t < |s.threads| && s.threads[t].wchan.None?
    ensures QueuesOk(Enqueue(s, q, t))
  {
    var r := Enqueue(s, q, t);
    forall p | 0 <= p < |r.queues|
      ensures QueueOk(r, p)
    {
      assert QueueOk(s, p);
    }
  }

  lemma DequeueQueues(s: State, q: nat)
    requires QueuesOk(s) && q < |s.queues| && s.queues[q].list != []
    ensures Oldest(s, q) < |s.threads| && s.threads[Oldest(s, q)].wchan == Some(q)
    ensures QueuesOk(Dequeue(s, q))
  {
    assert QueueOk(s, q) && Oldest(s, q) in s.queues[q].list;
    var r, l := Dequeue(s, q), s.queues[q].list;
    forall p | 0 <= p < |r.queues|
      ensures QueueOk(r, p)
    {
      assert QueueOk(s, p);
      DropOldest(l);
      forall t: nat
        ensures t in r.queues[p].list <==> t < |r.threads| && r.threads[t].wchan == Some(p)
      {
        assert t in s.queues[p].list <==> t < |s.threads| && s.threads[t].wchan == Some(p);
      }
    }
  }

  lemma DropOldest(l: seq<nat>)
    requires NoDup(l) && l != []
    ensures NoDup(l[..|l| - 1]) && forall t :: t in l[..|l| - 1] <==> t in l && t != l[|l| - 1]
  {
    assert l == l[..|l| - 1] + [l[|l| - 1]];
  }

  lemma RemoveQueues(s: State, q: nat, t: nat)
    requires QueuesOk(s) && q < |s.queues| && t < |s.threads| && s.threads[t].wchan == Some(q)
    ensures QueuesOk(Remove(s, q, t))
  {
    var r, l := Remove(s, q, t), s.queues[q].list;
    forall p | 0 <= p < |r.queues|
      ensures QueueOk(r, p)
    {
      assert QueueOk(s, p);
      if p == q {
        EraseNoDup(l, t);
        forall x: nat
          ensures x in Erase(l, t) <==> x in l && x != t
        {
          EraseIn(l, t, x);
        }
      }
    }
  }

  // Queues depend on the lists and the wait channels only
  lemma SameChannels(s: State, r: State)
    requires QueuesOk(s) && r.queues == s.queues && |r.threads| == |s.threads|
    requires forall t | 0 <= t < |s.threads| :: r.threads[t].wchan == s.threads[t].wchan
    ensures QueuesOk(r)
  {
    forall p | 0 <= p < |r.queues|
      ensures QueueOk(r, p)
    {
      assert QueueOk(s, p);
    }
  }

  // ---- what each operation keeps ----

  lemma WakeupQueues(s: State, q: nat)
    requires QueuesOk(s) && 0 < |s.queues| && q < |s.queues| && s.queues[q].list != []
    ensures Oldest(s, q) < |s.threads| && QueuesOk(Wakeup(s, q))
  {
    DequeueQueues(s, q);
    var t := Oldest(s, q);
    SameChannels(Dequeue(s, q), SetState(Dequeue(s, q), t, KtRun));
    EnqueueQueues(SetState(Dequeue(s, q), t, KtRun), RUNQ, t);
  }

  // sched_wakeup_on's assertion: whoever is woken was asleep
  lemma WokenWasAsleep(s: State, q: nat)
    requires Inv(s) && 0 < q < |s.queues| && s.queues[q].list != []
    ensures Oldest(s, q) < |s.threads|
    ensures s.threads[Oldest(s, q)].state == KtSleep || s.threads[Oldest(s, q)].state == KtSleepCancellable
  {
    assert QueueOk(s, q) && Oldest(s, q) in s.queues[q].list;
    assert ThreadOk(s, Oldest(s, q));
  }

  lemma SleepInv(s: State, q: nat, st: ThreadState, pc: Pc)
    requires Inv(s) && Running(s) && 0 < q < |s.queues|
    requires st == KtSleep || st == KtSleepCancellable
    requires pc.InSleep? ==>
               && q > |s.holders| && st == (if pc.cancellable then KtSleepCancellable else KtSleep)
               && (pc.cancellable ==> !s.threads[s.cur.value].cancelled)
    requires pc != AtWork
    requires pc.InLock? ==> pc.m < |s.holders| && q == WaitQ(pc.m) && st == KtSleep
    requires pc.InLockCancellable? ==>
               pc.m < |s.holders| && q == WaitQ(pc.m) && st == KtSleepCancellable && !s.threads[s.cur.value].cancelled
    requires q <= |s.holders| ==> s.holders[q - 1].Some? && s.holders[q - 1] != s.cur
    ensures Inv(Sleep(s, q, st, pc))
  {
    var t, r := s.cur.value, Sleep(s, q, st, pc);
    assert ThreadOk(s, t);
    var s1 := SetPc(SetState(s, t, st), t, pc);
    SameChannels(s, s1);
    EnqueueQueues(s1, q, t);
    SameChannels(Enqueue(s1, q, t), r);
    forall x | 0 <= x < |r.threads|
      ensures ThreadOk(r, x)
    {
      assert ThreadOk(s, x);
    }
    forall m | 0 <= m < |r.holders|
      ensures MutexOk(r, m)
    {
      assert MutexOk(s, m);
    }
  }

  // Waking somebody on a queue that belongs to no mutex
  lemma WakeupInv(s: State, q: nat)
    requires Inv(s) && |s.holders| < q < |s.queues| && s.queues[q].list != []
    ensures Oldest(s, q) < |s.threads| && Inv(Wakeup(s, q))
  {
    WakeupQueues(s, q);
    var t, r := Oldest(s, q), Wakeup(s, q);
    assert QueueOk(s, q) && t in s.queues[q].list && ThreadOk(s, t);
    forall x | 0 <= x < |r.threads|
      ensures ThreadOk(r, x)
    {
      assert ThreadOk(s, x);
    }
    forall m | 0 <= m < |r.holders|
      ensures MutexOk(r, m)
    {
      assert MutexOk(s, m);
    }
  }

  lemma CancelReady(s: State, t: nat)
    requires Inv(s) && t < |s.threads| && s.cur != Some(t)
    ensures s.threads[t].state == KtSleepCancellable ==>
            s.threads[t].wchan.Some? && s.threads[t].wchan.value < |s.queues|
  {
    assert ThreadOk(s, t);
  }

  lemma CancelQueues(s: State, t: nat)
    requires Inv(s) && t < |s.threads| && s.cur != Some(t)
    requires s.threads[t].state == KtSleepCancellable ==>
             s.threads[t].wchan.Some? && s.threads[t].wchan.value < |s.queues|
    ensures QueuesOk(Cancel(s, t))
  {
    var s1 := s.(threads := s.threads[t := s.threads[t].(cancelled := true)]);
    SameChannels(s, s1);
    if s.threads[t].state == KtSleepCancellable {
      var q := s.threads[t].wchan.value;
      RemoveQueues(s1, q, t);
      EnqueueQueues(Remove(s1, q, t), RUNQ, t);
    }
  }

  lemma CancelInv(s: State, t: nat)
    requires Inv(s) && t < |s.threads| && s.cur != Some(t)
    requires s.threads[t].state == KtSleepCancellable ==>
             s.threads[t].wchan.Some? && s.threads[t].wchan.value < |s.queues|
    ensures Inv(Cancel(s, t))
  {
    var r := Cancel(s, t);
    CancelQueues(s, t);
    assert ThreadOk(s, t);
    forall x | 0 <= x < |r.threads|
      ensures ThreadOk(r, x)
    {
      assert ThreadOk(s, x);
    }
    forall m | 0 <= m < |r.holders|
      ensures MutexOk(r, m)
    {
      assert MutexOk(s, m);
      CancelMutex(s, t, m);
    }
  }

  lemma CancelMutex(s: State, t: nat, m: nat)
    requires Inv(s) && t < |s.threads| && s.cur != Some(t) && m < |s.holders|
    requires s.threads[t].state == KtSleepCancellable ==>
             s.threads[t].wchan.Some? && s.threads[t].wchan.value < |s.queues|
    ensures MutexOk(Cancel(s, t), m)
  {
    assert MutexOk(s, m) && QueueOk(s, WaitQ(m));
    if s.holders[m].Some? {
      EraseIn(s.queues[WaitQ(m)].list, t, s.holders[m].value);
    }
  }

  lemma DispatchInv(s: State)
    requires Inv(s) && s.cur.None? && s.queues[RUNQ].list != []
    ensures Oldest(s, RUNQ) < |s.threads| && Inv(Dispatch(s))
  {
    DequeueQueues(s, RUNQ);
    var t, r := Oldest(s, RUNQ), Dispatch(s);
    SameChannels(Dequeue(s, RUNQ), r);
    assert ThreadOk(s, t);
    forall x | 0 <= x < |r.threads|
      ensures ThreadOk(r, x)
    {
      assert ThreadOk(s, x);
    }
    forall m | 0 <= m < |r.holders|
      ensures MutexOk(r, m)
    {
      assert MutexOk(s, m);
    }
  }

  lemma LockInv(s: State, m: nat)
    requires Inv(s) && Running(s) && m < |s.holders| && s.holders[m] != s.cur
    ensures Inv(Lock(s, m)) && Inv(LockCancellable(s, m))
  {
    if s.holders[m].None? {
      TakeInv(s, m);
    } else {
      SleepInv(s, WaitQ(m), KtSleep, InLock(m));
      if !s.threads[s.cur.value].cancelled {
        SleepInv(s, WaitQ(m), KtSleepCancellable, InLockCancellable(m));
      }
    }
  }

  lemma TakeInv(s: State, m: nat)
    requires Inv(s) && Running(s) && m < |s.holders| && s.holders[m].None?
    ensures Inv(SetHolder(s, m, s.cur))
  {
    var r := SetHolder(s, m, s.cur);
    SameChannels(s, r);
    assert MutexOk(s, m) && QueueOk(s, WaitQ(m));
    forall x | 0 <= x < |r.threads|
      ensures ThreadOk(r, x)
    {
      assert ThreadOk(s, x);
    }
    forall k | 0 <= k < |r.holders|
      ensures MutexOk(r, k)
    {
      assert MutexOk(s, k);
    }
  }

  // Unlocking hands the mutex to the oldest waiter
  lemma UnlockQueues(s: State, m: nat)
    requires QueuesOk(s) && m < |s.holders| < |s.queues|
    ensures s.queues[WaitQ(m)].list != [] ==> Oldest(s, WaitQ(m)) < |s.threads|
    ensures QueuesOk(Unlock(s, m))
  {
    if s.queues[WaitQ(m)].list != [] {
      SameChannels(s, SetHolder(s, m, None));
      WakeupQueues(SetHolder(s, m, None), WaitQ(m));
      SameChannels(Wakeup(SetHolder(s, m, None), WaitQ(m)), Unlock(s, m));
    } else {
      SameChannels(s, Unlock(s, m));
    }
  }

  lemma UnlockThread(s: State, m: nat, x: nat)
    requires Inv(s) && s.cur.Some? && m < |s.holders| && s.holders[m] == s.cur && x < |s.threads|
    requires s.queues[WaitQ(m)].list != [] ==> Oldest(s, WaitQ(m)) < |s.threads|
    requires x == s.cur.value ==> !(s.threads[x].pc.InLock? && s.threads[x].pc.m == m)
    requires x == s.cur.value ==>
             !(s.threads[x].pc.InLockCancellable? && s.threads[x].pc.m == m && !s.threads[x].cancelled)
    ensures ThreadOk(Unlock(s, m), x)
  {
    assert ThreadOk(s, x) && MutexOk(s, m);
    if s.queues[WaitQ(m)].list != [] {
      var w := Oldest(s, WaitQ(m));
      assert QueueOk(s, WaitQ(m)) && w in s.queues[WaitQ(m)].list && ThreadOk(s, w);
    }
  }

  lemma UnlockMutex(s: State, m: nat, k: nat)
    requires Inv(s) && s.cur.Some? && m < |s.holders| && s.holders[m] == s.cur && k < |s.holders|
    requires s.queues[WaitQ(m)].list != [] ==> Oldest(s, WaitQ(m)) < |s.threads|
    ensures MutexOk(Unlock(s, m), k)
  {
    assert MutexOk(s, k);
    if s.queues[WaitQ(m)].list != [] {
      assert QueueOk(s, WaitQ(m));
      DropOldest(s.queues[WaitQ(m)].list);
    }
  }

  lemma UnlockInv(s: State, m: nat)
    requires Inv(s) && Running(s) && m < |s.holders| && s.holders[m] == s.cur
    ensures s.queues[WaitQ(m)].list != [] ==> Oldest(s, WaitQ(m)) < |s.threads|
    ensures Inv(Unlock(s, m)) && Unlock(s, m).holders[m] != s.cur
  {
    UnlockQueues(s, m);
    var r := Unlock(s, m);
    forall x | 0 <= x < |r.threads|
      ensures ThreadOk(r, x)
    {
      UnlockThread(s, m, x);
    }
    forall k | 0 <= k < |r.holders|
      ensures MutexOk(r, k)
    {
      UnlockMutex(s, m, k);
    }
    assert MutexOk(s, m);
  }

  // ---- resuming a call that slept ----

  lemma ResumeReady(s: State)
    requires Inv(s) && s.cur.Some?
    ensures var pc := s.threads[s.cur.value].pc;
            && (pc.InLock? ==> pc.m < |s.holders| && s.holders[pc.m] == s.cur)
            && (pc.InLockCancellable? ==>
                  && pc.m < |s.holders|
                  && (s.holders[pc.m] == s.cur || s.threads[s.cur.value].cancelled)
                  && (s.queues[WaitQ(pc.m)].list != [] ==> Oldest(s, WaitQ(pc.m)) < |s.threads|))
  {
    var t := s.cur.value;
    assert ThreadOk(s, t);
    if s.threads[t].pc.InLockCancellable? {
      UnlockQueues(s, s.threads[t].pc.m);
    }
  }

  lemma SetPcInv(s: State, t: nat)
    requires QueuesOk(s) && t < |s.threads| && s.cur == Some(t) && s.threads[t].wchan.None? && |s.holders| < |s.queues|
    requires s.threads[t].state == KtRun || (s.threads[t].state == KtSleepCancellable && s.threads[t].cancelled)
    requires forall x | 0 <= x < |s.threads| && x != t :: ThreadOk(s, x)
    requires forall m | 0 <= m < |s.holders| :: MutexOk(s, m)
    ensures Inv(SetPc(s, t, AtWork))
  {
    var r := SetPc(s, t, AtWork);
    SameChannels(s, r);
    forall x | 0 <= x < |r.threads|
      ensures ThreadOk(r, x)
    {
      if x != t {
        assert ThreadOk(s, x);
      }
    }
    forall m | 0 <= m < |r.holders|
      ensures MutexOk(r, m)
    {
      assert MutexOk(s, m);
    }
  }

  lemma ResumeInv(s: State)
    requires Inv(s) && s.cur.Some?
    ensures var pc := s.threads[s.cur.value].pc;
            pc.InLockCancellable? ==>
              && pc.m < |s.holders| < |s.queues|
              && (s.queues[WaitQ(pc.m)].list != [] ==> Oldest(s, WaitQ(pc.m)) < |s.threads|)
    ensures Inv(Resume(s))
  {
    ResumeReady(s);
    var t := s.cur.value;
    var pc := s.threads[t].pc;
    assert ThreadOk(s, t);
    if pc.InLockCancellable? && s.threads[t].cancelled && s.holders[pc.m] == Some(t) {
      var u := Unlock(s, pc.m);
      UnlockQueues(s, pc.m);
      forall x | 0 <= x < |s.threads|
        ensures ThreadOk(u, x)
      {
        UnlockThread(s, pc.m, x);
      }
      assert ThreadOk(u, t);
      forall k | 0 <= k < |u.holders|
        ensures MutexOk(u, k)
      {
        UnlockMutex(s, pc.m, k);
      }
      SetPcInv(u, t);
    } else {
      SetPcInv(s, t);
    }
  }

  // kmutex_lock_cancellable returns 0 exactly when the caller owns the
  // mutex, whatever happened while it slept; kmutex_lock always returns as
  // the owner.
  lemma LockReturns(s: State)
    requires Inv(s) && s.cur.Some?
    ensures var t := s.cur.value;
            var pc := s.threads[t].pc;
            && (pc.InLock? ==> pc.m < |s.holders| && Resume(s).holders[pc.m] == Some(t))
            && (pc.InLockCancellable? ==>
                  && pc.m < |s.holders| < |s.queues|
                  && (s.queues[WaitQ(pc.m)].list != [] ==> Oldest(s, WaitQ(pc.m)) < |s.threads|)
                  && (ResumeCode(s) == 0 <==> Resume(s).holders[pc.m] == Some(t))
                  && (ResumeCode(s) == -EINTR <==> s.threads[t].cancelled))
  {
    ResumeReady(s);
    var t := s.cur.value;
    var pc := s.threads[t].pc;
    if pc.InLockCancellable? && s.threads[t].cancelled && s.holders[pc.m] == Some(t) {
      assert MutexOk(s, pc.m);
    }
  }

  // The call that does not sleep: the early return for a cancelled caller
  // leaves the mutex alone, the other path takes it.
  lemma LockCancellableNow(s: State, m: nat)
    requires Inv(s) && Running(s) && m < |s.holders| && s.holders[m] != s.cur
    ensures var r := LockCancellable(s, m);
            r.cur == s.cur ==> (r.holders[m] == s.cur <==> !s.threads[s.cur.value].cancelled)
  {
  }

  // ---- runs ----

  datatype Step =
    | SpawnStep
    | SleepStep(q: nat, cancellable: bool)
    | WakeStep(q: nat)
    | CancelStep(t: nat)
    | YieldStep
    | ExitStep
    | LockStep(m: nat)
    | LockCancellableStep(m: nat)
    | UnlockStep(m: nat)
    | ResumeStep
    | DispatchStep
    | InterruptStep(q: nat)

  ghost predicate Enabled(s: State, a: Step) {
    match a
    case SpawnStep => Running(s)
    case SleepStep(q, _) => Running(s) && |s.holders| < q < |s.queues|
    case WakeStep(q) => Running(s) && |s.holders| < q < |s.queues| && s.queues[q].list != []
    case CancelStep(t) => Running(s) && t < |s.threads| && s.cur != Some(t)
    case YieldStep => Running(s)
    case ExitStep => Running(s)
    case LockStep(m) => Running(s) && m < |s.holders| && s.holders[m] != s.cur
    case LockCancellableStep(m) => Running(s) && m < |s.holders| && s.holders[m] != s.cur
    case UnlockStep(m) => Running(s) && m < |s.holders| && s.holders[m] == s.cur
    case ResumeStep => s.cur.Some? && s.cur.value < |s.threads| && s.threads[s.cur.value].pc != AtWork
    case DispatchStep => s.cur.None? && 0 < |s.queues| && s.queues[RUNQ].list != []
    case InterruptStep(q) => |s.holders| < q < |s.queues| && s.queues[q].list != []
  }

  // kthread_create and sched_make_runnable
  function Spawn(s: State): State
    requires 0 < |s.queues|
  {
    MakeRunnable(s.(threads := s.threads + [Thread(KtRun, false, None, AtWork)]), |s.threads|)
  }

  // sched_make_runnable on the current thread, then sched_switch
  function Yield(s: State): State
    requires s.cur.Some? && s.cur.value < |s.threads| && 0 < |s.queues|
  {
    MakeRunnable(s, s.cur.value).(cur := None)
  }

  function Exit(s: State): State
    requires s.cur.Some? && s.cur.value < |s.threads|
  {
    SetState(s, s.cur.value, KtExited).(cur := None)
  }

  ghost predicate Ready(s: State, a: Step) {
    && Enabled(s, a) && |s.holders| < |s.queues|
    && (forall q | 0 <= q < |s.queues| && s.queues[q].list != [] :: Oldest(s, q) < |s.threads|)
    && (a.CancelStep? && s.threads[a.t].state == KtSleepCancellable ==>
         s.threads[a.t].wchan.Some? && s.threads[a.t].wchan.value < |s.queues|)
    && (a.ResumeStep? && s.threads[s.cur.value].pc.InLockCancellable? ==> s.threads[s.cur.value].pc.m < |s.holders|)
  }

  function Apply(s: State, a: Step): State
    requires Ready(s, a)
  {
    match a
    case SpawnStep => Spawn(s)
    case SleepStep(q, cancellable) =>
      if cancellable && s.threads[s.cur.value].cancelled then s
      else Sleep(s, q, if cancellable then KtSleepCancellable else KtSleep, InSleep(cancellable))
    case WakeStep(q) => Wakeup(s, q)
    case CancelStep(t) => Cancel(s, t)
    case YieldStep => Yield(s)
    case ExitStep => Exit(s)
    case LockStep(m) => Lock(s, m)
    case LockCancellableStep(m) => LockCancellable(s, m)
    case UnlockStep(m) => Unlock(s, m)
    case ResumeStep => Resume(s)
    case DispatchStep => Dispatch(s)
    case InterruptStep(q) => Wakeup(s, q)
  }

  lemma InvReady(s: State, a: Step)
    requires Inv(s) && Enabled(s, a)
    ensures Ready(s, a)
  {
    forall q | 0 <= q < |s.queues| && s.queues[q].list != []
      ensures Oldest(s, q) < |s.threads|
    {
      DequeueQueues(s, q);
    }
    if a.CancelStep? {
      CancelReady(s, a.t);
    }
    if a.ResumeStep? {
      ResumeReady(s);
    }
  }

  lemma SpawnInv(s: State)
    requires Inv(s) && 0 < |s.queues|
    ensures Inv(Spawn(s))
  {
    var t := |s.threads|;
    var s1 := s.(threads := s.threads + [Thread(KtRun, false, None, AtWork)]);
    forall p | 0 <= p < |s1.queues|
      ensures QueueOk(s1, p)
    {
      assert QueueOk(s, p);
    }
    EnqueueQueues(s1, RUNQ, t);
    var r := Spawn(s);
    forall x | 0 <= x < |r.threads|
      ensures ThreadOk(r, x)
    {
      if x < t {
        assert ThreadOk(s, x);
      }
    }
    forall m | 0 <= m < |r.holders|
      ensures MutexOk(r, m)
    {
      assert MutexOk(s, m);
    }
  }

  lemma YieldInv(s: State)
    requires Inv(s) && Running(s) && 0 < |s.queues|
    ensures Inv(Yield(s)) && Inv(Exit(s))
  {
    var t, y, e := s.cur.value, Yield(s), Exit(s);
    assert ThreadOk(s, t);
    EnqueueQueues(s, RUNQ, t);
    SameChannels(MakeRunnable(s, t), y);
    SameChannels(s, e);
    forall x | 0 <= x < |s.threads|
      ensures ThreadOk(y, x) && ThreadOk(e, x)
    {
      assert ThreadOk(s, x);
    }
    forall m | 0 <= m < |s.holders|
      ensures MutexOk(y, m) && MutexOk(e, m)
    {
      assert MutexOk(s, m);
    }
  }

  // Every step keeps thread placement, queue sizes, sleeping states and the
  // state of the mutexes
  lemma ApplyInv(s: State, a: Step)
    requires Inv(s) && Enabled(s, a)
    ensures Ready(s, a) && Inv(Apply(s, a))
  {
    InvReady(s, a);
    match a
    case SpawnStep => SpawnInv(s);
    case SleepStep(q, cancellable) =>
      if !(cancellable && s.threads[s.cur.value].cancelled) {
        SleepInv(s, q, if cancellable then KtSleepCancellable else KtSleep, InSleep(cancellable));
      }
    case WakeStep(q) => WakeupInv(s, q);
    case CancelStep(t) => CancelInv(s, t);
    case YieldStep => YieldInv(s);
    case ExitStep => YieldInv(s);
    case LockStep(m) => LockInv(s, m);
    case LockCancellableStep(m) => LockInv(s, m);
    case UnlockStep(m) => UnlockInv(s, m);
    case ResumeStep => ResumeInv(s);
    case DispatchStep => DispatchInv(s);
    case InterruptStep(q) => WakeupInv(s, q);
  }

  ghost predicate Runs(s: State, steps: seq<Step>)
    requires Inv(s)
    decreases |steps|
  {
    steps != [] ==> Enabled(s, steps[0]) && (ApplyInv(s, steps[0]); Runs(Apply(s, steps[0]), steps[1..]))
  }

  ghost function Run(s: State, steps: seq<Step>): State
    requires Inv(s) && Runs(s, steps)
    decreases |steps|
  {
    if steps == [] then s
    else
      ApplyInv(s, steps[0]);
      Run(Apply(s, steps[0]), steps[1..])
  }

  lemma {:induction false} RunInv(s: State, steps: seq<Step>)
    requires Inv(s) && Runs(s, steps)
    ensures Inv(Run(s, steps))
    decreases |steps|
  {
    if steps != [] {
      ApplyInv(s, steps[0]);
      RunInv(Apply(s, steps[0]), steps[1..]);
    }
  }

  // One running thread, n mutexes and k further queues, all empty
  function Boot(n: nat, k: nat): State {
    State([Thread(KtRun, false, None, AtWork)], seq(1 + n + k, _ => KtQueue([], 0)), Some(0), seq(n, _ => None))
  }

  lemma BootInv(n: nat, k: nat)
    ensures Inv(Boot(n, k))
  {
    var s := Boot(n, k);
    forall q | 0 <= q < |s.queues|
      ensures QueueOk(s, q)
    {
    }
    forall t | 0 <= t < |s.threads|
      ensures ThreadOk(s, t)
    {
    }
  }

  // Thread placement, read off the invariant: a started, unexited thread
  // that is not running is on exactly one queue, the one its wait channel
  // names.
  lemma Placement(s: State, t: nat, q: nat)
    requires Inv(s) && t < |s.threads| && q < |s.queues|
    ensures t in s.queues[q].list <==> s.threads[t].wchan == Some(q)
    ensures s.threads[t].state != KtExited && s.cur != Some(t) ==>
              s.threads[t].wchan.Some? && s.threads[t].wchan.value < |s.queues|
                && t in s.queues[s.threads[t].wchan.value].list
    ensures s.threads[t].state == KtExited || s.cur == Some(t) ==> t !in s.queues[q].list
    ensures t in s.queues[q].list && q != RUNQ ==>
              s.threads[t].state == KtSleep || s.threads[t].state == KtSleepCancellable
    ensures s.cur == Some(t) || t in s.queues[RUNQ].list ==>
              s.threads[t].state == KtRun || (s.threads[t].state == KtSleepCancellable && s.threads[t].cancelled)
  {
    assert QueueOk(s, RUNQ);
    assert ThreadOk(s, t) && QueueOk(s, q);
    if s.threads[t].wchan.Some? {
      assert QueueOk(s, s.threads[t].wchan.value);
    }
  }
}
