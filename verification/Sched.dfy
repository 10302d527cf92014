/**
 The scheduler of proc/sched.c and proc/sched_helper.c with the mutexes of
 proc/kmutex.c.

 The kernel is not preemptive, so the code between two calls of sched_switch
 is one step.  A function that sleeps is cut in two: the part before the
 switch, and the part after it, which the thread's `pc` names.

 Queue 0 is the run queue, queue 1 + m the wait queue of mutex m; further
 queues belong to devices and the like and may also be woken by interrupts.
 As in the code a thread enters a queue at the head and leaves at the tail.
 */
module Sched {
  import opened Basics

  datatype ThreadState = KtRun | KtSleep | KtSleepCancellable | KtExited

  // Where a thread goes on when it gets the processor
  datatype Pc = AtWork | InSleep(cancellable: bool) | InLock(m: nat) | InLockCancellable(m: nat)

  datatype Thread = Thread(state: ThreadState, cancelled: bool, wchan: Option<nat>, pc: Pc)

  datatype KtQueue = KtQueue(list: seq<nat>, size: int)

  // cur is None while sched_switch has not picked a thread yet
  datatype State = State(threads: seq<Thread>, queues: seq<KtQueue>, cur: Option<nat>, holders: seq<Option<nat>>)

  const RUNQ: nat := 0

  function WaitQ(m: nat): nat {
    1 + m
  }

  const EINTR: int := 4

  // ---- queues ----

  function Enqueue(s: State, q: nat, t: nat): State
    requires q < |s.queues| && t < |s.threads|
  {
    s.(queues := s.queues[q := KtQueue([t] + s.queues[q].list, s.queues[q].size + 1)],
       threads := s.threads[t := s.threads[t].(wchan := Some(q))])
  }

  function Oldest(s: State, q: nat): nat
    requires q < |s.queues| && s.queues[q].list != []
  {
    s.queues[q].list[|s.queues[q].list| - 1]
  }

  function Dequeue(s: State, q: nat): State
    requires q < |s.queues| && s.queues[q].list != [] && Oldest(s, q) < |s.threads|
  {
    var l := s.queues[q].list;
    s.(queues := s.queues[q := KtQueue(l[..|l| - 1], s.queues[q].size - 1)],
       threads := s.threads[Oldest(s, q) := s.threads[Oldest(s, q)].(wchan := None)])
  }

  function Remove(s: State, q: nat, t: nat): State
    requires q < |s.queues| && t < |s.threads|
  {
    s.(queues := s.queues[q := KtQueue(Erase(s.queues[q].list, t), s.queues[q].size - 1)],
       threads := s.threads[t := s.threads[t].(wchan := None)])
  }

  function SetState(s: State, t: nat, st: ThreadState): State
    requires t < |s.threads|
  {
    s.(threads := s.threads[t := s.threads[t].(state := st)])
  }

  function SetPc(s: State, t: nat, pc: Pc): State
    requires t < |s.threads|
  {
    s.(threads := s.threads[t := s.threads[t].(pc := pc)])
  }

  // ---- the invariant ----

  // Queue membership and kt_wchan agree; sizes are right
  ghost predicate QueueOk(s: State, q: nat)
    requires q < |s.queues|
  {
    && NoDup(s.queues[q].list) && s.queues[q].size == |s.queues[q].list|
    && (forall t: nat :: t in s.queues[q].list <==> t < |s.threads| && s.threads[t].wchan == Some(q))
  }

  // A thread is off the queues only while it runs or after it exited; on a
  // wait queue it is asleep, and otherwise it is not, except that a sleep ended by
  // a cancellation leaves its mark
  ghost predicate ThreadOk(s: State, t: nat)
    requires t < |s.threads|
  {
    var th := s.threads[t];
    && (th.wchan.None? <==> s.cur == Some(t) || th.state == KtExited)
    && (s.cur == Some(t) ==> th.state != KtExited)
    && (th.wchan.Some? ==> th.wchan.value < |s.queues|)
    && (th.wchan.Some? && th.wchan.value != RUNQ ==> th.state == KtSleep || th.state == KtSleepCancellable)
    && (th.pc == AtWork && th.wchan.Some? ==> th.wchan.value == RUNQ)
    && (th.wchan.None? || th.wchan.value == RUNQ ==>
          th.state == KtRun || th.state == KtExited || (th.state == KtSleepCancellable && th.cancelled))
    && (th.state == KtExited ==> th.pc == AtWork)
    && WaiterOk(s, t)
  }

  // A thread inside a sleep call is in the kind of sleep it asked for.  One inside
  // a lock call waits for the mutex, or was given it, or was taken off the wait
  // queue by a cancellation.
  ghost predicate WaiterOk(s: State, t: nat)
    requires t < |s.threads|
  {
    var th := s.threads[t];
    match th.pc
    case InSleep(cancellable) =>
      th.wchan.Some? && th.wchan.value != RUNQ ==>
        && th.wchan.value > |s.holders|
        && (if cancellable then th.state == KtSleepCancellable && !th.cancelled else th.state == KtSleep)
    case InLock(m) =>
      && m < |s.holders|
      && (th.wchan == Some(WaitQ(m)) ==> th.state == KtSleep)
      && (th.wchan != Some(WaitQ(m)) ==> s.holders[m] == Some(t))
      && (th.wchan.Some? ==> th.wchan.value == RUNQ || th.wchan.value == WaitQ(m))
    case InLockCancellable(m) =>
      && m < |s.holders|
      && (th.wchan == Some(WaitQ(m)) ==> th.state == KtSleepCancellable && !th.cancelled)
      && (th.wchan != Some(WaitQ(m)) ==> s.holders[m] == Some(t) || th.cancelled)
      && (th.wchan.Some? ==> th.wchan.value == RUNQ || th.wchan.value == WaitQ(m))
    case AtWork => true
  }

  // A free mutex has no waiters and the holder is never among them
  ghost predicate MutexOk(s: State, m: nat)
    requires m < |s.holders| < |s.queues|
  {
    && (s.holders[m].None? ==> s.queues[WaitQ(m)].list == [])
    && (s.holders[m].Some? ==> s.holders[m].value < |s.threads| && s.holders[m].value !in s.queues[WaitQ(m)].list)
  }

  ghost predicate QueuesOk(s: State) {
    forall q | 0 <= q < |s.queues| :: QueueOk(s, q)
  }

  ghost predicate Inv(s: State) {
    && |s.holders| < |s.queues|
    && (s.cur.Some? ==> s.cur.value < |s.threads|)
    && QueuesOk(s)
    && (forall t {:trigger ThreadOk(s, t)} | 0 <= t < |s.threads| :: ThreadOk(s, t))
    && (forall m | 0 <= m < |s.holders| :: MutexOk(s, m))
  }

  // ---- steps of the scheduler ----

  ghost predicate Running(s: State) {
    s.cur.Some? && s.cur.value < |s.threads| && s.threads[s.cur.value].pc == AtWork
  }

  function MakeRunnable(s: State, t: nat): State
    requires t < |s.threads| && 0 < |s.queues|
  {
    Enqueue(s, RUNQ, t)
  }

  // sched_sleep_on and the sleeping half of sched_cancellable_sleep_on
  function Sleep(s: State, q: nat, st: ThreadState, pc: Pc): State
    requires s.cur.Some? && s.cur.value < |s.threads| && q < |s.queues|
  {
    var t := s.cur.value;
    Enqueue(SetPc(SetState(s, t, st), t, pc), q, t).(cur := None)
  }

  // sched_wakeup_on
  function Wakeup(s: State, q: nat): State
    requires 0 < |s.queues| && q < |s.queues| && s.queues[q].list != [] && Oldest(s, q) < |s.threads|
  {
    var t := Oldest(s, q);
    MakeRunnable(SetState(Dequeue(s, q), t, KtRun), t)
  }

  // sched_cancel
  function Cancel(s: State, t: nat): State
    requires t < |s.threads| && 0 < |s.queues|
    requires s.threads[t].state == KtSleepCancellable ==>
             s.threads[t].wchan.Some? && s.threads[t].wchan.value < |s.queues|
  {
    var s1 := s.(threads := s.threads[t := s.threads[t].(cancelled := true)]);
    if s.threads[t].state == KtSleepCancellable then MakeRunnable(Remove(s1, s.threads[t].wchan.value, t), t) else s1
  }

  // sched_switch picks the oldest runnable thread
  function Dispatch(s: State): State
    requires 0 < |s.queues| && s.queues[RUNQ].list != [] && Oldest(s, RUNQ) < |s.threads|
  {
    Dequeue(s, RUNQ).(cur := Some(Oldest(s, RUNQ)))
  }

  // ---- steps of the mutex ----

  function SetHolder(s: State, m: nat, h: Option<nat>): State
    requires m < |s.holders|
  {
    s.(holders := s.holders[m := h])
  }

  // kmutex_unlock: the oldest waiter becomes the holder
  function Unlock(s: State, m: nat): State
    requires m < |s.holders| < |s.queues|
    requires s.queues[WaitQ(m)].list != [] ==> Oldest(s, WaitQ(m)) < |s.threads|
  {
    if s.queues[WaitQ(m)].list == [] then SetHolder(s, m, None)
    else SetHolder(Wakeup(SetHolder(s, m, None), WaitQ(m)), m, Some(Oldest(s, WaitQ(m))))
  }

  // kmutex_lock up to its return or its sleep
  function Lock(s: State, m: nat): State
    requires s.cur.Some? && s.cur.value < |s.threads| && m < |s.holders| < |s.queues|
  {
    if s.holders[m].None? then SetHolder(s, m, s.cur) else Sleep(s, WaitQ(m), KtSleep, InLock(m))
  }

  // kmutex_lock_cancellable up to its return or its sleep
  function LockCancellable(s: State, m: nat): State
    requires s.cur.Some? && s.cur.value < |s.threads| && m < |s.holders| < |s.queues|
  {
    if s.threads[s.cur.value].cancelled then s
    else if s.holders[m].None? then SetHolder(s, m, s.cur)
    else Sleep(s, WaitQ(m), KtSleepCancellable, InLockCancellable(m))
  }

  // The rest of a call that slept, once the thread runs again
  function Resume(s: State): State
    requires s.cur.Some? && s.cur.value < |s.threads|
    requires var pc := s.threads[s.cur.value].pc;
             pc.InLockCancellable? ==>
               && pc.m < |s.holders| < |s.queues|
               && (s.queues[WaitQ(pc.m)].list != [] ==> Oldest(s, WaitQ(pc.m)) < |s.threads|)
  {
    var t := s.cur.value;
    var pc := s.threads[t].pc;
    if pc.InLockCancellable? && s.threads[t].cancelled && s.holders[pc.m] == Some(t) then
      SetPc(Unlock(s, pc.m), t, AtWork)
    else SetPc(s, t, AtWork)
  }

  // What the resumed call returns; the plain lock and sleep return nothing, here 0
  function ResumeCode(s: State): int
    requires s.cur.Some? && s.cur.value < |s.threads|
  {
    var th := s.threads[s.cur.value];
    if (th.pc == InSleep(true) || th.pc.InLockCancellable?) && th.cancelled then -EINTR else 0
  }
}
