/**
 Order of service: who gets a mutex and when, and how long a runnable thread
 waits for the processor.
 */
module SchedFairness {
  import opened Basics
  import opened Sched
  import opened SchedRuns

  // Threads that leave queue l before t does: those nearer the tail
  function After(l: seq<nat>, t: nat): nat {
    if l == [] then 0 else if l[0] == t then |l| - 1 else After(l[1..], t)
  }

  lemma {:induction false} AfterBound(l: seq<nat>, t: nat)
    ensures t in l ==> After(l, t) < |l| && l[|l| - 1 - After(l, t)] == t
    ensures t !in l ==> After(l, t) == 0
  {
    if l != [] {
      AfterBound(l[1..], t);
    }
  }

  lemma {:induction false} AfterDrop(l: seq<nat>, t: nat)
    requires NoDup(l) && t in l
    ensures t == l[|l| - 1] <==> After(l, t) == 0
    ensures t != l[|l| - 1] ==> t in l[..|l| - 1] && After(l[..|l| - 1], t) == After(l, t) - 1
  {
    AfterBound(l, t);
    if l[0] != t {
      var tail := l[1..];
      assert NoDup(tail) && t in tail;
      AfterDrop(tail, t);
      assert tail[|tail| - 1] == l[|l| - 1];
      assert l[..|l| - 1][1..] == tail[..|tail| - 1];
    }
  }

  lemma {:induction false} AfterErase(l: seq<nat>, t: nat, x: nat)
    requires NoDup(l) && t in l && t != x
    ensures After(Erase(l, x), t) <= After(l, t)
    decreases |l|
  {
    if l[0] == x {
    } else if l[0] == t {
      EraseNoDup(l, x);
    } else {
      AfterErase(l[1..], t, x);
      assert Erase(l, x)[1..] == Erase(l[1..], x);
    }
  }

  // Erasing keeps the order of the others
  lemma {:induction false} AfterEraseOrder(l: seq<nat>, t: nat, u: nat, x: nat)
    requires NoDup(l) && t in l && u in l && t != x && u != x && After(l, t) < After(l, u)
    ensures After(Erase(l, x), t) < After(Erase(l, x), u)
    decreases |l|
  {
    EraseIn(l, x, t);
    EraseIn(l, x, u);
    AfterBound(l, t);
    AfterBound(l, u);
    if l[0] == x {
    } else if l[0] == u {
      EraseNoDup(l, x);
      AfterBound(Erase(l, x), t);
      AfterBound(l[1..], t);
      AfterErase(l, t, x);
      EraseIn(l[1..], x, t);
      AfterBound(Erase(l[1..], x), t);
    } else {
      assert l[0] != t;
      AfterEraseOrder(l[1..], t, u, x);
      assert Erase(l, x)[1..] == Erase(l[1..], x);
    }
  }

  // ---- how a step changes a queue ----

  datatype Change = Same | Arrival(x: nat) | Service | Departure(x: nat) | Requeue(x: nat)

  function Changed(l: seq<nat>, c: Change): seq<nat> {
    match c
    case Same => l
    case Arrival(x) => [x] + l
    case Service => if l == [] then [] else l[..|l| - 1]
    case Departure(x) => Erase(l, x)
    case Requeue(x) => [x] + Erase(l, x)
  }

  // Nobody but the oldest thread is served, and nobody is put ahead of t
  // except by t's own departure or requeueing
  lemma ChangeAhead(l: seq<nat>, c: Change, t: nat)
    requires NoDup(l) && t in l
    requires c != Departure(t) && c != Requeue(t) && (c.Arrival? ==> c.x !in l)
    ensures var r := Changed(l, c);
            || (c.Service? && t == l[|l| - 1])
            || (t in r && After(r, t) + (if c.Service? then 1 else 0) <= After(l, t))
  {
    match c
    case Same =>
    case Arrival(x) => assert ([x] + l)[1..] == l;
    case Service => AfterDrop(l, t);
    case Departure(x) =>
      EraseIn(l, x, t);
      AfterErase(l, t, x);
    case Requeue(x) =>
      EraseIn(l, x, t);
      AfterErase(l, t, x);
      assert ([x] + Erase(l, x))[1..] == Erase(l, x);
  }

  // The step lets a holder go of mutex m
  predicate Unlocks(s: State, a: Step, m: nat) {
    || a == UnlockStep(m)
    || (&& a == ResumeStep && s.cur.Some? && s.cur.value < |s.threads| && m < |s.holders|
        && s.threads[s.cur.value].pc == InLockCancellable(m) && s.threads[s.cur.value].cancelled
           && s.holders[m] == s.cur)
  }

  // The step takes the oldest thread off queue q: an unlock if the queue
  // belongs to a mutex, otherwise a wakeup
  predicate Serves(s: State, a: Step, q: nat)
    requires q > 0
  {
    if q <= |s.holders| then Unlocks(s, a, q - 1) else a == WakeStep(q) || a == InterruptStep(q)
  }

  // The running thread goes to sleep on queue q
  predicate Joins(s: State, a: Step, q: nat)
    requires Ready(s, a) && q > 0
  {
    if q <= |s.holders| then
      && (a == LockStep(q - 1) || (a == LockCancellableStep(q - 1) && !s.threads[s.cur.value].cancelled))
      && s.holders[q - 1].Some?
    else a.SleepStep? && a.q == q && !(a.cancellable && s.threads[s.cur.value].cancelled)
  }

  // A sleep queue changes by one arrival, one service or one cancelled
  // departure
  function QueueChange(s: State, a: Step, q: nat): Change
    requires Ready(s, a) && q > 0
  {
    if Serves(s, a, q) then Service
    else if Joins(s, a, q) then Arrival(s.cur.value)
    else if a.CancelStep? && s.threads[a.t].state == KtSleepCancellable && s.threads[a.t].wchan == Some(q) then
      Departure(a.t)
    else Same
  }

  // First in, first out on every queue but the run queue: arrivals at the
  // head, services at the tail
  lemma QueueStep(s: State, a: Step, q: nat)
    requires Ready(s, a) && 0 < q < |s.queues|
    ensures |Apply(s, a).queues| == |s.queues| && |Apply(s, a).holders| == |s.holders|
    ensures Apply(s, a).queues[q].list == Changed(s.queues[q].list, QueueChange(s, a, q))
  {
    hide Apply, QueueChange, Changed;
    if a.UnlockStep? || a.ResumeStep? {
      QueueUnlock(s, a, q);
    } else if a.LockStep? || a.LockCancellableStep? || a.CancelStep? {
      QueueLock(s, a, q);
    } else {
      QueueOther(s, a, q);
    }
  }

  lemma QueueUnlock(s: State, a: Step, q: nat)
    requires Ready(s, a) && 0 < q < |s.queues| && (a.UnlockStep? || a.ResumeStep?)
    ensures |Apply(s, a).queues| == |s.queues| && |Apply(s, a).holders| == |s.holders|
    ensures Apply(s, a).queues[q].list == Changed(s.queues[q].list, QueueChange(s, a, q))
  {
    hide Unlock;
    if a.UnlockStep? {
      UnlockLists(s, a.m);
    } else if s.threads[s.cur.value].pc.InLockCancellable? {
      UnlockLists(s, s.threads[s.cur.value].pc.m);
    }
  }

  lemma QueueLock(s: State, a: Step, q: nat)
    requires Ready(s, a) && 0 < q < |s.queues| && (a.LockStep? || a.LockCancellableStep? || a.CancelStep?)
    ensures |Apply(s, a).queues| == |s.queues| && |Apply(s, a).holders| == |s.holders|
    ensures Apply(s, a).queues[q].list == Changed(s.queues[q].list, QueueChange(s, a, q))
  {
    hide Erase;
  }

  lemma QueueOther(s: State, a: Step, q: nat)
    requires Ready(s, a) && 0 < q < |s.queues|
    requires a.SpawnStep? || a.SleepStep? || a.WakeStep? || a.YieldStep? || a.ExitStep? || a.DispatchStep?
             || a.InterruptStep?
    ensures |Apply(s, a).queues| == |s.queues| && |Apply(s, a).holders| == |s.holders|
    ensures Apply(s, a).queues[q].list == Changed(s.queues[q].list, QueueChange(s, a, q))
  {
    if a.SleepStep? || a.WakeStep? || a.InterruptStep? {
      QueueSleep(s, a, q);
      hide Apply, QueueChange, Changed;
    }
  }

  lemma QueueSleep(s: State, a: Step, q: nat)
    requires Ready(s, a) && 0 < q < |s.queues| && (a.SleepStep? || a.WakeStep? || a.InterruptStep?)
    ensures |Apply(s, a).queues| == |s.queues| && |Apply(s, a).holders| == |s.holders|
    ensures Apply(s, a).queues[q].list == Changed(s.queues[q].list, QueueChange(s, a, q))
  {
    hide Wakeup, Sleep, Erase;
    if a.SleepStep? {
      SleepLists(s, a.q, if a.cancellable then KtSleepCancellable else KtSleep, InSleep(a.cancellable), q);
    } else {
      WakeupLists(s, a.q, q);
    }
  }

  lemma SleepLists(s: State, q: nat, st: ThreadState, pc: Pc, q': nat)
    requires s.cur.Some? && s.cur.value < |s.threads| && q < |s.queues| && q' < |s.queues|
    ensures var r := Sleep(s, q, st, pc);
            && |r.queues| == |s.queues| && r.holders == s.holders
            && r.queues[q'].list == if q' == q then [s.cur.value] + s.queues[q].list else s.queues[q'].list
  {
  }

  lemma WakeupLists(s: State, q: nat, q': nat)
    requires 0 < q < |s.queues| && s.queues[q].list != [] && Oldest(s, q) < |s.threads| && 0 < q' < |s.queues|
    ensures var r, l := Wakeup(s, q), s.queues[q].list;
            && |r.queues| == |s.queues| && r.holders == s.holders
            && r.queues[q'].list == if q' == q then l[..|l| - 1] else s.queues[q'].list
  {
  }

  lemma UnlockLists(s: State, m: nat)
    requires m < |s.holders| < |s.queues|
    requires s.queues[WaitQ(m)].list != [] ==> Oldest(s, WaitQ(m)) < |s.threads|
    ensures |Unlock(s, m).queues| == |s.queues| && |Unlock(s, m).holders| == |s.holders|
    ensures Unlock(s, m).queues[WaitQ(m)].list == Changed(s.queues[WaitQ(m)].list, Service)
    ensures forall q | 0 < q < |s.queues| && q != WaitQ(m) :: Unlock(s, m).queues[q] == s.queues[q]
  {
  }

  // Who holds the mutex after the step
  lemma HolderStep(s: State, a: Step, m: nat)
    requires Ready(s, a) && m < |s.holders|
    ensures var h := Apply(s, a).holders[m];
            if Unlocks(s, a, m) then
              h == (if s.queues[WaitQ(m)].list == [] then None else Some(Oldest(s, WaitQ(m))))
            else h == s.holders[m] || s.holders[m].None?
  {
  }

  ghost predicate Waiting(s: State, m: nat, t: nat) {
    m < |s.holders| < |s.queues| && t in s.queues[WaitQ(m)].list
  }

  function Ahead(s: State, m: nat, t: nat): nat
    requires WaitQ(m) < |s.queues|
  {
    After(s.queues[WaitQ(m)].list, t)
  }

  // t cannot be taken off the wait queue of m by this step's cancellation
  predicate Stays(s: State, a: Step, t: nat) {
    a == CancelStep(t) ==> t < |s.threads| && s.threads[t].state != KtSleepCancellable
  }

  // One step: t is given the mutex, or keeps waiting with no more waiters
  // ahead, and one fewer for every unlock.
  lemma WaiterStep(s: State, a: Step, m: nat, t: nat)
    requires Inv(s) && Enabled(s, a) && Ready(s, a) && Waiting(s, m, t) && Stays(s, a, t)
    ensures var r := Apply(s, a);
            || (m < |r.holders| && r.holders[m] == Some(t))
            || (Waiting(r, m, t) && Ahead(r, m, t) + (if Unlocks(s, a, m) then 1 else 0) <= Ahead(s, m, t))
  {
    QueueStep(s, a, WaitQ(m));
    HolderStep(s, a, m);
    assert QueueOk(s, WaitQ(m)) && ThreadOk(s, t);
    var l, c := s.queues[WaitQ(m)].list, QueueChange(s, a, WaitQ(m));
    if c.Arrival? {
      assert ThreadOk(s, c.x);
    }
    assert Waiting(Apply(s, a), m, t) <==> t in Changed(l, c) by {
      ApplyInv(s, a);
      hide Apply, QueueChange, Changed, Ready;
    }
    ChangeAhead(l, c, t);
    hide Apply, Changed, Inv;
  }

  ghost function UnlockCount(s: State, steps: seq<Step>, m: nat): nat
    requires Inv(s) && Runs(s, steps)
    decreases |steps|
  {
    if steps == [] then 0
    else
      ApplyInv(s, steps[0]);
      (if Unlocks(s, steps[0], m) then 1 else 0) + UnlockCount(Apply(s, steps[0]), steps[1..], m)
  }

  // t holds m in some state of the run
  ghost predicate Gets(s: State, steps: seq<Step>, m: nat, t: nat)
    requires Inv(s) && Runs(s, steps)
    decreases |steps|
  {
    || (m < |s.holders| && s.holders[m] == Some(t))
    || (steps != [] && (ApplyInv(s, steps[0]); Gets(Apply(s, steps[0]), steps[1..], m, t)))
  }

  // No cancellation takes t off a queue in this run
  ghost predicate NeverCancelled(s: State, steps: seq<Step>, t: nat)
    requires Inv(s) && Runs(s, steps)
    decreases |steps|
  {
    steps != [] ==> Stays(s, steps[0], t) && (ApplyInv(s, steps[0]); NeverCancelled(Apply(s, steps[0]), steps[1..], t))
  }

  // Bounded waiting: a waiter with k waiters ahead owns the mutex after at
  // most k + 1 unlocks, under any interleaving.
  lemma {:induction false} BoundedWaiting(s: State, steps: seq<Step>, m: nat, t: nat)
    requires Inv(s) && Runs(s, steps) && Waiting(s, m, t) && NeverCancelled(s, steps, t)
    requires UnlockCount(s, steps, m) > Ahead(s, m, t)
    ensures Gets(s, steps, m, t)
    decreases |steps|
  {
    var a := steps[0];
    ApplyInv(s, a);
    WaiterStep(s, a, m, t);
    var r := Apply(s, a);
    if !(m < |r.holders| && r.holders[m] == Some(t)) {
      BoundedWaiting(r, steps[1..], m, t);
    }
  }

  // ---- arrival order ----

  // u is not served and is not ahead of t
  ghost predicate BehindOf(s: State, m: nat, t: nat, u: nat) {
    && Waiting(s, m, t) && u != t && s.holders[m] != Some(u)
    && (Waiting(s, m, u) ==> Ahead(s, m, t) < Ahead(s, m, u))
  }

  // On lists: no change but t's own departure lets u pass t
  lemma ChangeOrder(l: seq<nat>, c: Change, t: nat, u: nat)
    requires NoDup(l) && t in l && u != t && (u in l ==> After(l, t) < After(l, u))
    requires c != Departure(t) && !c.Requeue? && (c.Arrival? ==> c.x !in l)
    ensures var r := Changed(l, c);
            t in r && u in r ==> After(r, t) < After(r, u)
  {
    match c
    case Same =>
    case Arrival(x) =>
      assert ([x] + l)[1..] == l;
      AfterBound(l, t);
    case Service =>
      DropOldest(l);
      AfterDrop(l, t);
      if u in l {
        AfterDrop(l, u);
      }
    case Departure(x) =>
      EraseIn(l, x, t);
      EraseIn(l, x, u);
      if u in l && u != x {
        AfterEraseOrder(l, t, u, x);
      }
  }

  lemma OrderHolder(s: State, a: Step, m: nat, t: nat, u: nat)
    requires Inv(s) && Ready(s, a) && BehindOf(s, m, t, u)
    ensures m < |Apply(s, a).holders| && Apply(s, a).holders[m] != Some(u)
  {
    HolderStep(s, a, m);
    QueueStep(s, a, WaitQ(m));
    assert MutexOk(s, m) && QueueOk(s, WaitQ(m));
    var l := s.queues[WaitQ(m)].list;
    AfterDrop(l, t);
    if u in l {
      AfterDrop(l, u);
    }
  }

  lemma OrderStep(s: State, a: Step, m: nat, t: nat, u: nat)
    requires Inv(s) && Enabled(s, a) && Ready(s, a) && BehindOf(s, m, t, u) && Stays(s, a, t)
    ensures var r := Apply(s, a);
            (m < |r.holders| && r.holders[m] == Some(t)) || BehindOf(r, m, t, u)
  {
    WaiterStep(s, a, m, t);
    QueueStep(s, a, WaitQ(m));
    OrderHolder(s, a, m, t, u);
    var l, c := s.queues[WaitQ(m)].list, QueueChange(s, a, WaitQ(m));
    assert QueueOk(s, WaitQ(m));
    if c.Arrival? {
      assert ThreadOk(s, c.x);
    }
    ChangeOrder(l, c, t, u);
    hide Apply, Inv, Ready, Enabled, QueueChange;
  }

  // Nobody overtakes: in every run, a thread that queued later, or has not
  // queued yet, gets the mutex only after t did.
  lemma {:induction false} ArrivalOrder(s: State, steps: seq<Step>, m: nat, t: nat, u: nat)
    requires Inv(s) && Runs(s, steps) && BehindOf(s, m, t, u) && NeverCancelled(s, steps, t)
    requires Gets(s, steps, m, u)
    ensures Gets(s, steps, m, t)
    decreases |steps|
  {
    var a := steps[0];
    ApplyInv(s, a);
    OrderStep(s, a, m, t, u);
    var r := Apply(s, a);
    if !(m < |r.holders| && r.holders[m] == Some(t)) {
      ArrivalOrder(r, steps[1..], m, t, u);
    }
  }

  // ---- any sleep queue ----

  ghost predicate Sleeps(s: State, q: nat, t: nat) {
    0 < q < |s.queues| && t in s.queues[q].list
  }

  // The step wakes t on q
  ghost predicate Wakes(s: State, a: Step, q: nat, t: nat) {
    0 < q < |s.queues| && s.queues[q].list != [] && Serves(s, a, q) && Oldest(s, q) == t
  }

  lemma WokenRuns(s: State, a: Step, q: nat, t: nat)
    requires Ready(s, a) && Wakes(s, a, q, t)
    ensures 0 < |Apply(s, a).queues| && t in Apply(s, a).queues[RUNQ].list
  {
    hide Wakeup, Unlock;
    if a.WakeStep? || a.InterruptStep? {
      WakeupRuns(s, q);
    } else {
      UnlockRuns(s, q - 1);
    }
  }

  lemma WakeupRuns(s: State, q: nat)
    requires 0 < q < |s.queues| && s.queues[q].list != [] && Oldest(s, q) < |s.threads|
    ensures |Wakeup(s, q).queues| == |s.queues|
    ensures Wakeup(s, q).queues[RUNQ].list == [Oldest(s, q)] + s.queues[RUNQ].list
  {
  }

  lemma UnlockRuns(s: State, m: nat)
    requires m < |s.holders| < |s.queues| && (s.queues[WaitQ(m)].list != [] ==> Oldest(s, WaitQ(m)) < |s.threads|)
    ensures |Unlock(s, m).queues| == |s.queues|
    ensures Unlock(s, m).queues[RUNQ].list ==
            if s.queues[WaitQ(m)].list == [] then s.queues[RUNQ].list
            else [Oldest(s, WaitQ(m))] + s.queues[RUNQ].list
  {
    if s.queues[WaitQ(m)].list != [] {
      hide Wakeup;
      WakeupRuns(SetHolder(s, m, None), WaitQ(m));
    }
  }

  // One step: t is woken, or keeps sleeping with no more sleepers ahead, and
  // one fewer for every service of the queue
  lemma SleeperStep(s: State, a: Step, q: nat, t: nat)
    requires Inv(s) && Enabled(s, a) && Ready(s, a) && Sleeps(s, q, t) && Stays(s, a, t) && !Wakes(s, a, q, t)
    ensures var r := Apply(s, a);
            && Sleeps(r, q, t)
            && After(r.queues[q].list, t) + (if Serves(s, a, q) then 1 else 0) <= After(s.queues[q].list, t)
  {
    hide Apply, Changed;
    QueueStep(s, a, q);
    assert QueueOk(s, q) && ThreadOk(s, t);
    var l, c := s.queues[q].list, QueueChange(s, a, q);
    if c.Arrival? {
      assert ThreadOk(s, c.x);
    }
    ChangeAhead(l, c, t);
    hide Inv;
  }

  ghost function ServiceCount(s: State, steps: seq<Step>, q: nat): nat
    requires Inv(s) && Runs(s, steps) && q > 0
    decreases |steps|
  {
    if steps == [] then 0
    else
      ApplyInv(s, steps[0]);
      (if Serves(s, steps[0], q) then 1 else 0) + ServiceCount(Apply(s, steps[0]), steps[1..], q)
  }

  // Some step of the run wakes t on q
  ghost predicate GetsWoken(s: State, steps: seq<Step>, q: nat, t: nat)
    requires Inv(s) && Runs(s, steps)
    decreases |steps|
  {
    steps != [] &&
    (Wakes(s, steps[0], q, t) || (ApplyInv(s, steps[0]); GetsWoken(Apply(s, steps[0]), steps[1..], q, t)))
  }

  // In every run, a sleeper with k ahead on its queue that no cancellation
  // removes is woken by the (k + 1)-th wakeup of the queue at the latest.
  lemma {:induction false} WokenInTurn(s: State, steps: seq<Step>, q: nat, t: nat)
    requires Inv(s) && Runs(s, steps) && Sleeps(s, q, t) && NeverCancelled(s, steps, t)
    requires ServiceCount(s, steps, q) > After(s.queues[q].list, t)
    ensures GetsWoken(s, steps, q, t)
    decreases |steps|
  {
    hide Inv, Apply, Enabled, Ready, Serves;
    var a := steps[0];
    ApplyInv(s, a);
    if !Wakes(s, a, q, t) {
      SleeperStep(s, a, q, t);
      WokenInTurn(Apply(s, a), steps[1..], q, t);
    }
  }

  // u sleeps on q behind t, or not at all
  ghost predicate SleepsBehind(s: State, q: nat, t: nat, u: nat) {
    Sleeps(s, q, t) && u != t && (Sleeps(s, q, u) ==> After(s.queues[q].list, t) < After(s.queues[q].list, u))
  }

  lemma SleepOrderStep(s: State, a: Step, q: nat, t: nat, u: nat)
    requires Inv(s) && Enabled(s, a) && Ready(s, a) && SleepsBehind(s, q, t, u) && Stays(s, a, t)
    ensures !Wakes(s, a, q, u)
    ensures Wakes(s, a, q, t) || SleepsBehind(Apply(s, a), q, t, u)
  {
    hide Apply, Changed;
    var l, c := s.queues[q].list, QueueChange(s, a, q);
    assert QueueOk(s, q) && ThreadOk(s, t);
    AfterDrop(l, t);
    if u in l {
      AfterDrop(l, u);
    }
    if !Wakes(s, a, q, t) {
      SleeperStep(s, a, q, t);
      QueueStep(s, a, q);
      if c.Arrival? {
        assert ThreadOk(s, c.x);
      }
      ChangeOrder(l, c, t, u);
    }
    hide Inv;
  }

  // Nobody is woken before a thread that went to sleep on the queue earlier
  lemma {:induction false} WokenInOrder(s: State, steps: seq<Step>, q: nat, t: nat, u: nat)
    requires Inv(s) && Runs(s, steps) && SleepsBehind(s, q, t, u) && NeverCancelled(s, steps, t)
    requires GetsWoken(s, steps, q, u)
    ensures GetsWoken(s, steps, q, t)
    decreases |steps|
  {
    hide Inv, Apply, Enabled, Ready, Wakes, SleepsBehind;
    var a := steps[0];
    ApplyInv(s, a);
    SleepOrderStep(s, a, q, t, u);
    if !Wakes(s, a, q, t) {
      WokenInOrder(Apply(s, a), steps[1..], q, t, u);
    }
  }

  // ---- the run queue ----

  function RunChange(s: State, a: Step): Change
    requires Ready(s, a)
  {
    match a
    case SpawnStep => Arrival(|s.threads|)
    case WakeStep(q) => Arrival(Oldest(s, q))
    case InterruptStep(q) => Arrival(Oldest(s, q))
    case CancelStep(t) =>
      if s.threads[t].state != KtSleepCancellable then Same
      else if s.threads[t].wchan == Some(RUNQ) then Requeue(t) else Arrival(t)
    case YieldStep => Arrival(s.cur.value)
    case UnlockStep(m) => if s.queues[WaitQ(m)].list == [] then Same else Arrival(Oldest(s, WaitQ(m)))
    case ResumeStep =>
      var pc := s.threads[s.cur.value].pc;
      if pc.InLockCancellable? && Unlocks(s, a, pc.m) && s.queues[WaitQ(pc.m)].list != [] then
        Arrival(Oldest(s, WaitQ(pc.m)))
      else Same
    case DispatchStep => Service
    case _ => Same
  }

  lemma RunQueueStep(s: State, a: Step)
    requires Inv(s) && Enabled(s, a) && Ready(s, a)
    ensures Apply(s, a).queues[RUNQ].list == Changed(s.queues[RUNQ].list, RunChange(s, a))
  {
    hide Inv, Wakeup, Unlock, Sleep, Erase;
    match a
    case SleepStep(q, c) => SleepLists(s, q, if c then KtSleepCancellable else KtSleep, InSleep(c), RUNQ);
    case LockStep(m) => SleepLists(s, WaitQ(m), KtSleep, InLock(m), RUNQ);
    case LockCancellableStep(m) => SleepLists(s, WaitQ(m), KtSleepCancellable, InLockCancellable(m), RUNQ);
    case WakeStep(q) => WakeupRuns(s, q);
    case InterruptStep(q) => WakeupRuns(s, q);
    case UnlockStep(m) => UnlockRuns(s, m);
    case ResumeStep =>
      if s.threads[s.cur.value].pc.InLockCancellable? {
        UnlockRuns(s, s.threads[s.cur.value].pc.m);
      }
    case _ =>
  }

  // A cancelled sleeper keeps its sleeping state, so cancelling it again
  // while it waits for the processor sends it to the back of the run queue:
  // the queue is left alone exactly when the state is another one or the
  // thread is at the back already.
  lemma CancelRunnable(s: State, t: nat)
    requires Inv(s) && Enabled(s, CancelStep(t)) && s.threads[t].wchan == Some(RUNQ)
    ensures Ready(s, CancelStep(t))
    ensures Apply(s, CancelStep(t)).queues[RUNQ].list == s.queues[RUNQ].list
            <==> s.threads[t].state != KtSleepCancellable || [t] <= s.queues[RUNQ].list
  {
    ApplyInv(s, CancelStep(t));
    RunQueueStep(s, CancelStep(t));
    assert QueueOk(s, RUNQ);
    var l := s.queues[RUNQ].list;
    if l[0] == t {
      assert l == [t] + l[1..];
    }
  }

  ghost function DispatchCount(steps: seq<Step>): nat {
    if steps == [] then 0 else (if steps[0] == DispatchStep then 1 else 0) + DispatchCount(steps[1..])
  }

  ghost predicate GetsCpu(s: State, steps: seq<Step>, t: nat)
    requires Inv(s) && Runs(s, steps)
    decreases |steps|
  {
    s.cur == Some(t) || (steps != [] && (ApplyInv(s, steps[0]); GetsCpu(Apply(s, steps[0]), steps[1..], t)))
  }

  lemma RunnableStep(s: State, a: Step, t: nat)
    requires Inv(s) && Enabled(s, a) && Ready(s, a) && t in s.queues[RUNQ].list && Stays(s, a, t)
    ensures var r := Apply(s, a);
            || r.cur == Some(t)
            || (t in r.queues[RUNQ].list
                && After(r.queues[RUNQ].list, t) + (if a == DispatchStep then 1 else 0)
                   <= After(s.queues[RUNQ].list, t))
  {
    RunQueueStep(s, a);
    assert QueueOk(s, RUNQ) && ThreadOk(s, t);
    var l := s.queues[RUNQ].list;
    var c := RunChange(s, a);
    if c.Arrival? {
      ArrivalIsNew(s, a, c.x);
    }
    ChangeAhead(l, c, t);
  }

  lemma ArrivalIsNew(s: State, a: Step, x: nat)
    requires Inv(s) && Enabled(s, a) && Ready(s, a) && RunChange(s, a) == Arrival(x)
    ensures x !in s.queues[RUNQ].list
  {
    assert QueueOk(s, RUNQ);
    if x < |s.threads| {
      assert ThreadOk(s, x);
      match a
      case WakeStep(q) => DequeueQueues(s, q);
      case InterruptStep(q) => DequeueQueues(s, q);
      case UnlockStep(m) => DequeueQueues(s, WaitQ(m));
      case ResumeStep => DequeueQueues(s, WaitQ(s.threads[s.cur.value].pc.m));
      case _ =>
    }
  }

  // A runnable thread with k threads ahead runs after at most k + 1
  // switches, unless such a second cancellation moves it back.
  lemma {:induction false} RunQueueFair(s: State, steps: seq<Step>, t: nat)
    requires Inv(s) && Runs(s, steps) && t in s.queues[RUNQ].list && NeverCancelled(s, steps, t)
    requires DispatchCount(steps) > After(s.queues[RUNQ].list, t)
    ensures GetsCpu(s, steps, t)
    decreases |steps|
  {
    var a := steps[0];
    ApplyInv(s, a);
    RunnableStep(s, a, t);
    var r := Apply(s, a);
    if r.cur != Some(t) {
      RunQueueFair(r, steps[1..], t);
    }
  }

  // ---- broadcast ----

  // sched_broadcast_on: wake up one by one until the queue is empty
  function Broadcast(s: State, q: nat): State
    requires 0 < q < |s.queues| && forall t | t in s.queues[q].list :: t < |s.threads|
    decreases |s.queues[q].list|
  {
    if s.queues[q].list == [] then s
    else
      assert Oldest(s, q) in s.queues[q].list;
      var r := Wakeup(s, q);
      assert forall t | t in r.queues[q].list :: t in s.queues[q].list;
      Broadcast(r, q)
  }

  // All waiters become runnable in the order in which they went to sleep
  lemma {:induction false} BroadcastOrder(s: State, q: nat)
    requires 0 < q < |s.queues| && forall t | t in s.queues[q].list :: t < |s.threads|
    ensures var r := Broadcast(s, q);
            && |r.queues| == |s.queues| && r.queues[q].list == []
            && r.queues[RUNQ].list == s.queues[q].list + s.queues[RUNQ].list
            && r.cur == s.cur && r.holders == s.holders
            && (forall p | 0 < p < |s.queues| && p != q :: r.queues[p] == s.queues[p])
    decreases |s.queues[q].list|
  {
    var l := s.queues[q].list;
    if l != [] {
      assert Oldest(s, q) in l;
      var r := Wakeup(s, q);
      assert forall t | t in r.queues[q].list :: t in l;
      BroadcastOrder(r, q);
      assert l == l[..|l| - 1] + [l[|l| - 1]];
    }
  }

  lemma {:induction false} BroadcastInv(s: State, q: nat)
    requires Inv(s) && |s.holders| < q < |s.queues|
    ensures forall t | t in s.queues[q].list :: t < |s.threads|
    ensures Inv(Broadcast(s, q))
    decreases |s.queues[q].list|
  {
    assert QueueOk(s, q);
    if s.queues[q].list != [] {
      WakeupInv(s, q);
      BroadcastInv(Wakeup(s, q), q);
    }
  }
}
