/**
 Cancellation over runs of the scheduler: a thread's flag is set by its
 cancellations and by nothing else, a cancellable sleep reports it exactly if there
 was one, and a plain sleep is not disturbed by it.
 */
module SchedCancel {
  import opened Basics
  import opened Sched
  import opened SchedRuns
  import opened SchedFairness

  // ---- the flag ----

  lemma ThreadsStep(s: State, a: Step)
    requires Ready(s, a)
    ensures |Apply(s, a).threads| == |s.threads| + if a == SpawnStep then 1 else 0
    ensures a.CancelStep? ==> a.t < |s.threads|
  {
  }

  // Waking and handing a mutex over touch neither flags nor calls
  lemma WakeupKeeps(s: State, q: nat, t: nat)
    requires 0 < |s.queues| && q < |s.queues| && s.queues[q].list != [] && Oldest(s, q) < |s.threads| && t < |s.threads|
    ensures var r := Wakeup(s, q);
            && |r.threads| == |s.threads| && r.threads[t].cancelled == s.threads[t].cancelled
            && r.threads[t].pc == s.threads[t].pc
  {
  }

  lemma UnlockKeeps(s: State, m: nat, t: nat)
    requires m < |s.holders| < |s.queues| && t < |s.threads|
    requires s.queues[WaitQ(m)].list != [] ==> Oldest(s, WaitQ(m)) < |s.threads|
    ensures var r := Unlock(s, m);
            && |r.threads| == |s.threads| && r.threads[t].cancelled == s.threads[t].cancelled
            && r.threads[t].pc == s.threads[t].pc
  {
    if s.queues[WaitQ(m)].list != [] {
      hide Wakeup;
      WakeupKeeps(SetHolder(s, m, None), WaitQ(m), t);
    }
  }

  lemma OthersKeep(s: State, a: Step, t: nat)
    requires Ready(s, a) && t < |s.threads| + 1
    ensures (a.WakeStep? || a.InterruptStep?) && t < |s.threads| ==>
              && |Wakeup(s, a.q).threads| == |s.threads| && Wakeup(s, a.q).threads[t].pc == s.threads[t].pc
              && Wakeup(s, a.q).threads[t].cancelled == s.threads[t].cancelled
    ensures forall m | 0 <= m < |s.holders| && t < |s.threads| ::
              && |Unlock(s, m).threads| == |s.threads| && Unlock(s, m).threads[t].pc == s.threads[t].pc
              && Unlock(s, m).threads[t].cancelled == s.threads[t].cancelled
  {
    hide Wakeup, Unlock;
    if t < |s.threads| {
      if a.WakeStep? || a.InterruptStep? {
        WakeupKeeps(s, a.q, t);
      }
      forall m | 0 <= m < |s.holders|
        ensures && |Unlock(s, m).threads| == |s.threads| && Unlock(s, m).threads[t].pc == s.threads[t].pc
                && Unlock(s, m).threads[t].cancelled == s.threads[t].cancelled
      {
        UnlockKeeps(s, m, t);
      }
    }
  }

  // Every step sets the flag of the thread it cancels, in whatever state that
  // is, and leaves the others alone; a new thread is not cancelled
  lemma FlagStep(s: State, a: Step, t: nat)
    requires Ready(s, a) && t < |Apply(s, a).threads|
    ensures Apply(s, a).threads[t].cancelled <==> (t < |s.threads| && s.threads[t].cancelled) || a == CancelStep(t)
  {
    hide Wakeup, Unlock;
    ThreadsStep(s, a);
    OthersKeep(s, a, t);
  }

  lemma {:induction false} FlagRun(s: State, steps: seq<Step>, t: nat)
    requires Inv(s) && Runs(s, steps) && t < |Run(s, steps).threads|
    ensures Run(s, steps).threads[t].cancelled <==>
            (t < |s.threads| && s.threads[t].cancelled) || CancelStep(t) in steps
    decreases |steps|
  {
    if steps != [] {
      hide Inv, Apply, Enabled, Ready;
      var a := steps[0];
      ApplyInv(s, a);
      ThreadsStep(s, a);
      FlagRun(Apply(s, a), steps[1..], t);
      if t < |Apply(s, a).threads| {
        FlagStep(s, a, t);
      }
    }
  }

  // In every run from boot a thread is cancelled if and only if somebody
  // cancelled it
  lemma CancelledInEveryRun(mutexes: nat, others: nat, steps: seq<Step>, t: nat)
    requires Inv(Boot(mutexes, others)) && Runs(Boot(mutexes, others), steps)
    requires t < |Run(Boot(mutexes, others), steps).threads|
    ensures Run(Boot(mutexes, others), steps).threads[t].cancelled <==> CancelStep(t) in steps
  {
    FlagRun(Boot(mutexes, others), steps, t);
  }

  // ---- what a cancellable sleep returns ----

  // A call stays where it is until its thread resumes it
  lemma CallStays(s: State, a: Step, t: nat)
    requires Inv(s) && Ready(s, a) && t < |s.threads| && s.threads[t].pc != AtWork
    requires !(a == ResumeStep && s.cur == Some(t))
    ensures t < |Apply(s, a).threads| && Apply(s, a).threads[t].pc == s.threads[t].pc
  {
    hide Inv, Wakeup, Unlock;
    OthersKeep(s, a, t);
  }

  ghost predicate NotResumed(s: State, steps: seq<Step>, t: nat)
    requires Inv(s) && Runs(s, steps)
    decreases |steps|
  {
    steps != [] ==>
      && !(steps[0] == ResumeStep && s.cur == Some(t))
      && (ApplyInv(s, steps[0]); NotResumed(Apply(s, steps[0]), steps[1..], t))
  }

  lemma {:induction false} CallStaysRun(s: State, steps: seq<Step>, t: nat)
    requires Inv(s) && Runs(s, steps) && NotResumed(s, steps, t) && t < |s.threads| && s.threads[t].pc != AtWork
    ensures t < |Run(s, steps).threads| && Run(s, steps).threads[t].pc == s.threads[t].pc
    decreases |steps|
  {
    if steps != [] {
      hide Inv, Apply, Enabled, Ready;
      ApplyInv(s, steps[0]);
      CallStays(s, steps[0], t);
      CallStaysRun(Apply(s, steps[0]), steps[1..], t);
    }
  }

  // A thread that was cancelled before does not go to sleep at all; the call
  // leaves everything as it is
  lemma SleepNow(s: State, q: nat)
    requires Ready(s, SleepStep(q, true))
    ensures Apply(s, SleepStep(q, true)) == s <==> s.threads[s.cur.value].cancelled
  {
  }

  // One that goes to sleep returns -EINTR if and only if it was cancelled since,
  // whenever it runs again, and 0 if it was only woken
  lemma SleepReturns(s: State, q: nat, steps: seq<Step>)
    requires Inv(s) && Enabled(s, SleepStep(q, true)) && Ready(s, SleepStep(q, true))
    requires !s.threads[s.cur.value].cancelled
    requires var s1 := Apply(s, SleepStep(q, true));
             Inv(s1) && Runs(s1, steps) && NotResumed(s1, steps, s.cur.value) && Run(s1, steps).cur == s.cur
    ensures var t, r := s.cur.value, Run(Apply(s, SleepStep(q, true)), steps);
            && t < |r.threads| && Enabled(r, ResumeStep)
            && ResumeCode(r) == if CancelStep(t) in steps then -4 else 0
  {
    var t, s1 := s.cur.value, Apply(s, SleepStep(q, true));
    assert s1.threads[t].pc == InSleep(true) && !s1.threads[t].cancelled;
    hide Inv, Apply, Runs, Run;
    CallStaysRun(s1, steps, t);
    FlagRun(s1, steps, t);
  }

  // ---- plain sleep ----

  // A cancellation does not take a plain sleeper off its queue
  lemma PlainStays(s: State, a: Step, q: nat, t: nat)
    requires Inv(s) && Sleeps(s, q, t) && t < |s.threads| && s.threads[t].pc == InSleep(false)
    ensures Stays(s, a, t)
  {
    assert QueueOk(s, q) && ThreadOk(s, t);
  }

  // In every run it sleeps on until it is woken in its turn
  lemma {:induction false} PlainSleepRun(s: State, steps: seq<Step>, q: nat, t: nat)
    requires Inv(s) && Runs(s, steps) && Sleeps(s, q, t) && t < |s.threads| && s.threads[t].pc == InSleep(false)
    ensures GetsWoken(s, steps, q, t) || Sleeps(Run(s, steps), q, t)
    ensures ServiceCount(s, steps, q) > After(s.queues[q].list, t) ==> GetsWoken(s, steps, q, t)
    decreases |steps|
  {
    hide Inv, Apply, Enabled, Ready, Serves, After;
    if steps != [] {
      var a := steps[0];
      ApplyInv(s, a);
      PlainStays(s, a, q, t);
      if !Wakes(s, a, q, t) {
        SleeperStep(s, a, q, t);
        SleeperRuns(s, a, q, t);
        PlainSleepRun(Apply(s, a), steps[1..], q, t);
      }
    }
  }

  lemma SleeperRuns(s: State, a: Step, q: nat, t: nat)
    requires Inv(s) && Ready(s, a) && Sleeps(s, q, t) && t < |s.threads| && s.threads[t].pc == InSleep(false)
    ensures t < |Apply(s, a).threads| && Apply(s, a).threads[t].pc == InSleep(false)
  {
    assert QueueOk(s, q) && ThreadOk(s, t);
    CallStays(s, a, t);
  }
}
