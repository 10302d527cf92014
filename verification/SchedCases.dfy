/**
 A run of the scheduler from boot in which the run queue is not served in
 order.
 */
module SchedCases {
  import opened Basics
  import opened Sched
  import opened SchedRuns

  // A run from boot in which it happens: thread 1 sleeps and is cancelled,
  // thread 2 is made runnable behind it, and a second cancellation of thread 1
  // puts it behind thread 2.
  const CANCELLED_ONCE: seq<Step> :=
    [SpawnStep, YieldStep, DispatchStep, SleepStep(1, true), DispatchStep, CancelStep(1), SpawnStep]

  // The states it goes through, the last one for k == 7
  function CancelCase(k: nat): State {
    var main, none := Thread(KtRun, false, None, AtWork), KtQueue([], 0);
    var ready := main.(wchan := Some(RUNQ));
    var asleep := Thread(KtSleepCancellable, false, Some(1), InSleep(true));
    var stale := Thread(KtSleepCancellable, true, Some(RUNQ), InSleep(true));
    match k
    case 0 => State([main], [none, none], Some(0), [])
    case 1 => State([main, ready], [KtQueue([1], 1), none], Some(0), [])
    case 2 => State([ready, ready], [KtQueue([0, 1], 2), none], None, [])
    case 3 => State([ready, main], [KtQueue([0], 1), none], Some(1), [])
    case 4 => State([ready, asleep], [KtQueue([0], 1), KtQueue([1], 1)], None, [])
    case 5 => State([main, asleep], [none, KtQueue([1], 1)], Some(0), [])
    case 6 => State([main, stale], [KtQueue([1], 1), none], Some(0), [])
    case _ => State([main, stale, ready], [KtQueue([2, 1], 2), none], Some(0), [])
  }

  lemma CancelCaseStart()
    ensures Inv(Boot(0, 1)) && Boot(0, 1) == CancelCase(0)
  {
    BootInv(0, 1);
    assert Boot(0, 1).queues == CancelCase(0).queues;
  }

  lemma CancelCaseSpawn(k: nat)
    requires (k == 0 || k == 6) && Inv(CancelCase(k))
    ensures Enabled(CancelCase(k), SpawnStep) && Ready(CancelCase(k), SpawnStep)
    ensures Apply(CancelCase(k), SpawnStep) == CancelCase(k + 1)
  {
    var s := CancelCase(k);
    InvReady(s, SpawnStep);
    var t := |s.threads|;
    assert [t] + s.queues[RUNQ].list == CancelCase(k + 1).queues[RUNQ].list;
    assert Apply(s, SpawnStep).queues == CancelCase(k + 1).queues;
    assert Apply(s, SpawnStep).threads == CancelCase(k + 1).threads;
    hide Inv;
  }

  lemma CancelCaseYield()
    requires Inv(CancelCase(1))
    ensures Enabled(CancelCase(1), YieldStep) && Ready(CancelCase(1), YieldStep)
    ensures Apply(CancelCase(1), YieldStep) == CancelCase(2)
  {
    InvReady(CancelCase(1), YieldStep);
    assert [0] + [1] == [0, 1];
    assert Apply(CancelCase(1), YieldStep).queues == CancelCase(2).queues;
    assert Apply(CancelCase(1), YieldStep).threads == CancelCase(2).threads;
    hide Inv;
  }

  lemma CancelCaseDispatch(k: nat)
    requires (k == 2 || k == 4) && Inv(CancelCase(k))
    ensures Enabled(CancelCase(k), DispatchStep) && Ready(CancelCase(k), DispatchStep)
    ensures Apply(CancelCase(k), DispatchStep) == CancelCase(k + 1)
  {
    var s := CancelCase(k);
    InvReady(s, DispatchStep);
    assert Apply(s, DispatchStep).queues[RUNQ].list == CancelCase(k + 1).queues[RUNQ].list;
    assert Apply(s, DispatchStep).queues == CancelCase(k + 1).queues;
    assert Apply(s, DispatchStep).threads == CancelCase(k + 1).threads;
    hide Inv;
  }

  lemma CancelCaseSleep()
    requires Inv(CancelCase(3))
    ensures Enabled(CancelCase(3), SleepStep(1, true)) && Ready(CancelCase(3), SleepStep(1, true))
    ensures Apply(CancelCase(3), SleepStep(1, true)) == CancelCase(4)
  {
    var s, a := CancelCase(3), SleepStep(1, true);
    InvReady(s, a);
    assert [1] + s.queues[1].list == [1];
    assert Apply(s, a).queues == CancelCase(4).queues && Apply(s, a).threads == CancelCase(4).threads;
    hide Inv;
  }

  // The first cancellation takes thread 1 off its queue, the second one
  // moves it in the run queue
  lemma CancelCaseCancel(k: nat)
    requires (k == 5 || k == 7) && Inv(CancelCase(k))
    ensures Enabled(CancelCase(k), CancelStep(1)) && Ready(CancelCase(k), CancelStep(1))
    ensures k == 5 ==> Apply(CancelCase(5), CancelStep(1)) == CancelCase(6)
    ensures k == 7 ==> Apply(CancelCase(7), CancelStep(1)).queues[RUNQ].list == [1, 2]
  {
    var s, a := CancelCase(k), CancelStep(1);
    InvReady(s, a);
    assert [2, 1][1..] == [1] && [1][1..] == [];
    assert Erase([1], 1) == [] && Erase([2, 1], 1) == [2] && [1] + [2] == [1, 2] && [1] + [] == [1];
    if k == 5 {
      assert Apply(s, a).queues == CancelCase(6).queues && Apply(s, a).threads == CancelCase(6).threads;
    }
    hide Inv;
  }

  lemma RunsFirst(s: State, a: Step, steps: seq<Step>)
    requires Inv(s) && Enabled(s, a) && Ready(s, a) && Inv(Apply(s, a)) && Runs(Apply(s, a), steps)
    ensures Runs(s, [a] + steps) && Run(s, [a] + steps) == Run(Apply(s, a), steps)
  {
    assert ([a] + steps)[1..] == steps;
  }

  lemma SecondCancelDelays()
    ensures Inv(Boot(0, 1)) && Runs(Boot(0, 1), CANCELLED_ONCE)
    ensures var s := Run(Boot(0, 1), CANCELLED_ONCE);
            && Inv(s) && Ready(s, CancelStep(1)) && s.queues[RUNQ].list == [2, 1]
            && Apply(s, CancelStep(1)).queues[RUNQ].list == [1, 2]
  {
    CancelCaseStart();
    assert CancelCase(7).queues[RUNQ].list == [2, 1];
    CancelCaseRun(0);
    CancelCaseCancel(7);
    hide Inv, Runs, Run, Apply, Ready, CancelCase;
    assert CANCELLED_ONCE[0..] == CANCELLED_ONCE;
  }

  lemma CancelCaseStep(k: nat)
    requires k < 7 && Inv(CancelCase(k))
    ensures var a := CANCELLED_ONCE[k];
            && Enabled(CancelCase(k), a) && Ready(CancelCase(k), a)
            && Apply(CancelCase(k), a) == CancelCase(k + 1) && Inv(CancelCase(k + 1))
  {
    hide Inv, Apply, Ready, Enabled, CancelCase;
    match k {
      case 0 => CancelCaseSpawn(0);
      case 1 => CancelCaseYield();
      case 2 => CancelCaseDispatch(2);
      case 3 => CancelCaseSleep();
      case 4 => CancelCaseDispatch(4);
      case 5 => CancelCaseCancel(5);
      case _ => CancelCaseSpawn(6);
    }
    ApplyInv(CancelCase(k), CANCELLED_ONCE[k]);
  }

  lemma {:induction false} CancelCaseRun(k: nat)
    requires k <= 7 && Inv(CancelCase(k))
    ensures Runs(CancelCase(k), CANCELLED_ONCE[k..]) && Inv(CancelCase(7))
    ensures Run(CancelCase(k), CANCELLED_ONCE[k..]) == CancelCase(7)
    decreases 7 - k
  {
    hide Inv, Apply, Ready, Enabled, CancelCase;
    if k < 7 {
      CancelCaseStep(k);
      CancelCaseRun(k + 1);
      RunsFirst(CancelCase(k), CANCELLED_ONCE[k], CANCELLED_ONCE[k + 1..]);
      assert CANCELLED_ONCE[k..] == [CANCELLED_ONCE[k]] + CANCELLED_ONCE[k + 1..];
    } else {
      assert CANCELLED_ONCE[7..] == [];
    }
  }
}
