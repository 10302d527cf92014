/**
 The emulator ends.  A round is a stretch of a run in which every thread that is
 neither finished nor waiting takes a turn.  After a number of rounds that depends
 only on the bucket and the number of packets all threads have finished, with or
 without SIGINT and whatever else happens in the rounds.
 */
module TokenLiveness {
  import opened TokenBucket
  import opened TokenRuns
  import opened TokenTheorems

  datatype Thread = PacketThread | TokenThread | ServerThread(i: nat)

  // Signals and spurious wakeups are nobody's turn
  predicate TurnOf(a: Step, t: Thread) {
    match a
    case PacketLooks => t == PacketThread
    case PacketStep(_) => t == PacketThread
    case TokenLooks => t == TokenThread
    case TokenStep => t == TokenThread
    case ServerLooks(i) => t == ServerThread(i)
    case ServerStep(i) => t == ServerThread(i)
    case Spurious(_) => false
    case Sigint => false
  }

  function Turns(steps: seq<Step>, t: Thread): nat {
    if steps == [] then 0 else (if TurnOf(steps[0], t) then 1 else 0) + Turns(steps[1..], t)
  }

  predicate Present(s: State, t: Thread) {
    t.ServerThread? ==> t.i < |s.servers|
  }

  predicate Ended(s: State, t: Thread)
    requires Present(s, t)
  {
    match t
    case PacketThread => s.packet == PacketExit
    case TokenThread => s.token == TokenExit
    case ServerThread(i) => s.servers[i] == ServerExit
  }

  predicate Waits(s: State, t: Thread)
    requires Present(s, t)
  {
    t.ServerThread? && s.servers[t.i] == ServerWaiting
  }

  ghost predicate Round(s: State, steps: seq<Step>) {
    Runs(s, steps) && forall t | Present(s, t) :: Ended(s, t) || Waits(s, t) || Turns(steps, t) > 0
  }

  ghost predicate Rounds(s: State, rounds: seq<seq<Step>>)
    decreases |rounds|
  {
    rounds != [] ==> Round(s, rounds[0]) && Rounds(Run(s, rounds[0]), rounds[1..])
  }

  ghost function RunRounds(s: State, rounds: seq<seq<Step>>): State
    requires Rounds(s, rounds)
    decreases |rounds|
  {
    if rounds == [] then s else RunRounds(Run(s, rounds[0]), rounds[1..])
  }

  // ---- rounds exist ----

  predicate Active(s: State, t: Thread) {
    Present(s, t) && !Ended(s, t) && !Waits(s, t)
  }

  lemma CanTurn(s: State, t: Thread) returns (a: Step)
    requires Active(s, t)
    ensures Enabled(s, a) && TurnOf(a, t)
  {
    match t
    case PacketThread => a := if s.packet == PacketGuard then PacketLooks else PacketStep(1);
    case TokenThread => a := if s.token == TokenWork then TokenStep else TokenLooks;
    case ServerThread(i) => a := if s.servers[i] == ServerLock then ServerStep(i) else ServerLooks(i);
  }

  lemma ReleaseTouches(s: State, i: nat)
    requires i < |s.servers| && s.servers[i] != ServerWaiting
    ensures |Release(s).servers| == |s.servers| && Release(s).servers[i] == s.servers[i]
  {
    hide WakeAll;
  }

  // A server moves by its own turns only, unless it waits
  lemma OthersTurn(s: State, a: Step, i: nat)
    requires Enabled(s, a) && i < |s.servers| && !TurnOf(a, ServerThread(i)) && s.servers[i] != ServerWaiting
    ensures i < |Apply(s, a).servers| && Apply(s, a).servers[i] == s.servers[i]
  {
    hide WakeAll, AllRemoved, Release;
    match a
    case PacketStep(need) =>
      if s.input > 0 {
        ReleaseTouches(Arrived(s, need), i);
      }
    case TokenStep => ReleaseTouches(Filled(s), i);
    case _ =>
  }

  // Nobody can be kept from its turn by the turns of others
  lemma StaysActive(s: State, a: Step, t: Thread)
    requires Enabled(s, a) && !TurnOf(a, t) && Active(s, t)
    ensures Active(Apply(s, a), t)
  {
    if t.ServerThread? {
      OthersTurn(s, a, t.i);
      hide Apply;
    }
  }

  lemma {:induction false} TakeTurns(s: State, ts: seq<Thread>) returns (steps: seq<Step>)
    ensures Runs(s, steps) && forall t | t in ts && Active(s, t) :: Turns(steps, t) > 0
    decreases |ts|
  {
    hide Enabled, Apply, TurnOf, Active;
    if ts == [] {
      steps := [];
    } else if !Active(s, ts[0]) {
      steps := TakeTurns(s, ts[1..]);
    } else {
      var a := CanTurn(s, ts[0]);
      var rest := TakeTurns(Apply(s, a), ts[1..]);
      steps := [a] + rest;
      assert steps[1..] == rest;
      forall t | t in ts && Active(s, t)
        ensures Turns(steps, t) > 0
      {
        if !TurnOf(a, t) {
          StaysActive(s, a, t);
          assert t in ts[1..];
        }
      }
    }
  }

  // From every state a round can be run
  lemma RoundExists(s: State) returns (steps: seq<Step>)
    ensures Round(s, steps)
  {
    var servers := seq(|s.servers|, i requires i >= 0 => ServerThread(i));
    var all := [PacketThread, TokenThread] + servers;
    steps := TakeTurns(s, all);
    forall t | Present(s, t)
      ensures t in all
    {
      if t.ServerThread? {
        assert servers[t.i] == t;
      }
    }
    hide Runs;
    forall t | Present(s, t)
      ensures Ended(s, t) || Waits(s, t) || Turns(steps, t) > 0
    {
      assert t in all;
    }
  }

  // ---- the turns a thread has left ----

  // When they are bounded: a token thread may tick for nothing until the last
  // packet has come, a server may look in vain until Q1 is empty
  predicate Bounded(s: State, t: Thread) {
    match t
    case PacketThread => true
    case TokenThread => s.input == 0
    case ServerThread(_) => s.input == 0 && s.q1 == []
  }

  function AtLeast(least: nat, n: nat): nat {
    if n < least then least else n
  }

  // Tokens until Q1 is empty
  function TokensDue(s: State): int {
    if s.q1 == [] then 0 else SumNeeds(s.q1) - s.tokens
  }

  // An upper bound, 0 exactly for a finished thread
  function Work(s: State, t: Thread): int
    requires Present(s, t)
  {
    match t
    case PacketThread =>
      (match s.packet
       case PacketGuard => 2 * s.input + 1
       case PacketWork => AtLeast(2, 2 * s.input)
       case PacketExit => 0)
    case TokenThread =>
      (match s.token
       case TokenGuardInput => 3 * TokensDue(s) + 2
       case TokenGuardQ1 => 3 * TokensDue(s) + 1
       case TokenWork => if TokensDue(s) < 1 then 3 else 3 * TokensDue(s)
       case TokenExit => 0)
    case ServerThread(i) =>
      (match s.servers[i]
       case ServerGuardInput => 4 * |s.q2| + 3
       case ServerGuardQ1 => 4 * |s.q2| + 2
       case ServerGuardQ2 => 4 * |s.q2| + 1
       case ServerLock => AtLeast(4, 4 * |s.q2|)
       case ServerWaiting => AtLeast(4, 4 * |s.q2|)
       case ServerExit => 0)
  }

  lemma DuePositiveAll(s: State)
    requires Inv(s)
    ensures TokensDue(s) >= |s.q1|
  {
    if s.q1 != [] {
      DuePositive(s, |s.q1| - 1);
      assert s.q1[..|s.q1|] == s.q1;
    }
  }

  lemma WorkZero(s: State, t: Thread)
    requires Inv(s) && Present(s, t)
    ensures Work(s, t) >= 0 && (Work(s, t) == 0 <==> Ended(s, t))
  {
    hide Inv, TokensDue;
    DuePositiveAll(s);
  }

  // ---- every step ----

  lemma PacketTurns(s: State, a: Step)
    requires Inv(s) && Enabled(s, a)
    ensures Work(Apply(s, a), PacketThread) + (if TurnOf(a, PacketThread) then 1 else 0) <= Work(s, PacketThread)
  {
    ApplyCounters(s, a);
    hide Inv;
  }

  lemma TokenTurns(s: State, a: Step)
    requires Inv(s) && Enabled(s, a) && s.input == 0
    ensures var r := Apply(s, a);
            r.input == 0 && Work(r, TokenThread) + (if TurnOf(a, TokenThread) then 1 else 0) <= Work(s, TokenThread)
  {
    hide Inv, SumNeeds, Release, WakeAll, AllRemoved;
    DuePositiveAll(s);
    if a == TokenStep {
      BucketHolds(s);
      DueFalls(s);
    } else {
      DueRests(s, a);
      hide Apply;
    }
  }

  lemma BucketHolds(s: State)
    requires Inv(s)
    ensures BucketOk(s)
  {
  }

  lemma DueRests(s: State, a: Step)
    requires Enabled(s, a) && s.input == 0 && a != TokenStep
    ensures var r := Apply(s, a);
            && r.input == 0 && r.token == (if a == TokenLooks then TokenLook(s) else s.token)
            && (r.q1 == [] || (r.q1 == s.q1 && r.tokens == s.tokens))
  {
    hide Release, WakeAll, AllRemoved;
  }

  lemma DueFalls(s: State)
    requires BucketOk(s)
    ensures var r := Release(Filled(s));
            s.q1 != [] ==> r.input == s.input && TokensDue(r) == TokensDue(s) - 1
  {
    hide WakeAll;
  }

  // With nothing left to come Q2 only shrinks
  lemma OnlyServed(s: State, a: Step)
    requires Inv(s) && Enabled(s, a) && s.input == 0 && s.q1 == []
    ensures var r := Apply(s, a);
            r.input == 0 && r.q1 == [] && |r.servers| == |s.servers| && |r.q2| <= |s.q2|
  {
    hide Inv, WakeAll;
  }

  lemma OwnTurn(s: State, a: Step, i: nat)
    requires Enabled(s, a) && s.input == 0 && s.q1 == [] && i < |s.servers| && TurnOf(a, ServerThread(i))
    ensures i < |Apply(s, a).servers| && Work(Apply(s, a), ServerThread(i)) < Work(s, ServerThread(i))
  {
    hide WakeAll;
  }

  lemma ServerTurns(s: State, a: Step, i: nat)
    requires Inv(s) && Enabled(s, a) && s.input == 0 && s.q1 == [] && i < |s.servers|
    ensures var r := Apply(s, a);
            && r.input == 0 && r.q1 == [] && |r.servers| == |s.servers|
            && Work(r, ServerThread(i)) + (if TurnOf(a, ServerThread(i)) then 1 else 0) <= Work(s, ServerThread(i))
  {
    OnlyServed(s, a);
    assert ServerOk(s, i);
    hide Inv, WakeAll, AllRemoved;
    if TurnOf(a, ServerThread(i)) {
      OwnTurn(s, a, i);
    } else if s.servers[i] != ServerWaiting {
      OthersTurn(s, a, i);
    }
    hide Apply;
  }

  // A turn uses up work, and no step adds any
  lemma StepWork(s: State, a: Step, t: Thread)
    requires Inv(s) && Enabled(s, a) && Present(s, t) && Bounded(s, t)
    ensures var r := Apply(s, a);
            && Present(r, t) && Bounded(r, t)
            && Work(r, t) + (if TurnOf(a, t) then 1 else 0) <= Work(s, t)
  {
    hide Inv, Apply, Work;
    match t
    case PacketThread => PacketTurns(s, a);
    case TokenThread => TokenTurns(s, a);
    case ServerThread(i) => ServerTurns(s, a, i);
  }

  lemma {:induction false} RunWork(s: State, steps: seq<Step>, t: Thread)
    requires Inv(s) && Runs(s, steps) && Present(s, t) && Bounded(s, t)
    ensures var r := Run(s, steps);
            Inv(r) && Present(r, t) && Bounded(r, t) && Work(r, t) + Turns(steps, t) <= Work(s, t)
    decreases |steps|
  {
    hide Inv, Apply, Work, Enabled, Bounded, Present;
    if steps != [] {
      ApplyInv(s, steps[0]);
      StepWork(s, steps[0], t);
      RunWork(Apply(s, steps[0]), steps[1..], t);
    }
  }

  // ---- every round ----

  lemma RoundWork(s: State, steps: seq<Step>, t: Thread)
    requires Inv(s) && Round(s, steps) && Present(s, t) && Bounded(s, t)
    ensures var r := Run(s, steps);
            Inv(r) && Present(r, t) && Bounded(r, t) && 0 <= Work(r, t) <= Work(s, t)
              && (Work(s, t) > 0 ==> Work(r, t) < Work(s, t))
  {
    WorkZero(s, t);
    RunWork(s, steps, t);
    WorkZero(Run(s, steps), t);
    assert !Waits(s, t) by {
      if t.ServerThread? {
        assert ServerOk(s, t.i);
      }
    }
    hide Inv, Work, Run, Runs, Bounded;
  }

  // As many rounds as there is work end the thread, and it stays so
  lemma {:induction false} RoundsEnd(s: State, rounds: seq<seq<Step>>, t: Thread)
    requires Inv(s) && Rounds(s, rounds) && Present(s, t) && Bounded(s, t)
    ensures var r := RunRounds(s, rounds);
            && Inv(r) && Present(r, t) && Bounded(r, t)
            && (Work(s, t) <= |rounds| ==> Ended(r, t))
    decreases |rounds|
  {
    hide Inv, Work, Run, Runs, Bounded, Ended, Waits;
    WorkZero(s, t);
    if rounds != [] {
      RoundWork(s, rounds[0], t);
      RoundsEnd(Run(s, rounds[0]), rounds[1..], t);
    }
  }

  lemma {:induction false} RoundsSplit(s: State, rounds: seq<seq<Step>>, k: nat)
    requires Rounds(s, rounds) && k <= |rounds|
    ensures Rounds(s, rounds[..k]) && Rounds(RunRounds(s, rounds[..k]), rounds[k..])
    ensures RunRounds(RunRounds(s, rounds[..k]), rounds[k..]) == RunRounds(s, rounds)
    decreases k
  {
    if k == 0 {
      assert rounds[k..] == rounds;
    } else {
      assert rounds[..k][1..] == rounds[1..][..k - 1] && rounds[1..][k - 1..] == rounds[k..];
      RoundsSplit(Run(s, rounds[0]), rounds[1..], k - 1);
    }
  }

  // ---- bounds ----

  lemma {:induction false} SumAtMost(ps: seq<Packet>, b: nat)
    requires forall i | 0 <= i < |ps| :: ps[i].need <= b
    ensures SumNeeds(ps) <= b * |ps|
  {
    if ps != [] {
      SumAtMost(ps[1..], b);
    }
  }

  // Never more packets in the queues than were to come
  lemma FewPackets(s: State)
    requires Inv(s)
    ensures s.input + |s.q1| + |s.q2| <= s.num
  {
    IdsLength(Everywhere(s));
    assert |multiset(Ids(Everywhere(s)))| == |multiset(UpTo(s.packetId))|;
  }

  lemma DueAtMost(s: State)
    requires Inv(s)
    ensures TokensDue(s) <= s.b * s.num
  {
    FewPackets(s);
    SumAtMost(s.q1, s.b);
    hide Inv;
    MoreTimes(s.b, |s.q1|, s.num);
  }

  lemma MoreTimes(b: nat, n: nat, m: nat)
    requires n <= m
    ensures 0 <= b * n <= b * m
  {
  }

  function PacketRounds(num: nat): nat {
    2 * num + 2
  }

  function TokenRounds(b: nat, num: nat): nat {
    3 * (b * num) + 3
  }

  function ServerRounds(num: nat): nat {
    4 * num + 4
  }

  lemma WorkAtMost(s: State, t: Thread)
    requires Inv(s) && Present(s, t)
    ensures Work(s, t) <= match t
                          case PacketThread => PacketRounds(s.num)
                          case TokenThread => TokenRounds(s.b, s.num)
                          case ServerThread(_) => ServerRounds(s.num)
  {
    hide Inv, TokensDue;
    FewPackets(s);
    DueAtMost(s);
  }

  lemma {:induction false} SameSize(s: State, rounds: seq<seq<Step>>)
    requires Rounds(s, rounds)
    ensures var r := RunRounds(s, rounds); r.b == s.b && r.num == s.num && |r.servers| == |s.servers|
    decreases |rounds|
  {
    if rounds != [] {
      RunSize(s, rounds[0]);
      SameSize(Run(s, rounds[0]), rounds[1..]);
    }
  }

  // ---- the end ----

  // One phase: the thread has ended after the rounds
  lemma Phase(s: State, rounds: seq<seq<Step>>, t: Thread)
    requires Inv(s) && Rounds(s, rounds) && Present(s, t) && Bounded(s, t)
    requires |rounds| >= match t
                         case PacketThread => PacketRounds(s.num)
                         case TokenThread => TokenRounds(s.b, s.num)
                         case ServerThread(_) => ServerRounds(s.num)
    ensures var r := RunRounds(s, rounds);
            Inv(r) && Present(r, t) && Ended(r, t) && r.b == s.b && r.num == s.num && |r.servers| == |s.servers|
  {
    WorkAtMost(s, t);
    RoundsEnd(s, rounds, t);
    SameSize(s, rounds);
  }

  // What has ended stays so
  lemma StaysEnded(s: State, rounds: seq<seq<Step>>, t: Thread)
    requires Inv(s) && Rounds(s, rounds) && Present(s, t) && Ended(s, t)
    ensures var r := RunRounds(s, rounds); Present(r, t) && Ended(r, t)
  {
    assert Bounded(s, t) by {
      if t.ServerThread? {
        assert ServerOk(s, t.i);
      }
    }
    WorkZero(s, t);
    RoundsEnd(s, rounds, t);
  }

  // First the packet thread ends, then the token thread, then the servers
  lemma AllFinish(s: State, rounds: seq<seq<Step>>)
    requires Inv(s) && Rounds(s, rounds)
    requires |rounds| >= PacketRounds(s.num) + TokenRounds(s.b, s.num) + ServerRounds(s.num)
    ensures Inv(RunRounds(s, rounds)) && Finished(RunRounds(s, rounds))
  {
    var k, m := PacketRounds(s.num), TokenRounds(s.b, s.num);
    hide PacketRounds, TokenRounds, ServerRounds, Rounds, RunRounds, Inv;
    RoundsSplit(s, rounds, k);
    Phase(s, rounds[..k], PacketThread);
    var s1, later := RunRounds(s, rounds[..k]), rounds[k..];
    EndedMeans(s1);
    RoundsSplit(s1, later, m);
    Phase(s1, later[..m], TokenThread);
    StaysEnded(s1, later, PacketThread);
    var s2, last := RunRounds(s1, later[..m]), later[m..];
    EndedMeans(s2);
    StaysEnded(s2, last, TokenThread);
    SameSize(s2, last);
    RoundsEnd(s2, last, TokenThread);
    var r := RunRounds(s2, last);
    forall i | 0 <= i < |r.servers|
      ensures r.servers[i] == ServerExit
    {
      Phase(s2, last, ServerThread(i));
    }
  }

  lemma EndedMeans(s: State)
    requires Inv(s)
    ensures s.packet == PacketExit ==> s.input == 0
    ensures s.token == TokenExit ==> s.input == 0 && s.q1 == []
  {
  }

  // From the start of the program, with every packet accounted for
  lemma EmulatorEnds(b: nat, num: nat, rounds: seq<seq<Step>>)
    requires b >= 1 && Rounds(Boot(b, num), rounds)
    requires |rounds| >= PacketRounds(num) + TokenRounds(b, num) + ServerRounds(num)
    ensures var r := RunRounds(Boot(b, num), rounds);
            && Finished(r) && r.q1 == [] && r.q2 == []
            && multiset(Ids(Packets(r.output))) == multiset(UpTo(r.packetId))
            && (!r.signalled ==> |r.output| == num)
  {
    var s := Boot(b, num);
    BootInv(b, num);
    AllFinish(s, rounds);
    SameSize(s, rounds);
    hide Rounds, RunRounds, Inv;
    Drained(RunRounds(s, rounds));
  }
}
