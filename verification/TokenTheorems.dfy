/**
 Results about whole runs of the token-bucket emulator.
 */
module TokenTheorems {
  import opened TokenBucket
  import opened TokenRuns

  predicate Runs(s: State, steps: seq<Step>)
    decreases |steps|
  {
    steps != [] ==> Enabled(s, steps[0]) && Runs(Apply(s, steps[0]), steps[1..])
  }

  function Run(s: State, steps: seq<Step>): State
    requires Runs(s, steps)
    decreases |steps|
  {
    if steps == [] then s else Run(Apply(s, steps[0]), steps[1..])
  }

  lemma {:induction false} RunInv(s: State, steps: seq<Step>)
    requires Inv(s) && Runs(s, steps)
    ensures Inv(Run(s, steps))
    decreases |steps|
  {
    if steps != [] {
      ApplyInv(s, steps[0]);
      RunInv(Apply(s, steps[0]), steps[1..]);
    }
  }

  lemma {:induction false} RunSize(s: State, steps: seq<Step>)
    requires Runs(s, steps)
    ensures var r := Run(s, steps); r.b == s.b && r.num == s.num && |r.servers| == |s.servers|
    decreases |steps|
  {
    if steps != [] {
      ApplyCounters(s, steps[0]);
      assert |Apply(s, steps[0]).servers| == |s.servers|;
      hide Apply, Enabled;
      RunSize(Apply(s, steps[0]), steps[1..]);
    }
  }

  // Bucket size b, num packets to come, two servers
  function Boot(b: nat, num: nat): State {
    State(b, num, num, 0, 0, 0, 0, [], [], [],
          PacketGuard, TokenGuardInput, [ServerGuardInput, ServerGuardInput], false)
  }

  lemma BootInv(b: nat, num: nat)
    requires b >= 1
    ensures Inv(Boot(b, num))
  {
    assert Ids(Everywhere(Boot(b, num))) == [];
    assert UpTo(0) == [];
  }

  // ---- tokens ----

  // The packet that a step moves from Q1 to Q2
  function ReleasedBy(s: State, a: Step): seq<Packet> {
    if a.PacketStep? && s.input > 0 && a.need <= s.b && CanRelease(Arrived(s, a.need)) then [Arrived(s, a.need).q1[0]]
    else if a.TokenStep? && CanRelease(Filled(s)) then [s.q1[0]]
    else []
  }

  function Released(s: State, steps: seq<Step>): seq<Packet>
    requires Runs(s, steps)
    decreases |steps|
  {
    if steps == [] then [] else ReleasedBy(s, steps[0]) + Released(Apply(s, steps[0]), steps[1..])
  }

  function SumNeeds(ps: seq<Packet>): nat {
    if ps == [] then 0 else ps[0].need + SumNeeds(ps[1..])
  }

  lemma {:induction false} SumConcat(x: seq<Packet>, y: seq<Packet>)
    ensures SumNeeds(x + y) == SumNeeds(x) + SumNeeds(y)
  {
    if x == [] {
      assert x + y == y;
    } else {
      SumConcat(x[1..], y);
      assert (x + y)[1..] == x[1..] + y;
    }
  }

  lemma TokensStep(s: State, a: Step)
    requires Enabled(s, a)
    ensures var r := Apply(s, a);
            r.tokenId + s.tokens + s.dropped == s.tokenId + r.tokens + r.dropped + SumNeeds(ReleasedBy(s, a))
  {
    assert forall p: Packet :: SumNeeds([p]) == p.need;
    hide WakeAll;
  }

  // Every token produced is in the bucket, was dropped, or was spent by a
  // packet that left Q1 for Q2.
  lemma {:induction false} TokenConservation(s: State, steps: seq<Step>)
    requires Runs(s, steps)
    ensures var r := Run(s, steps);
            r.tokenId + s.tokens + s.dropped == s.tokenId + r.tokens + r.dropped + SumNeeds(Released(s, steps))
    decreases |steps|
  {
    if steps != [] {
      TokensStep(s, steps[0]);
      TokenConservation(Apply(s, steps[0]), steps[1..]);
      SumConcat(ReleasedBy(s, steps[0]), Released(Apply(s, steps[0]), steps[1..]));
    }
  }

  // ---- order of service ----

  // Packets that left Q1, in order, until SIGINT empties the queues
  function Left(s: State): seq<Packet> {
    Served(s.output) + s.q2
  }

  lemma ReleaseLeft(s: State)
    ensures Left(Release(s)) == Left(s) + if CanRelease(s) then [s.q1[0]] else []
  {
    hide Served, WakeAll;
  }

  lemma ServerLeft(s: State, i: nat)
    requires i < |s.servers|
    ensures Left(ServerTurn(s, i)) == Left(s)
  {
    if s.q2 != [] {
      ServedConcat(s.output, [Done(s.q2[0], ServedBy(i))]);
      assert Served([Done(s.q2[0], ServedBy(i))]) == [s.q2[0]];
      assert s.q2 == [s.q2[0]] + s.q2[1..];
    }
    hide Served, WakeAll;
  }

  lemma LeftStep(s: State, a: Step)
    requires Enabled(s, a)
    ensures a != Sigint ==> Left(Apply(s, a)) == Left(s) + ReleasedBy(s, a)
    ensures a == Sigint ==> Left(Apply(s, a)) == Served(s.output) && ReleasedBy(s, a) == []
  {
    match a
    case PacketStep(need) =>
      if s.input > 0 {
        if need > s.b {
          ServedConcat(s.output, [Done(Packet(s.packetId + 1, need), TooBig)]);
        } else {
          ReleaseLeft(Arrived(s, need));
        }
      }
    case TokenStep => ReleaseLeft(Filled(s));
    case ServerStep(i) => ServerLeft(s, i);
    case Sigint => InterruptedLine(s);
    case _ =>
    hide Served, Release, ServerTurn, AllRemoved;
  }

  // Packets are served in the order of their release; until SIGINT all
  // released packets were served or are in Q2.
  lemma {:induction false} ServedAsReleased(s: State, steps: seq<Step>)
    requires Inv(s) && Runs(s, steps)
    ensures !Run(s, steps).signalled ==> Left(Run(s, steps)) == Left(s) + Released(s, steps)
    ensures Served(Run(s, steps).output) <= Left(s) + Released(s, steps)
    decreases |steps|
  {
    hide Inv, Apply, Left, ReleasedBy, Enabled, Served;
    if steps == [] {
      ServedLeft(s);
    } else {
      var a, r := steps[0], Apply(s, steps[0]);
      ApplyInv(s, a);
      LeftStep(s, a);
      if a == Sigint {
        ServedLeft(s);
        ApplyCounters(s, a);
        QuietAfterSigint(r, steps[1..]);
        ServedAsReleased(r, steps[1..]);
      } else {
        ServedAsReleased(r, steps[1..]);
        Associate(Left(s), ReleasedBy(s, a), Released(r, steps[1..]));
      }
    }
  }

  lemma ServedLeft(s: State)
    ensures Served(s.output) <= Left(s)
  {
  }

  lemma Associate(x: seq<Packet>, y: seq<Packet>, z: seq<Packet>)
    ensures (x + y) + z == x + (y + z)
  {
  }

  // Nothing is released or served after SIGINT
  lemma {:induction false} QuietAfterSigint(s: State, steps: seq<Step>)
    requires Inv(s) && Runs(s, steps) && s.signalled
    ensures Run(s, steps).signalled && Released(s, steps) == [] && Run(s, steps).output == s.output
    ensures Run(s, steps).tokenId == s.tokenId && Run(s, steps).packetId == s.packetId
    decreases |steps|
  {
    if steps != [] {
      QuietStep(s, steps[0]);
      ApplyInv(s, steps[0]);
      QuietAfterSigint(Apply(s, steps[0]), steps[1..]);
    }
  }

  lemma QuietStep(s: State, a: Step)
    requires Inv(s) && Enabled(s, a) && s.signalled
    ensures var r := Apply(s, a);
            r.signalled && ReleasedBy(s, a) == [] && r.output == s.output && r.tokenId == s.tokenId
              && r.packetId == s.packetId
  {
  }

  // SIGINT reports the packets of Q1 and then those of Q2, in order, as removed
  lemma SigintReports(s: State, i: nat)
    requires Enabled(s, Sigint) && i < |s.q1| + |s.q2|
    ensures var r := Apply(s, Sigint);
            && |r.output| == |s.output| + |s.q1| + |s.q2|
            && r.output[|s.output| + i] == Done((s.q1 + s.q2)[i], Removed)
  {
  }

  // ---- who serves ----

  function ServedCount(ds: seq<Done>, i: nat): nat {
    if ds == [] then 0 else (if ds[0].kind == ServedBy(i) then 1 else 0) + ServedCount(ds[1..], i)
  }

  // The turns of server i that found a packet in Q2
  function Services(s: State, steps: seq<Step>, i: nat): nat
    requires Runs(s, steps)
    decreases |steps|
  {
    if steps == [] then 0
    else (if steps[0] == ServerStep(i) && s.q2 != [] then 1 else 0) + Services(Apply(s, steps[0]), steps[1..], i)
  }

  lemma {:induction false} ServedCountConcat(x: seq<Done>, y: seq<Done>, i: nat)
    ensures ServedCount(x + y, i) == ServedCount(x, i) + ServedCount(y, i)
  {
    if x == [] {
      assert x + y == y;
    } else {
      assert (x + y)[1..] == x[1..] + y;
      ServedCountConcat(x[1..], y, i);
    }
  }

  lemma {:induction false} RemovedUnserved(ps: seq<Packet>, i: nat)
    ensures ServedCount(AllRemoved(ps), i) == 0
  {
    if ps != [] {
      RemovedUnserved(ps[1..], i);
      assert AllRemoved(ps)[1..] == AllRemoved(ps[1..]);
    }
  }

  lemma ServiceStep(s: State, a: Step, i: nat)
    requires Enabled(s, a)
    ensures ServedCount(Apply(s, a).output, i) ==
            ServedCount(s.output, i) + if a == ServerStep(i) && s.q2 != [] then 1 else 0
  {
    hide WakeAll;
    match a
    case PacketStep(need) => ServedCountConcat(s.output, [Done(Packet(s.packetId + 1, need), TooBig)], i);
    case ServerStep(j) =>
      if s.q2 != [] {
        ServedCountConcat(s.output, [Done(s.q2[0], ServedBy(j))], i);
      }
    case Sigint =>
      ServedCountConcat(s.output + AllRemoved(s.q1), AllRemoved(s.q2), i);
      ServedCountConcat(s.output, AllRemoved(s.q1), i);
      RemovedUnserved(s.q1, i);
      RemovedUnserved(s.q2, i);
    case _ =>
  }

  // Every server is credited with exactly the packets it took
  lemma {:induction false} ServedByItself(s: State, steps: seq<Step>, i: nat)
    requires Runs(s, steps)
    ensures ServedCount(Run(s, steps).output, i) == ServedCount(s.output, i) + Services(s, steps, i)
    decreases |steps|
  {
    if steps != [] {
      ServiceStep(s, steps[0], i);
      ServedByItself(Apply(s, steps[0]), steps[1..], i);
    }
  }

  // ---- the exact time of release ----

  predicate NoSigint(steps: seq<Step>) {
    Sigint !in steps
  }

  function TokensIn(steps: seq<Step>): nat {
    if steps == [] then 0 else (if steps[0] == TokenStep then 1 else 0) + TokensIn(steps[1..])
  }

  // Tokens still to arrive before the packet at position k of Q1 leaves it
  function Due(s: State, k: nat): int
    requires k < |s.q1|
  {
    SumNeeds(s.q1[..k + 1]) - s.tokens
  }

  lemma SumHead(ps: seq<Packet>, k: nat)
    requires k < |ps|
    ensures SumNeeds(ps[..k + 1]) == ps[0].need + SumNeeds(ps[1..][..k])
  {
    assert ps[..k + 1][1..] == ps[1..][..k];
  }

  lemma {:induction false} SumAtLeast(ps: seq<Packet>)
    requires forall i | 0 <= i < |ps| :: ps[i].need >= 1
    ensures SumNeeds(ps) >= |ps|
  {
    if ps != [] {
      SumAtLeast(ps[1..]);
    }
  }

  // At least one token is due per packet in line
  lemma DuePositive(s: State, k: nat)
    requires BucketOk(s) && k < |s.q1|
    ensures Due(s, k) >= k + 1
  {
    SumHead(s.q1, k);
    SumAtLeast(s.q1[1..][..k]);
  }

  // A token brings every packet of Q1 one step closer; the one that is due
  // leaves at once.
  lemma DueToken(s: State, k: nat)
    requires BucketOk(s) && k < |s.q1|
    ensures var r := TokenTurn(s);
            if Due(s, k) == 1 then k == 0 && r.q1 == s.q1[1..] && r.q2 == s.q2 + [s.q1[0]] && r.output == s.output
            else if r.q1 == s.q1 then Due(r, k) == Due(s, k) - 1
            else k > 0 && r.q1 == s.q1[1..] && Due(r, k - 1) == Due(s, k) - 1
  {
    DuePositive(s, k);
    SumHead(s.q1, k);
    SumHead(s.q1, 0);
    if CanRelease(Filled(s)) {
      assert s.q1[1..][..k] == TokenTurn(s).q1[..k];
    }
    hide WakeAll;
  }

  // Nothing else moves Q1 while somebody waits there
  lemma DueOther(s: State, a: Step, k: nat)
    requires BucketOk(s) && Enabled(s, a) && k < |s.q1| && a != Sigint && a != TokenStep
    ensures var r := Apply(s, a);
            s.q1 <= r.q1 && Due(r, k) == Due(s, k) && ReleasedBy(s, a) == []
  {
    var r := Apply(s, a);
    if a.PacketStep? && s.input > 0 {
      ArrivalBucket(s, a.need);
    }
    assert s.q1 <= r.q1 && r.tokens == s.tokens;
    assert r.q1[..k + 1] == s.q1[..k + 1];
    hide SumNeeds;
  }

  // p stands in Q1 with d tokens to go
  ghost predicate StandsDue(s: State, p: Packet, d: int) {
    exists k: nat :: k < |s.q1| && s.q1[k] == p && Due(s, k) == d
  }

  lemma StandsStep(s: State, a: Step, p: Packet, d: int)
    requires Inv(s) && Enabled(s, a) && a != Sigint && StandsDue(s, p, d)
    ensures d >= 1
    ensures a != TokenStep ==> StandsDue(Apply(s, a), p, d)
    ensures a == TokenStep && d > 1 ==> StandsDue(Apply(s, a), p, d - 1)
    ensures a == TokenStep && d == 1 ==> p in Left(Apply(s, a))
  {
    var k: nat :| k < |s.q1| && s.q1[k] == p && Due(s, k) == d;
    var r := Apply(s, a);
    DuePositive(s, k);
    if a == TokenStep {
      DueToken(s, k);
      var t := TokenTurn(s);
      assert r.q1 == t.q1 && r.q2 == t.q2 && r.tokens == t.tokens;
      hide TokenTurn, BucketOk, SumNeeds, Served;
      if d > 1 {
        var n := if t.q1 == s.q1 then k else k - 1;
        assert r.q1[n] == p && Due(r, n) == d - 1;
      }
    } else {
      DueOther(s, a, k);
      assert r.q1[k] == p;
      hide Apply, SumNeeds, BucketOk;
    }
  }

  // What has left Q1 stays out of it
  lemma {:induction false} LeftStays(s: State, steps: seq<Step>)
    requires Inv(s) && Runs(s, steps) && NoSigint(steps)
    ensures Left(s) <= Left(Run(s, steps))
    decreases |steps|
  {
    if steps != [] {
      ApplyInv(s, steps[0]);
      LeftStep(s, steps[0]);
      LeftStays(Apply(s, steps[0]), steps[1..]);
      hide Inv, Apply, Left, ReleasedBy, Enabled;
    }
  }

  lemma LeftNotInQ1(s: State, p: Packet)
    requires Inv(s) && p in Left(s)
    ensures p !in s.q1
  {
    var i :| 0 <= i < |Left(s)| && Left(s)[i] == p;
    assert Line(s)[i] == p;
    forall j | 0 <= j < |s.q1|
      ensures s.q1[j] != p
    {
      assert Line(s)[|Left(s)| + j] == s.q1[j];
    }
    hide Served;
  }

  lemma ReleasedForGood(s: State, steps: seq<Step>, p: Packet)
    requires Inv(s) && Runs(s, steps) && NoSigint(steps) && p in Left(s)
    ensures p in Left(Run(s, steps)) && p !in Run(s, steps).q1
  {
    LeftStays(s, steps);
    RunInv(s, steps);
    LeftNotInQ1(Run(s, steps), p);
  }

  // Exact release time: the packet at position k of Q1 leaves it with the
  // token arrival numbered Due(s, k), counted from s, and not before,
  // whatever else happens in the run short of SIGINT.
  lemma {:induction false} ExactRelease(s: State, steps: seq<Step>, p: Packet, d: int)
    requires Inv(s) && Runs(s, steps) && NoSigint(steps) && StandsDue(s, p, d)
    ensures TokensIn(steps) < d ==> StandsDue(Run(s, steps), p, d - TokensIn(steps))
    ensures TokensIn(steps) >= d ==> p in Left(Run(s, steps)) && p !in Run(s, steps).q1
    decreases |steps|
  {
    hide Inv, Apply, Left, StandsDue, Enabled;
    if steps == [] {
      StandsPositive(s, p, d);
    } else {
      var a, r := steps[0], Apply(s, steps[0]);
      ApplyInv(s, a);
      StandsStep(s, a, p, d);
      if a == TokenStep && d == 1 {
        ReleasedForGood(r, steps[1..], p);
      } else {
        ExactRelease(r, steps[1..], p, if a == TokenStep then d - 1 else d);
      }
    }
  }

  // The same by position: in Q1 before that token, out of it from then on
  lemma ReleaseTime(s: State, steps: seq<Step>, k: nat)
    requires Inv(s) && Runs(s, steps) && NoSigint(steps) && k < |s.q1|
    ensures s.q1[k] in Run(s, steps).q1 <==> TokensIn(steps) < Due(s, k)
    ensures s.q1[k] in Left(Run(s, steps)) <==> TokensIn(steps) >= Due(s, k)
  {
    hide Due, Left, Run, Runs, Inv;
    assert StandsDue(s, s.q1[k], Due(s, k));
    ExactRelease(s, steps, s.q1[k], Due(s, k));
    RunInv(s, steps);
    if s.q1[k] in Left(Run(s, steps)) {
      LeftNotInQ1(Run(s, steps), s.q1[k]);
    }
  }

  lemma StandsPositive(s: State, p: Packet, d: int)
    requires Inv(s) && StandsDue(s, p, d)
    ensures d >= 1
  {
    var k: nat :| k < |s.q1| && s.q1[k] == p && Due(s, k) == d;
    DuePositive(s, k);
  }

  // ---- no lost wakeup ----

  ghost predicate WakesUp(s: State, steps: seq<Step>, i: nat)
    requires Runs(s, steps)
    decreases |steps|
  {
    (i < |s.servers| && s.servers[i] != ServerWaiting) || (steps != [] && WakesUp(Apply(s, steps[0]), steps[1..], i))
  }

  // While a server waits, the head of Q1 is due and the token thread is alive
  lemma WaitingMeans(s: State, i: nat)
    requires Inv(s) && i < |s.servers| && s.servers[i] == ServerWaiting
    ensures s.q2 == [] && s.q1 != [] && Due(s, 0) >= 1 && s.token != TokenExit
  {
    assert ServerOk(s, i);
    DuePositive(s, 0);
  }

  // A server at the lock waits if and only if Q2 is empty, more packets are to
  // come and one of them is already in Q1
  lemma WaitsExactly(s: State, i: nat)
    requires Enabled(s, ServerStep(i))
    ensures |Apply(s, ServerStep(i)).servers| == |s.servers|
    ensures Apply(s, ServerStep(i)).servers[i] == ServerWaiting <==> s.q2 == [] && s.input > 0 && s.q1 != []
  {
  }

  lemma WaitingStep(s: State, a: Step, i: nat)
    requires Inv(s) && Enabled(s, a) && i < |s.servers| && s.servers[i] == ServerWaiting && a != Sigint && s.q1 != []
    ensures var r := Apply(s, a);
            && |r.servers| == |s.servers|
            && (r.servers[i] == ServerWaiting ==>
                  && r.q1 != [] && (a == TokenStep ==> Due(s, 0) > 1)
                  && Due(r, 0) == Due(s, 0) - if a == TokenStep then 1 else 0)
  {
    if a == TokenStep {
      DueToken(s, 0);
    } else {
      DueOther(s, a, 0);
    }
    hide SumNeeds;
  }

  // The wakeup comes: a waiting server is woken by the tokens the head of Q1
  // still needs, if not earlier by something else.
  lemma {:induction false} WakeupComes(s: State, steps: seq<Step>, i: nat)
    requires Inv(s) && Runs(s, steps) && NoSigint(steps) && i < |s.servers| && s.servers[i] == ServerWaiting
             && s.q1 != []
    requires TokensIn(steps) >= Due(s, 0)
    ensures WakesUp(s, steps, i)
    decreases |steps|
  {
    DuePositive(s, 0);
    var r := Apply(s, steps[0]);
    ApplyInv(s, steps[0]);
    WaitingStep(s, steps[0], i);
    hide Inv, Apply, Due, BucketOk;
    if r.servers[i] == ServerWaiting {
      WakeupComes(r, steps[1..], i);
    }
  }

  // SIGINT wakes every server, too
  lemma SigintWakes(s: State, i: nat)
    requires !s.signalled && i < |s.servers|
    ensures |Apply(s, Sigint).servers| == |s.servers| && Apply(s, Sigint).servers[i] != ServerWaiting
  {
  }

  // ---- the end ----

  predicate Finished(s: State) {
    s.packet == PacketExit && s.token == TokenExit && forall i | 0 <= i < |s.servers| :: s.servers[i] == ServerExit
  }

  // The broadcast after a service finds nobody waiting
  lemma ServeWakesNobody(s: State, i: nat)
    requires Inv(s) && s.q2 != [] && i < |s.servers|
    ensures s.servers[i] != ServerWaiting && Broadcast(s).servers[i] == s.servers[i]
  {
    assert ServerOk(s, i);
  }

  // Some thread can always go on until all have finished
  lemma NoDeadlock(s: State) returns (a: Step)
    requires Inv(s) && !Finished(s)
    ensures Enabled(s, a) && a != Sigint && !a.Spurious?
  {
    if s.packet == PacketGuard {
      a := PacketLooks;
    } else if s.packet == PacketWork {
      a := PacketStep(1);
    } else if s.token == TokenWork {
      a := TokenStep;
    } else if s.token != TokenExit {
      a := TokenLooks;
    } else {
      var i :| 0 <= i < |s.servers| && s.servers[i] != ServerExit;
      assert ServerOk(s, i);
      a := if s.servers[i] == ServerLock then ServerStep(i) else ServerLooks(i);
    }
  }

  lemma {:induction false} IdsLength(ps: seq<Packet>)
    ensures |Ids(ps)| == |ps|
  {
    if ps != [] {
      IdsLength(ps[1..]);
    }
  }

  // Every packet ever created is in the output once; without SIGINT all of
  // them were created.
  lemma Drained(s: State)
    requires Inv(s) && Finished(s) && |s.servers| > 0
    ensures s.q1 == [] && s.q2 == [] && |s.output| == s.packetId
    ensures multiset(Ids(Packets(s.output))) == multiset(UpTo(s.packetId))
    ensures !s.signalled ==> |s.output| == s.num
  {
    assert ServerOk(s, 0);
    assert Everywhere(s) == Packets(s.output);
    IdsLength(Packets(s.output));
    assert |multiset(Ids(Packets(s.output)))| == |multiset(UpTo(s.packetId))|;
  }
}
