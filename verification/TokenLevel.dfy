/**
 The bucket over runs.  Its level is the tokens in it, less what the packets in Q1
 still claim; a negative level is a debt.  A token raises the level by one up to
 the bucket's size, a packet lowers it by its need, and nothing else moves it.  So
 the level, and with it who waits, is a function of the arrivals alone.
 */
module TokenLevel {
  import opened TokenBucket
  import opened TokenRuns
  import opened TokenTheorems

  function Level(s: State): int {
    s.tokens - SumNeeds(s.q1)
  }

  // ---- arrivals ----

  datatype Arrival = Token | Claim(need: nat)

  // A token thread that finds nothing left to do brings no token; a packet that
  // needs more than the bucket holds makes no claim
  function ArrivalsOf(s: State, a: Step): seq<Arrival> {
    if a == TokenStep && (s.input > 0 || s.q1 != []) then [Token]
    else if a.PacketStep? && s.input > 0 && a.need <= s.b then [Claim(a.need)]
    else []
  }

  function Arrivals(s: State, steps: seq<Step>): seq<Arrival>
    requires Runs(s, steps)
    decreases |steps|
  {
    if steps == [] then [] else ArrivalsOf(s, steps[0]) + Arrivals(Apply(s, steps[0]), steps[1..])
  }

  function Min(x: int, y: int): int {
    if x <= y then x else y
  }

  // The level after the arrivals, in a bucket of size b
  function LevelAfter(b: nat, level: int, es: seq<Arrival>): int
    decreases |es|
  {
    if es == [] then level
    else LevelAfter(b, if es[0] == Token then Min(b, level + 1) else level - es[0].need, es[1..])
  }

  // The tokens that found the bucket full
  function Overflow(b: nat, level: int, es: seq<Arrival>): nat
    decreases |es|
  {
    if es == [] then 0
    else if es[0] == Token then (if level >= b then 1 else 0) + Overflow(b, Min(b, level + 1), es[1..])
    else Overflow(b, level - es[0].need, es[1..])
  }

  // ---- what the level means ----

  // Nobody waits in Q1 exactly while there is no debt
  lemma LevelMeans(s: State)
    requires Inv(s)
    ensures Level(s) <= s.b && (s.q1 == [] <==> Level(s) >= 0)
    ensures s.q1 == [] ==> s.tokens == Level(s)
  {
    if s.q1 != [] {
      DuePositive(s, |s.q1| - 1);
      assert s.q1[..|s.q1|] == s.q1;
    }
  }

  // ---- every step ----

  lemma ReleaseLevel(s: State)
    ensures Level(Release(s)) == Level(s) && Release(s).dropped == s.dropped && Release(s).b == s.b
  {
    hide WakeAll;
  }

  lemma TokenLevelStep(s: State)
    requires Inv(s)
    ensures Level(Filled(s)) == Min(s.b, Level(s) + 1)
    ensures Filled(s).dropped == s.dropped + if Level(s) == s.b then 1 else 0
  {
    LevelMeans(s);
  }

  lemma ClaimLevel(s: State, need: nat)
    requires s.input > 0 && need <= s.b
    ensures Level(Arrived(s, need)) == Level(s) - need
  {
    var p := Packet(s.packetId + 1, need);
    SumConcat(s.q1, [p]);
    assert [p][1..] == [];
  }

  lemma LevelStep(s: State, a: Step)
    requires Inv(s) && Enabled(s, a) && a != Sigint
    ensures var r, es := Apply(s, a), ArrivalsOf(s, a);
            Level(r) == LevelAfter(s.b, Level(s), es) && r.dropped == s.dropped + Overflow(s.b, Level(s), es)
  {
    hide Inv, WakeAll, Release, SumNeeds, AllRemoved;
    LevelMeans(s);
    match a
    case TokenStep =>
      TokenLevelStep(s);
      ReleaseLevel(Filled(s));
    case PacketStep(need) =>
      if s.input > 0 && need <= s.b {
        ClaimLevel(s, need);
        ReleaseLevel(Arrived(s, need));
      }
    case _ =>
  }

  // ---- every run ----

  lemma {:induction false} LevelAfterConcat(b: nat, level: int, x: seq<Arrival>, y: seq<Arrival>)
    ensures LevelAfter(b, level, x + y) == LevelAfter(b, LevelAfter(b, level, x), y)
    ensures Overflow(b, level, x + y) == Overflow(b, level, x) + Overflow(b, LevelAfter(b, level, x), y)
    decreases |x|
  {
    if x == [] {
      assert x + y == y;
    } else {
      assert (x + y)[1..] == x[1..] + y;
      LevelAfterConcat(b, if x[0] == Token then Min(b, level + 1) else level - x[0].need, x[1..], y);
    }
  }

  // Whatever else the threads do, level and dropped tokens follow the arrivals
  lemma {:induction false} LevelRun(s: State, steps: seq<Step>)
    requires Inv(s) && Runs(s, steps) && NoSigint(steps)
    ensures var r, es := Run(s, steps), Arrivals(s, steps);
            Level(r) == LevelAfter(s.b, Level(s), es) && r.dropped == s.dropped + Overflow(s.b, Level(s), es)
    decreases |steps|
  {
    if steps != [] {
      hide Inv, Apply, Enabled, Level, LevelAfter, Overflow, ArrivalsOf;
      var r := Apply(s, steps[0]);
      ApplyInv(s, steps[0]);
      LevelStep(s, steps[0]);
      ApplyCounters(s, steps[0]);
      LevelRun(r, steps[1..]);
      LevelAfterConcat(s.b, Level(s), ArrivalsOf(s, steps[0]), Arrivals(r, steps[1..]));
    } else {
      assert LevelAfter(s.b, Level(s), []) == Level(s) && Overflow(s.b, Level(s), []) == 0;
    }
  }

  // From the start of the program, in every run without SIGINT: the bucket and
  // the dropped tokens, and whether anybody waits in Q1
  lemma LevelInEveryRun(b: nat, num: nat, steps: seq<Step>)
    requires b >= 1 && Runs(Boot(b, num), steps) && NoSigint(steps)
    ensures var r, es := Run(Boot(b, num), steps), Arrivals(Boot(b, num), steps);
            && (r.q1 == [] <==> LevelAfter(b, 0, es) >= 0)
            && (r.q1 == [] ==> r.tokens == LevelAfter(b, 0, es))
            && r.dropped == Overflow(b, 0, es)
  {
    hide Inv, Runs, Run, Arrivals, Level, LevelAfter, Overflow, Boot;
    var s := Boot(b, num);
    BootInv(b, num);
    BootLevel(b, num);
    RunInv(s, steps);
    LevelRun(s, steps);
    LevelMeans(Run(s, steps));
  }

  lemma BootLevel(b: nat, num: nat)
    ensures var s := Boot(b, num); Level(s) == 0 && s.dropped == 0 && s.b == b
  {
  }

  // ---- arrivals at the bucket ----

  // A packet goes straight to Q2 if and only if the level covers its need,
  // otherwise to the end of Q1
  lemma StraightThrough(s: State, need: nat)
    requires Inv(s) && Enabled(s, PacketStep(need)) && s.input > 0 && need <= s.b
    ensures var r, p := Apply(s, PacketStep(need)), Packet(s.packetId + 1, need);
            if Level(s) >= need then r.q1 == [] && r.q2 == s.q2 + [p] && r.tokens == s.tokens - need
            else r.q1 == s.q1 + [p] && r.q2 == s.q2 && r.tokens == s.tokens
  {
    LevelMeans(s);
    ArrivalBucket(s, need);
    hide WakeAll, SumNeeds;
    if s.q1 == [] {
      assert s.q1 + [Packet(s.packetId + 1, need)] == [Packet(s.packetId + 1, need)];
    }
  }

  lemma {:induction false} OnlyTokens(b: nat, level: int, es: seq<Arrival>)
    requires 0 <= level <= b && forall i | 0 <= i < |es| :: es[i] == Token
    ensures LevelAfter(b, level, es) == Min(b, level + |es|)
    decreases |es|
  {
    if es != [] {
      OnlyTokens(b, Min(b, level + 1), es[1..]);
    }
  }

  // While no packet makes a claim, n tokens fill an undebted bucket up to
  // min(b, tokens + n), whatever else happens
  lemma Refill(s: State, steps: seq<Step>)
    requires Inv(s) && Runs(s, steps) && NoSigint(steps) && s.q1 == []
    requires forall i | 0 <= i < |Arrivals(s, steps)| :: Arrivals(s, steps)[i] == Token
    ensures Run(s, steps).q1 == [] && Run(s, steps).tokens == Min(s.b, s.tokens + |Arrivals(s, steps)|)
  {
    hide Inv, Runs, Run, Arrivals, Level, LevelAfter, Overflow;
    LevelMeans(s);
    LevelRun(s, steps);
    RunSize(s, steps);
    OnlyTokens(s.b, Level(s), Arrivals(s, steps));
    RunInv(s, steps);
    LevelMeans(Run(s, steps));
  }
}
