/**
 What every step of the emulator keeps: the state of the bucket, the guards of
 the threads, the order and the number of the packets.
 */
module TokenRuns {
  import opened TokenBucket

  // ---- the bucket ----

  lemma ArrivalBucket(s: State, need: nat)
    requires BucketOk(s) && s.input > 0 && need >= 1
    ensures BucketOk(PacketTurn(s, need))
    ensures need <= s.b && CanRelease(Arrived(s, need)) ==> s.q1 == []
  {
  }

  // A token completes the head's need or leaves the head waiting; a token is
  // dropped only when nobody waits.
  lemma TokenBucketOk(s: State)
    requires BucketOk(s)
    ensures BucketOk(TokenTurn(s))
    ensures CanRelease(Filled(s)) ==> s.tokens + 1 == s.q1[0].need && Release(Filled(s)).tokens == 0
    ensures Filled(s).dropped > s.dropped ==> s.q1 == []
  {
  }

  lemma ApplyBucket(s: State, a: Step)
    requires Enabled(s, a) && BucketOk(s)
    ensures BucketOk(Apply(s, a))
  {
    match a
    case PacketStep(need) =>
      if s.input > 0 {
        ArrivalBucket(s, need);
      }
    case TokenStep => TokenBucketOk(s);
    case _ =>
  }

  // ---- the threads ----

  lemma ApplyPcs(s: State, a: Step)
    requires Enabled(s, a) && PcsOk(s)
    ensures PcsOk(Apply(s, a))
  {
  }

  lemma ReleaseServers(s: State)
    requires ServersOk(s)
    ensures ServersOk(Release(s))
  {
    var r := Release(s);
    forall i | 0 <= i < |r.servers|
      ensures ServerOk(r, i)
    {
      assert ServerOk(s, i);
    }
  }

  lemma ServerTurnServers(s: State, i: nat)
    requires ServersOk(s) && i < |s.servers|
    ensures ServersOk(ServerTurn(s, i))
  {
    var r := ServerTurn(s, i);
    forall k | 0 <= k < |r.servers|
      ensures ServerOk(r, k)
    {
      assert ServerOk(s, k);
    }
  }

  lemma TurnServers(s: State, need: nat)
    requires ServersOk(s)
    ensures ServersOk(TokenTurn(s)) && ServersOk(PacketTurn(s, need)) && ServersOk(Interrupted(s))
  {
    var f := Filled(s);
    forall i | 0 <= i < |s.servers|
      ensures ServerOk(f, i) && ServerOk(Interrupted(s), i) && (s.input > 0 ==> ServerOk(Arrived(s, need), i))
    {
      assert ServerOk(s, i);
    }
    ReleaseServers(f);
    if s.input > 0 {
      ReleaseServers(Arrived(s, need));
    }
  }

  // A server waits only while Q2 is empty and Q1 is not; guards once read
  // false stay false.
  lemma ApplyServers(s: State, a: Step)
    requires Enabled(s, a) && ServersOk(s)
    ensures ServersOk(Apply(s, a))
  {
    hide Release, Filled, Arrived, Interrupted, TokenTurn, PacketTurn, ServerTurn, WakeAll;
    TurnServers(s, if a.PacketStep? then a.need else 0);
    if a.ServerStep? {
      ServerTurnServers(s, a.i);
    } else if a.PacketStep? {
      SameServers(PacketTurn(s, a.need), Apply(s, a));
    } else if a.TokenStep? {
      SameServers(TokenTurn(s), Apply(s, a));
    } else if !a.Sigint? {
      LookServers(s, a);
    }
  }

  lemma SameServers(s: State, r: State)
    requires ServersOk(s) && r.servers == s.servers && r.input == s.input && r.q1 == s.q1 && r.q2 == s.q2
    ensures ServersOk(r)
  {
    forall i | 0 <= i < |r.servers|
      ensures ServerOk(r, i)
    {
      assert ServerOk(s, i);
    }
  }

  // Reading a guard and waking up for no reason
  lemma LookServers(s: State, a: Step)
    requires Enabled(s, a) && ServersOk(s) && (a.PacketLooks? || a.TokenLooks? || a.ServerLooks? || a.Spurious?)
    ensures ServersOk(Apply(s, a))
  {
    var r := Apply(s, a);
    forall i | 0 <= i < |r.servers|
      ensures ServerOk(r, i)
    {
      assert ServerOk(s, i);
    }
  }

  // ---- packets ----

  lemma {:induction false} IdsConcat(x: seq<Packet>, y: seq<Packet>)
    ensures Ids(x + y) == Ids(x) + Ids(y)
  {
    if x == [] {
      assert x + y == y;
    } else {
      IdsConcat(x[1..], y);
      assert (x + y)[1..] == x[1..] + y;
    }
  }

  lemma {:induction false} ServedConcat(x: seq<Done>, y: seq<Done>)
    ensures Served(x + y) == Served(x) + Served(y)
  {
    if x == [] {
      assert x + y == y;
    } else {
      ServedConcat(x[1..], y);
      assert (x + y)[1..] == x[1..] + y;
      assert Served(x + y) == (if x[0].kind.ServedBy? then [x[0].packet] else []) + Served((x + y)[1..]);
      hide Served;
    }
  }

  lemma {:induction false} RemovedNotServed(ps: seq<Packet>)
    ensures Served(AllRemoved(ps)) == []
  {
    if ps != [] {
      RemovedNotServed(ps[1..]);
      assert AllRemoved(ps)[1..] == AllRemoved(ps[1..]);
    }
  }

  lemma ReleaseLine(s: State)
    ensures Line(Release(s)) == Line(s)
  {
    if CanRelease(s) {
      assert s.q1 == [s.q1[0]] + s.q1[1..];
      assert Release(s).output == s.output;
    }
    hide Served;
  }

  lemma ArrivalLine(s: State, need: nat)
    requires s.input > 0
    ensures Line(PacketTurn(s, need)) == if need > s.b then Line(s) else Line(s) + [Packet(s.packetId + 1, need)]
  {
    if need > s.b {
      ServedConcat(s.output, [Done(Packet(s.packetId + 1, need), TooBig)]);
    } else {
      ReleaseLine(Arrived(s, need));
      hide Served, Release;
      assert Line(Arrived(s, need)) == Line(s) + [Packet(s.packetId + 1, need)];
    }
  }

  lemma ServerLine(s: State, i: nat)
    requires i < |s.servers|
    ensures Line(ServerTurn(s, i)) == Line(s)
  {
    if s.q2 != [] {
      ServedConcat(s.output, [Done(s.q2[0], ServedBy(i))]);
      assert Served([Done(s.q2[0], ServedBy(i))]) == [s.q2[0]];
      assert s.q2 == [s.q2[0]] + s.q2[1..];
    }
    hide Served;
  }

  lemma InterruptedLine(s: State)
    ensures Line(Interrupted(s)) == Served(s.output)
  {
    RemovedNotServed(s.q1);
    RemovedNotServed(s.q2);
    ServedConcat(s.output, AllRemoved(s.q1));
    ServedConcat(s.output + AllRemoved(s.q1), AllRemoved(s.q2));
    hide Served, AllRemoved;
  }

  // How a step changes the line of packets: nothing, one more at the end, or
  // its unserved part removed
  lemma ApplyLine(s: State, a: Step)
    requires Enabled(s, a)
    ensures var r := Apply(s, a);
            if a == Sigint then Line(r) == Served(s.output)
            else if a.PacketStep? && s.input > 0 && a.need <= s.b then
              Line(r) == Line(s) + [Packet(s.packetId + 1, a.need)]
            else Line(r) == Line(s)
  {
    match a
    case PacketStep(need) =>
      if s.input > 0 {
        ArrivalLine(s, need);
      }
    case TokenStep => ReleaseLine(Filled(s));
    case ServerStep(i) => ServerLine(s, i);
    case Sigint => InterruptedLine(s);
    case _ =>
    hide Served, Release, Arrived, Interrupted, ServerTurn;
  }

  lemma ApplyOrder(s: State, a: Step)
    requires Enabled(s, a) && OrderOk(s)
    ensures OrderOk(Apply(s, a))
  {
    ApplyLine(s, a);
    assert Apply(s, a).packetId >= s.packetId;
    assert a.PacketStep? && s.input > 0 ==> Apply(s, a).packetId == s.packetId + 1;
    assert a == Sigint ==> Served(s.output) <= Line(s);
    hide Apply, Line, Served;
  }

  // The identifiers of all packets, queue by queue
  ghost function Bag(q1: seq<Packet>, q2: seq<Packet>, out: seq<Done>): multiset<nat> {
    multiset(Ids(q1)) + multiset(Ids(q2)) + multiset(Ids(Packets(out)))
  }

  ghost function IdBag(s: State): multiset<nat> {
    Bag(s.q1, s.q2, s.output)
  }

  lemma EverywhereIds(s: State)
    ensures multiset(Ids(Everywhere(s))) == IdBag(s)
  {
    IdsConcat(s.q1 + s.q2, Packets(s.output));
    IdsConcat(s.q1, s.q2);
    hide Ids, Packets;
  }

  lemma HeadId(ps: seq<Packet>)
    requires ps != []
    ensures multiset(Ids(ps)) == multiset{ps[0].id} + multiset(Ids(ps[1..]))
  {
    assert Ids(ps) == [ps[0].id] + Ids(ps[1..]);
    hide Ids;
  }

  lemma LastId(ps: seq<Packet>, p: Packet)
    ensures multiset(Ids(ps + [p])) == multiset(Ids(ps)) + multiset{p.id}
  {
    IdsConcat(ps, [p]);
    assert Ids([p]) == [p.id];
    hide Ids;
  }

  lemma OutputOne(out: seq<Done>, d: Done)
    ensures multiset(Ids(Packets(out + [d]))) == multiset(Ids(Packets(out))) + multiset{d.packet.id}
  {
    assert Packets(out + [d]) == Packets(out) + [d.packet];
    LastId(Packets(out), d.packet);
  }

  lemma BagRelease(q1: seq<Packet>, q2: seq<Packet>, out: seq<Done>)
    requires q1 != []
    ensures Bag(q1[1..], q2 + [q1[0]], out) == Bag(q1, q2, out)
  {
    LastId(q2, q1[0]);
    HeadId(q1);
    hide Ids, Packets;
  }

  lemma BagServe(q1: seq<Packet>, q2: seq<Packet>, out: seq<Done>, kind: Kind)
    requires q2 != []
    ensures Bag(q1, q2[1..], out + [Done(q2[0], kind)]) == Bag(q1, q2, out)
  {
    OutputOne(out, Done(q2[0], kind));
    HeadId(q2);
    hide Ids, Packets;
  }

  lemma BagArrival(q1: seq<Packet>, q2: seq<Packet>, out: seq<Done>, p: Packet)
    ensures Bag(q1 + [p], q2, out) == Bag(q1, q2, out) + multiset{p.id}
    ensures Bag(q1, q2, out + [Done(p, TooBig)]) == Bag(q1, q2, out) + multiset{p.id}
  {
    OutputOne(out, Done(p, TooBig));
    LastId(q1, p);
    hide Ids, Packets;
  }

  lemma BagRemove(q1: seq<Packet>, q2: seq<Packet>, out: seq<Done>)
    ensures Bag([], [], out + AllRemoved(q1) + AllRemoved(q2)) == Bag(q1, q2, out)
  {
    RemovedPackets(q1, q2, out);
    IdsConcat(Packets(out) + q1, q2);
    IdsConcat(Packets(out), q1);
    assert Ids([]) == [];
    hide Packets, Ids, AllRemoved;
  }

  lemma RemovedPackets(q1: seq<Packet>, q2: seq<Packet>, out: seq<Done>)
    ensures Packets(out + AllRemoved(q1) + AllRemoved(q2)) == Packets(out) + q1 + q2
  {
    var l, r := Packets(out + AllRemoved(q1) + AllRemoved(q2)), Packets(out) + q1 + q2;
    assert |l| == |r|;
    forall i | 0 <= i < |l|
      ensures l[i] == r[i]
    {
    }
  }

  lemma ReleaseIds(s: State)
    ensures IdBag(Release(s)) == IdBag(s)
  {
    if CanRelease(s) {
      BagRelease(s.q1, s.q2, s.output);
    }
    hide Bag;
  }

  lemma ArrivalIds(s: State, need: nat)
    requires s.input > 0
    ensures IdBag(PacketTurn(s, need)) == IdBag(s) + multiset{s.packetId + 1}
  {
    ArrivedIds(s, need);
    ReleaseIds(Arrived(s, need));
    hide IdBag, Arrived, Release;
  }

  lemma ArrivedIds(s: State, need: nat)
    requires s.input > 0
    ensures IdBag(Arrived(s, need)) == IdBag(s) + multiset{s.packetId + 1}
  {
    var p := Packet(s.packetId + 1, need);
    hide Bag;
    if need > s.b {
      assert IdBag(Arrived(s, need)) == Bag(s.q1, s.q2, s.output + [Done(p, TooBig)]);
    } else {
      assert IdBag(Arrived(s, need)) == Bag(s.q1 + [p], s.q2, s.output);
    }
    BagArrival(s.q1, s.q2, s.output, p);
  }

  lemma ServerIds(s: State, i: nat)
    requires i < |s.servers|
    ensures IdBag(ServerTurn(s, i)) == IdBag(s)
  {
    if s.q2 != [] {
      BagServe(s.q1, s.q2, s.output, ServedBy(i));
    }
    hide Bag;
  }

  // Only an arrival adds a packet, and no step loses one
  lemma ApplyIds(s: State, a: Step)
    requires Enabled(s, a)
    ensures IdBag(Apply(s, a)) ==
            IdBag(s) + if a.PacketStep? && s.input > 0 then multiset{s.packetId + 1} else multiset{}
  {
    hide Bag, AllRemoved, Release, Arrived, ServerTurn, WakeAll;
    match a
    case PacketStep(need) =>
      if s.input > 0 {
        ArrivalIds(s, need);
      }
    case TokenStep => ReleaseIds(Filled(s));
    case ServerStep(i) => ServerIds(s, i);
    case Sigint => BagRemove(s.q1, s.q2, s.output);
    case _ =>
  }

  lemma ApplyCounters(s: State, a: Step)
    requires Enabled(s, a)
    ensures var r := Apply(s, a);
            && r.packetId == s.packetId + (if a.PacketStep? && s.input > 0 then 1 else 0)
            && (a != Sigint ==> r.signalled == s.signalled && r.input + r.packetId == s.input + s.packetId)
            && (a == Sigint ==> r.signalled)
            && r.num == s.num && r.b == s.b
  {
  }

  lemma ApplyCount(s: State, a: Step)
    requires Enabled(s, a) && CountOk(s)
    ensures CountOk(Apply(s, a))
  {
    EverywhereIds(s);
    EverywhereIds(Apply(s, a));
    ApplyIds(s, a);
    ApplyCounters(s, a);
    UpToNext(s.packetId, s.packetId + 1);
    hide Apply, Everywhere, IdBag, UpTo, Ids;
  }

  lemma UpToNext(n: nat, next: nat)
    requires next == n + 1
    ensures multiset(UpTo(next)) == multiset(UpTo(n)) + multiset{next}
  {
    assert UpTo(next) == UpTo(n) + [next];
  }

  lemma ApplyKinds(s: State, a: Step)
    requires Enabled(s, a) && KindsOk(s) && BucketOk(s) && Q2Ok(s)
    ensures KindsOk(Apply(s, a))
  {
    if a == Sigint {
      InterruptedKinds(s);
    }
    hide WakeAll, AllRemoved, BucketOk;
  }

  lemma ApplyQ2(s: State, a: Step)
    requires Enabled(s, a) && BucketOk(s) && Q2Ok(s)
    ensures Q2Ok(Apply(s, a))
  {
    hide WakeAll, AllRemoved;
  }

  lemma InterruptedKinds(s: State)
    requires KindsOk(s) && BucketOk(s) && Q2Ok(s)
    ensures KindsOk(Interrupted(s))
  {
    forall d | d in Interrupted(s).output
      ensures d.kind == TooBig <==> d.packet.need > s.b
    {
      assert d in s.output || d in AllRemoved(s.q1) || d in AllRemoved(s.q2);
    }
  }

  lemma ApplyInv(s: State, a: Step)
    requires Inv(s) && Enabled(s, a)
    ensures Inv(Apply(s, a))
  {
    ApplyBucket(s, a);
    ApplyPcs(s, a);
    ApplyServers(s, a);
    ApplyOrder(s, a);
    ApplyCount(s, a);
    ApplyKinds(s, a);
    ApplyQ2(s, a);
  }
}
