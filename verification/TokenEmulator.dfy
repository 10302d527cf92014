/**
 The critical sections of warmup2's threads as they change the shared lists
 and counters, each tied to its step function.
 */
module TokenEmulator {
  import opened TokenBucket
  import opened TokenRuns
  import opened TokenTheorems

  class Emulator {
    const b: nat
    const num: nat
    var inputQSize: nat
    var packetId: nat
    var tokenId: nat
    var curTokenSize: nat
    var tokenDropSize: nat
    var q1: seq<Packet>
    var q2: seq<Packet>
    var outputQ: seq<Done>
    var packet: PacketPc
    var token: TokenPc
    var servers: seq<ServerPc>
    var signalled: bool

    ghost function S(): State
      reads this
    {
      State(b, num, inputQSize, packetId, tokenId, curTokenSize, tokenDropSize,
            q1, q2, outputQ, packet, token, servers, signalled)
    }

    constructor (b: nat, num: nat)
      requires b >= 1
      ensures S() == Boot(b, num) && Inv(S())
    {
      this.b, this.num := b, num;
      inputQSize, packetId, tokenId, curTokenSize, tokenDropSize := num, 0, 0, 0, 0;
      q1, q2, outputQ := [], [], [];
      packet, token, servers, signalled := PacketGuard, TokenGuardInput, [ServerGuardInput, ServerGuardInput], false;
      new;
      BootInv(b, num);
    }

    // pthread_cond_broadcast
    method CondBroadcast()
      modifies this`servers
      ensures S() == Broadcast(old(S()))
    {
      ghost var was := servers;
      var i := 0;
      while i < |servers|
        invariant |servers| == |was| && 0 <= i <= |was|
        invariant forall k | 0 <= k < |was| :: servers[k] == if k < i then Woken(was[k]) else was[k]
      {
        if servers[i] == ServerWaiting {
          servers := servers[i := ServerLock];
        }
        i := i + 1;
      }
      assert servers == WakeAll(was);
    }

    // The part the packet and the token thread share
    method ReleaseHead()
      modifies this`q1, this`q2, this`curTokenSize, this`servers
      ensures S() == Release(old(S()))
    {
      if q1 != [] {
        var q1Packet := q1[0];
        if curTokenSize >= q1Packet.need {
          q1 := q1[1..];
          curTokenSize := curTokenSize - q1Packet.need;
          q2 := q2 + [q1Packet];
          CondBroadcast();
        }
      }
    }

    method PacketArrives(need: nat)
      requires Inv(S()) && Enabled(S(), PacketStep(need))
      modifies this
      ensures S() == Apply(old(S()), PacketStep(need)) && Inv(S())
    {
      hide Inv, Release;
      ApplyInv(S(), PacketStep(need));
      if inputQSize > 0 {
        inputQSize := inputQSize - 1;
        packetId := packetId + 1;
        var inputPacket := Packet(packetId, need);
        if inputPacket.need > b {
          outputQ := outputQ + [Done(inputPacket, TooBig)];
        } else {
          q1 := q1 + [inputPacket];
          ReleaseHead();
        }
      }
      packet := PacketGuard;
    }

    method TokenArrives()
      requires Inv(S()) && Enabled(S(), TokenStep)
      modifies this
      ensures S() == Apply(old(S()), TokenStep) && Inv(S())
    {
      hide Inv, Release;
      ApplyInv(S(), TokenStep);
      if inputQSize > 0 || q1 != [] {
        tokenId := tokenId + 1;
        if curTokenSize >= b {
          tokenDropSize := tokenDropSize + 1;
        } else {
          curTokenSize := curTokenSize + 1;
        }
        ReleaseHead();
      }
      token := TokenGuardInput;
    }

    // From taking the lock, first or again, to waiting or to releasing it
    method ServerRuns(i: nat)
      requires Inv(S()) && Enabled(S(), ServerStep(i))
      modifies this
      ensures S() == Apply(old(S()), ServerStep(i)) && Inv(S())
    {
      hide Inv, WakeAll;
      ApplyInv(S(), ServerStep(i));
      if q2 == [] && inputQSize > 0 && q1 != [] {
        servers := servers[i := ServerWaiting];
        return;
      }
      servers := servers[i := ServerGuardInput];
      if q2 != [] {
        var q2Packet := q2[0];
        q2 := q2[1..];
        outputQ := outputQ + [Done(q2Packet, ServedBy(i))];
        CondBroadcast();
      }
    }

    method SignalCaught()
      requires Inv(S()) && Enabled(S(), Sigint)
      modifies this
      ensures S() == Apply(old(S()), Sigint) && Inv(S())
    {
      hide Inv, WakeAll, AllRemoved;
      ApplyInv(S(), Sigint);
      MoveAll(q1);
      MoveAll(q2);
      inputQSize := 0;
      q1 := [];
      q2 := [];
      signalled := true;
      CondBroadcast();
    }

    // Marks and appends one queue's packets to the output queue
    method MoveAll(q: seq<Packet>)
      modifies this`outputQ
      ensures outputQ == old(outputQ) + AllRemoved(q)
    {
      ghost var was := outputQ;
      var cur := 0;
      while cur < |q|
        invariant 0 <= cur <= |q|
        invariant outputQ == was + AllRemoved(q)[..cur]
      {
        outputQ := outputQ + [Done(q[cur], Removed)];
        cur := cur + 1;
      }
      assert AllRemoved(q)[..cur] == AllRemoved(q);
    }
  }
}
