/**
 The token-bucket emulator of warmup2: the packet, token and server threads
 and the SIGINT handler share Q1, Q2, outputQ and the counters under one lock.

 A critical section is one step.  The loop guards are read without the lock:
 each variable of a guard is a step of its own that reads a state between two
 critical sections.  Waiting on the condition variable releases the lock; a
 broadcast, or a spurious wakeup, sends the thread back to taking the lock.
 */
module TokenBucket {
  datatype Packet = Packet(id: nat, need: nat)

  datatype Kind = ServedBy(server: nat) | TooBig | Removed

  datatype Done = Done(packet: Packet, kind: Kind)

  // At a guard, holding its reading; at the lock; finished
  datatype PacketPc = PacketGuard | PacketWork | PacketExit
  datatype TokenPc = TokenGuardInput | TokenGuardQ1 | TokenWork | TokenExit
  datatype ServerPc = ServerGuardInput | ServerGuardQ1 | ServerGuardQ2 | ServerLock | ServerWaiting | ServerExit

  datatype State = State(
    b: nat, num: nat,
    input: nat, packetId: nat, tokenId: nat, tokens: nat, dropped: nat,
    q1: seq<Packet>, q2: seq<Packet>, output: seq<Done>,
    packet: PacketPc, token: TokenPc, servers: seq<ServerPc>, signalled: bool)

  // ---- steps ----

  function Woken(pc: ServerPc): ServerPc {
    if pc == ServerWaiting then ServerLock else pc
  }

  function WakeAll(pcs: seq<ServerPc>): (r: seq<ServerPc>)
    ensures |r| == |pcs| && forall i | 0 <= i < |pcs| :: r[i] == Woken(pcs[i])
  {
    if pcs == [] then [] else [Woken(pcs[0])] + WakeAll(pcs[1..])
  }

  function Broadcast(s: State): State {
    s.(servers := WakeAll(s.servers))
  }

  predicate CanRelease(s: State) {
    s.q1 != [] && s.tokens >= s.q1[0].need
  }

  // The head of Q1 moves to Q2 once its tokens are there
  function Release(s: State): State {
    if !CanRelease(s) then s
    else Broadcast(s.(q1 := s.q1[1..], tokens := s.tokens - s.q1[0].need, q2 := s.q2 + [s.q1[0]]))
  }

  // The packet before the release
  function Arrived(s: State, need: nat): State
    requires s.input > 0
  {
    var p := Packet(s.packetId + 1, need);
    var s1 := s.(input := s.input - 1, packetId := p.id);
    if need > s.b then s1.(output := s.output + [Done(p, TooBig)]) else s1.(q1 := s.q1 + [p])
  }

  function PacketTurn(s: State, need: nat): State {
    if s.input == 0 then s
    else if need > s.b then Arrived(s, need) else Release(Arrived(s, need))
  }

  // The token before the release
  function Filled(s: State): State {
    var s1 := s.(tokenId := s.tokenId + 1);
    if s.tokens >= s.b then s1.(dropped := s.dropped + 1) else s1.(tokens := s.tokens + 1)
  }

  function TokenTurn(s: State): State {
    if s.input == 0 && s.q1 == [] then s else Release(Filled(s))
  }

  predicate MustWait(s: State) {
    s.q2 == [] && s.input > 0 && s.q1 != []
  }

  function Serve(s: State, i: nat): State {
    if s.q2 == [] then s
    else Broadcast(s.(q2 := s.q2[1..], output := s.output + [Done(s.q2[0], ServedBy(i))]))
  }

  function ServerTurn(s: State, i: nat): State
    requires i < |s.servers|
  {
    if MustWait(s) then s.(servers := s.servers[i := ServerWaiting])
    else Serve(s.(servers := s.servers[i := ServerGuardInput]), i)
  }

  function AllRemoved(ps: seq<Packet>): (r: seq<Done>)
    ensures |r| == |ps| && forall i | 0 <= i < |ps| :: r[i] == Done(ps[i], Removed)
  {
    if ps == [] then [] else [Done(ps[0], Removed)] + AllRemoved(ps[1..])
  }

  function Interrupted(s: State): State {
    Broadcast(s.(output := s.output + AllRemoved(s.q1) + AllRemoved(s.q2),
                 input := 0, q1 := [], q2 := [], signalled := true))
  }

  datatype Step =
    | PacketLooks
    | PacketStep(need: nat)
    | TokenLooks
    | TokenStep
    | ServerLooks(i: nat)
    | ServerStep(i: nat)
    | Spurious(i: nat)
    | Sigint

  // needs come from the command line or the trace file, both checked to be positive
  predicate Enabled(s: State, a: Step) {
    match a
    case PacketLooks => s.packet == PacketGuard
    case PacketStep(need) => s.packet == PacketWork && need >= 1
    case TokenLooks => s.token == TokenGuardInput || s.token == TokenGuardQ1
    case TokenStep => s.token == TokenWork
    case ServerLooks(i) => i < |s.servers|
      && (s.servers[i] == ServerGuardInput || s.servers[i] == ServerGuardQ1 || s.servers[i] == ServerGuardQ2)
    case ServerStep(i) => i < |s.servers| && s.servers[i] == ServerLock
    case Spurious(i) => i < |s.servers| && s.servers[i] == ServerWaiting
    case Sigint => !s.signalled
  }

  function TokenLook(s: State): TokenPc {
    if s.token == TokenGuardInput then (if s.input > 0 then TokenWork else TokenGuardQ1)
    else if s.q1 != [] then TokenWork else TokenExit
  }

  function ServerLook(s: State, i: nat): ServerPc
    requires i < |s.servers|
  {
    if s.servers[i] == ServerGuardInput then (if s.input > 0 then ServerLock else ServerGuardQ1)
    else if s.servers[i] == ServerGuardQ1 then (if s.q1 != [] then ServerLock else ServerGuardQ2)
    else if s.q2 != [] then ServerLock else ServerExit
  }

  function Apply(s: State, a: Step): State
    requires Enabled(s, a)
  {
    match a
    case PacketLooks => s.(packet := if s.input > 0 then PacketWork else PacketExit)
    case PacketStep(need) => PacketTurn(s, need).(packet := PacketGuard)
    case TokenLooks => s.(token := TokenLook(s))
    case TokenStep => TokenTurn(s).(token := TokenGuardInput)
    case ServerLooks(i) => s.(servers := s.servers[i := ServerLook(s, i)])
    case ServerStep(i) => ServerTurn(s, i)
    case Spurious(i) => s.(servers := s.servers[i := ServerLock])
    case Sigint => Interrupted(s)
  }

  // ---- the invariant ----

  // A packet waits only while the bucket is short of its need
  ghost predicate BucketOk(s: State) {
    && 1 <= s.b && s.tokens <= s.b
    && (forall i | 0 <= i < |s.q1| :: 1 <= s.q1[i].need <= s.b)
    && !CanRelease(s)
  }

  // A finished thread left nothing to do behind
  ghost predicate PcsOk(s: State) {
    && (s.packet == PacketExit ==> s.input == 0)
    && (s.token == TokenGuardQ1 ==> s.input == 0)
    && (s.token == TokenExit ==> s.input == 0 && s.q1 == [])
    && (s.signalled ==> s.input == 0 && s.q1 == [] && s.q2 == [])
  }

  // No lost wakeup
  ghost predicate ServerOk(s: State, i: nat)
    requires i < |s.servers|
  {
    match s.servers[i]
    case ServerWaiting => s.q2 == [] && s.q1 != []
    case ServerGuardQ1 => s.input == 0
    case ServerGuardQ2 => s.input == 0 && s.q1 == []
    case ServerExit => s.input == 0 && s.q1 == [] && s.q2 == []
    case _ => true
  }

  ghost predicate ServersOk(s: State) {
    forall i | 0 <= i < |s.servers| :: ServerOk(s, i)
  }

  function Ids(ps: seq<Packet>): seq<nat> {
    if ps == [] then [] else [ps[0].id] + Ids(ps[1..])
  }

  function Packets(ds: seq<Done>): (r: seq<Packet>)
    ensures |r| == |ds| && forall i | 0 <= i < |ds| :: r[i] == ds[i].packet
  {
    if ds == [] then [] else [ds[0].packet] + Packets(ds[1..])
  }

  // The packets that were served, in the order of their service
  function Served(ds: seq<Done>): seq<Packet> {
    if ds == [] then [] else (if ds[0].kind.ServedBy? then [ds[0].packet] else []) + Served(ds[1..])
  }

  function UpTo(n: nat): (r: seq<nat>)
    ensures |r| == n && forall i | 0 <= i < n :: r[i] == i + 1
  {
    if n == 0 then [] else UpTo(n - 1) + [n]
  }

  ghost predicate Ascending(ps: seq<Packet>) {
    forall i, j | 0 <= i < j < |ps| :: ps[i].id < ps[j].id
  }

  // Served packets, then Q2, then Q1, are in the order of arrival
  function Line(s: State): seq<Packet> {
    Served(s.output) + s.q2 + s.q1
  }

  function Everywhere(s: State): seq<Packet> {
    s.q1 + s.q2 + Packets(s.output)
  }

  ghost predicate OrderOk(s: State) {
    && Ascending(Line(s))
    && (forall i | 0 <= i < |Line(s)| :: Line(s)[i].id <= s.packetId)
  }

  // Every packet ever created is in exactly one place
  ghost predicate CountOk(s: State) {
    && multiset(Ids(Everywhere(s))) == multiset(UpTo(s.packetId))
    && (!s.signalled ==> s.input + s.packetId == s.num)
  }

  // Dropped are exactly the packets that could never be served
  ghost predicate KindsOk(s: State) {
    forall d | d in s.output :: d.kind == TooBig <==> d.packet.need > s.b
  }

  ghost predicate Inv(s: State) {
    BucketOk(s) && PcsOk(s) && ServersOk(s) && OrderOk(s) && CountOk(s) && KindsOk(s) && Q2Ok(s)
  }

  ghost predicate Q2Ok(s: State) {
    forall i | 0 <= i < |s.q2| :: s.q2[i].need <= s.b
  }
}
