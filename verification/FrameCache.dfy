/**
 The page frame cache of mm/pframe.c: frames are found through hash chains,
 sit on the allocated or the pinned list by their pin count, and are linked
 into their object's list of resident pages.
 */
module FrameCache {
  import opened Basics

  datatype PFrame = PFrame(obj: nat, pagenum: nat, pin: nat)

  // ---- the cache as a value ----

  datatype Cache = Cache(frames: map<nat, PFrame>, hash: seq<seq<nat>>, respages: map<nat, seq<nat>>,
                         allocList: seq<nat>, pinnedList: seq<nat>, nallocated: int, npinned: int)

  function HashPage(size: nat, o: nat, pagenum: nat): nat
    requires size > 0
  {
    ((o + pagenum) % WORD) % size
  }

  function ResidentList(respages: map<nat, seq<nat>>, o: nat): seq<nat> {
    if o in respages then respages[o] else []
  }

  // f is the frame of page pagenum of object o
  predicate Holds(c: Cache, f: nat, o: nat, pagenum: nat) {
    f in c.frames && c.frames[f].obj == o && c.frames[f].pagenum == pagenum
  }

  // At most one frame per identity
  ghost predicate Unique(c: Cache) {
    forall f, g | f in c.frames && g in c.frames
                  && c.frames[f].obj == c.frames[g].obj && c.frames[f].pagenum == c.frames[g].pagenum :: f == g
  }

  // Every frame is on exactly its own hash chain
  ghost predicate Hashed(c: Cache) {
    && |c.hash| > 0
    && (forall h | 0 <= h < |c.hash| :: NoDup(c.hash[h]))
    && (forall h, f | 0 <= h < |c.hash| ::
          f in c.hash[h] <==> f in c.frames && HashPage(|c.hash|, c.frames[f].obj, c.frames[f].pagenum) == h)
  }

  // ... on exactly its own object's list of resident pages
  ghost predicate LinkedAt(c: Cache, o: nat) {
    && NoDup(ResidentList(c.respages, o))
    && (forall f :: f in ResidentList(c.respages, o) <==> f in c.frames && c.frames[f].obj == o)
  }

  ghost predicate Linked(c: Cache) {
    forall o :: LinkedAt(c, o)
  }

  // ... and on the allocated or the pinned list, as its pin count says
  ghost predicate Listed(c: Cache) {
    && NoDup(c.allocList) && NoDup(c.pinnedList)
    && (forall f :: f in c.allocList <==> f in c.frames && c.frames[f].pin == 0)
    && (forall f :: f in c.pinnedList <==> f in c.frames && c.frames[f].pin > 0)
    && c.nallocated == |c.allocList| && c.npinned == |c.pinnedList|
  }

  ghost predicate CacheOk(c: Cache) {
    Unique(c) && Hashed(c) && Linked(c) && Listed(c)
  }

  // The hash chain and the object's list agree: a page is found through its
  // chain exactly when a frame for it hangs off its object.
  lemma ChainAgreesWithObject(c: Cache, o: nat, pagenum: nat, f: nat)
    requires CacheOk(c)
    ensures (f in c.hash[HashPage(|c.hash|, o, pagenum)] && Holds(c, f, o, pagenum))
            <==> (f in ResidentList(c.respages, o) && f in c.frames && c.frames[f].pagenum == pagenum)
  {
    assert LinkedAt(c, o);
  }

  // ---- operations on the value ----

  // pframe_get_resident's effect on the list: a found unpinned frame goes to the back
  function Requested(c: Cache, f: nat): Cache
    requires f in c.frames
  {
    if c.frames[f].pin > 0 then c else c.(allocList := Erase(c.allocList, f) + [f])
  }

  lemma RequestedOk(c: Cache, f: nat)
    requires CacheOk(c) && f in c.frames
    ensures CacheOk(Requested(c, f))
  {
    var r := Requested(c, f);
    SameIdentities(c, r);
    EraseNoDup(c.allocList, f);
    EraseIn(c.allocList, f, f);
    NoDupPrepend(Erase(c.allocList, f), f);
    hide Unique, Hashed, Linked;
    forall g
      ensures g in r.allocList <==> g in c.allocList || (g == f && c.frames[f].pin == 0)
    {
      EraseIn(c.allocList, f, g);
    }
  }

  function Allocated(c: Cache, f: nat, o: nat, pagenum: nat): Cache
    requires |c.hash| > 0
  {
    var h := HashPage(|c.hash|, o, pagenum);
    c.(frames := c.frames[f := PFrame(o, pagenum, 0)],
       hash := c.hash[h := [f] + c.hash[h]],
       respages := c.respages[o := [f] + ResidentList(c.respages, o)],
       allocList := c.allocList + [f], nallocated := c.nallocated + 1)
  }

  lemma AllocatedOk(c: Cache, f: nat, o: nat, pagenum: nat)
    requires CacheOk(c) && f !in c.frames && forall g :: !Holds(c, g, o, pagenum)
    ensures CacheOk(Allocated(c, f, o, pagenum))
  {
    var r, h := Allocated(c, f, o, pagenum), HashPage(|c.hash|, o, pagenum);
    NoDupPrepend(c.hash[h], f);
    NoDupPrepend(c.allocList, f);
    assert Unique(r) by {
      forall a, b | a in r.frames && b in r.frames && r.frames[a].obj == r.frames[b].obj
        && r.frames[a].pagenum == r.frames[b].pagenum
        ensures a == b
      {
        assert !Holds(c, a, o, pagenum) && !Holds(c, b, o, pagenum);
      }
    }
    AllocatedLinked(c, f, o, pagenum);
  }

  lemma AllocatedLinked(c: Cache, f: nat, o: nat, pagenum: nat)
    requires Hashed(c) && Linked(c) && f !in c.frames
    ensures Linked(Allocated(c, f, o, pagenum))
  {
    var r := Allocated(c, f, o, pagenum);
    forall p
      ensures LinkedAt(r, p)
    {
      assert LinkedAt(c, p);
      if p == o {
        NoDupPrepend(ResidentList(c.respages, o), f);
      }
    }
  }

  function Repinned(c: Cache, f: nat, pin: nat): Cache
    requires f in c.frames
  {
    c.(frames := c.frames[f := c.frames[f].(pin := pin)])
  }

  function Pinned(c: Cache, f: nat): Cache
    requires f in c.frames
  {
    var r := Repinned(c, f, c.frames[f].pin + 1);
    if c.frames[f].pin > 0 then r
    else r.(allocList := Erase(c.allocList, f), pinnedList := c.pinnedList + [f],
            nallocated := c.nallocated - 1, npinned := c.npinned + 1)
  }

  function Unpinned(c: Cache, f: nat): Cache
    requires f in c.frames && c.frames[f].pin > 0
  {
    var r := Repinned(c, f, c.frames[f].pin - 1);
    if c.frames[f].pin > 1 then r
    else r.(pinnedList := Erase(c.pinnedList, f), allocList := c.allocList + [f],
            npinned := c.npinned - 1, nallocated := c.nallocated + 1)
  }

  // Pinning changes no identity, hence no chain and no object list
  lemma SameIdentities(c: Cache, r: Cache)
    requires Unique(c) && Hashed(c) && Linked(c) && r.hash == c.hash && r.respages == c.respages
             && r.frames.Keys == c.frames.Keys
    requires forall f | f in c.frames ::
             r.frames[f].obj == c.frames[f].obj && r.frames[f].pagenum == c.frames[f].pagenum
    ensures Unique(r) && Hashed(r) && Linked(r)
  {
    assert forall f :: f in r.frames <==> f in c.frames;
    forall o
      ensures LinkedAt(r, o)
    {
      assert LinkedAt(c, o);
    }
  }

  lemma PinnedOk(c: Cache, f: nat)
    requires CacheOk(c) && f in c.frames
    ensures CacheOk(Pinned(c, f))
  {
    var r := Pinned(c, f);
    SameIdentities(c, r);
    hide Unique, Hashed, Linked;
    EraseNoDup(c.allocList, f);
    forall g
      ensures g in r.allocList <==> g in c.allocList && g != f
      ensures g in r.pinnedList <==> g in c.pinnedList || g == f
    {
      EraseIn(c.allocList, f, g);
    }
  }

  lemma UnpinnedOk(c: Cache, f: nat)
    requires CacheOk(c) && f in c.frames && c.frames[f].pin > 0
    ensures CacheOk(Unpinned(c, f))
  {
    var r := Unpinned(c, f);
    SameIdentities(c, r);
    hide Unique, Hashed, Linked;
    EraseNoDup(c.pinnedList, f);
    if c.frames[f].pin == 1 {
      assert f !in c.allocList;
      NoDupPrepend(c.allocList, f);
    }
    forall g
      ensures g in r.allocList <==> g in c.allocList || (g == f && c.frames[f].pin == 1)
      ensures g in r.pinnedList <==> g in c.pinnedList && (g != f || c.frames[f].pin > 1)
    {
      EraseIn(c.pinnedList, f, g);
    }
  }

  function Freed(c: Cache, f: nat): Cache
    requires f in c.frames && |c.hash| > 0
  {
    var o, h := c.frames[f].obj, HashPage(|c.hash|, c.frames[f].obj, c.frames[f].pagenum);
    c.(frames := c.frames - {f},
       hash := c.hash[h := Erase(c.hash[h], f)],
       respages := c.respages[o := Erase(ResidentList(c.respages, o), f)],
       allocList := Erase(c.allocList, f), nallocated := c.nallocated - 1)
  }

  lemma FreedOk(c: Cache, f: nat)
    requires CacheOk(c) && f in c.frames && c.frames[f].pin == 0
    ensures CacheOk(Freed(c, f))
  {
    FreedHashed(c, f);
    FreedLinked(c, f);
    EraseNoDup(c.allocList, f);
    hide Hashed, Linked;
    forall g
      ensures g in Erase(c.allocList, f) <==> g in c.allocList && g != f
    {
      EraseIn(c.allocList, f, g);
    }
  }

  lemma FreedHashed(c: Cache, f: nat)
    requires Hashed(c) && f in c.frames
    ensures Hashed(Freed(c, f))
  {
    var r, k := Freed(c, f), HashPage(|c.hash|, c.frames[f].obj, c.frames[f].pagenum);
    EraseNoDup(c.hash[k], f);
    forall h, g | 0 <= h < |r.hash|
      ensures g in r.hash[h] <==> g in c.hash[h] && g != f
    {
      EraseIn(c.hash[k], f, g);
    }
  }

  lemma FreedLinked(c: Cache, f: nat)
    requires |c.hash| > 0 && Linked(c) && f in c.frames
    ensures Linked(Freed(c, f))
  {
    var o, r := c.frames[f].obj, Freed(c, f);
    forall p
      ensures LinkedAt(r, p)
    {
      assert LinkedAt(c, p);
      if p == o {
        EraseNoDup(ResidentList(c.respages, o), f);
        forall g
          ensures g in ResidentList(r.respages, p) <==> g in ResidentList(c.respages, p) && g != f
        {
          EraseIn(ResidentList(c.respages, o), f, g);
        }
      }
    }
  }

  // Allocating a page and freeing its frame again restores every list
  lemma AllocThenFree(c: Cache, f: nat, o: nat, pagenum: nat)
    requires CacheOk(c) && f !in c.frames
    ensures var r := Freed(Allocated(c, f, o, pagenum), f);
            && r == c.(respages := r.respages)
            && forall p :: ResidentList(r.respages, p) == ResidentList(c.respages, p)
  {
    var h, a := HashPage(|c.hash|, o, pagenum), Allocated(c, f, o, pagenum);
    var r := Freed(a, f);
    assert LinkedAt(c, o);
    EraseHead(c.hash[h], f);
    EraseHead(ResidentList(c.respages, o), f);
    EraseLast(c.allocList, f);
    assert r.frames == c.frames;
    assert r.hash == c.hash;
  }

  lemma EraseHead(s: seq<nat>, x: nat)
    ensures Erase([x] + s, x) == s
  {
    assert ([x] + s)[1..] == s;
  }

  lemma {:induction false} EraseLast(s: seq<nat>, x: nat)
    requires x !in s
    ensures Erase(s + [x], x) == s
  {
    if s != [] {
      assert (s + [x])[1..] == s[1..] + [x];
      EraseLast(s[1..], x);
    } else {
      assert (s + [x])[1..] == [];
    }
  }

  // Pages of anonymous and shadow objects: filled with exactly one pin, a
  // write fault pins and unpins around dirtying, and the one unpin of the
  // teardown makes the frame free to go.
  lemma OnePinSuffices(c: Cache, f: nat)
    requires CacheOk(c) && f in c.frames && c.frames[f].pin == 0
    ensures var filled := Pinned(c, f);
            && filled.frames[f].pin == 1 && f in filled.pinnedList
            && Unpinned(Pinned(filled, f), f) == filled
            && Unpinned(filled, f).frames[f].pin == 0 && f in Unpinned(filled, f).allocList
  {
    var filled := Pinned(c, f);
    var twice := Unpinned(Pinned(filled, f), f);
    assert twice.frames == filled.frames;
  }

  // ---- runs ----

  datatype CacheOp = OpRequest(f: nat) | OpAlloc(f: nat, o: nat, pagenum: nat) | OpPin(f: nat) | OpUnpin(f: nat)
    | OpFree(f: nat)

  // The callers' side: a page is allocated when pframe_get_resident did not
  // find it, a frame is unpinned when pinned and freed when not
  ghost predicate Allowed(c: Cache, op: CacheOp) {
    match op
    case OpRequest(f) => f in c.frames
    case OpAlloc(f, o, pagenum) => |c.hash| > 0 && f !in c.frames && forall g :: !Holds(c, g, o, pagenum)
    case OpPin(f) => f in c.frames
    case OpUnpin(f) => f in c.frames && c.frames[f].pin > 0
    case OpFree(f) => |c.hash| > 0 && f in c.frames && c.frames[f].pin == 0
  }

  ghost function Performed(c: Cache, op: CacheOp): Cache
    requires Allowed(c, op)
  {
    match op
    case OpRequest(f) => Requested(c, f)
    case OpAlloc(f, o, pagenum) => Allocated(c, f, o, pagenum)
    case OpPin(f) => Pinned(c, f)
    case OpUnpin(f) => Unpinned(c, f)
    case OpFree(f) => Freed(c, f)
  }

  ghost predicate Runs(c: Cache, ops: seq<CacheOp>)
    decreases |ops|
  {
    ops != [] ==> Allowed(c, ops[0]) && Runs(Performed(c, ops[0]), ops[1..])
  }

  ghost function Run(c: Cache, ops: seq<CacheOp>): Cache
    requires Runs(c, ops)
    decreases |ops|
  {
    if ops == [] then c else Run(Performed(c, ops[0]), ops[1..])
  }

  lemma PerformedOk(c: Cache, op: CacheOp)
    requires CacheOk(c) && Allowed(c, op)
    ensures CacheOk(Performed(c, op))
  {
    hide CacheOk, Holds;
    match op
    case OpRequest(f) => RequestedOk(c, f);
    case OpAlloc(f, o, pagenum) => AllocatedOk(c, f, o, pagenum);
    case OpPin(f) => PinnedOk(c, f);
    case OpUnpin(f) => UnpinnedOk(c, f);
    case OpFree(f) => FreedOk(c, f);
  }

  // In every run the index, the resident lists, the two lists and their
  // counters agree.
  lemma {:induction false} CacheInEveryRun(c: Cache, ops: seq<CacheOp>)
    requires CacheOk(c) && Runs(c, ops)
    ensures var r := Run(c, ops);
            && CacheOk(r)
            && |r.allocList| == r.nallocated && |r.pinnedList| == r.npinned
            && (forall f :: f in r.allocList <==> f in r.frames && r.frames[f].pin == 0)
            && (forall f :: f in r.pinnedList <==> f in r.frames && r.frames[f].pin > 0)
    decreases |ops|
  {
    if ops != [] {
      PerformedOk(c, ops[0]);
      CacheInEveryRun(Performed(c, ops[0]), ops[1..]);
      hide CacheOk, Performed, Allowed;
    }
  }

  // ---- the order of the allocated list ----

  // The frame goes to the back of the list if it is not pinned then
  predicate Touches(op: CacheOp, f: nat) {
    op.f == f && (op.OpAlloc? || op.OpRequest? || op.OpUnpin?)
  }

  // Position of the last operation that touched the frame, or -1
  function LastTouch(ops: seq<CacheOp>, f: nat): (i: int)
    ensures -1 <= i < |ops|
  {
    if ops == [] then -1
    else if Touches(ops[|ops| - 1], f) then |ops| - 1
    else LastTouch(ops[..|ops| - 1], f)
  }

  ghost predicate InOrder(l: seq<nat>, ops: seq<CacheOp>) {
    forall i, j | 0 <= i < j < |l| :: LastTouch(ops, l[i]) < LastTouch(ops, l[j])
  }

  lemma {:induction false} EraseInOrder(l: seq<nat>, ops: seq<CacheOp>, f: nat)
    requires InOrder(l, ops)
    ensures InOrder(Erase(l, f), ops)
  {
    if l != [] {
      assert InOrder(l[1..], ops);
      if l[0] != f {
        EraseInOrder(l[1..], ops, f);
        forall j | 0 <= j < |Erase(l[1..], f)|
          ensures LastTouch(ops, l[0]) < LastTouch(ops, Erase(l[1..], f)[j])
        {
          EraseIn(l[1..], f, Erase(l[1..], f)[j]);
        }
      }
    }
  }

  // An operation on one frame does not disturb the order of the others
  lemma OthersInOrder(l: seq<nat>, ops: seq<CacheOp>)
    requires ops != [] && InOrder(l, ops[..|ops| - 1])
    requires Touches(ops[|ops| - 1], ops[|ops| - 1].f) ==> ops[|ops| - 1].f !in l
    ensures InOrder(l, ops)
  {
    forall i | 0 <= i < |l|
      ensures LastTouch(ops, l[i]) == LastTouch(ops[..|ops| - 1], l[i])
    {
      assert l[i] in l;
    }
  }

  lemma BackInOrder(l: seq<nat>, ops: seq<CacheOp>)
    requires ops != [] && InOrder(l, ops[..|ops| - 1]) && Touches(ops[|ops| - 1], ops[|ops| - 1].f)
             && ops[|ops| - 1].f !in l
    ensures InOrder(l + [ops[|ops| - 1].f], ops)
  {
    OthersInOrder(l, ops);
    forall i | 0 <= i < |l|
      ensures LastTouch(ops, l[i]) < |ops| - 1
    {
      assert l[i] in l;
    }
  }

  lemma OrderStep(c: Cache, ops: seq<CacheOp>)
    requires ops != [] && CacheOk(c) && InOrder(c.allocList, ops[..|ops| - 1]) && Allowed(c, ops[|ops| - 1])
    ensures InOrder(Performed(c, ops[|ops| - 1]).allocList, ops)
  {
    var op, l := ops[|ops| - 1], c.allocList;
    assert Listed(c);
    EraseInOrder(l, ops[..|ops| - 1], op.f);
    EraseIn(l, op.f, op.f);
    hide CacheOk, InOrder, Erase, LastTouch;
    match op
    case OpRequest(f) =>
      if c.frames[f].pin > 0 {
        OthersInOrder(l, ops);
      } else {
        BackInOrder(Erase(l, f), ops);
      }
    case OpAlloc(f, _, _) => BackInOrder(l, ops);
    case OpPin(f) =>
      OthersInOrder(Erase(l, f), ops);
      OthersInOrder(l, ops);
    case OpUnpin(f) =>
      if c.frames[f].pin > 1 {
        OthersInOrder(l, ops);
      } else {
        BackInOrder(l, ops);
      }
    case OpFree(f) => OthersInOrder(Erase(l, f), ops);
  }

  lemma {:induction false} RunLast(c: Cache, ops: seq<CacheOp>)
    requires Runs(c, ops) && ops != []
    ensures var n := |ops| - 1;
            Runs(c, ops[..n]) && Allowed(Run(c, ops[..n]), ops[n]) && Run(c, ops) == Performed(Run(c, ops[..n]), ops[n])
    decreases |ops|
  {
    hide Allowed, Performed;
    var n := |ops| - 1;
    if n == 0 {
      assert ops[1..] == [] && ops[..n] == [];
    } else {
      RunLast(Performed(c, ops[0]), ops[1..]);
      assert ops[..n][1..] == ops[1..][..n - 1] && ops[1..][n - 1] == ops[n];
    }
  }

  // In every run the allocated list is in the order of last use, so that the
  // pageout daemon finds the least recently requested frame at its head
  lemma {:induction false} LeastRecentFirst(c: Cache, ops: seq<CacheOp>)
    requires CacheOk(c) && c.allocList == [] && Runs(c, ops)
    ensures InOrder(Run(c, ops).allocList, ops)
    decreases |ops|
  {
    if ops != [] {
      hide CacheOk, Runs, Run, InOrder, Performed, Allowed;
      var n := |ops| - 1;
      RunLast(c, ops);
      LeastRecentFirst(c, ops[..n]);
      CacheInEveryRun(c, ops[..n]);
      OrderStep(Run(c, ops[..n]), ops);
    }
  }

  // ---- the cache as the kernel keeps it ----

  class FrameTable {
    var frames: map<nat, PFrame>
    var hash: seq<seq<nat>>
    var respages: map<nat, seq<nat>>
    var allocList: seq<nat>
    var pinnedList: seq<nat>
    var nallocated: int
    var npinned: int

    ghost function C(): Cache
      reads this
    {
      Cache(frames, hash, respages, allocList, pinnedList, nallocated, npinned)
    }

    // pframe_init
    constructor (size: nat)
      requires size > 0
      ensures CacheOk(C()) && frames == map[] && |hash| == size
    {
      frames, respages, allocList, pinnedList := map[], map[], [], [];
      nallocated, npinned := 0, 0;
      hash := seq(size, _ => []);
    }

    // pframe_get_resident
    method GetResident(o: nat, pagenum: nat) returns (r: Option<nat>)
      requires CacheOk(C())
      modifies this`allocList
      ensures CacheOk(C())
      ensures r.None? <==> forall f :: !Holds(old(C()), f, o, pagenum)
      ensures r.Some? ==> Holds(old(C()), r.value, o, pagenum)
      ensures C() == if r.Some? then Requested(old(C()), r.value) else old(C())
    {
      var chain := hash[HashPage(|hash|, o, pagenum)];
      var i := ScanChain(chain, o, pagenum);
      if i == |chain| {
        NotFound(C(), o, pagenum);
        return None;
      }
      var f := chain[i];
      RequestedOk(C(), f);
      hide CacheOk;
      assert Holds(C(), f, o, pagenum);
      if !(frames[f].pin > 0) {
        allocList := Erase(allocList, f);
        allocList := allocList + [f];
      }
      return Some(f);
    }

    // The walk along a hash chain
    method ScanChain(chain: seq<nat>, o: nat, pagenum: nat) returns (i: nat)
      requires forall j | 0 <= j < |chain| :: chain[j] in frames
      ensures i <= |chain| && forall j | 0 <= j < i :: !Holds(C(), chain[j], o, pagenum)
      ensures i < |chain| ==> Holds(C(), chain[i], o, pagenum)
    {
      i := 0;
      while i < |chain|
        invariant i <= |chain|
        invariant forall j | 0 <= j < i :: !Holds(C(), chain[j], o, pagenum)
      {
        if o == frames[chain[i]].obj && pagenum == frames[chain[i]].pagenum {
          return;
        }
        i := i + 1;
      }
    }

    // pframe_alloc; f names the slab object handed out
    method Alloc(f: nat, o: nat, pagenum: nat)
      requires CacheOk(C()) && f !in frames && forall g :: !Holds(C(), g, o, pagenum)
      modifies this
      ensures CacheOk(C()) && C() == Allocated(old(C()), f, o, pagenum)
    {
      AllocatedOk(C(), f, o, pagenum);
      hide CacheOk;
      nallocated := nallocated + 1;
      allocList := allocList + [f];
      frames := frames[f := PFrame(o, pagenum, 0)];
      var h := HashPage(|hash|, o, pagenum);
      hash := hash[h := [f] + hash[h]];
      respages := respages[o := [f] + (if o in respages then respages[o] else [])];
    }

    // pframe_pin
    method Pin(f: nat)
      requires CacheOk(C()) && f in frames
      modifies this
      ensures CacheOk(C()) && C() == Pinned(old(C()), f)
    {
      hide CacheOk;
      PinnedOk(C(), f);
      if !(frames[f].pin > 0) {
        allocList := Erase(allocList, f);
        pinnedList := pinnedList + [f];
        nallocated := nallocated - 1;
        npinned := npinned + 1;
      }
      frames := frames[f := frames[f].(pin := frames[f].pin + 1)];
    }

    // pframe_unpin
    method Unpin(f: nat)
      requires CacheOk(C()) && f in frames && frames[f].pin > 0
      modifies this
      ensures CacheOk(C()) && C() == Unpinned(old(C()), f)
    {
      hide CacheOk;
      UnpinnedOk(C(), f);
      frames := frames[f := frames[f].(pin := frames[f].pin - 1)];
      if frames[f].pin == 0 {
        pinnedList := Erase(pinnedList, f);
        allocList := allocList + [f];
        npinned := npinned - 1;
        nallocated := nallocated + 1;
      }
    }

    // pframe_free, without the reference it gives back
    method Free(f: nat)
      requires CacheOk(C()) && f in frames && frames[f].pin == 0
      modifies this
      ensures CacheOk(C()) && C() == Freed(old(C()), f)
    {
      FreedOk(C(), f);
      hide CacheOk;
      var o, h := frames[f].obj, HashPage(|hash|, frames[f].obj, frames[f].pagenum);
      hash := hash[h := Erase(hash[h], f)];
      nallocated := nallocated - 1;
      allocList := Erase(allocList, f);
      respages := respages[o := Erase(if o in respages then respages[o] else [], f)];
      frames := frames - {f};
    }
  }

  lemma NotOnChain(c: Cache, f: nat, o: nat, pagenum: nat)
    requires Hashed(c) && Holds(c, f, o, pagenum)
    ensures var chain := c.hash[HashPage(|c.hash|, o, pagenum)]; exists j :: 0 <= j < |chain| && chain[j] == f
  {
    assert f in c.hash[HashPage(|c.hash|, o, pagenum)];
  }

  // A page on none of its chain's links is nowhere
  lemma NotFound(c: Cache, o: nat, pagenum: nat)
    requires CacheOk(c)
    requires var chain := c.hash[HashPage(|c.hash|, o, pagenum)]; forall j | 0 <= j < |chain| ::
             !Holds(c, chain[j], o, pagenum)
    ensures forall f :: !Holds(c, f, o, pagenum)
  {
    forall f
      ensures !Holds(c, f, o, pagenum)
    {
      if Holds(c, f, o, pagenum) {
        NotOnChain(c, f, o, pagenum);
        assert false;
      }
    }
  }
}
