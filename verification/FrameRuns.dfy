/**
 The frame cache through every run: the calls into mm/pframe.c that each
 operation of the virtual memory system makes keep the cache in step with the
 memory objects.
 */
module FrameRuns {
  import opened Basics
  import opened Areas
  import opened Objects
  import opened AddressSpaces
  import opened PageAccess
  import opened Mappings
  import opened Forking
  import opened FrameLink
  import opened FrameCalls
  import F = FrameCache
  import I = Isolation
  import O = FreedObjects

  // ---- whole operations ----

  // The puts of a removal, area by area
  ghost function CutCalls(objs: seq<MmObj>, c: F.Cache, areas: seq<Area>, lo: nat, hi: nat): seq<F.CacheOp>
    requires lo <= hi && forall a | a in areas :: a.obj < |objs|
    decreases |areas|
  {
    if areas == [] then []
    else
      var calls := if |Cut(areas[0], lo, hi)| == 0 then PutCalls(objs, c, areas[0].obj) else [];
      calls + CutCalls(CutStep(objs, areas[0], lo, hi), After(c, calls), areas[1..], lo, hi)
  }

  lemma {:induction false} CutFollows(objs: seq<MmObj>, c: F.Cache, areas: seq<Area>, lo: nat, hi: nat)
    requires Agrees(objs, c) && Formed(objs) && lo <= hi && forall a | a in areas :: a.obj < |objs|
    ensures Follows(c, CutCalls(objs, c, areas, lo, hi), CutObjs(objs, areas, lo, hi))
    decreases |areas|
  {
    hide Agrees, Formed, CutStep, F.Runs, F.Run, PutCalls;
    if areas == [] {
      NoCall(c);
    } else {
      var calls := if |Cut(areas[0], lo, hi)| == 0 then PutCalls(objs, c, areas[0].obj) else [];
      var objs1 := CutStep(objs, areas[0], lo, hi);
      CutStepFollows(objs, c, areas[0], lo, hi);
      CutFollows(objs1, After(c, calls), areas[1..], lo, hi);
      Then(c, calls, CutCalls(objs1, After(c, calls), areas[1..], lo, hi), CutObjs(objs, areas, lo, hi));
    }
  }

  lemma CutStepFollows(objs: seq<MmObj>, c: F.Cache, a: Area, lo: nat, hi: nat)
    requires Agrees(objs, c) && Formed(objs) && lo <= hi && a.obj < |objs|
    ensures Follows(c, if |Cut(a, lo, hi)| == 0 then PutCalls(objs, c, a.obj) else [], CutStep(objs, a, lo, hi))
    ensures Formed(CutStep(objs, a, lo, hi))
  {
    hide Agrees, Formed, F.Runs, F.Run;
    NoCall(c);
    if |Cut(a, lo, hi)| == 0 {
      PutFormed(objs, a.obj);
      PutFollows(objs, c, a.obj);
    } else if |Cut(a, lo, hi)| == 2 {
      RefFormed(objs, a.obj);
      Idle(objs, Ref(objs, a.obj), c);
    }
  }

  ghost function RemoveCalls(s: State, c: F.Cache, pid: nat, lo: nat, hi: nat): seq<F.CacheOp>
    requires AreasIn(s, pid) && lo <= hi
  {
    CutCalls(s.objs, c, s.procs[pid].areas, lo, hi)
  }

  // The calls of one operation.  Forks, loads and stores through the page table
  // make none; f and g are what the slab allocator would hand out.
  ghost function StepCalls(s: State, c: F.Cache, op: I.Op, f: nat, g: nat): seq<F.CacheOp>
    requires Inv(s) && I.Enabled(s, op)
  {
    I.Ready(s, op);
    match op
    case OpFork(_) => []
    case OpMap(pid, _, lo, n, _, _, _) =>
      if RangeFree(s.procs[pid].areas, lo, lo + n) then [] else RemoveCalls(s, c, pid, lo, lo + n)
    case OpUnmap(pid, lo, hi) => RemoveCalls(s, c, pid, lo, hi)
    case OpExit(pid) => RemoveCalls(s, c, pid, LOW_PAGE, HIGH_PAGE)
    case OpLoad(_, _) => []
    case OpBrk(pid, addr) => BrkCalls(s, c, pid, addr)
    case OpRead(pid, p) => ReadCalls(s.objs, c, MappingAt(s, pid, p).obj, MappingAt(s, pid, p).page, f)
    case OpWrite(pid, p, _) => WriteCalls(s.objs, c, MappingAt(s, pid, p).obj, MappingAt(s, pid, p).page, f, g)
    case OpFault(pid, p, cause) =>
      var t := MappingAt(s, pid, p);
      if cause.write then FaultCalls(s.objs, c, t.obj, t.page, f, g) else ReadCalls(s.objs, c, t.obj, t.page, f)
    case OpStore(_, _, _) => []
  }

  ghost function BrkCalls(s: State, c: F.Cache, pid: nat, addr: nat): seq<F.CacheOp>
    requires HeapPresent(s, pid) && AreasIn(s, pid)
  {
    var end := s.procs[pid].areas[HeapIndex(s, pid)].end;
    if PageUp(addr) < end then RemoveCalls(s, c, pid, PageUp(addr), end) else []
  }

  lemma {:induction false} ForkResidency(objs: seq<MmObj>, areas: seq<Area>)
    requires Forkable(objs, areas)
    ensures SameResidency(objs, ForkAreas(objs, areas).objs)
    decreases |areas|
  {
    if areas != [] {
      hide Forkable, SameResidency, ForkOne, ForkAreas;
      var one := ForkUnfold(objs, areas);
      ForkResidency(one.objs, areas[1..]);
      OneResidency(objs, areas[0]);
      ResidencyTransitive(objs, one.objs, ForkAreas(objs, areas).objs);
    }
  }

  lemma OneResidency(objs: seq<MmObj>, a: Area)
    requires a.obj < |objs| && BottomOf(objs, a.obj) < |objs|
    ensures SameResidency(objs, ForkOne(objs, a).objs)
  {
  }

  lemma ResidencyTransitive(a: seq<MmObj>, b: seq<MmObj>, c: seq<MmObj>)
    requires SameResidency(a, b) && SameResidency(b, c)
    ensures SameResidency(a, c)
  {
  }

  lemma RemoveFollows(s: State, c: F.Cache, pid: nat, lo: nat, hi: nat)
    requires Inv(s) && AreasIn(s, pid) && lo <= hi && Agrees(s.objs, c)
    ensures Follows(c, RemoveCalls(s, c, pid, lo, hi), Remove(s, pid, lo, hi).objs)
  {
    hide Agrees, F.Runs, F.Run, CutCalls, Formed;
    CutFollows(s.objs, c, s.procs[pid].areas, lo, hi);
  }

  lemma MapFollows(s: State, c: F.Cache, pid: nat, file: Option<nat>, lo: nat, n: nat, prot: Prot, shared: bool,
                   off: nat)
    requires Inv(s) && MapPre(s, pid, file, lo, n) && AreasIn(s, pid) && Agrees(s.objs, c)
    ensures Follows(c, if RangeFree(s.procs[pid].areas, lo, lo + n) then [] else RemoveCalls(s, c, pid, lo, lo + n),
                    MapAt(s, pid, file, lo, n, prot, shared, off).objs)
  {
    hide Inv, Agrees, F.Runs, F.Run, SameResidency, NewBacking, RangeFree, RemoveCalls;
    if RangeFree(s.procs[pid].areas, lo, lo + n) {
      BackingResidency(s.objs, file, shared);
      Idle(s.objs, NewBacking(s.objs, file, shared).objs, c);
    } else {
      RemoveFollows(s, c, pid, lo, lo + n);
      var objs := Remove(s, pid, lo, lo + n).objs;
      BackingResidency(objs, file, shared);
      ThenIdle(c, RemoveCalls(s, c, pid, lo, lo + n), objs, NewBacking(objs, file, shared).objs);
    }
  }

  lemma BackingResidency(objs: seq<MmObj>, file: Option<nat>, shared: bool)
    requires file.Some? ==> file.value < |objs|
    ensures SameResidency(objs, NewBacking(objs, file, shared).objs)
  {
  }

  lemma StoreResidency(objs: seq<MmObj>, o: nat, pn: nat, bytes: Page)
    requires o < |objs| && pn in objs[o].pages
    ensures SameResidency(objs, Store(objs, o, pn, bytes))
  {
  }

  // Bytes copied in after the lookup change no residency
  lemma WriteFollows(s: State, c: F.Cache, pid: nat, p: nat, bytes: Page, calls: seq<F.CacheOp>)
    requires Inv(s) && Mapped(s, pid, p)
    requires Follows(c, calls, WriteLookup(s.objs, MappingAt(s, pid, p).obj, MappingAt(s, pid, p).page))
    ensures Follows(c, calls, WritePage(s, pid, p, bytes).objs)
  {
    hide Inv, Agrees, F.Runs, F.Run, WriteLookup, SameResidency;
    var t := MappingAt(s, pid, p);
    TargetFacts(s, pid, p);
    WriteResident(s.objs, t.obj, t.page);
    var objs := WriteLookup(s.objs, t.obj, t.page);
    StoreResidency(objs, t.obj, t.page, bytes);
    ThenIdle(c, calls, objs, Store(objs, t.obj, t.page, bytes));
  }

  lemma StoreFollows(s: State, c: F.Cache, pid: nat, p: nat, bytes: Page)
    requires Inv(s) && Writable(s, pid, p) && Agrees(s.objs, c)
    ensures Follows(c, [], UserStore(s, pid, p, bytes).objs)
  {
    hide Agrees;
    var e := s.procs[pid].pt[p];
    assert PtOk(s, pid) && PteOk(s.objs, s.procs[pid].areas, p, e);
    StoreResidency(s.objs, e.obj, e.page, bytes);
    Idle(s.objs, UserStore(s, pid, p, bytes).objs, c);
  }

  lemma BrkFollows(s: State, c: F.Cache, pid: nat, addr: nat)
    requires Inv(s) && HeapPresent(s, pid) && AreasIn(s, pid) && Agrees(s.objs, c)
    ensures Follows(c, BrkCalls(s, c, pid, addr), Brk(s, pid, addr).objs)
  {
    hide Inv, Agrees, F.Runs, F.Run, RemoveCalls;
    NoCall(c);
    var end := s.procs[pid].areas[HeapIndex(s, pid)].end;
    if PageUp(addr) < end {
      RemoveFollows(s, c, pid, PageUp(addr), end);
    }
  }

  // Every operation: its calls are allowed in turn and keep cache and objects in
  // step
  lemma StepFollows(s: State, c: F.Cache, op: I.Op, f: nat, g: nat)
    requires Inv(s) && I.Enabled(s, op) && Agrees(s.objs, c) && f !in c.frames && g !in c.frames && f != g
    ensures Follows(c, StepCalls(s, c, op, f, g), I.Apply(s, op).objs)
  {
    hide Inv, Agrees, F.Runs, F.Run, RemoveCalls, BrkCalls, ReadCalls, WriteCalls, FaultCalls;
    I.Ready(s, op);
    NoCall(c);
    match op
    case OpFork(pid) =>
      ForkResidency(s.objs, s.procs[pid].areas);
      Idle(s.objs, Fork(s, pid).objs, c);
    case OpMap(pid, file, lo, n, prot, shared, off) => MapFollows(s, c, pid, file, lo, n, prot, shared, off);
    case OpUnmap(pid, lo, hi) => RemoveFollows(s, c, pid, lo, hi);
    case OpExit(pid) => RemoveFollows(s, c, pid, LOW_PAGE, HIGH_PAGE);
    case OpLoad(_, _) =>
    case OpBrk(pid, addr) => BrkFollows(s, c, pid, addr);
    case OpRead(pid, p) => ReadFollows(s.objs, c, MappingAt(s, pid, p).obj, MappingAt(s, pid, p).page, f);
    case OpWrite(pid, p, bytes) =>
      var t := MappingAt(s, pid, p);
      WriteLookupFollows(s.objs, c, t.obj, t.page, f, g);
      WriteFollows(s, c, pid, p, bytes, WriteCalls(s.objs, c, t.obj, t.page, f, g));
    case OpFault(pid, p, cause) =>
      var t := MappingAt(s, pid, p);
      if cause.write {
        FaultFollows(s.objs, c, t.obj, t.page, f, g);
        WriteFollows(s, c, pid, p, View(s, pid, p).value, FaultCalls(s.objs, c, t.obj, t.page, f, g));
      } else {
        ReadFollows(s.objs, c, t.obj, t.page, f);
      }
    case OpStore(pid, p, bytes) => StoreFollows(s, c, pid, p, bytes);
  }

  // ---- runs ----

  // The slab allocator: at a moment, told by the operations still to come, and
  // with some frames in use, the frame it hands out
  type Slab = (nat, set<nat>) -> nat

  ghost predicate HandsOutUnused(slab: Slab) {
    forall moment: nat, used: set<nat> :: slab(moment, used) !in used
  }

  ghost function RunCalls(s: State, c: F.Cache, vm: seq<I.Op>, slab: Slab): seq<F.CacheOp>
    requires Inv(s) && I.Runs(s, vm)
    decreases |vm|
  {
    if vm == [] then []
    else
      var f := slab(|vm|, c.frames.Keys);
      var calls := StepCalls(s, c, vm[0], f, slab(|vm|, c.frames.Keys + {f}));
      I.ApplyInv(s, vm[0]);
      calls + RunCalls(I.Apply(s, vm[0]), After(c, calls), vm[1..], slab)
  }

  // Every run, whatever frames the allocator hands out
  lemma {:induction false} RunFollows(s: State, c: F.Cache, vm: seq<I.Op>, slab: Slab)
    requires Inv(s) && I.Runs(s, vm) && Agrees(s.objs, c) && HandsOutUnused(slab)
    ensures Follows(c, RunCalls(s, c, vm, slab), I.Run(s, vm).objs)
    decreases |vm|
  {
    hide Inv, Agrees, I.Enabled, I.Apply, StepCalls, F.Runs, F.Run;
    if vm == [] {
      NoCall(c);
    } else {
      var f := slab(|vm|, c.frames.Keys);
      var g := slab(|vm|, c.frames.Keys + {f});
      var calls := StepCalls(s, c, vm[0], f, g);
      assert f !in c.frames && g !in c.frames && f != g;
      I.ApplyInv(s, vm[0]);
      StepFollows(s, c, vm[0], f, g);
      var s1, c1 := I.Apply(s, vm[0]), After(c, calls);
      RunFollows(s1, c1, vm[1..], slab);
      Then(c, calls, RunCalls(s1, c1, vm[1..], slab), I.Run(s, vm).objs);
    }
  }

  ghost function EmptyCache(size: nat): F.Cache {
    F.Cache(map[], seq(size, _ => []), map[], [], [], 0, 0)
  }

  // In every run from boot, with a frame table of any size: all the kernel's
  // calls are allowed when made, afterwards frames and resident pages correspond
  // one to one, and an object's list of resident frames is as long as its count
  // of resident pages says.
  lemma FramesInEveryRun(files: seq<seq<Page>>, vm: seq<I.Op>, slab: Slab, size: nat, o: nat)
    requires Inv(I.Boot(files)) && I.Runs(I.Boot(files), vm) && HandsOutUnused(slab)
    requires size > 0 && o < |I.Run(I.Boot(files), vm).objs|
    ensures var s, c := I.Boot(files), EmptyCache(size);
            && Follows(c, RunCalls(s, c, vm, slab), I.Run(s, vm).objs)
            && |F.ResidentList(After(c, RunCalls(s, c, vm, slab)).respages, o)| == I.Run(s, vm).objs[o].nres
  {
    hide RunCalls, F.Runs, F.Run, Agrees;
    var s, c := I.Boot(files), EmptyCache(size);
    EmptyAgrees(s.objs, size);
    I.RunInv(s, vm);
    RunFollows(s, c, vm, slab);
    CountsAgree(I.Run(s, vm).objs, After(c, RunCalls(s, c, vm, slab)), o);
  }

  ghost predicate FrameLives(objs: seq<MmObj>, x: F.PFrame) {
    x.obj < |objs| && objs[x.obj].live && x.pin == PinOf(objs[x.obj].kind)
  }

  // ... no frame belongs to a freed object, and a frame is pinned exactly when
  // its object is no file, so that nothing is pinned once no area is left.
  lemma FramesOfLiveObjects(files: seq<seq<Page>>, vm: seq<I.Op>, slab: Slab, size: nat)
    requires Inv(I.Boot(files)) && I.Runs(I.Boot(files), vm) && HandsOutUnused(slab) && size > 0
    ensures var s, c := I.Boot(files), EmptyCache(size);
            var r, d := I.Run(s, vm), After(c, RunCalls(s, c, vm, slab));
            && (forall f | f in d.frames :: FrameLives(r.objs, d.frames[f]))
            && ((forall pid | 0 <= pid < |r.procs| :: r.procs[pid].areas == []) ==> d.npinned == 0)
  {
    hide RunCalls, F.Runs, F.Run, Agrees, FrameLives, I.Runs, I.Run;
    var s, c := I.Boot(files), EmptyCache(size);
    var r, d := I.Run(s, vm), After(c, RunCalls(s, c, vm, slab));
    I.RunInv(s, vm);
    FramesInEveryRun(files, vm, slab, size, 0);
    hide Inv;
    forall f | f in d.frames
      ensures FrameLives(r.objs, d.frames[f])
      ensures (forall pid | 0 <= pid < |r.procs| :: r.procs[pid].areas == []) ==> d.frames[f].pin == 0
    {
      FrameLive(files, vm, d, f);
    }
    NonePinned(r.objs, d);
  }

  lemma FrameLive(files: seq<seq<Page>>, vm: seq<I.Op>, d: F.Cache, f: nat)
    requires Inv(I.Boot(files)) && I.Runs(I.Boot(files), vm)
    requires Agrees(I.Run(I.Boot(files), vm).objs, d) && f in d.frames
    ensures var r := I.Run(I.Boot(files), vm);
            && FrameLives(r.objs, d.frames[f])
            && ((forall pid | 0 <= pid < |r.procs| :: r.procs[pid].areas == []) ==> d.frames[f].pin == 0)
  {
    hide I.Runs, I.Run, F.CacheOk;
    var r := I.Run(I.Boot(files), vm);
    var o := d.frames[f].obj;
    assert FrameAgrees(r.objs, d, f);
    I.RunInv(I.Boot(files), vm);
    assert FramesOk(r.objs[o]);
    O.PagesInEveryRun(files, vm, o);
  }

  lemma NonePinned(objs: seq<MmObj>, d: F.Cache)
    requires Agrees(objs, d)
    ensures (forall f | f in d.frames :: d.frames[f].pin == 0) ==> d.npinned == 0
  {
    assert F.Listed(d);
    if d.pinnedList != [] {
      assert d.pinnedList[0] in d.pinnedList;
    }
  }
}
