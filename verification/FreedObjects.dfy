/**
 A freed object keeps no page: in every run each resident page, and so each
 cached frame, belongs to a live object.
 */
module FreedObjects {
  import opened Basics
  import opened Areas
  import opened Objects
  import opened AddressSpaces
  import opened PageAccess
  import opened Mappings
  import opened Forking
  import I = Isolation

  ghost predicate FreedBare(objs: seq<MmObj>) {
    forall o | 0 <= o < |objs| :: !objs[o].live ==> objs[o].pages == map[]
  }

  lemma {:induction false} PutBare(objs: seq<MmObj>, o: nat)
    requires FreedBare(objs) && o < |objs|
    ensures FreedBare(Put(objs, o))
    decreases o
  {
    var x := objs[o];
    if x.refcount - 1 == x.nres && x.kind.Shadow? && x.bottom < o && x.shadowed < o {
      var objs1 := objs[o := Emptied(x)];
      PutBare(objs1, x.bottom);
      PutBare(Put(objs1, x.bottom), x.shadowed);
    }
  }

  lemma {:induction false} CutBare(objs: seq<MmObj>, areas: seq<Area>, lo: nat, hi: nat)
    requires FreedBare(objs) && lo <= hi && forall a | a in areas :: a.obj < |objs|
    ensures FreedBare(CutObjs(objs, areas, lo, hi))
    decreases |areas|
  {
    if areas != [] {
      PutBare(objs, areas[0].obj);
      hide Put;
      CutBare(CutStep(objs, areas[0], lo, hi), areas[1..], lo, hi);
    }
  }

  lemma PageInBare(objs: seq<MmObj>, b: nat, pn: nat)
    requires FreedBare(objs) && b < |objs| && objs[b].live
    ensures FreedBare(PageIn(objs, b, pn))
  {
  }

  // Lookups touch live objects only
  lemma LookupBare(s: State, o: nat, pn: nat)
    requires Inv(s) && FreedBare(s.objs) && o < |s.objs| && s.objs[o].live
    ensures FreedBare(ReadLookup(s.objs, o, pn)) && FreedBare(WriteLookup(s.objs, o, pn))
  {
    OwnerLive(s, o, pn);
    assert ObjOk(s.objs, o);
    hide Inv;
    PageInBare(s.objs, Owner(s.objs, o, pn), pn);
  }

  lemma OwnerLive(s: State, o: nat, pn: nat)
    requires Inv(s) && o < |s.objs| && s.objs[o].live
    ensures s.objs[Owner(s.objs, o, pn)].live
  {
    OwnerInChain(s.objs, o, pn);
    ChainLive(s.objs, Ext(s), o, Owner(s.objs, o, pn));
  }

  lemma WriteBare(s: State, pid: nat, p: nat, bytes: Page)
    requires Inv(s) && Mapped(s, pid, p) && FreedBare(s.objs)
    ensures FreedBare(WritePage(s, pid, p, bytes).objs)
  {
    TargetFacts(s, pid, p);
    LookupBare(s, MappingAt(s, pid, p).obj, MappingAt(s, pid, p).page);
  }

  lemma {:induction false} ForkBare(objs: seq<MmObj>, areas: seq<Area>)
    requires Forkable(objs, areas) && FreedBare(objs)
    ensures FreedBare(ForkAreas(objs, areas).objs)
    decreases |areas|
  {
    if areas != [] {
      hide Forkable, ForkAreas;
      var one := ForkUnfold(objs, areas);
      ForkBare(one.objs, areas[1..]);
    }
  }

  lemma BackingBare(objs: seq<MmObj>, file: Option<nat>, shared: bool)
    requires FreedBare(objs) && (file.Some? ==> file.value < |objs|)
    ensures FreedBare(NewBacking(objs, file, shared).objs)
  {
  }

  lemma RemoveBare(s: State, pid: nat, lo: nat, hi: nat)
    requires AreasIn(s, pid) && lo <= hi && FreedBare(s.objs)
    ensures FreedBare(Remove(s, pid, lo, hi).objs)
  {
    CutBare(s.objs, s.procs[pid].areas, lo, hi);
  }

  lemma StoreBare(s: State, pid: nat, p: nat, bytes: Page)
    requires Inv(s) && Writable(s, pid, p) && FreedBare(s.objs)
    ensures FreedBare(UserStore(s, pid, p, bytes).objs)
  {
    UserStoreIsWrite(s, pid, p, bytes);
    hide Inv, FreedBare;
    WriteBare(s, pid, p, bytes);
  }

  lemma ReadBare(s: State, pid: nat, p: nat)
    requires Inv(s) && Mapped(s, pid, p) && FreedBare(s.objs)
    ensures FreedBare(ReadPage(s, pid, p).objs)
  {
    TargetFacts(s, pid, p);
    hide Inv, FreedBare;
    LookupBare(s, MappingAt(s, pid, p).obj, MappingAt(s, pid, p).page);
  }

  lemma StepBare(s: State, op: I.Op)
    requires Inv(s) && I.Enabled(s, op) && FreedBare(s.objs)
    ensures FreedBare(I.Apply(s, op).objs)
  {
    hide Inv, FreedBare, CutObjs, ForkAreas, WritePage, ReadPage, UserStore, NewBacking;
    I.Ready(s, op);
    match op
    case OpFork(pid) => ForkBare(s.objs, s.procs[pid].areas);
    case OpMap(pid, file, lo, n, _, shared, _) =>
      RemoveBare(s, pid, lo, lo + n);
      BackingBare(s.objs, file, shared);
      BackingBare(Remove(s, pid, lo, lo + n).objs, file, shared);
    case OpUnmap(pid, lo, hi) => RemoveBare(s, pid, lo, hi);
    case OpExit(pid) => RemoveBare(s, pid, LOW_PAGE, HIGH_PAGE);
    case OpLoad(_, _) =>
    case OpBrk(pid, addr) =>
      var end := s.procs[pid].areas[HeapIndex(s, pid)].end;
      if PageUp(addr) < end {
        RemoveBare(s, pid, PageUp(addr), end);
      }
    case OpRead(pid, p) => ReadBare(s, pid, p);
    case OpWrite(pid, p, bytes) => WriteBare(s, pid, p, bytes);
    case OpFault(pid, p, _) =>
      ReadBare(s, pid, p);
      WriteBare(s, pid, p, View(s, pid, p).value);
    case OpStore(pid, p, bytes) => StoreBare(s, pid, p, bytes);
  }

  lemma {:induction false} RunBare(s: State, ops: seq<I.Op>)
    requires Inv(s) && I.Runs(s, ops) && FreedBare(s.objs)
    ensures FreedBare(I.Run(s, ops).objs)
    decreases |ops|
  {
    hide Inv, FreedBare, I.Enabled, I.Apply;
    if ops != [] {
      StepBare(s, ops[0]);
      I.ApplyInv(s, ops[0]);
      RunBare(I.Apply(s, ops[0]), ops[1..]);
    }
  }

  // In every run from boot a page is resident in live objects only, and once no
  // process has an area left, in files only
  lemma PagesInEveryRun(files: seq<seq<Page>>, ops: seq<I.Op>, o: nat)
    requires Inv(I.Boot(files)) && I.Runs(I.Boot(files), ops) && o < |I.Run(I.Boot(files), ops).objs|
    requires I.Run(I.Boot(files), ops).objs[o].pages != map[]
    ensures var r := I.Run(I.Boot(files), ops);
            r.objs[o].live && ((forall pid | 0 <= pid < |r.procs| :: r.procs[pid].areas == []) ==> r.objs[o].kind.File?)
  {
    var r := I.Run(I.Boot(files), ops);
    I.RunInv(I.Boot(files), ops);
    RunBare(I.Boot(files), ops);
    if forall pid | 0 <= pid < |r.procs| :: r.procs[pid].areas == [] {
      I.LastExitFreesAll(r, o);
    }
  }
}
