/**
 Runs of the virtual memory system: any sequence of forks, maps, unmaps,
 exits, break changes, faults, reads and writes by any processes.  Every
 reachable state satisfies the invariant, and a process's pages change only by
 its own doing or through a shared mapping of the object at the bottom.
 */
module Isolation {
  import opened Basics
  import opened Areas
  import opened Objects
  import opened AddressSpaces
  import opened PageAccess
  import opened Mappings
  import opened Forking

  datatype Op =
    | OpFork(pid: nat)
    | OpMap(pid: nat, file: Option<nat>, lo: nat, n: nat, prot: Prot, shared: bool, off: nat)
    | OpUnmap(pid: nat, lo: nat, hi: nat)
    | OpExit(pid: nat)
    | OpLoad(pid: nat, start: nat)
    | OpBrk(pid: nat, addr: nat)
    | OpRead(pid: nat, p: nat)
    | OpWrite(pid: nat, p: nat, bytes: Page)
    | OpFault(pid: nat, p: nat, cause: Cause)
    | OpStore(pid: nat, p: nat, bytes: Page)

  ghost predicate Enabled(s: State, op: Op) {
    op.pid < |s.procs| &&
    match op
    case OpFork(_) => true
    case OpMap(pid, file, lo, n, _, _, _) => MapPre(s, pid, file, lo, n)
    case OpUnmap(_, lo, hi) => lo <= hi
    case OpExit(_) => true
    case OpLoad(_, _) => true
    case OpBrk(pid, addr) => HeapPresent(s, pid) && BrkAccepted(s, pid, addr)
    case OpRead(pid, p) => Mapped(s, pid, p)
    case OpWrite(pid, p, _) => Mapped(s, pid, p)
    case OpFault(pid, p, cause) => Mapped(s, pid, p) && Permitted(MappingAt(s, pid, p).prot, cause)
    case OpStore(pid, p, _) => Writable(s, pid, p)
  }

  lemma Ready(s: State, op: Op)
    requires Inv(s) && Enabled(s, op)
    ensures AreasIn(s, op.pid) && Forkable(s.objs, s.procs[op.pid].areas)
  {
    InvForkable(s, op.pid);
  }

  ghost function Apply(s: State, op: Op): State
    requires Inv(s) && Enabled(s, op)
  {
    Ready(s, op);
    match op
    case OpFork(pid) => Fork(s, pid)
    case OpMap(pid, file, lo, n, prot, shared, off) => MapAt(s, pid, file, lo, n, prot, shared, off)
    case OpUnmap(pid, lo, hi) => Remove(s, pid, lo, hi)
    case OpExit(pid) => Destroy(s, pid)
    case OpLoad(pid, start) => Load(s, pid, start)
    case OpBrk(pid, addr) => Brk(s, pid, addr)
    case OpRead(pid, p) => ReadPage(s, pid, p)
    case OpWrite(pid, p, bytes) => WritePage(s, pid, p, bytes)
    case OpFault(pid, p, cause) => Fault(s, pid, p, cause.write)
    case OpStore(pid, p, bytes) => UserStore(s, pid, p, bytes)
  }

  lemma ApplyInv(s: State, op: Op)
    requires Inv(s) && Enabled(s, op)
    ensures Inv(Apply(s, op))
  {
    Ready(s, op);
    match op
    case OpFork(pid) => ForkInv(s, pid);
    case OpMap(pid, file, lo, n, prot, shared, off) => MapAtInv(s, pid, file, lo, n, prot, shared, off);
    case OpUnmap(pid, lo, hi) => RemoveInv(s, pid, lo, hi);
    case OpExit(pid) => DestroyEmpties(s, pid);
    case OpLoad(pid, start) => SetBrkInv(s, pid, start, start);
    case OpBrk(pid, addr) => BrkInv(s, pid, addr);
    case OpRead(pid, p) => ReadPageInv(s, pid, p);
    case OpWrite(pid, p, bytes) => WritePageInv(s, pid, p, bytes);
    case OpFault(pid, p, cause) => FaultInv(s, pid, p, cause.write);
    case OpStore(pid, p, bytes) =>
      UserStoreIsWrite(s, pid, p, bytes);
      WritePageInv(s, pid, p, bytes);
  }

  lemma MoreProcs(s: State, op: Op)
    requires Inv(s) && Enabled(s, op)
    ensures |Apply(s, op).procs| == |s.procs| + if op.OpFork? then 1 else 0
  {
    hide Inv;
  }

  // ---- runs ----

  // Every operation of the run is possible when its turn comes
  ghost predicate Runs(s: State, ops: seq<Op>)
    requires Inv(s)
    decreases |ops|
  {
    ops != [] ==> Enabled(s, ops[0]) && (ApplyInv(s, ops[0]); Runs(Apply(s, ops[0]), ops[1..]))
  }

  ghost function Run(s: State, ops: seq<Op>): State
    requires Inv(s) && Runs(s, ops)
    decreases |ops|
  {
    if ops == [] then s
    else
      ApplyInv(s, ops[0]);
      Run(Apply(s, ops[0]), ops[1..])
  }

  // Counts exact, areas sorted, private objects private and page tables safe
  // in every state of every run
  lemma {:induction false} RunInv(s: State, ops: seq<Op>)
    requires Inv(s) && Runs(s, ops)
    ensures Inv(Run(s, ops))
    decreases |ops|
  {
    if ops != [] {
      ApplyInv(s, ops[0]);
      RunInv(Apply(s, ops[0]), ops[1..]);
    }
  }

  // The last operation of a run
  lemma {:induction false} RunLast(s: State, ops: seq<Op>)
    requires Inv(s) && Runs(s, ops) && ops != []
    ensures var n := |ops| - 1;
            && Runs(s, ops[..n])
            && var r := Run(s, ops[..n]);
               Inv(r) && Enabled(r, ops[n]) && Run(s, ops) == Apply(r, ops[n])
    decreases |ops|
  {
    hide Inv, Enabled, Apply;
    ApplyInv(s, ops[0]);
    var n := |ops| - 1;
    if n == 0 {
      assert ops[1..] == [] && ops[..n] == [];
    } else {
      RunLast(Apply(s, ops[0]), ops[1..]);
      assert ops[..n][1..] == ops[1..][..n - 1] && ops[1..][n - 1] == ops[n];
    }
  }

  // ---- the initial state ----

  const NO_OBJ: MmObj := MmObj(false, Anon, 0, 0, map[], 0, 0)

  function FileObj(content: seq<Page>): MmObj {
    MmObj(true, File(content), 1, 0, map[], 0, 0)
  }

  // The null object, one object per file, and one process with no areas
  function Boot(files: seq<seq<Page>>): State {
    State([NO_OBJ] + seq(|files|, i requires 0 <= i < |files| => FileObj(files[i])), [Proc([], map[], 0, 0)])
  }

  lemma {:induction false} NoShadows(objs: seq<MmObj>, o: nat)
    requires forall i | 0 <= i < |objs| :: !objs[i].kind.Shadow?
    ensures ShadowRefs(objs, o) == 0
  {
    if objs != [] {
      NoShadows(objs[..|objs| - 1], o);
    }
  }

  lemma BootInv(files: seq<seq<Page>>)
    ensures Inv(Boot(files))
  {
    var s := Boot(files);
    assert s.procs[..0] == [];
    forall o | 0 <= o < |s.objs|
      ensures ObjOk(s.objs, o) && ExactAt(s.objs, Ext(s), o) && AnonApart(s, o)
    {
      NoShadows(s.objs, o);
      assert AreaRefs(s.procs, o) == 0;
    }
  }

  // ---- what a page rests on ----

  // The page of the bottom object under a mapped page, and how it is mapped
  datatype Rest = Rest(obj: nat, page: nat, shared: bool, anon: bool)

  ghost predicate RestsOn(s: State, q: nat, p: nat, r: Rest) {
    && Mapped(s, q, p)
    && var t := MappingAt(s, q, p);
       && BottomOf(s.objs, t.obj) == r.obj && t.page == r.page && t.shared == r.shared
       && r.obj < |s.objs| && s.objs[r.obj].kind.Anon? == r.anon
  }

  // The operation gives process q another mapping, or none, at page p
  ghost predicate Remaps(s: State, op: Op, q: nat, p: nat)
    requires Enabled(s, op)
  {
    op.pid == q &&
    match op
    case OpMap(_, _, lo, n, _, _, _) => lo <= p < lo + n
    case OpUnmap(_, lo, hi) => lo <= p < hi
    case OpExit(_) => true
    case OpBrk(pid, addr) =>
      var end := s.procs[pid].areas[HeapIndex(s, pid)].end;
      PageUp(addr) <= p < end || end <= p < PageUp(addr)
    case _ => false
  }

  // The operation stores into page p of process q on q's behalf
  predicate WritesOwn(op: Op, q: nat, p: nat) {
    op.pid == q && (op.OpWrite? || op.OpStore?) && op.p == p
  }

  // The operation writes the page r names through a shared mapping
  ghost predicate WritesShared(s: State, op: Op, r: Rest)
    requires Inv(s) && Enabled(s, op)
  {
    && (op.OpWrite? || op.OpStore?)
    && (op.OpStore? ==> (UserStoreIsWrite(s, op.pid, op.p, op.bytes); true))
    && var t := MappingAt(s, op.pid, op.p);
       t.shared && t.obj == r.obj && t.page == r.page
  }

  // Areas that keep their target keep resting on the same bottom page
  lemma RestsKeeps(s: State, s': State, q: nat, p: nat, r: Rest)
    requires Inv(s) && Exact(s'.objs, Ext(s')) && Keeps(s.objs, s'.objs) && RestsOn(s, q, p, r)
    requires q < |s'.procs| && Target(s'.procs[q].areas, p) == Target(s.procs[q].areas, p)
    ensures RestsOn(s', q, p, r)
  {
    LiveAfter(s', q, p);
  }

  lemma RestsSameForest(s: State, s': State, q: nat, p: nat, r: Rest)
    requires RestsOn(s, q, p, r) && SameForest(s.objs, s'.objs)
    requires q < |s'.procs| && s'.procs[q].areas == s.procs[q].areas
    ensures RestsOn(s', q, p, r)
  {
  }

  lemma RemoveRests(s: State, pid: nat, lo: nat, hi: nat, q: nat, p: nat, r: Rest)
    requires Inv(s) && AreasIn(s, pid) && lo <= hi && RestsOn(s, q, p, r) && !(pid == q && lo <= p < hi)
    ensures RestsOn(Remove(s, pid, lo, hi), q, p, r)
  {
    RemoveExact(s, pid, lo, hi);
    CutMeaning(s.procs[pid].areas, lo, hi, p);
    RestsKeeps(s, Remove(s, pid, lo, hi), q, p, r);
  }

  lemma MapFreeRests(s: State, pid: nat, file: Option<nat>, lo: nat, n: nat, prot: Prot, shared: bool, off: nat,
                     q: nat, p: nat, r: Rest)
    requires Inv(s) && MapPre(s, pid, file, lo, n) && RangeFree(s.procs[pid].areas, lo, lo + n)
    requires RestsOn(s, q, p, r)
    ensures RestsOn(MapFree(s, pid, file, lo, n, prot, shared, off), q, p, r)
  {
    MapFreeExact(s, pid, file, lo, n, prot, shared, off);
    var a := MapArea(lo, n, prot, shared, off, NewBacking(s.objs, file, shared).top);
    InsertMeaning(s.procs[pid].areas, a, p);
    RestsKeeps(s, MapFree(s, pid, file, lo, n, prot, shared, off), q, p, r);
  }

  lemma MapRests(s: State, pid: nat, file: Option<nat>, lo: nat, n: nat, prot: Prot, shared: bool, off: nat, q: nat,
                 p: nat, r: Rest)
    requires Inv(s) && MapPre(s, pid, file, lo, n) && AreasIn(s, pid)
    requires RestsOn(s, q, p, r) && !(pid == q && lo <= p < lo + n)
    ensures RestsOn(MapAt(s, pid, file, lo, n, prot, shared, off), q, p, r)
  {
    if RangeFree(s.procs[pid].areas, lo, lo + n) {
      MapFreeRests(s, pid, file, lo, n, prot, shared, off, q, p, r);
    } else {
      MapAtReady(s, pid, lo, n);
      RemoveRests(s, pid, lo, lo + n, q, p, r);
      if file.Some? {
        RemoveKeepsFiles(s, pid, lo, lo + n, file.value, 0);
      }
      MapFreeRests(Remove(s, pid, lo, lo + n), pid, file, lo, n, prot, shared, off, q, p, r);
    }
  }

  lemma BrkRests(s: State, pid: nat, addr: nat, q: nat, p: nat, r: Rest)
    requires Inv(s) && HeapPresent(s, pid) && BrkAccepted(s, pid, addr) && RestsOn(s, q, p, r)
    requires !Remaps(s, OpBrk(pid, addr), q, p)
    ensures RestsOn(Brk(s, pid, addr), q, p, r)
  {
    var areas, i := s.procs[pid].areas, HeapIndex(s, pid);
    if PageUp(addr) < areas[i].end {
      RemoveRests(s, pid, PageUp(addr), areas[i].end, q, p, r);
    } else if areas[i].end < PageUp(addr) && q == pid {
      GrowMeaning(areas, i, PageUp(addr), p);
    }
  }

  // Both new areas have the old one's bottom object
  lemma {:induction false} ForkSameBottom(objs: seq<MmObj>, areas: seq<Area>, i: nat)
    requires Forkable(objs, areas) && i < |areas|
    ensures var r := ForkAreas(objs, areas);
            && r.parent[i].obj < |r.objs| && r.child[i].obj < |r.objs|
            && BottomOf(r.objs, r.parent[i].obj) == BottomOf(objs, areas[i].obj) == BottomOf(r.objs, r.child[i].obj)
    decreases |areas|
  {
    hide ForkAreas, Forkable, ForkOne, BottomOf;
    var one := ForkUnfold(objs, areas);
    var r := ForkAreas(one.objs, areas[1..]);
    ForkOneBottom(objs, areas);
    if i > 0 {
      ForkSameBottom(one.objs, areas[1..], i - 1);
      ForkOneKeepsBottom(objs, areas, i);
    } else {
      ForkKeepsBottom(one.objs, areas[1..], one.parent[0].obj);
      ForkKeepsBottom(one.objs, areas[1..], one.child[0].obj);
    }
  }

  lemma ForkOneBottom(objs: seq<MmObj>, areas: seq<Area>)
    requires Forkable(objs, areas) && areas != []
    requires areas[0].obj < |objs| && BottomOf(objs, areas[0].obj) < |objs|
    ensures var one := ForkOne(objs, areas[0]);
            && |one.parent| == 1 && |one.child| == 1
            && one.parent[0].obj < |one.objs| && one.child[0].obj < |one.objs|
            && BottomOf(one.objs, one.parent[0].obj) == BottomOf(objs, areas[0].obj) ==
               BottomOf(one.objs, one.child[0].obj)
  {
    ForkHead(objs, areas);
    ForkOneFormed(objs, areas[0]);
  }

  lemma ForkOneKeepsBottom(objs: seq<MmObj>, areas: seq<Area>, i: nat)
    requires Forkable(objs, areas) && 0 < i < |areas|
    requires areas[0].obj < |objs| && BottomOf(objs, areas[0].obj) < |objs|
    ensures areas[i].obj < |objs| <= |ForkOne(objs, areas[0]).objs|
    ensures BottomOf(ForkOne(objs, areas[0]).objs, areas[i].obj) == BottomOf(objs, areas[i].obj)
  {
    ForkHead(objs, areas);
    ForkOneFormed(objs, areas[0]);
  }

  lemma ForkKeepsBottom(objs: seq<MmObj>, areas: seq<Area>, x: nat)
    requires Forkable(objs, areas) && x < |objs|
    ensures x < |ForkAreas(objs, areas).objs| && BottomOf(ForkAreas(objs, areas).objs, x) == BottomOf(objs, x)
  {
    ForkSurvives(objs, areas, x);
  }

  // After a fork parent and child rest on the same bottom pages
  lemma ForkRests(s: State, pid: nat, q: nat, p: nat, r: Rest)
    requires Inv(s) && pid < |s.procs| && Forkable(s.objs, s.procs[pid].areas) && q <= |s.procs|
    requires RestsOn(s, if q == |s.procs| then pid else q, p, r)
    ensures RestsOn(Fork(s, pid), q, p, r)
  {
    var areas, f := s.procs[pid].areas, ForkAreas(s.objs, s.procs[pid].areas);
    ForkFormed(s.objs, areas);
    if q == pid || q == |s.procs| {
      ForkNewTops(s.objs, areas);
      FindIndexTarget(areas, p);
      ForkSameBottom(s.objs, areas, FindIndex(areas, p));
      CopyRests(s.objs, areas, f.objs, if q == pid then f.parent else f.child, p);
    } else {
      ForkSurvives(s.objs, areas, MappingAt(s, q, p).obj);
    }
  }

  // A copied area maps page p to the same page over the same bottom
  lemma CopyRests(objs: seq<MmObj>, areas: seq<Area>, objs': seq<MmObj>, copy: seq<Area>, p: nat)
    requires |copy| == |areas| && forall i | 0 <= i < |areas| :: NewTop(|objs|, areas[i], copy[i])
    requires var i := FindIndex(areas, p);
             i < |areas| && areas[i].obj < |objs| && copy[i].obj < |objs'|
             && BottomOf(objs', copy[i].obj) == BottomOf(objs, areas[i].obj)
    ensures var t, t' := Target(areas, p), Target(copy, p);
            && t.Some? && t'.Some? && t.value.obj < |objs| && t'.value.obj < |objs'|
            && BottomOf(objs', t'.value.obj) == BottomOf(objs, t.value.obj)
            && t'.value.page == t.value.page && t'.value.shared == t.value.shared
  {
    ForkIndex(|objs|, areas, copy, p);
    FindIndexTarget(areas, p);
    FindIndexTarget(copy, p);
    assert NewTop(|objs|, areas[FindIndex(areas, p)], copy[FindIndex(areas, p)]);
  }

  lemma FaultRests(s: State, pid: nat, p': nat, write: bool, q: nat, p: nat, r: Rest)
    requires Inv(s) && Mapped(s, pid, p') && RestsOn(s, q, p, r)
    ensures RestsOn(Fault(s, pid, p', write), q, p, r)
  {
    TargetFacts(s, pid, p');
    if write {
      WritePageInv(s, pid, p', View(s, pid, p').value);
    } else {
      ReadLookupMeaning(s.objs, MappingAt(s, pid, p').obj, MappingAt(s, pid, p').page, Ext(s));
    }
    RestsSameForest(s, Fault(s, pid, p', write), q, p, r);
  }

  lemma ReadRests(s: State, pid: nat, p': nat, q: nat, p: nat, r: Rest)
    requires Inv(s) && Mapped(s, pid, p') && RestsOn(s, q, p, r)
    ensures RestsOn(ReadPage(s, pid, p'), q, p, r)
  {
    TargetFacts(s, pid, p');
    ReadLookupMeaning(s.objs, MappingAt(s, pid, p').obj, MappingAt(s, pid, p').page, Ext(s));
  }

  lemma WriteRests(s: State, pid: nat, p': nat, bytes: Page, q: nat, p: nat, r: Rest)
    requires Inv(s) && Mapped(s, pid, p') && RestsOn(s, q, p, r)
    ensures RestsOn(WritePage(s, pid, p', bytes), q, p, r)
  {
    WritePageInv(s, pid, p', bytes);
  }

  lemma RestStep(s: State, op: Op, q: nat, p: nat, r: Rest)
    requires Inv(s) && Enabled(s, op) && RestsOn(s, q, p, r) && !Remaps(s, op, q, p)
    ensures RestsOn(Apply(s, op), q, p, r)
  {
    hide Inv;
    Ready(s, op);
    match op
    case OpFork(pid) => ForkRests(s, pid, q, p, r);
    case OpMap(pid, file, lo, n, prot, shared, off) => MapRests(s, pid, file, lo, n, prot, shared, off, q, p, r);
    case OpUnmap(pid, lo, hi) => RemoveRests(s, pid, lo, hi, q, p, r);
    case OpExit(pid) => RemoveRests(s, pid, LOW_PAGE, HIGH_PAGE, q, p, r);
    case OpLoad(_, _) =>
    case OpBrk(pid, addr) => BrkRests(s, pid, addr, q, p, r);
    case OpRead(pid, p') => ReadRests(s, pid, p', q, p, r);
    case OpWrite(pid, p', bytes) => WriteRests(s, pid, p', bytes, q, p, r);
    case OpFault(pid, p', cause) => FaultRests(s, pid, p', cause.write, q, p, r);
    case OpStore(pid, p', bytes) =>
      UserStoreIsWrite(s, pid, p', bytes);
      WriteRests(s, pid, p', bytes, q, p, r);
  }

  // ---- isolation ----

  lemma LoadView(s: State, pid: nat, start: nat, q: nat, p: nat)
    requires pid < |s.procs| && q < |s.procs|
    ensures View(Load(s, pid, start), q, p) == View(s, q, p)
  {
  }

  lemma WriteIsolated(s: State, pid: nat, p': nat, bytes: Page, q: nat, p: nat, r: Rest)
    requires Inv(s) && Mapped(s, pid, p') && RestsOn(s, q, p, r) && !(pid == q && p' == p)
    requires var t := MappingAt(s, pid, p'); !(t.shared && t.obj == r.obj && t.page == r.page)
    ensures View(WritePage(s, pid, p', bytes), q, p) == View(s, q, p)
  {
    if MappingAt(s, pid, p').shared {
      SharedWrite(s, pid, p', bytes, q, p);
      OwnerInChain(s.objs, MappingAt(s, q, p).obj, r.page);
      TargetFacts(s, pid, p');
    } else {
      PrivateWrite(s, pid, p', bytes, q, p);
    }
  }

  // One operation changes what q sees on page p only if it is q's own doing
  // or a write to the bottom page through a shared mapping.
  lemma IsolationStep(s: State, op: Op, q: nat, p: nat, r: Rest)
    requires Inv(s) && Enabled(s, op) && RestsOn(s, q, p, r)
    requires !Remaps(s, op, q, p) && !WritesOwn(op, q, p) && !WritesShared(s, op, r)
    ensures q < |Apply(s, op).procs| && View(Apply(s, op), q, p) == View(s, q, p)
  {
    hide Inv, View;
    Ready(s, op);
    match op
    case OpFork(pid) => ForkView(s, pid, q, p);
    case OpMap(pid, file, lo, n, prot, shared, off) => MapAtView(s, pid, file, lo, n, prot, shared, off, q, p);
    case OpUnmap(pid, lo, hi) => RemoveView(s, pid, lo, hi, q, p);
    case OpExit(pid) => RemoveView(s, pid, LOW_PAGE, HIGH_PAGE, q, p);
    case OpLoad(pid, start) => LoadView(s, pid, start, q, p);
    case OpBrk(pid, addr) => BrkView(s, pid, addr, q, p);
    case OpRead(pid, p') => ReadPageInv(s, pid, p');
    case OpWrite(pid, p', bytes) => WriteIsolated(s, pid, p', bytes, q, p, r);
    case OpFault(pid, p', cause) => FaultView(s, pid, p', cause.write, q, p);
    case OpStore(pid, p', bytes) =>
      UserStoreIsWrite(s, pid, p', bytes);
      WriteIsolated(s, pid, p', bytes, q, p, r);
  }

  // No operation of the run remaps page p of q
  ghost predicate NeverRemapped(s: State, ops: seq<Op>, q: nat, p: nat)
    requires Inv(s) && Runs(s, ops)
    decreases |ops|
  {
    ops != [] ==>
      !Remaps(s, ops[0], q, p) && (ApplyInv(s, ops[0]); NeverRemapped(Apply(s, ops[0]), ops[1..], q, p))
  }

  predicate NeverWritten(ops: seq<Op>, q: nat, p: nat) {
    forall i | 0 <= i < |ops| :: !WritesOwn(ops[i], q, p)
  }

  // No operation of the run writes the page r names through a shared mapping
  ghost predicate NeverSharedWrite(s: State, ops: seq<Op>, r: Rest)
    requires Inv(s) && Runs(s, ops)
    decreases |ops|
  {
    ops != [] ==>
      !WritesShared(s, ops[0], r) && (ApplyInv(s, ops[0]); NeverSharedWrite(Apply(s, ops[0]), ops[1..], r))
  }

  // Isolation over every run: whatever forks, maps, unmaps, exits, break
  // changes, faults and writes happen, q's page keeps its bytes.
  lemma {:induction false} RunIsolation(s: State, ops: seq<Op>, q: nat, p: nat, r: Rest)
    requires Inv(s) && Runs(s, ops) && RestsOn(s, q, p, r)
    requires NeverRemapped(s, ops, q, p) && NeverWritten(ops, q, p) && NeverSharedWrite(s, ops, r)
    ensures q < |Run(s, ops).procs| && View(Run(s, ops), q, p) == View(s, q, p)
    decreases |ops|
  {
    if ops != [] {
      ApplyInv(s, ops[0]);
      RestStep(s, ops[0], q, p, r);
      IsolationStep(s, ops[0], q, p, r);
      assert NeverWritten(ops[1..], q, p);
      RunIsolation(Apply(s, ops[0]), ops[1..], q, p, r);
    }
  }

  lemma {:induction false} RunRests(s: State, ops: seq<Op>, q: nat, p: nat, r: Rest)
    requires Inv(s) && Runs(s, ops) && RestsOn(s, q, p, r) && NeverRemapped(s, ops, q, p)
    ensures RestsOn(Run(s, ops), q, p, r)
    decreases |ops|
  {
    if ops != [] {
      ApplyInv(s, ops[0]);
      RestStep(s, ops[0], q, p, r);
      RunRests(Apply(s, ops[0]), ops[1..], q, p, r);
    }
  }

  // The anonymous object under a private page cannot be reached through a
  // shared mapping ...
  lemma PrivateAnonApart(s: State, op: Op, q: nat, p: nat, r: Rest)
    requires Inv(s) && Enabled(s, op) && RestsOn(s, q, p, r) && !r.shared && r.anon
    ensures !WritesShared(s, op, r)
  {
    TargetFacts(s, q, p);
    assert AnonApart(s, MappingAt(s, q, p).obj);
    if op.OpStore? {
      UserStoreIsWrite(s, op.pid, op.p, op.bytes);
    }
    if op.OpWrite? || op.OpStore? {
      TargetFacts(s, op.pid, op.p);
    }
  }

  // ... so private anonymous memory is isolated without further conditions
  lemma {:induction false} PrivateAnonIsolation(s: State, ops: seq<Op>, q: nat, p: nat, r: Rest)
    requires Inv(s) && Runs(s, ops) && RestsOn(s, q, p, r) && !r.shared && r.anon
    requires NeverRemapped(s, ops, q, p) && NeverWritten(ops, q, p)
    ensures q < |Run(s, ops).procs| && View(Run(s, ops), q, p) == View(s, q, p)
    decreases |ops|
  {
    if ops != [] {
      ApplyInv(s, ops[0]);
      PrivateAnonApart(s, ops[0], q, p, r);
      RestStep(s, ops[0], q, p, r);
      IsolationStep(s, ops[0], q, p, r);
      assert NeverWritten(ops[1..], q, p);
      PrivateAnonIsolation(Apply(s, ops[0]), ops[1..], q, p, r);
    }
  }

  // fork(): however long parent and child run afterwards, each still sees on
  // a page what the parent saw at the fork, until it writes or remaps the page
  // itself or somebody writes the bottom page through a shared mapping ...
  lemma ForkIsolation(s: State, pid: nat, ops: seq<Op>, q: nat, p: nat, r: Rest)
    requires Inv(s) && pid < |s.procs| && RestsOn(s, pid, p, r) && (q == pid || q == |s.procs|)
    requires var f := [OpFork(pid)] + ops;
             Runs(s, f) && NeverRemapped(s, f, q, p) && NeverWritten(f, q, p) && NeverSharedWrite(s, f, r)
    ensures var f := [OpFork(pid)] + ops;
            q < |Run(s, f).procs| && View(Run(s, f), q, p) == View(s, pid, p)
  {
    var f := [OpFork(pid)] + ops;
    ForkFirst(s, pid, ops, q, p, r);
    assert forall i | 0 <= i < |ops| :: ops[i] == f[i + 1];
    RunIsolation(Apply(s, f[0]), ops, q, p, r);
  }

  // ... which for a private anonymous page cannot happen
  lemma ForkAnonIsolation(s: State, pid: nat, ops: seq<Op>, q: nat, p: nat, r: Rest)
    requires Inv(s) && pid < |s.procs| && RestsOn(s, pid, p, r) && (q == pid || q == |s.procs|)
    requires !r.shared && r.anon
    requires var f := [OpFork(pid)] + ops;
             Runs(s, f) && NeverRemapped(s, f, q, p) && NeverWritten(f, q, p)
    ensures var f := [OpFork(pid)] + ops;
            q < |Run(s, f).procs| && View(Run(s, f), q, p) == View(s, pid, p)
  {
    var f := [OpFork(pid)] + ops;
    ForkFirst(s, pid, ops, q, p, r);
    assert forall i | 0 <= i < |ops| :: ops[i] == f[i + 1];
    PrivateAnonIsolation(Apply(s, f[0]), ops, q, p, r);
  }

  lemma ForkFirst(s: State, pid: nat, ops: seq<Op>, q: nat, p: nat, r: Rest)
    requires Inv(s) && pid < |s.procs| && RestsOn(s, pid, p, r) && (q == pid || q == |s.procs|)
    ensures var f := [OpFork(pid)] + ops;
            && f[1..] == ops && Enabled(s, f[0]) && Inv(Apply(s, f[0]))
            && RestsOn(Apply(s, f[0]), q, p, r) && View(Apply(s, f[0]), q, p) == View(s, pid, p)
  {
    ApplyInv(s, OpFork(pid));
    Ready(s, OpFork(pid));
    ForkRests(s, pid, q, p, r);
    ForkView(s, pid, q, p);
  }

  // A shared page stays shared: after any run that does not remap it, a
  // write by one process is what the other sees.
  lemma SharedSeen(s: State, ops: seq<Op>, q: nat, p: nat, q': nat, p': nat, r: Rest, bytes: Page)
    requires Inv(s) && Runs(s, ops) && RestsOn(s, q, p, r) && RestsOn(s, q', p', r) && r.shared
    requires NeverRemapped(s, ops, q, p) && NeverRemapped(s, ops, q', p')
    ensures Inv(Run(s, ops)) && Mapped(Run(s, ops), q, p) && Mapped(Run(s, ops), q', p')
    ensures View(WritePage(Run(s, ops), q, p, bytes), q', p') == Some(bytes)
  {
    RunInv(s, ops);
    RunRests(s, ops, q, p, r);
    RunRests(s, ops, q', p', r);
    var s' := Run(s, ops);
    TargetFacts(s', q, p);
    TargetFacts(s', q', p');
    SharedWrite(s', q, p, bytes, q', p');
  }

  // ---- every state of every run, spelled out ----

  // Reference counts are exact, what is referred to is live and what is live
  // is referred to.
  lemma CountsInEveryRun(files: seq<seq<Page>>, ops: seq<Op>, o: nat)
    requires Inv(Boot(files)) && Runs(Boot(files), ops) && o < |Run(Boot(files), ops).objs|
    ensures var r := Run(Boot(files), ops);
            var n := AreaRefs(r.procs, o) + Held(r.objs, o) + ShadowRefs(r.objs, o);
            && (r.objs[o].live <==> n > 0)
            && (r.objs[o].live ==> r.objs[o].refcount == |r.objs[o].pages| + n)
  {
    RunInv(Boot(files), ops);
    var r := Run(Boot(files), ops);
    assert ExactAt(r.objs, Ext(r), o);
  }

  // Nothing reachable from an area is ever freed, and every page of an
  // anonymous or shadow object is pinned exactly once.
  lemma ReachableInEveryRun(files: seq<seq<Page>>, ops: seq<Op>, pid: nat, a: Area, w: nat)
    requires Inv(Boot(files)) && Runs(Boot(files), ops)
    requires pid < |Run(Boot(files), ops).procs| && a in Run(Boot(files), ops).procs[pid].areas
    ensures var r := Run(Boot(files), ops);
            a.obj < |r.objs| && (InChain(r.objs, a.obj, w) ==> w < |r.objs| && r.objs[w].live)
    ensures var r := Run(Boot(files), ops);
            w < |r.objs| && !r.objs[w].kind.File? ==> forall pn | pn in r.objs[w].pages :: r.objs[w].pages[pn].pin == 1
  {
    RunInv(Boot(files), ops);
    var r := Run(Boot(files), ops);
    AreaLive(r, pid, a);
    if InChain(r.objs, a.obj, w) {
      ChainLive(r.objs, Ext(r), a.obj, w);
    }
    if w < |r.objs| {
      assert FramesOk(r.objs[w]);
    }
  }

  // ---- nothing leaks ----

  lemma {:induction false} SomeArea(procs: seq<Proc>, o: nat) returns (pid: nat, a: Area)
    requires AreaRefs(procs, o) > 0
    ensures pid < |procs| && a in procs[pid].areas && a.obj == o
  {
    var n := |procs| - 1;
    if Count(procs[n].areas, o) > 0 {
      CountZero(procs[n].areas, o);
      pid := n;
      a :| a in procs[n].areas && a.obj == o;
    } else {
      pid, a := SomeArea(procs[..n], o);
    }
  }

  lemma {:induction false} SomeLink(objs: seq<MmObj>, o: nat) returns (y: nat)
    requires ShadowRefs(objs, o) > 0
    ensures y < |objs| && Links(objs[y], o) > 0
  {
    var n := |objs| - 1;
    if Links(objs[n], o) > 0 {
      y := n;
    } else {
      y := SomeLink(objs[..n], o);
    }
  }

  lemma {:induction false} BottomInChain(objs: seq<MmObj>, o: nat)
    requires Formed(objs) && o < |objs|
    ensures InChain(objs, o, BottomOf(objs, o))
    decreases o
  {
    if objs[o].kind.Shadow? {
      assert ObjOk(objs, o);
      BottomInChain(objs, objs[o].shadowed);
    }
  }

  lemma {:induction false} ChainTransitive(objs: seq<MmObj>, x: nat, y: nat, z: nat)
    requires x < |objs| && y < |objs| && InChain(objs, x, y) && InChain(objs, y, z)
    ensures InChain(objs, x, z)
    decreases x
  {
    if x != y {
      ChainTransitive(objs, objs[x].shadowed, y, z);
    }
  }

  // Every live anonymous or shadow object lies on the chain of some area
  lemma {:induction false} LiveIsReachable(s: State, o: nat) returns (pid: nat, a: Area)
    requires Inv(s) && o < |s.objs| && s.objs[o].live && !s.objs[o].kind.File?
    ensures pid < |s.procs| && a in s.procs[pid].areas && a.obj < |s.objs| && InChain(s.objs, a.obj, o)
    decreases |s.objs| - o
  {
    assert ExactAt(s.objs, Ext(s), o);
    if AreaRefs(s.procs, o) > 0 {
      pid, a := SomeArea(s.procs, o);
    } else {
      var y := SomeLink(s.objs, o);
      assert ObjOk(s.objs, y);
      pid, a := LiveIsReachable(s, y);
      BottomInChain(s.objs, y);
      ChainTransitive(s.objs, a.obj, y, o);
    }
  }

  // With ReachableInEveryRun: in every run an anonymous or shadow object is
  // live exactly as long as some area leads to it.
  lemma LiveInEveryRun(files: seq<seq<Page>>, ops: seq<Op>, o: nat)
    requires Inv(Boot(files)) && Runs(Boot(files), ops) && o < |Run(Boot(files), ops).objs|
    requires !Run(Boot(files), ops).objs[o].kind.File?
    ensures var r := Run(Boot(files), ops);
            r.objs[o].live <==>
            exists pid, a ::
              0 <= pid < |r.procs| && a in r.procs[pid].areas && a.obj < |r.objs| && InChain(r.objs, a.obj, o)
  {
    var r := Run(Boot(files), ops);
    RunInv(Boot(files), ops);
    if r.objs[o].live {
      var pid, a := LiveIsReachable(r, o);
    }
    forall pid, a | 0 <= pid < |r.procs| && a in r.procs[pid].areas && a.obj < |r.objs| && InChain(r.objs, a.obj, o)
      ensures r.objs[o].live
    {
      ReachableInEveryRun(files, ops, pid, a, o);
    }
  }

  // When all processes have exited no anonymous or shadow object is left, and
  // each file's object has its own pages and its vnode's reference only
  lemma LastExitFreesAll(s: State, o: nat)
    requires Inv(s) && o < |s.objs| && forall pid | 0 <= pid < |s.procs| :: s.procs[pid].areas == []
    ensures s.objs[o].live ==> s.objs[o].kind.File? && s.objs[o].refcount == |s.objs[o].pages| + 1
  {
    if s.objs[o].live {
      if !s.objs[o].kind.File? {
        var pid, a := LiveIsReachable(s, o);
        assert false;
      }
      assert ExactAt(s.objs, Ext(s), o);
      if ShadowRefs(s.objs, o) > 0 {
        var y := SomeLink(s.objs, o);
        var pid, a := LiveIsReachable(s, y);
        assert false;
      }
      if AreaRefs(s.procs, o) > 0 {
        var pid, a := SomeArea(s.procs, o);
        assert false;
      }
    }
  }

  // Areas are sorted, disjoint and inside user memory
  lemma AreasInEveryRun(files: seq<seq<Page>>, ops: seq<Op>, pid: nat)
    requires Inv(Boot(files)) && Runs(Boot(files), ops) && pid < |Run(Boot(files), ops).procs|
    ensures var areas := Run(Boot(files), ops).procs[pid].areas;
            && (forall i, j | 0 <= i < j < |areas| :: areas[i].end <= areas[j].start)
            && (forall i | 0 <= i < |areas| :: LOW_PAGE <= areas[i].start < areas[i].end <= HIGH_PAGE)
  {
    RunInv(Boot(files), ops);
    assert AreasOk(Run(Boot(files), ops), pid);
  }

  // Every writable page-table entry designates the frame resident in its
  // area's own object, and every entry one on that object's chain
  lemma EntriesInEveryRun(files: seq<seq<Page>>, ops: seq<Op>, pid: nat, p: nat)
    requires Inv(Boot(files)) && Runs(Boot(files), ops) && pid < |Run(Boot(files), ops).procs|
    requires p in Run(Boot(files), ops).procs[pid].pt
    ensures var r := Run(Boot(files), ops);
            var e := r.procs[pid].pt[p];
            && Mapped(r, pid, p) && e.page == MappingAt(r, pid, p).page
            && e.obj < |r.objs| && e.page in r.objs[e.obj].pages
            && InChain(r.objs, MappingAt(r, pid, p).obj, e.obj)
            && (e.write ==> e.obj == MappingAt(r, pid, p).obj)
  {
    RunInv(Boot(files), ops);
    var r := Run(Boot(files), ops);
    assert PtOk(r, pid);
    assert PteOk(r.objs, r.procs[pid].areas, p, r.procs[pid].pt[p]);
  }
}
