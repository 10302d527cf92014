/**
 Runs from boot in which the virtual memory system does what one might not
 expect: a break call that loses its heap area, and a page-table entry that
 goes stale.
 */
module VmCases {
  import opened Basics
  import opened Areas
  import opened Objects
  import opened AddressSpaces
  import opened PageAccess
  import opened Mappings
  import opened Isolation

  const RW := Prot(true, true, false)
  const READ := Cause(false, false)

  lemma RunsFirst(s: State, op: Op, ops: seq<Op>)
    requires Inv(s) && Enabled(s, op) && Inv(Apply(s, op)) && Runs(Apply(s, op), ops)
    ensures Runs(s, [op] + ops) && Run(s, [op] + ops) == Run(Apply(s, op), ops)
  {
    assert ([op] + ops)[1..] == ops;
  }

  // The boot process with one private anonymous page at h
  ghost function OneArea(files: seq<seq<Page>>, h: nat): State {
    var objs := Boot(files).objs;
    var n := |objs|;
    State(objs + [NewAnon().(refcount := 2), NewShadow(n, n)],
          [Proc([Area(h, h + 1, 0, RW, false, n + 1)], map[], 0, 0)])
  }

  ghost function MapOne(h: nat): Op {
    OpMap(0, None, h, 1, RW, false, 0)
  }

  lemma MapOneGives(files: seq<seq<Page>>, h: nat)
    requires LOW_PAGE <= h < HIGH_PAGE
    ensures Inv(Boot(files)) && Enabled(Boot(files), MapOne(h))
    ensures Apply(Boot(files), MapOne(h)) == OneArea(files, h) && Inv(OneArea(files, h))
  {
    BootInv(files);
    var s, r := Boot(files), OneArea(files, h);
    ApplyInv(s, MapOne(h));
    var t := Apply(s, MapOne(h));
    var n := |s.objs|;
    assert t.objs == (s.objs + [NewAnon()] + [NewShadow(n, n)])[n := NewAnon().(refcount := 2)] == r.objs;
    assert t.procs[0].areas == r.procs[0].areas;
    assert t.procs == r.procs;
  }

  // The heap area over page h, the break set up and then back to its
  // page-aligned start: the area is gone and the next call has none to look at.
  lemma BreakLosesHeap(files: seq<seq<Page>>, h: nat, up: nat)
    requires LOW_PAGE <= h < HIGH_PAGE && h * PAGE_SIZE <= up <= HIGH_PAGE * PAGE_SIZE
    requires PageUp(up) > h
    ensures var ops := [MapOne(h), OpLoad(0, h * PAGE_SIZE), OpBrk(0, up), OpBrk(0, h * PAGE_SIZE)];
            && Inv(Boot(files)) && Runs(Boot(files), ops)
            && var r := Run(Boot(files), ops);
               |r.procs| == 1 && r.procs[0].startBrk == r.procs[0].brk == h * PAGE_SIZE && !HeapPresent(r, 0)
  {
    hide Inv, Runs, Run, Apply, Enabled;
    var start := h * PAGE_SIZE;
    MapOneGives(files, h);
    LoadOne(files, h);
    UpAndBack(Load(OneArea(files, h), 0, start), start, up);
    var last := [OpBrk(0, up), OpBrk(0, start)];
    RunsFirst(OneArea(files, h), OpLoad(0, start), last);
    assert [OpLoad(0, start)] + last == [OpLoad(0, start), OpBrk(0, up), OpBrk(0, start)];
    RunsFirst(Boot(files), MapOne(h), [OpLoad(0, start)] + last);
    assert [MapOne(h)] + ([OpLoad(0, start)] + last) == [MapOne(h), OpLoad(0, start), OpBrk(0, up), OpBrk(0, start)];
  }

  lemma LoadOne(files: seq<seq<Page>>, h: nat)
    requires LOW_PAGE <= h < HIGH_PAGE && Inv(OneArea(files, h))
    ensures var s, op := OneArea(files, h), OpLoad(0, h * PAGE_SIZE);
            && Enabled(s, op) && Apply(s, op) == Load(s, 0, h * PAGE_SIZE) && Inv(Apply(s, op))
            && HeapPresent(Apply(s, op), 0) && HeapIndex(Apply(s, op), 0) == 0
  {
    ApplyInv(OneArea(files, h), OpLoad(0, h * PAGE_SIZE));
    assert PageOf(h * PAGE_SIZE) == h;
    hide Inv;
  }

  // Any process whose heap is its only area
  lemma UpAndBack(s: State, start: nat, up: nat)
    requires Inv(s) && HeapPresent(s, 0) && |s.procs[0].areas| == 1
    requires s.procs[0].startBrk == start <= up <= HIGH_PAGE * PAGE_SIZE && start % PAGE_SIZE == 0
    requires PageUp(up) > PageOf(start)
    ensures var ops := [OpBrk(0, up), OpBrk(0, start)];
            && Runs(s, ops)
            && var r := Run(s, ops);
               |r.procs| == |s.procs| && r.procs[0].startBrk == r.procs[0].brk == start && !HeapPresent(r, 0)
  {
    hide Inv;
    assert BrkAccepted(s, 0, up) by {
      var areas := s.procs[0].areas;
      forall p | areas[0].end <= p < PageUp(up)
        ensures Target(areas, p).None?
      {
        assert areas[1..] == [];
      }
    }
    var s1 := Brk(s, 0, up);
    ApplyInv(s, OpBrk(0, up));
    BrkAgain(s, 0, up);
    assert s1.procs[0].startBrk == start && PageUp(start) == PageOf(start);
    assert BrkAccepted(s1, 0, start);
    ApplyInv(s1, OpBrk(0, start));
    BrkAgain(s1, 0, start);
    RunsFirst(s1, OpBrk(0, start), []);
    RunsFirst(s, OpBrk(0, up), [OpBrk(0, start)]);
    assert [OpBrk(0, up)] + [OpBrk(0, start)] == [OpBrk(0, up), OpBrk(0, start)];
    assert [OpBrk(0, start)] + [] == [OpBrk(0, start)];
  }

  // A private page read by its process and then written by the kernel on the
  // process's behalf: the process sees the new bytes, its entry the old zeros.
  lemma EntryGoesStale(files: seq<seq<Page>>, h: nat, bytes: Page)
    requires LOW_PAGE <= h < HIGH_PAGE && bytes != ZERO_PAGE
    ensures var ops := [MapOne(h), OpFault(0, h, READ), OpWrite(0, h, bytes)];
            && Inv(Boot(files)) && Runs(Boot(files), ops)
            && var r := Run(Boot(files), ops);
               && Inv(r) && |r.procs| == 1 && h in r.procs[0].pt
               && View(r, 0, h) == Some(bytes) && EntryBytes(r, 0, h) != bytes
  {
    hide Inv, Runs, Run, Apply, Enabled, Boot, OneArea, View, EntryBytes, WritePage, Fault, Mapped;
    MapOneGives(files, h);
    var s1 := OneArea(files, h);
    FaultOne(files, h);
    var s2 := Fault(s1, 0, h, false);
    StepIs(s1, OpFault(0, h, READ));
    StepIs(s2, OpWrite(0, h, bytes));
    KernelWriteCoherence(s2, 0, h, bytes);
    WriteOne(s2, h, bytes);
    RunsNothing(WritePage(s2, 0, h, bytes));
    RunsFirst(s2, OpWrite(0, h, bytes), []);
    assert [OpWrite(0, h, bytes)] + [] == [OpWrite(0, h, bytes)];
    RunsFirst(s1, OpFault(0, h, READ), [OpWrite(0, h, bytes)]);
    assert [OpFault(0, h, READ)] + [OpWrite(0, h, bytes)] == [OpFault(0, h, READ), OpWrite(0, h, bytes)];
    RunsFirst(Boot(files), MapOne(h), [OpFault(0, h, READ), OpWrite(0, h, bytes)]);
    assert [MapOne(h)] + [OpFault(0, h, READ), OpWrite(0, h, bytes)]
        == [MapOne(h), OpFault(0, h, READ), OpWrite(0, h, bytes)];
  }

  lemma RunsNothing(s: State)
    requires Inv(s)
    ensures Runs(s, []) && Run(s, []) == s
  {
  }

  lemma StepIs(s: State, op: Op)
    requires Inv(s) && (op.OpFault? || op.OpWrite?) && Mapped(s, op.pid, op.p)
    requires op.OpFault? ==> Permitted(MappingAt(s, op.pid, op.p).prot, op.cause)
    ensures Enabled(s, op) && Inv(Apply(s, op))
    ensures Apply(s, op) == if op.OpFault? then Fault(s, op.pid, op.p, op.cause.write)
            else WritePage(s, op.pid, op.p, op.bytes)
  {
    ApplyInv(s, op);
    hide Inv;
  }

  // The fault enters the zero page of the anonymous object, read-only
  lemma FaultOne(files: seq<seq<Page>>, h: nat)
    requires LOW_PAGE <= h < HIGH_PAGE && Inv(OneArea(files, h))
    ensures Mapped(OneArea(files, h), 0, h) && Permitted(MappingAt(OneArea(files, h), 0, h).prot, READ)
    ensures var r := Fault(OneArea(files, h), 0, h, false);
            && Inv(r) && |r.procs| == 1 && Mapped(r, 0, h) && h in r.procs[0].pt
            && r.procs[0].pt[h].obj != MappingAt(r, 0, h).obj
            && View(r, 0, h) == Some(EntryBytes(r, 0, h)) == Some(ZERO_PAGE)
  {
    var s := OneArea(files, h);
    var n := |Boot(files).objs|;
    FaultInv(s, 0, h, false);
    var r := Fault(s, 0, h, false);
    assert MappingAt(s, 0, h) == Mapping(n + 1, 0, RW, false);
    assert s.objs[n + 1] == NewShadow(n, n) && s.objs[n] == NewAnon().(refcount := 2);
    assert Owner(s.objs, n + 1, 0) == n;
    assert r.procs[0].pt[h] == Pte(n, 0, false) && 0 in r.objs[n].pages && r.objs[n].pages[0].bytes == ZERO_PAGE;
    assert r.objs[n + 1] == NewShadow(n, n) && Owner(r.objs, n + 1, 0) == n;
    hide Inv;
  }

  lemma WriteOne(s: State, h: nat, bytes: Page)
    requires Inv(s) && Mapped(s, 0, h)
    ensures var r := WritePage(s, 0, h, bytes);
            View(r, 0, h) == Some(bytes) && r.procs == s.procs
  {
    var t := MappingAt(s, 0, h);
    TargetFacts(s, 0, h);
    WriteLookupMeaning(s.objs, t.obj, t.page, Ext(s));
    WriteView(s, 0, h, bytes, 0, h);
  }
}
