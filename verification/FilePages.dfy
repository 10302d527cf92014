/**
 Pages of files over runs: a page that nobody wrote through a shared mapping is
 clean and holds the file's bytes, so that every mapping of it starts out with
 them; and all shared mappings of a page show one another's writes.
 */
module FilePages {
  import opened Basics
  import opened Areas
  import opened Objects
  import opened AddressSpaces
  import opened PageAccess
  import opened Mappings
  import opened Forking
  import opened Isolation

  // A page of a file with that content, not resident or not dirty
  ghost predicate Clean(objs: seq<MmObj>, f: nat, pn: nat, content: seq<Page>) {
    f < |objs| && objs[f].kind == File(content) && (pn in objs[f].pages ==> !objs[f].pages[pn].dirty)
  }

  // A write, a store or a write fault on a mapping of the page itself
  ghost predicate Dirties(s: State, op: Op, f: nat, pn: nat)
    requires Inv(s) && Enabled(s, op)
  {
    && (op.OpWrite? || op.OpStore? || (op.OpFault? && op.cause.write))
    && (op.OpStore? ==> (UserStoreIsWrite(s, op.pid, op.p, op.bytes); true))
    && MappingAt(s, op.pid, op.p).obj == f && MappingAt(s, op.pid, op.p).page == pn
  }

  lemma KeptClean(s: State, s': State, f: nat, pn: nat, content: seq<Page>)
    requires Inv(s') && Keeps(s.objs, s'.objs) && Clean(s.objs, f, pn, content)
    ensures Clean(s'.objs, f, pn, content)
  {
    FileLive(s', f);
  }

  lemma LookupClean(objs: seq<MmObj>, o: nat, q: nat, f: nat, pn: nat, content: seq<Page>)
    requires Clean(objs, f, pn, content) && o < |objs|
    ensures Clean(ReadLookup(objs, o, q), f, pn, content) && Clean(WriteLookup(objs, o, q), f, pn, content)
  {
  }

  lemma WriteClean(s: State, pid: nat, p: nat, bytes: Page, f: nat, pn: nat, content: seq<Page>)
    requires Inv(s) && Mapped(s, pid, p) && Clean(s.objs, f, pn, content)
    requires !(MappingAt(s, pid, p).obj == f && MappingAt(s, pid, p).page == pn)
    ensures Clean(WritePage(s, pid, p, bytes).objs, f, pn, content)
  {
    hide Inv;
    LookupClean(s.objs, MappingAt(s, pid, p).obj, MappingAt(s, pid, p).page, f, pn, content);
  }

  lemma RemoveClean(s: State, pid: nat, lo: nat, hi: nat, f: nat, pn: nat, content: seq<Page>)
    requires Inv(s) && AreasIn(s, pid) && lo <= hi && Clean(s.objs, f, pn, content)
    ensures Clean(Remove(s, pid, lo, hi).objs, f, pn, content)
  {
    RemoveExact(s, pid, lo, hi);
    RemoveInv(s, pid, lo, hi);
    KeptClean(s, Remove(s, pid, lo, hi), f, pn, content);
  }

  lemma MapClean(s: State, pid: nat, file: Option<nat>, lo: nat, n: nat, prot: Prot, shared: bool, off: nat, f: nat,
                 pn: nat, content: seq<Page>)
    requires Inv(s) && MapPre(s, pid, file, lo, n) && AreasIn(s, pid) && Clean(s.objs, f, pn, content)
    ensures Clean(MapAt(s, pid, file, lo, n, prot, shared, off).objs, f, pn, content)
  {
    hide Inv, Clean, MapFree, Remove;
    MapAtInv(s, pid, file, lo, n, prot, shared, off);
    var s' := MapAt(s, pid, file, lo, n, prot, shared, off);
    if RangeFree(s.procs[pid].areas, lo, lo + n) {
      MapFreeExact(s, pid, file, lo, n, prot, shared, off);
      KeptClean(s, s', f, pn, content);
    } else {
      var s1 := Remove(s, pid, lo, lo + n);
      RemoveInv(s, pid, lo, lo + n);
      RemoveClean(s, pid, lo, lo + n, f, pn, content);
      if file.Some? {
        RemoveKeepsFiles(s, pid, lo, lo + n, file.value, 0);
      }
      RemoveProcs(s, pid, lo, lo + n);
      MapFreeExact(s1, pid, file, lo, n, prot, shared, off);
      KeptClean(s1, s', f, pn, content);
    }
  }

  lemma BrkClean(s: State, pid: nat, addr: nat, f: nat, pn: nat, content: seq<Page>)
    requires Inv(s) && HeapPresent(s, pid) && Clean(s.objs, f, pn, content)
    ensures Clean(Brk(s, pid, addr).objs, f, pn, content)
  {
    hide Inv, Clean;
    var end := s.procs[pid].areas[HeapIndex(s, pid)].end;
    if PageUp(addr) < end {
      RemoveClean(s, pid, PageUp(addr), end, f, pn, content);
    }
  }

  lemma ForkClean(s: State, pid: nat, f: nat, pn: nat, content: seq<Page>)
    requires Inv(s) && pid < |s.procs| && Forkable(s.objs, s.procs[pid].areas) && Clean(s.objs, f, pn, content)
    ensures Clean(Fork(s, pid).objs, f, pn, content)
  {
    ForkFormed(s.objs, s.procs[pid].areas);
    ForkSurvives(s.objs, s.procs[pid].areas, f);
  }

  lemma CleanStep(s: State, op: Op, f: nat, pn: nat, content: seq<Page>)
    requires Inv(s) && Enabled(s, op) && Clean(s.objs, f, pn, content) && !Dirties(s, op, f, pn)
    ensures Clean(Apply(s, op).objs, f, pn, content)
  {
    hide Inv, Clean, MapAt, Remove, Brk, Fork, WritePage, ReadLookup;
    Ready(s, op);
    match op
    case OpFork(pid) => ForkClean(s, pid, f, pn, content);
    case OpMap(pid, file, lo, n, prot, shared, off) => MapClean(s, pid, file, lo, n, prot, shared, off, f, pn, content);
    case OpUnmap(pid, lo, hi) => RemoveClean(s, pid, lo, hi, f, pn, content);
    case OpExit(pid) => RemoveClean(s, pid, LOW_PAGE, HIGH_PAGE, f, pn, content);
    case OpLoad(_, _) =>
    case OpBrk(pid, addr) => BrkClean(s, pid, addr, f, pn, content);
    case OpRead(pid, p) => LookupClean(s.objs, MappingAt(s, pid, p).obj, MappingAt(s, pid, p).page, f, pn, content);
    case OpWrite(pid, p, bytes) => WriteClean(s, pid, p, bytes, f, pn, content);
    case OpFault(pid, p, cause) =>
      LookupClean(s.objs, MappingAt(s, pid, p).obj, MappingAt(s, pid, p).page, f, pn, content);
      if cause.write {
        WriteClean(s, pid, p, View(s, pid, p).value, f, pn, content);
      }
    case OpStore(pid, p, bytes) =>
      UserStoreIsWrite(s, pid, p, bytes);
      WriteClean(s, pid, p, bytes, f, pn, content);
  }

  // ---- runs ----

  ghost predicate NeverDirtied(s: State, ops: seq<Op>, f: nat, pn: nat)
    requires Inv(s) && Runs(s, ops)
    decreases |ops|
  {
    ops != [] ==>
      !Dirties(s, ops[0], f, pn) && (ApplyInv(s, ops[0]); NeverDirtied(Apply(s, ops[0]), ops[1..], f, pn))
  }

  lemma {:induction false} RunClean(s: State, ops: seq<Op>, f: nat, pn: nat, content: seq<Page>)
    requires Inv(s) && Runs(s, ops) && Clean(s.objs, f, pn, content) && NeverDirtied(s, ops, f, pn)
    ensures Clean(Run(s, ops).objs, f, pn, content)
    decreases |ops|
  {
    if ops != [] {
      hide Inv, Apply, Enabled, Dirties;
      ApplyInv(s, ops[0]);
      CleanStep(s, ops[0], f, pn, content);
      RunClean(Apply(s, ops[0]), ops[1..], f, pn, content);
    }
  }

  // What a file page that nobody dirtied means
  lemma CleanShows(s: State, f: nat, pn: nat, content: seq<Page>)
    requires Inv(s) && Clean(s.objs, f, pn, content)
    ensures Resolve(s.objs, f, pn) == if pn < |content| then content[pn] else ZERO_PAGE
  {
    assert FramesOk(s.objs[f]);
  }

  // From boot: until somebody dirties it through a mapping of its own, a page of
  // a file holds the file's bytes, and a map call of whoever, private or shared,
  // shows them
  lemma FileSeen(files: seq<seq<Page>>, ops: seq<Op>, op: Op, p: nat)
    requires Inv(Boot(files)) && Runs(Boot(files), ops) && Inv(Run(Boot(files), ops))
    requires op.OpMap? && op.file.Some? && 1 <= op.file.value <= |files| && op.lo <= p < op.lo + op.n
    requires Enabled(Run(Boot(files), ops), op)
    requires NeverDirtied(Boot(files), ops, op.file.value, op.off + (p - op.lo))
    ensures var content, k := files[op.file.value - 1], op.off + (p - op.lo);
            View(Apply(Run(Boot(files), ops), op), op.pid, p) == Some(if k < |content| then content[k] else ZERO_PAGE)
  {
    var s, r, f, k := Boot(files), Run(Boot(files), ops), op.file.value, op.off + (p - op.lo);
    assert s.objs[f] == FileObj(files[f - 1]);
    RunClean(s, ops, f, k, files[f - 1]);
    CleanShows(r, f, k, files[f - 1]);
    hide Inv, Runs, Run, NeverDirtied;
    Ready(r, op);
    MapAtView(r, op.pid, op.file, op.lo, op.n, op.prot, op.shared, op.off, op.pid, p);
  }

  // ---- what a new mapping rests on ----

  // The file's own page, or a page of an object nobody had
  lemma MapRestsOn(s: State, op: Op, p: nat)
    requires Inv(s) && op.OpMap? && Enabled(s, op) && op.lo <= p < op.lo + op.n
    ensures var o := if op.file.Some? then op.file.value else |s.objs|;
            RestsOn(Apply(s, op), op.pid, p, Rest(o, op.off + (p - op.lo), op.shared, op.file.None?))
  {
    hide Inv, RestsOn, MapFree, Remove, RangeFree, Keeps, Formed, Exact;
    Ready(s, op);
    if RangeFree(s.procs[op.pid].areas, op.lo, op.lo + op.n) {
      FreeRestsOn(s, op, p);
    } else {
      MapAtReady(s, op.pid, op.lo, op.n);
      RemoveExact(s, op.pid, op.lo, op.lo + op.n);
      if op.file.Some? {
        RemoveKeepsFiles(s, op.pid, op.lo, op.lo + op.n, op.file.value, 0);
      }
      RemoveProcs(s, op.pid, op.lo, op.lo + op.n);
      FreeRestsOn(Remove(s, op.pid, op.lo, op.lo + op.n), op, p);
    }
  }

  lemma FreeRestsOn(s: State, op: Op, p: nat)
    requires Inv(s) && op.OpMap? && Enabled(s, op) && op.lo <= p < op.lo + op.n
             && RangeFree(s.procs[op.pid].areas, op.lo, op.lo + op.n)
    ensures var o := if op.file.Some? then op.file.value else |s.objs|;
            RestsOn(MapFree(s, op.pid, op.file, op.lo, op.n, op.prot, op.shared, op.off), op.pid, p,
                    Rest(o, op.off + (p - op.lo), op.shared, op.file.None?))
  {
    MapFreeTarget(s, op.pid, op.file, op.lo, op.n, op.prot, op.shared, op.off, op.pid, p);
    hide Inv;
  }

  // Two shared mappings of a page of a file show each other's writes, for as
  // long as neither is remapped
  lemma FileShared(s: State, one: Op, p: nat, ops: seq<Op>, two: Op, p': nat, more: seq<Op>, bytes: Page)
    requires Inv(s) && one.OpMap? && two.OpMap? && one.shared && two.shared && one.file.Some? && two.file == one.file
    requires one.lo <= p < one.lo + one.n && two.lo <= p' < two.lo + two.n
    requires one.off + (p - one.lo) == two.off + (p' - two.lo)
    requires Enabled(s, one) && Inv(Apply(s, one)) && Runs(Apply(s, one), ops)
             && NeverRemapped(Apply(s, one), ops, one.pid, p)
    requires var s1 := Run(Apply(s, one), ops);
             && Inv(s1) && Enabled(s1, two) && !Remaps(s1, two, one.pid, p)
             && Inv(Apply(s1, two)) && Runs(Apply(s1, two), more)
             && NeverRemapped(Apply(s1, two), more, one.pid, p) && NeverRemapped(Apply(s1, two), more, two.pid, p')
    ensures var r := Run(Apply(Run(Apply(s, one), ops), two), more);
            && Inv(r) && Mapped(r, one.pid, p) && Mapped(r, two.pid, p')
            && View(WritePage(r, one.pid, p, bytes), two.pid, p') == Some(bytes)
            && View(WritePage(r, two.pid, p', bytes), one.pid, p) == Some(bytes)
  {
    hide Inv, Apply, Runs, Run, NeverRemapped, RestsOn;
    var t := Rest(one.file.value, one.off + (p - one.lo), true, false);
    MapRestsOn(s, one, p);
    RunRests(Apply(s, one), ops, one.pid, p, t);
    var s1 := Run(Apply(s, one), ops);
    MapRestsOn(s1, two, p');
    RestStep(s1, two, one.pid, p, t);
    SharedSeen(Apply(s1, two), more, one.pid, p, two.pid, p', t, bytes);
    SharedSeen(Apply(s1, two), more, two.pid, p', one.pid, p, t, bytes);
  }
}
