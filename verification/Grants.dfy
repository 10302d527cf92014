/**
 What a page is mapped as, over runs: its protection, whether it is shared, and
 which page of its object it shows.  Each is traced back to the map call that last
 covered the page, through forks, unmaps around it and growth of the heap.  On top
 of it, the rights of page-table entries and the break.
 */
module Grants {
  import opened Basics
  import opened Areas
  import opened Objects
  import opened AddressSpaces
  import opened PageAccess
  import opened Mappings
  import opened Forking
  import opened Isolation
  import opened Coherence

  datatype Grant = Grant(prot: Prot, shared: bool, page: nat)

  function GrantAt(s: State, q: nat, p: nat): Option<Grant> {
    if q < |s.procs| then GrantIn(s.procs[q].areas, p) else None
  }

  function GrantIn(areas: seq<Area>, p: nat): Option<Grant> {
    var t := Target(areas, p);
    if t.Some? then Some(Grant(t.value.prot, t.value.shared, t.value.page)) else None
  }

  // ---- one operation ----

  // Where the mapping of a page comes from: made by the operation, removed by
  // it, or that of an earlier page of some process, a number of pages further on
  datatype Origin = Made(grant: Grant) | Gone | Further(q: nat, p: nat, pages: nat)

  ghost function OriginOf(s: State, op: Op, q: nat, p: nat): Origin
    requires Enabled(s, op)
  {
    match op
    case OpFork(pid) => Further(if q == |s.procs| then pid else q, p, 0)
    case OpMap(pid, _, lo, n, prot, shared, off) =>
      if q == pid && lo <= p < lo + n then Made(Grant(prot, shared, off + (p - lo))) else Further(q, p, 0)
    case OpUnmap(pid, lo, hi) => if q == pid && lo <= p < hi then Gone else Further(q, p, 0)
    case OpExit(pid) => if q == pid then Gone else Further(q, p, 0)
    case OpBrk(pid, addr) =>
      var end, h := s.procs[pid].areas[HeapIndex(s, pid)].end, PageOf(s.procs[pid].startBrk);
      if q == pid && PageUp(addr) <= p < end then Gone
      else if q == pid && end <= p < PageUp(addr) then Further(q, h, p - h)
      else Further(q, p, 0)
    case _ => Further(q, p, 0)
  }

  function Shifted(g: Option<Grant>, pages: nat): Option<Grant> {
    if g.Some? then Some(g.value.(page := g.value.page + pages)) else None
  }

  lemma ForkGrant(s: State, pid: nat, q: nat, p: nat)
    requires Inv(s) && pid < |s.procs| && Forkable(s.objs, s.procs[pid].areas)
    ensures GrantAt(Fork(s, pid), q, p) == GrantAt(s, if q == |s.procs| then pid else q, p)
  {
    var areas, r := s.procs[pid].areas, ForkAreas(s.objs, s.procs[pid].areas);
    ForkNewTops(s.objs, areas);
    CopyGrant(|s.objs|, areas, r.parent, p);
    CopyGrant(|s.objs|, areas, r.child, p);
  }

  lemma CopyGrant(n: nat, areas: seq<Area>, copy: seq<Area>, p: nat)
    requires |copy| == |areas| && forall i | 0 <= i < |areas| :: NewTop(n, areas[i], copy[i])
    ensures GrantIn(copy, p) == GrantIn(areas, p)
  {
    ForkIndex(n, areas, copy, p);
    FindIndexTarget(areas, p);
    FindIndexTarget(copy, p);
    var i := FindIndex(areas, p);
    if i < |areas| {
      assert NewTop(n, areas[i], copy[i]);
    }
  }

  lemma MapFreeGrant(s: State, pid: nat, file: Option<nat>, lo: nat, n: nat, prot: Prot, shared: bool, off: nat,
                     q: nat, p: nat)
    requires Inv(s) && MapPre(s, pid, file, lo, n) && RangeFree(s.procs[pid].areas, lo, lo + n)
    ensures GrantAt(MapFree(s, pid, file, lo, n, prot, shared, off), q, p) ==
            if q == pid && lo <= p < lo + n then Some(Grant(prot, shared, off + (p - lo))) else GrantAt(s, q, p)
  {
    hide Inv, InsertArea, Target, NewBacking;
    if q < |s.procs| {
      MapFreeTarget(s, pid, file, lo, n, prot, shared, off, q, p);
    }
  }

  lemma RemoveGrant(s: State, pid: nat, lo: nat, hi: nat, q: nat, p: nat)
    requires AreasIn(s, pid) && lo <= hi
    ensures GrantAt(Remove(s, pid, lo, hi), q, p) == if q == pid && lo <= p < hi then None else GrantAt(s, q, p)
  {
    CutMeaning(s.procs[pid].areas, lo, hi, p);
  }

  lemma MapGrant(s: State, pid: nat, file: Option<nat>, lo: nat, n: nat, prot: Prot, shared: bool, off: nat, q: nat,
                 p: nat)
    requires Inv(s) && MapPre(s, pid, file, lo, n) && AreasIn(s, pid)
    ensures GrantAt(MapAt(s, pid, file, lo, n, prot, shared, off), q, p) ==
            if q == pid && lo <= p < lo + n then Some(Grant(prot, shared, off + (p - lo))) else GrantAt(s, q, p)
  {
    hide Inv, GrantAt, MapFree, Remove, RangeFree;
    if RangeFree(s.procs[pid].areas, lo, lo + n) {
      MapFreeGrant(s, pid, file, lo, n, prot, shared, off, q, p);
    } else {
      MapAtReady(s, pid, lo, n);
      RemoveGrant(s, pid, lo, lo + n, q, p);
      if file.Some? {
        RemoveKeepsFiles(s, pid, lo, lo + n, file.value, 0);
      }
      RemoveProcs(s, pid, lo, lo + n);
      MapFreeGrant(Remove(s, pid, lo, lo + n), pid, file, lo, n, prot, shared, off, q, p);
    }
  }

  lemma BrkGrant(s: State, pid: nat, addr: nat, q: nat, p: nat)
    requires Inv(s) && HeapPresent(s, pid) && BrkAccepted(s, pid, addr)
    ensures var end, h := s.procs[pid].areas[HeapIndex(s, pid)].end, PageOf(s.procs[pid].startBrk);
            GrantAt(Brk(s, pid, addr), q, p) ==
            if q == pid && PageUp(addr) <= p < end then None
            else if q == pid && end <= p < PageUp(addr) then Shifted(GrantAt(s, pid, h), p - h)
            else GrantAt(s, q, p)
  {
    var areas, i, h := s.procs[pid].areas, HeapIndex(s, pid), PageOf(s.procs[pid].startBrk);
    FindIndexTarget(areas, h);
    if PageUp(addr) < areas[i].end {
      CutMeaning(areas, PageUp(addr), areas[i].end, p);
    } else if areas[i].end < PageUp(addr) {
      GrowMeaning(areas, i, PageUp(addr), p);
    }
  }

  // What every operation does to the mapping of every page of every process
  lemma GrantStep(s: State, op: Op, q: nat, p: nat)
    requires Inv(s) && Enabled(s, op)
    ensures GrantAt(Apply(s, op), q, p) ==
            match OriginOf(s, op, q, p)
            case Made(g) => Some(g)
            case Gone => None
            case Further(q', p', k) => Shifted(GrantAt(s, q', p'), k)
  {
    hide Inv, GrantAt, Fork, MapAt, Remove, Brk, WritePage, ReadPage, Fault, UserStore, Destroy, Load;
    Ready(s, op);
    match op
    case OpFork(pid) => ForkGrant(s, pid, q, p);
    case OpMap(pid, file, lo, n, prot, shared, off) => MapGrant(s, pid, file, lo, n, prot, shared, off, q, p);
    case OpUnmap(pid, lo, hi) => RemoveGrant(s, pid, lo, hi, q, p);
    case OpExit(pid) => ExitGrant(s, pid, q, p);
    case OpBrk(pid, addr) => BrkGrant(s, pid, addr, q, p);
    case _ => SameGrant(s, op, q, p);
  }

  lemma ExitGrant(s: State, pid: nat, q: nat, p: nat)
    requires Inv(s) && pid < |s.procs| && AreasIn(s, pid)
    ensures GrantAt(Destroy(s, pid), q, p) == if q == pid then None else GrantAt(s, q, p)
  {
    DestroyEmpties(s, pid);
  }

  // Operations that touch no area
  lemma SameGrant(s: State, op: Op, q: nat, p: nat)
    requires Inv(s) && Enabled(s, op) && (op.OpLoad? || op.OpRead? || op.OpWrite? || op.OpFault? || op.OpStore?)
    ensures GrantAt(Apply(s, op), q, p) == GrantAt(s, q, p)
  {
    hide Inv;
  }

  // ---- runs ----

  // The mapping of a page as the operations since boot made it: that of the map
  // call that last covered it, or of the page it was forked or grown from
  ghost function Granted(files: seq<seq<Page>>, ops: seq<Op>, q: nat, p: nat): Option<Grant>
    requires Inv(Boot(files)) && Runs(Boot(files), ops)
    decreases |ops|
  {
    if ops == [] then None
    else
      var n := |ops| - 1;
      RunLast(Boot(files), ops);
      match OriginOf(Run(Boot(files), ops[..n]), ops[n], q, p)
      case Made(g) => Some(g)
      case Gone => None
      case Further(q', p', k) => Shifted(Granted(files, ops[..n], q', p'), k)
  }

  lemma {:induction false} GrantsInEveryRun(files: seq<seq<Page>>, ops: seq<Op>, q: nat, p: nat)
    requires Inv(Boot(files)) && Runs(Boot(files), ops)
    ensures GrantAt(Run(Boot(files), ops), q, p) == Granted(files, ops, q, p)
    decreases |ops|
  {
    if ops != [] {
      hide Inv, Runs, Run, Apply, Enabled, GrantAt, OriginOf;
      var n := |ops| - 1;
      RunLast(Boot(files), ops);
      var r := Run(Boot(files), ops[..n]);
      GrantStep(r, ops[n], q, p);
      var o := OriginOf(r, ops[n], q, p);
      if o.Further? {
        GrantsInEveryRun(files, ops[..n], o.q, o.p);
      }
    }
  }

  lemma SameOrigin(s: State, op: Op, q: nat, p: nat)
    requires Enabled(s, op) && q < |s.procs| && !Remaps(s, op, q, p)
    ensures OriginOf(s, op, q, p) == Further(q, p, 0)
  {
  }

  // A page keeps its mapping until its process remaps it
  lemma {:induction false} GrantKept(s: State, ops: seq<Op>, q: nat, p: nat)
    requires Inv(s) && Runs(s, ops) && q < |s.procs| && NeverRemapped(s, ops, q, p)
    ensures GrantAt(Run(s, ops), q, p) == GrantAt(s, q, p)
    decreases |ops|
  {
    if ops != [] {
      hide Inv, Apply, Enabled, GrantAt, OriginOf, Remaps;
      ApplyInv(s, ops[0]);
      GrantStep(s, ops[0], q, p);
      SameOrigin(s, ops[0], q, p);
      MoreProcs(s, ops[0]);
      GrantKept(Apply(s, ops[0]), ops[1..], q, p);
    }
  }

  // ---- page-table entries ----

  function EntryAt(s: State, q: nat, p: nat): Option<Pte> {
    if q < |s.procs| && p in s.procs[q].pt then Some(s.procs[q].pt[p]) else None
  }

  // The entry goes: the page is remapped, or the process forks or is forked
  ghost predicate Forgets(s: State, op: Op, q: nat, p: nat)
    requires Enabled(s, op)
  {
    Remaps(s, op, q, p) || (op.OpFork? && (q == op.pid || q == |s.procs|))
  }

  ghost predicate FaultsOn(op: Op, q: nat, p: nat) {
    op.OpFault? && op.pid == q && op.p == p
  }

  lemma NoEntryWhereFree(s: State, q: nat, p: nat)
    requires Inv(s) && q < |s.procs| && Target(s.procs[q].areas, p).None?
    ensures p !in s.procs[q].pt
  {
    assert PtOk(s, q);
    assert p in s.procs[q].pt ==> PteOk(s.objs, s.procs[q].areas, p, s.procs[q].pt[p]);
  }

  lemma ForkEntry(s: State, pid: nat, q: nat, p: nat)
    requires Inv(s) && pid < |s.procs| && Forkable(s.objs, s.procs[pid].areas)
    ensures EntryAt(Fork(s, pid), q, p) == if q == pid || q == |s.procs| then None else EntryAt(s, q, p)
  {
    ForkPt(s, pid);
  }

  lemma RemoveEntry(s: State, pid: nat, lo: nat, hi: nat, q: nat, p: nat)
    requires AreasIn(s, pid) && lo <= hi
    ensures EntryAt(Remove(s, pid, lo, hi), q, p) == if q == pid && lo <= p < hi then None else EntryAt(s, q, p)
  {
  }

  lemma MapEntry(s: State, pid: nat, file: Option<nat>, lo: nat, n: nat, prot: Prot, shared: bool, off: nat, q: nat,
                 p: nat)
    requires Inv(s) && MapPre(s, pid, file, lo, n) && AreasIn(s, pid)
    ensures EntryAt(MapAt(s, pid, file, lo, n, prot, shared, off), q, p) ==
            if q == pid && lo <= p < lo + n then None else EntryAt(s, q, p)
  {
    hide Inv, EntryAt, MapFree, Remove;
    if RangeFree(s.procs[pid].areas, lo, lo + n) {
      if q == pid && lo <= p < lo + n {
        NoEntryWhereFree(s, pid, p);
        NoEntry(s, pid, p);
      }
      MapFreeEntry(s, pid, file, lo, n, prot, shared, off, q, p);
    } else {
      RemoveEntry(s, pid, lo, lo + n, q, p);
      if file.Some? {
        RemoveKeepsFiles(s, pid, lo, lo + n, file.value, 0);
      }
      RemoveProcs(s, pid, lo, lo + n);
      MapFreeEntry(Remove(s, pid, lo, lo + n), pid, file, lo, n, prot, shared, off, q, p);
    }
  }

  lemma NoEntry(s: State, q: nat, p: nat)
    requires q < |s.procs| && p !in s.procs[q].pt
    ensures EntryAt(s, q, p) == None
  {
  }

  lemma MapFreeEntry(s: State, pid: nat, file: Option<nat>, lo: nat, n: nat, prot: Prot, shared: bool, off: nat,
                     q: nat, p: nat)
    requires pid < |s.procs| && (file.Some? ==> file.value < |s.objs|)
    ensures EntryAt(MapFree(s, pid, file, lo, n, prot, shared, off), q, p) == EntryAt(s, q, p)
  {
    hide NewBacking, InsertArea;
  }

  lemma BrkEntry(s: State, pid: nat, addr: nat, q: nat, p: nat)
    requires Inv(s) && HeapPresent(s, pid) && BrkAccepted(s, pid, addr)
    ensures EntryAt(Brk(s, pid, addr), q, p) == if Remaps(s, OpBrk(pid, addr), q, p) then None else EntryAt(s, q, p)
  {
    var end := s.procs[pid].areas[HeapIndex(s, pid)].end;
    if end <= p < PageUp(addr) {
      NoEntryWhereFree(s, pid, p);
    }
    hide Inv, CutAll, CutObjs, Grow;
  }

  // What every operation does to every page-table entry
  lemma EntryStep(s: State, op: Op, q: nat, p: nat)
    requires Inv(s) && Enabled(s, op)
    ensures EntryAt(Apply(s, op), q, p) ==
            if FaultsOn(op, q, p) then
              var t := MappingAt(s, q, p);
              Some(Pte(if op.cause.write then t.obj else OwnerAt(s, q, p), t.page, op.cause.write))
            else if Forgets(s, op, q, p) then None
            else EntryAt(s, q, p)
  {
    hide Inv, EntryAt, Fork, MapAt, Remove, Brk, WritePage, ReadPage, Fault, UserStore, Destroy, Load;
    Ready(s, op);
    match op
    case OpFork(pid) => ForkEntry(s, pid, q, p);
    case OpMap(pid, file, lo, n, prot, shared, off) => MapEntry(s, pid, file, lo, n, prot, shared, off, q, p);
    case OpUnmap(pid, lo, hi) => RemoveEntry(s, pid, lo, hi, q, p);
    case OpExit(pid) => ExitEntry(s, pid, q, p);
    case OpBrk(pid, addr) => BrkEntry(s, pid, addr, q, p);
    case _ => OtherEntry(s, op, q, p);
  }

  lemma ExitEntry(s: State, pid: nat, q: nat, p: nat)
    requires Inv(s) && pid < |s.procs| && AreasIn(s, pid)
    ensures EntryAt(Destroy(s, pid), q, p) == if q == pid then None else EntryAt(s, q, p)
  {
    DestroyEmpties(s, pid);
  }

  lemma OtherEntry(s: State, op: Op, q: nat, p: nat)
    requires Inv(s) && Enabled(s, op) && (op.OpLoad? || op.OpRead? || op.OpWrite? || op.OpFault? || op.OpStore?)
    ensures EntryAt(Apply(s, op), q, p) ==
            if FaultsOn(op, q, p) then
              var t := MappingAt(s, q, p);
              Some(Pte(if op.cause.write then t.obj else OwnerAt(s, q, p), t.page, op.cause.write))
            else EntryAt(s, q, p)
  {
    hide Inv;
  }

  // ---- rights ----

  // An entry allows no more than the protection of the mapping
  ghost predicate Rightful(s: State, q: nat, p: nat) {
    var e, g := EntryAt(s, q, p), GrantAt(s, q, p);
    e.Some? ==> g.Some? && if e.value.write then g.value.prot.write else g.value.prot.read || g.value.prot.exec
  }

  lemma RightfulStep(s: State, op: Op, q: nat, p: nat)
    requires Inv(s) && Enabled(s, op) && Rightful(s, q, p)
    ensures Rightful(Apply(s, op), q, p)
  {
    EntryStep(s, op, q, p);
    GrantStep(s, op, q, p);
    hide Inv, Apply;
    if FaultsOn(op, q, p) {
      hide Enabled, Fault;
    }
  }

  lemma {:induction false} RunRightful(s: State, ops: seq<Op>, q: nat, p: nat)
    requires Inv(s) && Runs(s, ops) && Rightful(s, q, p)
    ensures Rightful(Run(s, ops), q, p)
    decreases |ops|
  {
    if ops != [] {
      hide Inv, Apply, Enabled, Rightful;
      ApplyInv(s, ops[0]);
      RightfulStep(s, ops[0], q, p);
      RunRightful(Apply(s, ops[0]), ops[1..], q, p);
    }
  }

  // In every run from boot user code can store only where the map call allowed
  // writing, and has another entry only where it allowed reading or executing
  lemma RightsInEveryRun(files: seq<seq<Page>>, ops: seq<Op>, q: nat, p: nat)
    requires Inv(Boot(files)) && Runs(Boot(files), ops) && EntryAt(Run(Boot(files), ops), q, p).Some?
    ensures var g := Granted(files, ops, q, p);
            && g.Some?
            && if EntryAt(Run(Boot(files), ops), q, p).value.write then g.value.prot.write
               else g.value.prot.read || g.value.prot.exec
  {
    RunRightful(Boot(files), ops, q, p);
    GrantsInEveryRun(files, ops, q, p);
  }

  // A permitted fault serves the access: the entry is there, writable for a
  // write, and shows what the process is meant to see
  lemma FaultServes(s: State, pid: nat, p: nat, cause: Cause)
    requires Inv(s) && Enabled(s, OpFault(pid, p, cause))
    ensures var s' := Apply(s, OpFault(pid, p, cause));
            && Inv(s') && EntryAt(s', pid, p).Some? && (cause.write ==> Writable(s', pid, p))
            && View(s, pid, p) == Some(EntryBytes(s', pid, p))
  {
    var op := OpFault(pid, p, cause);
    ApplyInv(s, op);
    EntryStep(s, op, pid, p);
    FaultView(s, pid, p, cause.write, pid, p);
    FaultMakesRight(s, pid, p, cause.write);
    RightShows(Apply(s, op), pid, p);
  }
}
