/**
 Page tables over runs: an entry that designates the frame its process is
 meant to see goes wrong by one operation only, a write by the kernel on
 behalf of its own process while the entry still designates a frame further
 down the chain.
 */
module Coherence {
  import opened Basics
  import opened Areas
  import opened Objects
  import opened AddressSpaces
  import opened PageAccess
  import opened Mappings
  import opened Forking
  import opened Isolation

  ghost predicate HasEntry(s: State, q: nat, p: nat) {
    q < |s.procs| && p in s.procs[q].pt
  }

  // The entry, if there is one, designates the owner's frame
  ghost predicate Right(s: State, q: nat, p: nat) {
    HasEntry(s, q, p) ==> Mapped(s, q, p) && s.procs[q].pt[p].obj == OwnerAt(s, q, p)
  }

  // ... and so shows what the process is meant to see
  lemma RightShows(s: State, q: nat, p: nat)
    requires Inv(s) && HasEntry(s, q, p) && Right(s, q, p)
    ensures View(s, q, p) == Some(EntryBytes(s, q, p))
  {
    assert PtOk(s, q) && PteOk(s.objs, s.procs[q].areas, p, s.procs[q].pt[p]);
  }

  // vmmap_write to a page whose entry designates a frame further down
  ghost predicate GoesStale(s: State, op: Op, q: nat, p: nat)
    requires Enabled(s, op)
  {
    op.OpWrite? && op.pid == q && op.p == p && HasEntry(s, q, p) && s.procs[q].pt[p].obj != MappingAt(s, q, p).obj
  }

  // Operations that only take entries away keep the others right
  lemma RightKeeps(s: State, s': State, q: nat, p: nat)
    requires Inv(s) && Right(s, q, p)
    requires Formed(s'.objs) && Exact(s'.objs, Ext(s')) && Keeps(s.objs, s'.objs)
    requires HasEntry(s', q, p) ==>
               && HasEntry(s, q, p) && s'.procs[q].pt[p] == s.procs[q].pt[p]
               && Target(s'.procs[q].areas, p) == Target(s.procs[q].areas, p)
    ensures Right(s', q, p)
  {
    if HasEntry(s', q, p) {
      LiveAfter(s', q, p);
      KeepsOwner(s.objs, s'.objs, Ext(s'), MappingAt(s, q, p).obj, MappingAt(s, q, p).page);
    }
  }

  lemma RemoveRight(s: State, pid: nat, lo: nat, hi: nat, q: nat, p: nat)
    requires Inv(s) && pid < |s.procs| && AreasIn(s, pid) && lo <= hi && Right(s, q, p)
    ensures Right(Remove(s, pid, lo, hi), q, p)
  {
    RemoveExact(s, pid, lo, hi);
    CutMeaning(s.procs[pid].areas, lo, hi, p);
    RightKeeps(s, Remove(s, pid, lo, hi), q, p);
  }

  lemma MapFreeRight(s: State, pid: nat, file: Option<nat>, lo: nat, n: nat, prot: Prot, shared: bool, off: nat,
                     q: nat, p: nat)
    requires Inv(s) && MapPre(s, pid, file, lo, n) && RangeFree(s.procs[pid].areas, lo, lo + n) && Right(s, q, p)
    ensures Right(MapFree(s, pid, file, lo, n, prot, shared, off), q, p)
  {
    MapFreeExact(s, pid, file, lo, n, prot, shared, off);
    var a := MapArea(lo, n, prot, shared, off, NewBacking(s.objs, file, shared).top);
    InsertMeaning(s.procs[pid].areas, a, p);
    RightKeeps(s, MapFree(s, pid, file, lo, n, prot, shared, off), q, p);
  }

  lemma MapRight(s: State, pid: nat, file: Option<nat>, lo: nat, n: nat, prot: Prot, shared: bool, off: nat,
                 q: nat, p: nat)
    requires Inv(s) && MapPre(s, pid, file, lo, n) && AreasIn(s, pid) && Right(s, q, p)
    ensures Right(MapAt(s, pid, file, lo, n, prot, shared, off), q, p)
  {
    if RangeFree(s.procs[pid].areas, lo, lo + n) {
      MapFreeRight(s, pid, file, lo, n, prot, shared, off, q, p);
    } else {
      MapAtReady(s, pid, lo, n);
      RemoveRight(s, pid, lo, lo + n, q, p);
      if file.Some? {
        RemoveKeepsFiles(s, pid, lo, lo + n, file.value, 0);
      }
      MapFreeRight(Remove(s, pid, lo, lo + n), pid, file, lo, n, prot, shared, off, q, p);
    }
  }

  lemma BrkRight(s: State, pid: nat, addr: nat, q: nat, p: nat)
    requires Inv(s) && HeapPresent(s, pid) && BrkAccepted(s, pid, addr) && Right(s, q, p)
    ensures Right(Brk(s, pid, addr), q, p)
  {
    var areas, i := s.procs[pid].areas, HeapIndex(s, pid);
    if PageUp(addr) < areas[i].end {
      RemoveRight(s, pid, PageUp(addr), areas[i].end, q, p);
    } else if areas[i].end < PageUp(addr) && HasEntry(s, q, p) {
      assert AreasOk(s, pid);
      GrowMeaning(areas, i, PageUp(addr), p);
    }
  }

  // The parent's entries are gone, the child has none
  lemma ForkRight(s: State, pid: nat, q: nat, p: nat)
    requires Inv(s) && pid < |s.procs| && Forkable(s.objs, s.procs[pid].areas) && Right(s, q, p)
    ensures Right(Fork(s, pid), q, p)
  {
    ForkPt(s, pid);
    ForkFormed(s.objs, s.procs[pid].areas);
    ForkStateExact(s, pid);
    if q != pid && q < |s.procs| {
      RightKeeps(s, Fork(s, pid), q, p);
    }
  }

  lemma WriteRight(s: State, pid: nat, p': nat, bytes: Page, q: nat, p: nat)
    requires Inv(s) && Mapped(s, pid, p') && Right(s, q, p)
    ensures Right(WritePage(s, pid, p', bytes), q, p) <==> !GoesStale(s, OpWrite(pid, p', bytes), q, p)
  {
    if HasEntry(s, q, p) {
      if q == pid && p == p' {
        WriteOwns(s, pid, p', bytes);
      } else {
        WriteKeepsOwner(s, pid, p', bytes, q, p);
      }
    }
  }

  // A fault makes its own entry right, whatever it was before
  lemma FaultMakesRight(s: State, pid: nat, p: nat, write: bool)
    requires Inv(s) && Mapped(s, pid, p)
    ensures Right(Fault(s, pid, p, write), pid, p)
  {
    if write {
      WriteOwns(s, pid, p, View(s, pid, p).value);
    } else {
      ReadKeepsOwner(s, pid, p, pid, p);
    }
  }

  lemma FaultRight(s: State, pid: nat, p': nat, write: bool, q: nat, p: nat)
    requires Inv(s) && Mapped(s, pid, p') && Right(s, q, p)
    ensures Right(Fault(s, pid, p', write), q, p)
  {
    if q == pid && p == p' {
      FaultMakesRight(s, pid, p', write);
    } else if HasEntry(s, q, p) {
      if write {
        WriteKeepsOwner(s, pid, p', View(s, pid, p').value, q, p);
      } else {
        ReadKeepsOwner(s, pid, p', q, p);
      }
    }
  }

  // A right entry goes wrong by such a write and by nothing else
  lemma RightStep(s: State, op: Op, q: nat, p: nat)
    requires Inv(s) && Enabled(s, op) && Right(s, q, p)
    ensures Right(Apply(s, op), q, p) <==> !GoesStale(s, op, q, p)
  {
    hide Inv;
    Ready(s, op);
    match op
    case OpFork(pid) => ForkRight(s, pid, q, p);
    case OpMap(pid, file, lo, n, prot, shared, off) => MapRight(s, pid, file, lo, n, prot, shared, off, q, p);
    case OpUnmap(pid, lo, hi) => RemoveRight(s, pid, lo, hi, q, p);
    case OpExit(pid) => RemoveRight(s, pid, LOW_PAGE, HIGH_PAGE, q, p);
    case OpLoad(_, _) =>
    case OpBrk(pid, addr) => BrkRight(s, pid, addr, q, p);
    case OpRead(pid, p') =>
      if HasEntry(s, q, p) {
        ReadKeepsOwner(s, pid, p', q, p);
      }
    case OpWrite(pid, p', bytes) => WriteRight(s, pid, p', bytes, q, p);
    case OpFault(pid, p', cause) => FaultRight(s, pid, p', cause.write, q, p);
    case OpStore(pid, p', bytes) => StoreRight(s, pid, p', bytes, q, p);
  }

  lemma StoreRight(s: State, pid: nat, p': nat, bytes: Page, q: nat, p: nat)
    requires Inv(s) && Writable(s, pid, p') && Right(s, q, p)
    ensures Right(UserStore(s, pid, p', bytes), q, p)
  {
    UserStoreIsWrite(s, pid, p', bytes);
    WriteRight(s, pid, p', bytes, q, p);
    assert PtOk(s, pid) && PteOk(s.objs, s.procs[pid].areas, p', s.procs[pid].pt[p']);
  }

  // No operation of the run makes the entry of q for p stale
  ghost predicate NeverStale(s: State, ops: seq<Op>, q: nat, p: nat)
    requires Inv(s) && Runs(s, ops)
    decreases |ops|
  {
    ops != [] ==>
      !GoesStale(s, ops[0], q, p) && (ApplyInv(s, ops[0]); NeverStale(Apply(s, ops[0]), ops[1..], q, p))
  }

  lemma {:induction false} RunRight(s: State, ops: seq<Op>, q: nat, p: nat)
    requires Inv(s) && Runs(s, ops) && Right(s, q, p) && NeverStale(s, ops, q, p)
    ensures Right(Run(s, ops), q, p)
    decreases |ops|
  {
    if ops != [] {
      ApplyInv(s, ops[0]);
      RightStep(s, ops[0], q, p);
      RunRight(Apply(s, ops[0]), ops[1..], q, p);
    }
  }

  // In every run from boot that makes no such write, what user code reads
  // through its entry is what the process is meant to see.
  lemma CoherentInEveryRun(files: seq<seq<Page>>, ops: seq<Op>, q: nat, p: nat)
    requires Inv(Boot(files)) && Runs(Boot(files), ops) && NeverStale(Boot(files), ops, q, p)
    requires HasEntry(Run(Boot(files), ops), q, p)
    ensures Inv(Run(Boot(files), ops))
    ensures View(Run(Boot(files), ops), q, p) == Some(EntryBytes(Run(Boot(files), ops), q, p))
  {
    RunInv(Boot(files), ops);
    RunRight(Boot(files), ops, q, p);
    RightShows(Run(Boot(files), ops), q, p);
  }
}
