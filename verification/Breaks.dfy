/**
 The break over runs: it is where the last accepted break call of the process, or
 its loader, or the process it was forked from had put it, and its lower limit is
 changed by the loader alone.
 */
module Breaks {
  import opened Objects
  import opened AddressSpaces
  import opened Mappings
  import opened Forking
  import opened Isolation

  datatype Break = Break(start: nat, now: nat)

  function BreakAt(s: State, q: nat): Break
    requires q < |s.procs|
  {
    Break(s.procs[q].startBrk, s.procs[q].brk)
  }

  // What every operation does to every process's break
  lemma BreakStep(s: State, op: Op, q: nat)
    requires Inv(s) && Enabled(s, op) && q < |Apply(s, op).procs|
    ensures |Apply(s, op).procs| == |s.procs| + if op.OpFork? then 1 else 0
    ensures BreakAt(Apply(s, op), q) ==
            if q == |s.procs| then BreakAt(s, op.pid)
            else if op.OpLoad? && q == op.pid then Break(op.start, op.start)
            else if op.OpBrk? && q == op.pid then Break(s.procs[q].startBrk, op.addr)
            else BreakAt(s, q)
  {
    hide Inv, CutObjs, ForkAreas, NewBacking, WriteLookup, ReadLookup, Store;
  }

  // ---- runs ----

  predicate BreakCall(op: Op, q: nat) {
    op.pid == q && (op.OpBrk? || op.OpLoad?)
  }

  // The break as the operations since boot left it
  ghost function BreakOf(files: seq<seq<Page>>, ops: seq<Op>, q: nat): Break
    requires Inv(Boot(files)) && Runs(Boot(files), ops) && q < |Run(Boot(files), ops).procs|
    decreases |ops|
  {
    if ops == [] then Break(0, 0)
    else
      var op, before := ops[|ops| - 1], ops[..|ops| - 1];
      RunLast(Boot(files), ops);
      MoreProcs(Run(Boot(files), before), op);
      if q == |Run(Boot(files), before).procs| then BreakOf(files, before, op.pid)
      else if !BreakCall(op, q) then BreakOf(files, before, q)
      else if op.OpLoad? then Break(op.start, op.start)
      else Break(BreakOf(files, before, q).start, op.addr)
  }

  lemma {:induction false} BreakInEveryRun(files: seq<seq<Page>>, ops: seq<Op>, q: nat)
    requires Inv(Boot(files)) && Runs(Boot(files), ops) && q < |Run(Boot(files), ops).procs|
    ensures BreakAt(Run(Boot(files), ops), q) == BreakOf(files, ops, q)
    decreases |ops|
  {
    if ops != [] {
      hide Inv, Runs, Run, Apply, Enabled;
      var op, before := ops[|ops| - 1], ops[..|ops| - 1];
      RunLast(Boot(files), ops);
      var r := Run(Boot(files), before);
      BreakStep(r, op, q);
      BreakInEveryRun(files, before, if q == |r.procs| then op.pid else q);
    }
  }

  // Until the process itself loads or moves its break nothing else does
  lemma {:induction false} BreakKept(s: State, ops: seq<Op>, q: nat)
    requires Inv(s) && Runs(s, ops) && q < |s.procs| && forall op | op in ops :: !BreakCall(op, q)
    ensures q < |Run(s, ops).procs| && BreakAt(Run(s, ops), q) == BreakAt(s, q)
    decreases |ops|
  {
    if ops != [] {
      hide Inv, Apply, Enabled, BreakAt;
      ApplyInv(s, ops[0]);
      MoreProcs(s, ops[0]);
      BreakStep(s, ops[0], q);
      assert !BreakCall(ops[0], q);
      BreakKept(Apply(s, ops[0]), ops[1..], q);
    }
  }

  // After an accepted do_brk(addr) and any run in which the process makes no
  // other break call, do_brk(0) answers addr; a child forked then answers the
  // same and has the same lower limit
  lemma BreakAnswered(s: State, pid: nat, addr: nat, ops: seq<Op>)
    requires Inv(s) && Runs(s, [OpBrk(pid, addr)] + ops) && forall op | op in ops :: !BreakCall(op, pid)
    ensures pid < |s.procs|
    ensures var r := Run(s, [OpBrk(pid, addr)] + ops);
            && Inv(r) && pid < |r.procs| && r.procs[pid].brk == addr && r.procs[pid].startBrk == s.procs[pid].startBrk
            && Enabled(r, OpFork(pid)) && |Apply(r, OpFork(pid)).procs| == |r.procs| + 1
            && BreakAt(Apply(r, OpFork(pid)), |r.procs|) == BreakAt(r, pid)
  {
    var first := OpBrk(pid, addr);
    assert ([first] + ops)[0] == first && ([first] + ops)[1..] == ops;
    ApplyInv(s, first);
    MoreProcs(s, first);
    BreakStep(s, first, pid);
    BreakKept(Apply(s, first), ops, pid);
    RunInv(s, [first] + ops);
    var r := Run(s, [first] + ops);
    hide Inv, Apply, Runs, Run;
    MoreProcs(r, OpFork(pid));
    BreakStep(r, OpFork(pid), |r.procs|);
  }
}
