/**
 Processes with their address spaces over one table of memory objects.

 A state is what the virtual memory system looks like between two kernel
 operations.  `Inv` collects everything every operation keeps; `View` is what
 a process sees on one of its pages.
 */
module AddressSpaces {
  import opened Basics
  import opened Areas
  import opened Objects

  // A user page-table entry: the frame it designates, named by the frame's
  // identity, and whether user code may write through it.
  datatype Pte = Pte(obj: nat, page: nat, write: bool)

  datatype Proc = Proc(areas: seq<Area>, pt: map<nat, Pte>, startBrk: nat, brk: nat)

  datatype State = State(objs: seq<MmObj>, procs: seq<Proc>)

  // ---- outside references on an object ----

  function AreaRefs(procs: seq<Proc>, o: nat): nat {
    if procs == [] then 0 else AreaRefs(procs[..|procs| - 1], o) + Count(procs[|procs| - 1].areas, o)
  }

  // A file's object is also held by its vnode
  function Held(objs: seq<MmObj>, o: nat): nat {
    if o < |objs| && objs[o].kind.File? then 1 else 0
  }

  ghost function Ext(s: State): nat -> int {
    (o: nat) => AreaRefs(s.procs, o) + Held(s.objs, o)
  }

  lemma {:induction false} AreaRefsUpdate(procs: seq<Proc>, i: nat, p: Proc, o: nat)
    requires i < |procs|
    ensures AreaRefs(procs[i := p], o) == AreaRefs(procs, o) - Count(procs[i].areas, o) + Count(p.areas, o)
  {
    var n := |procs| - 1;
    if i == n {
      assert procs[i := p][..n] == procs[..n];
    } else {
      assert procs[i := p][..n] == procs[..n][i := p];
      AreaRefsUpdate(procs[..n], i, p, o);
    }
  }

  lemma AreaRefsAppend(procs: seq<Proc>, p: Proc, o: nat)
    ensures AreaRefs(procs + [p], o) == AreaRefs(procs, o) + Count(p.areas, o)
  {
    assert (procs + [p])[..|procs|] == procs;
  }

  lemma {:induction false} AreaRefsAtLeast(procs: seq<Proc>, i: nat, o: nat)
    requires i < |procs|
    ensures AreaRefs(procs, o) >= Count(procs[i].areas, o)
  {
    if i < |procs| - 1 {
      assert procs[..|procs| - 1][i] == procs[i];
      AreaRefsAtLeast(procs[..|procs| - 1], i, o);
    }
  }

  // ---- the invariant ----

  ghost predicate AreasOk(s: State, pid: nat)
    requires pid < |s.procs|
  {
    && Sorted(s.procs[pid].areas)
    && forall a | a in s.procs[pid].areas ::
         a.obj < |s.objs| && (a.shared <==> !s.objs[a.obj].kind.Shadow?)
  }

  // No live shadow object lies directly above o
  ghost predicate Uncovered(objs: seq<MmObj>, o: nat) {
    forall y | 0 <= y < |objs| && objs[y].live && objs[y].kind.Shadow? :: objs[y].shadowed != o
  }

  // The object under a private area belongs to one process, is not shadowed,
  // and is aligned the same way by all areas that share it after a split.
  ghost predicate PrivateOk(s: State, pid: nat, a: Area)
    requires pid < |s.procs|
  {
    && Uncovered(s.objs, a.obj)
    && (forall q, b | 0 <= q < |s.procs| && b in s.procs[q].areas && b.obj == a.obj ::
          q == pid && b.off - b.start == a.off - a.start)
  }

  ghost predicate PrivatesOk(s: State) {
    forall pid, a {:trigger PrivateOk(s, pid, a)} | 0 <= pid < |s.procs| && a in s.procs[pid].areas && !a.shared ::
      PrivateOk(s, pid, a)
  }

  // Anonymous memory under a live shadow object is mapped by no area directly
  ghost predicate AnonApart(s: State, y: nat)
    requires y < |s.objs|
  {
    s.objs[y].live && s.objs[y].kind.Shadow? ==>
      forall pid, a | 0 <= pid < |s.procs| && a in s.procs[pid].areas && a.shared && a.obj == s.objs[y].bottom ::
        a.obj < |s.objs| && s.objs[a.obj].kind.File?
  }

  ghost predicate AnonsApart(s: State) {
    forall y {:trigger AnonApart(s, y)} | 0 <= y < |s.objs| :: AnonApart(s, y)
  }

  // A page-table entry designates a resident frame on the chain below its
  // area; a writable one the dirty frame of the area's own object.
  ghost predicate PteOk(objs: seq<MmObj>, areas: seq<Area>, p: nat, e: Pte) {
    var t := Target(areas, p);
    && t.Some? && t.value.obj < |objs| && e.obj < |objs|
    && e.page == t.value.page && e.page in objs[e.obj].pages
    && InChain(objs, t.value.obj, e.obj)
    && (e.write ==> e.obj == t.value.obj && objs[e.obj].pages[e.page].dirty)
  }

  ghost predicate PtOk(s: State, pid: nat)
    requires pid < |s.procs|
  {
    forall p | p in s.procs[pid].pt :: PteOk(s.objs, s.procs[pid].areas, p, s.procs[pid].pt[p])
  }

  ghost predicate Inv(s: State) {
    && |s.objs| > 0 && !s.objs[0].live
    && Formed(s.objs)
    && Exact(s.objs, Ext(s))
    && (forall pid | 0 <= pid < |s.procs| :: AreasOk(s, pid))
    && PrivatesOk(s)
    && AnonsApart(s)
    && (forall pid | 0 <= pid < |s.procs| :: PtOk(s, pid))
  }

  // ---- what a process sees ----

  function PageOn(objs: seq<MmObj>, areas: seq<Area>, p: nat): Option<Page> {
    var t := Target(areas, p);
    if t.Some? && t.value.obj < |objs| then Some(Resolve(objs, t.value.obj, t.value.page)) else None
  }

  function View(s: State, pid: nat, p: nat): Option<Page>
    requires pid < |s.procs|
  {
    PageOn(s.objs, s.procs[pid].areas, p)
  }

  // Everything a lookup of page p yields in a state that satisfies Inv
  lemma TargetFacts(s: State, pid: nat, p: nat)
    requires Inv(s) && pid < |s.procs| && Target(s.procs[pid].areas, p).Some?
    ensures var t := Target(s.procs[pid].areas, p).value;
            var a := Find(s.procs[pid].areas, p);
            && t.obj < |s.objs| && s.objs[t.obj].live
            && (t.shared <==> !s.objs[t.obj].kind.Shadow?)
            && a.Some? && a.value in s.procs[pid].areas && a.value.Covers(p) && t == MappingOf(a.value, p)
            && LOW_PAGE <= p < HIGH_PAGE
  {
    var areas := s.procs[pid].areas;
    FindTarget(areas, p);
    assert AreasOk(s, pid);
    AreaLive(s, pid, Find(areas, p).value);
  }

  lemma AreaLive(s: State, pid: nat, a: Area)
    requires Inv(s) && pid < |s.procs| && a in s.procs[pid].areas
    ensures a.obj < |s.objs| && s.objs[a.obj].live
  {
    assert AreasOk(s, pid);
    CountZero(s.procs[pid].areas, a.obj);
    AreaRefsAtLeast(s.procs, pid, a.obj);
    assert ExactAt(s.objs, Ext(s), a.obj);
  }

  // ---- invariant steps shared by several operations ----

  // Lookups and stores change residency and bytes, not the shape
  lemma InvSameForest(s: State, objs': seq<MmObj>)
    requires Inv(s) && Formed(objs') && Exact(objs', Ext(s)) && SameForest(s.objs, objs') && PagesGrow(s.objs, objs')
    ensures Inv(s.(objs := objs'))
  {
    var s' := s.(objs := objs');
    assert forall o: nat :: Held(objs', o) == Held(s.objs, o);
    ExactCongruent(objs', Ext(s), Ext(s'));
    forall pid | 0 <= pid < |s'.procs|
      ensures AreasOk(s', pid)
    {
      assert AreasOk(s, pid);
    }
    forall pid, a | 0 <= pid < |s'.procs| && a in s'.procs[pid].areas && !a.shared
      ensures PrivateOk(s', pid, a)
    {
      assert PrivateOk(s, pid, a);
    }
    forall y | 0 <= y < |s'.objs|
      ensures AnonApart(s', y)
    {
      assert AnonApart(s, y);
    }
    forall pid | 0 <= pid < |s'.procs|
      ensures PtOk(s', pid)
    {
      PtSameForest(s, objs', pid);
    }
  }

  lemma PtSameForest(s: State, objs': seq<MmObj>, pid: nat)
    requires pid < |s.procs| && PtOk(s, pid)
    requires SameForest(s.objs, objs') && PagesGrow(s.objs, objs')
    ensures PtOk(s.(objs := objs'), pid)
  {
    var pr := s.procs[pid];
    forall p | p in pr.pt
      ensures PteOk(objs', pr.areas, p, pr.pt[p])
    {
      assert PteOk(s.objs, pr.areas, p, pr.pt[p]);
      SameForestChain(s.objs, objs', Target(pr.areas, p).value.obj, pr.pt[p].obj);
    }
  }

  lemma ExactCongruent(objs: seq<MmObj>, e: nat -> int, e': nat -> int)
    requires Exact(objs, e) && forall o: nat :: e(o) == e'(o)
    ensures Exact(objs, e')
  {
    forall o | 0 <= o < |objs|
      ensures ExactAt(objs, e', o)
    {
      assert ExactAt(objs, e, o);
    }
  }

  // Entries stay good while their areas' objects survive
  lemma PteKeeps(objs: seq<MmObj>, objs': seq<MmObj>, ext': nat -> int, areas: seq<Area>, areas': seq<Area>, p: nat,
                 e: Pte)
    requires PteOk(objs, areas, p, e) && Target(areas', p) == Target(areas, p)
    requires Formed(objs') && Exact(objs', ext') && Keeps(objs, objs')
    requires objs'[Target(areas, p).value.obj].live
    ensures PteOk(objs', areas', p, e)
  {
    var o := Target(areas, p).value.obj;
    KeepsChain(objs, objs', ext', o, e.obj);
    ChainLive(objs', ext', o, e.obj);
  }

  // A process whose areas an operation leaves alone keeps its page table
  lemma PtKeeps(s: State, s': State, pid: nat)
    requires Inv(s) && pid < |s.procs| && pid < |s'.procs| && s'.procs[pid] == s.procs[pid]
    requires Formed(s'.objs) && Exact(s'.objs, Ext(s')) && Keeps(s.objs, s'.objs)
    ensures PtOk(s', pid)
  {
    var pr := s.procs[pid];
    forall p | p in pr.pt
      ensures PteOk(s'.objs, pr.areas, p, pr.pt[p])
    {
      assert PtOk(s, pid) && PteOk(s.objs, pr.areas, p, pr.pt[p]);
      LiveAfter(s', pid, p);
      PteKeeps(s.objs, s'.objs, Ext(s'), pr.areas, pr.areas, p, pr.pt[p]);
    }
  }

  lemma LiveAfter(s: State, pid: nat, p: nat)
    requires Exact(s.objs, Ext(s)) && pid < |s.procs|
    requires var t := Target(s.procs[pid].areas, p); t.Some? && t.value.obj < |s.objs|
    ensures s.objs[Target(s.procs[pid].areas, p).value.obj].live
  {
    var areas := s.procs[pid].areas;
    FindTarget(areas, p);
    var o := Target(areas, p).value.obj;
    CountZero(areas, o);
    AreaRefsAtLeast(s.procs, pid, o);
    assert ExactAt(s.objs, Ext(s), o);
  }

  // ... and keeps seeing the same bytes
  lemma ViewKeeps(s: State, s': State, pid: nat, p: nat)
    requires pid < |s.procs| && pid < |s'.procs| && AreasOk(s, pid)
    requires Target(s'.procs[pid].areas, p) == Target(s.procs[pid].areas, p)
    requires Formed(s'.objs) && Exact(s'.objs, Ext(s')) && Keeps(s.objs, s'.objs)
    ensures View(s', pid, p) == View(s, pid, p)
  {
    var t := Target(s.procs[pid].areas, p);
    if t.Some? {
      FindTarget(s.procs[pid].areas, p);
      LiveAfter(s', pid, p);
      KeepsOwner(s.objs, s'.objs, Ext(s'), t.value.obj, t.value.page);
    }
  }
}
