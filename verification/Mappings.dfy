/**
 Operations that change which pages are mapped: vmmap_remove, vmmap_destroy,
 vmmap_map and do_brk, on whole states.  For each there are two results: `...Inv`,
 that it keeps the invariant of `AddressSpaces`, part by part, and `...View`, what
 every process sees on every page afterwards.
 */
module Mappings {
  import opened Basics
  import opened Areas
  import opened Objects
  import opened AddressSpaces

  // ---- vmmap_remove on the object table ----

  // A split takes a reference, a vanished area gives one back
  function CutStep(objs: seq<MmObj>, a: Area, lo: nat, hi: nat): (r: seq<MmObj>)
    requires a.obj < |objs| && lo <= hi
    ensures |r| == |objs|
  {
    var n := |Cut(a, lo, hi)|;
    if n == 2 then Ref(objs, a.obj) else if n == 0 then Put(objs, a.obj) else objs
  }

  function CutObjs(objs: seq<MmObj>, areas: seq<Area>, lo: nat, hi: nat): (r: seq<MmObj>)
    requires lo <= hi && forall a | a in areas :: a.obj < |objs|
    ensures |r| == |objs|
    decreases |areas|
  {
    if areas == [] then objs else CutObjs(CutStep(objs, areas[0], lo, hi), areas[1..], lo, hi)
  }

  ghost function ExtPlus(ext: nat -> int, minus: seq<Area>, plus: seq<Area>): nat -> int {
    (o: nat) => ext(o) - Count(minus, o) + Count(plus, o)
  }

  lemma CutStepExact(objs: seq<MmObj>, a: Area, lo: nat, hi: nat, ext: nat -> int)
    requires Formed(objs) && Exact(objs, ext) && a.obj < |objs| && lo <= hi && ext(a.obj) > 0
    ensures var r := CutStep(objs, a, lo, hi);
            Formed(r) && Keeps(objs, r) && Exact(r, ExtPlus(ext, [a], Cut(a, lo, hi)))
  {
    var r, c := CutStep(objs, a, lo, hi), Cut(a, lo, hi);
    assert ExactAt(objs, ext, a.obj) && ObjOk(objs, a.obj);
    forall o: nat
      ensures ExtPlus(ext, [a], c)(o) == Bump(ext, a.obj, |c| - 1)(o)
    {
      CutCount(a, lo, hi, o);
    }
    if |c| == 2 {
      RefExact(objs, a.obj, ext);
      RefFormed(objs, a.obj);
      ExactCongruent(r, Bump(ext, a.obj, 1), ExtPlus(ext, [a], c));
    } else if |c| == 0 {
      PutExact(objs, a.obj, ext);
      PutFormed(objs, a.obj);
      PutKeeps(objs, a.obj);
      ExactCongruent(r, Bump(ext, a.obj, -1), ExtPlus(ext, [a], c));
    } else {
      ExactCongruent(objs, ext, ExtPlus(ext, [a], c));
    }
  }

  // Counts stay exact when the areas shrink from `areas` to what is left
  lemma {:induction false} CutObjsExact(objs: seq<MmObj>, areas: seq<Area>, lo: nat, hi: nat, ext: nat -> int)
    requires lo <= hi && forall a | a in areas :: a.obj < |objs|
    requires Formed(objs) && Exact(objs, ext) && forall o: nat :: ext(o) >= Count(areas, o)
    ensures var r := CutObjs(objs, areas, lo, hi);
            Formed(r) && Keeps(objs, r) && Exact(r, ExtPlus(ext, areas, CutAll(areas, lo, hi)))
    decreases |areas|
  {
    if areas == [] {
      ExactCongruent(objs, ext, ExtPlus(ext, areas, []));
    } else {
      var a, rest := areas[0], areas[1..];
      CutStepExact(objs, a, lo, hi, ext);
      var b, e := CutStep(objs, a, lo, hi), ExtPlus(ext, [a], Cut(a, lo, hi));
      forall o: nat
        ensures e(o) >= Count(rest, o)
      {
        assert ext(o) >= Count(areas, o);
        CutCount(a, lo, hi, o);
      }
      CutObjsExact(b, rest, lo, hi, e);
      forall o: nat
        ensures ExtPlus(e, rest, CutAll(rest, lo, hi))(o) == ExtPlus(ext, areas, CutAll(areas, lo, hi))(o)
      {
        CutCount(a, lo, hi, o);
        CountConcat(Cut(a, lo, hi), CutAll(rest, lo, hi), o);
      }
      ExactCongruent(CutObjs(b, rest, lo, hi), ExtPlus(e, rest, CutAll(rest, lo, hi)),
        ExtPlus(ext, areas, CutAll(areas, lo, hi)));
    }
  }

  // ---- replacing the areas of one process ----

  function WithProc(s: State, pid: nat, objs: seq<MmObj>, pr: Proc): State
    requires pid < |s.procs|
  {
    State(objs, s.procs[pid := pr])
  }

  lemma WithProcExact(s: State, pid: nat, objs: seq<MmObj>, pr: Proc)
    requires Inv(s) && pid < |s.procs|
    requires Exact(objs, ExtPlus(Ext(s), s.procs[pid].areas, pr.areas)) && forall o: nat ::
             Held(objs, o) == Held(s.objs, o)
    ensures Exact(objs, Ext(WithProc(s, pid, objs, pr)))
  {
    var s' := WithProc(s, pid, objs, pr);
    forall o: nat
      ensures Ext(s')(o) == ExtPlus(Ext(s), s.procs[pid].areas, pr.areas)(o)
    {
      AreaRefsUpdate(s.procs, pid, pr, o);
    }
    ExactCongruent(objs, ExtPlus(Ext(s), s.procs[pid].areas, pr.areas), Ext(s'));
  }

  lemma ExtCoversAreas(s: State, pid: nat)
    requires pid < |s.procs|
    ensures forall o: nat :: Ext(s)(o) >= Count(s.procs[pid].areas, o)
  {
    forall o: nat
      ensures Ext(s)(o) >= Count(s.procs[pid].areas, o)
    {
      AreaRefsAtLeast(s.procs, pid, o);
    }
  }

  // ---- vmmap_remove ----

  function Without(pt: map<nat, Pte>, lo: nat, hi: nat): map<nat, Pte> {
    map p | p in pt && !(lo <= p < hi) :: pt[p]
  }

  ghost predicate AreasIn(s: State, pid: nat) {
    pid < |s.procs| && forall a | a in s.procs[pid].areas :: a.obj < |s.objs|
  }

  // Unmap the pages [lo, hi) of process pid
  ghost function Remove(s: State, pid: nat, lo: nat, hi: nat): State
    requires AreasIn(s, pid) && lo <= hi
  {
    var pr := s.procs[pid];
    WithProc(s, pid, CutObjs(s.objs, pr.areas, lo, hi),
             pr.(areas := CutAll(pr.areas, lo, hi), pt := Without(pr.pt, lo, hi)))
  }

  lemma RemoveProcs(s: State, pid: nat, lo: nat, hi: nat)
    requires AreasIn(s, pid) && lo <= hi
    ensures |Remove(s, pid, lo, hi).procs| == |s.procs|
  {
  }

  lemma RemoveExact(s: State, pid: nat, lo: nat, hi: nat)
    requires Inv(s) && pid < |s.procs| && lo <= hi
    ensures AreasIn(s, pid)
    ensures var s' := Remove(s, pid, lo, hi);
            Formed(s'.objs) && Keeps(s.objs, s'.objs) && |s'.objs| == |s.objs| && Exact(s'.objs, Ext(s'))
  {
    assert AreasOk(s, pid);
    var areas := s.procs[pid].areas;
    ExtCoversAreas(s, pid);
    CutObjsExact(s.objs, areas, lo, hi, Ext(s));
    WithProcExact(s, pid, CutObjs(s.objs, areas, lo, hi), Remove(s, pid, lo, hi).procs[pid]);
  }

  lemma RemoveAreasOk(s: State, pid: nat, lo: nat, hi: nat, q: nat)
    requires Inv(s) && pid < |s.procs| && lo <= hi && q < |s.procs| && AreasIn(s, pid)
    requires Keeps(s.objs, Remove(s, pid, lo, hi).objs)
    ensures AreasOk(Remove(s, pid, lo, hi), q)
  {
    assert AreasOk(s, q);
    if q == pid {
      CutSorted(s.procs[q].areas, lo, hi);
      forall b | b in CutAll(s.procs[q].areas, lo, hi)
        ensures b.obj < |s.objs| && (b.shared <==> !s.objs[b.obj].kind.Shadow?)
      {
        CutPieces(s.procs[q].areas, lo, hi, b);
      }
    }
  }

  // Every area after the removal lines up with one before, of the same process
  lemma RemoveAligned(s: State, pid: nat, lo: nat, hi: nat, q: nat, b: Area)
    requires AreasIn(s, pid) && lo <= hi && q < |s.procs| && b in Remove(s, pid, lo, hi).procs[q].areas
    ensures exists a :: a in s.procs[q].areas && AlignedWith(b, a)
  {
    if q == pid {
      CutPieces(s.procs[q].areas, lo, hi, b);
    } else {
      assert AlignedWith(b, b);
    }
  }

  // If areas line up with earlier ones and no shadow was made, private
  // objects stay private.
  lemma PrivatesAligned(s: State, s': State)
    requires PrivatesOk(s) && |s'.procs| == |s.procs| && |s'.objs| == |s.objs| && Keeps(s.objs, s'.objs)
    requires forall q, b | 0 <= q < |s'.procs| && b in s'.procs[q].areas :: exists a ::
             a in s.procs[q].areas && AlignedWith(b, a)
    ensures PrivatesOk(s')
  {
    forall pid, a' | 0 <= pid < |s'.procs| && a' in s'.procs[pid].areas && !a'.shared
      ensures PrivateOk(s', pid, a')
    {
      var a :| a in s.procs[pid].areas && AlignedWith(a', a);
      assert PrivateOk(s, pid, a);
      forall q, b' | 0 <= q < |s'.procs| && b' in s'.procs[q].areas && b'.obj == a'.obj
        ensures q == pid && b'.off - b'.start == a'.off - a'.start
      {
        var b :| b in s.procs[q].areas && AlignedWith(b', b);
      }
    }
  }

  lemma AnonsAligned(s: State, s': State)
    requires AnonsApart(s) && |s'.procs| == |s.procs| && |s'.objs| == |s.objs| && Keeps(s.objs, s'.objs)
    requires forall q, b | 0 <= q < |s'.procs| && b in s'.procs[q].areas :: exists a ::
             a in s.procs[q].areas && AlignedWith(b, a)
    ensures AnonsApart(s')
  {
    forall y | 0 <= y < |s'.objs|
      ensures AnonApart(s', y)
    {
      assert AnonApart(s, y);
      forall pid, b | && 0 <= pid < |s'.procs| && b in s'.procs[pid].areas && b.shared && b.obj == s'.objs[y].bottom
                      && s'.objs[y].live && s'.objs[y].kind.Shadow?
        ensures b.obj < |s'.objs| && s'.objs[b.obj].kind.File?
      {
        var a :| a in s.procs[pid].areas && AlignedWith(b, a);
        assert s.objs[y].live && s.objs[y].bottom == a.obj;
      }
    }
  }

  lemma RemovePrivates(s: State, pid: nat, lo: nat, hi: nat)
    requires Inv(s) && AreasIn(s, pid) && lo <= hi && Keeps(s.objs, Remove(s, pid, lo, hi).objs)
    ensures PrivatesOk(Remove(s, pid, lo, hi)) && AnonsApart(Remove(s, pid, lo, hi))
  {
    var s' := Remove(s, pid, lo, hi);
    forall q, b | 0 <= q < |s'.procs| && b in s'.procs[q].areas
      ensures exists a :: a in s.procs[q].areas && AlignedWith(b, a)
    {
      RemoveAligned(s, pid, lo, hi, q, b);
    }
    PrivatesAligned(s, s');
    AnonsAligned(s, s');
  }

  lemma RemovePt(s: State, pid: nat, lo: nat, hi: nat)
    requires Inv(s) && AreasIn(s, pid) && lo <= hi
    requires var s' := Remove(s, pid, lo, hi);
             Formed(s'.objs) && Keeps(s.objs, s'.objs) && Exact(s'.objs, Ext(s'))
    ensures PtOk(Remove(s, pid, lo, hi), pid)
  {
    var s' := Remove(s, pid, lo, hi);
    var pr, pr' := s.procs[pid], s'.procs[pid];
    forall p | p in pr'.pt
      ensures PteOk(s'.objs, pr'.areas, p, pr'.pt[p])
    {
      assert PtOk(s, pid) && PteOk(s.objs, pr.areas, p, pr.pt[p]);
      CutMeaning(pr.areas, lo, hi, p);
      LiveAfter(s', pid, p);
      PteKeeps(s.objs, s'.objs, Ext(s'), pr.areas, pr'.areas, p, pr.pt[p]);
    }
  }

  // Unmapping keeps the invariant ...
  lemma RemoveInv(s: State, pid: nat, lo: nat, hi: nat)
    requires Inv(s) && pid < |s.procs| && lo <= hi
    ensures AreasIn(s, pid) && Inv(Remove(s, pid, lo, hi))
  {
    RemoveExact(s, pid, lo, hi);
    var s' := Remove(s, pid, lo, hi);
    RemovePrivates(s, pid, lo, hi);
    forall q | 0 <= q < |s'.procs|
      ensures AreasOk(s', q) && PtOk(s', q)
    {
      RemoveAreasOk(s, pid, lo, hi, q);
      if q == pid {
        RemovePt(s, pid, lo, hi);
      } else {
        PtKeeps(s, s', q);
      }
    }
  }

  // ... and takes exactly the pages [lo, hi) out of the process's view
  lemma RemoveView(s: State, pid: nat, lo: nat, hi: nat, q: nat, p: nat)
    requires Inv(s) && AreasIn(s, pid) && lo <= hi && q < |s.procs|
    ensures View(Remove(s, pid, lo, hi), q, p) == if q == pid && lo <= p < hi then None else View(s, q, p)
  {
    RemoveExact(s, pid, lo, hi);
    var s' := Remove(s, pid, lo, hi);
    if q == pid {
      CutMeaning(s.procs[pid].areas, lo, hi, p);
    }
    if !(q == pid && lo <= p < hi) {
      assert AreasOk(s, q);
      ViewKeeps(s, s', q, p);
    }
  }

  // ---- vmmap_destroy ----

  // At exit all areas go and the page table is dropped
  ghost function Destroy(s: State, pid: nat): State
    requires AreasIn(s, pid)
  {
    Remove(s, pid, LOW_PAGE, HIGH_PAGE)
  }

  lemma DestroyEmpties(s: State, pid: nat)
    requires Inv(s) && pid < |s.procs|
    ensures AreasIn(s, pid) && Inv(Destroy(s, pid))
    ensures Destroy(s, pid).procs[pid].areas == [] && Destroy(s, pid).procs[pid].pt == map[]
  {
    RemoveInv(s, pid, LOW_PAGE, HIGH_PAGE);
    assert AreasOk(s, pid);
    CutEverything(s.procs[pid].areas);
    assert PtOk(Destroy(s, pid), pid);
    var pt := Destroy(s, pid).procs[pid].pt;
    assert forall p :: p !in pt;
  }

  // ---- vmmap_map ----

  // The object a new area points to.  For a file, taking the vnode's object
  // also takes a reference on it.
  datatype Backed = Backed(objs: seq<MmObj>, top: nat)

  function NewBacking(objs: seq<MmObj>, file: Option<nat>, shared: bool): Backed
    requires file.Some? ==> file.value < |objs|
  {
    var o := if file.None? then |objs| else file.value;
    var objs1 := if file.None? then objs + [NewAnon()] else Ref(objs, o);
    if shared then Backed(objs1, o) else Backed(Ref(objs1 + [NewShadow(o, o)], o), |objs1|)
  }

  ghost predicate IsFile(objs: seq<MmObj>, f: nat) {
    f < |objs| && objs[f].kind.File?
  }

  // Counts after the new object is in place, with one reference from outside
  lemma BackingBase(objs: seq<MmObj>, file: Option<nat>, ext: nat -> int)
    requires Formed(objs) && Exact(objs, ext) && (file.Some? ==> IsFile(objs, file.value) && objs[file.value].live)
    requires ext(|objs|) == 0
    ensures var b := NewBacking(objs, file, true);
            && Formed(b.objs) && Keeps(objs, b.objs) && Exact(b.objs, Bump(ext, b.top, 1))
            && b.top < |b.objs| && b.objs[b.top].live && !b.objs[b.top].kind.Shadow?
            && (forall x | |objs| <= x < |b.objs| :: !b.objs[x].kind.Shadow? && !b.objs[x].kind.File?)
  {
    var b := NewBacking(objs, file, true);
    if file.None? {
      FreshUnreferenced(objs, |objs|);
      FormedAppend(objs, NewAnon());
      AppendExact(objs, NewAnon(), ext, Bump(ext, |objs|, 1));
    } else {
      RefExact(objs, file.value, ext);
      assert ObjOk(objs, file.value);
      RefFormed(objs, file.value);
    }
  }

  // A shadow over object o, taking over the reference the area had on o
  lemma BackingShadow(objs: seq<MmObj>, o: nat, ext: nat -> int)
    requires Formed(objs) && Exact(objs, ext) && o < |objs| && objs[o].live && !objs[o].kind.Shadow? && ext(o) > 0
    requires ext(|objs|) == 0
    ensures var r := Ref(objs + [NewShadow(o, o)], o);
            Formed(r) && Keeps(objs, r) && Exact(r, Bump(Bump(ext, o, -1), |objs|, 1))
  {
    var x := NewShadow(o, o);
    var r := Ref(objs + [x], o);
    assert r == Ref(objs, o) + [x];
    assert ObjOk(objs, o);
    RefExact(objs, o, ext);
    RefFormed(objs, o);
    FreshUnreferenced(Ref(objs, o), |objs|);
    FormedAppend(Ref(objs, o), x);
    AppendExact(Ref(objs, o), x, Bump(ext, o, 1), Bump(Bump(ext, o, -1), |objs|, 1));
  }

  lemma BackingExact(objs: seq<MmObj>, file: Option<nat>, shared: bool, ext: nat -> int)
    requires Formed(objs) && Exact(objs, ext) && (file.Some? ==> IsFile(objs, file.value) && objs[file.value].live)
    requires forall o | o >= |objs| :: ext(o) == 0
    ensures var b := NewBacking(objs, file, shared);
            && Formed(b.objs) && Keeps(objs, b.objs) && Exact(b.objs, Bump(ext, b.top, 1))
            && b.top < |b.objs| && b.objs[b.top].live && (shared <==> !b.objs[b.top].kind.Shadow?)
            && (!shared ==> b.top >= |objs|)
            && (forall x | |objs| <= x < |b.objs| :: !b.objs[x].kind.File?)
            && (forall x | |objs| <= x < |b.objs| && b.objs[x].kind.Shadow? ::
                  b.objs[x].shadowed < |b.objs| && !b.objs[b.objs[x].shadowed].kind.Shadow?)
  {
    BackingBase(objs, file, ext);
    if !shared {
      var b := NewBacking(objs, file, true);
      BackingShadow(b.objs, b.top, Bump(ext, b.top, 1));
      var c := NewBacking(objs, file, false);
      assert c.objs == Ref(b.objs + [NewShadow(b.top, b.top)], b.top);
      ExactCongruent(c.objs, Bump(Bump(Bump(ext, b.top, 1), b.top, -1), |b.objs|, 1), Bump(ext, c.top, 1));
    }
  }

  // What the new area shows: zeros, or what the file's object shows
  lemma BackingResolve(objs: seq<MmObj>, file: Option<nat>, shared: bool, pn: nat)
    requires Formed(objs) && (file.Some? ==> IsFile(objs, file.value))
    ensures var b := NewBacking(objs, file, shared);
            && b.top < |b.objs|
            && Resolve(b.objs, b.top, pn) == if file.None? then ZERO_PAGE else Resolve(objs, file.value, pn)
  {
    var b := NewBacking(objs, file, shared);
    if !shared {
      var o := b.objs[b.top].shadowed;
      assert Owner(b.objs, b.top, pn) == Owner(b.objs, o, pn) == o;
    }
  }

  // The area vmmap_map adds
  function MapArea(lo: nat, n: nat, prot: Prot, shared: bool, off: nat, obj: nat): Area {
    Area(lo, lo + n, off, prot, shared, obj)
  }

  // Map n pages at a free range starting at lo
  ghost function MapFree(s: State, pid: nat, file: Option<nat>, lo: nat, n: nat, prot: Prot, shared: bool,
                         off: nat): State
    requires pid < |s.procs| && (file.Some? ==> file.value < |s.objs|)
  {
    var b := NewBacking(s.objs, file, shared);
    var pr := s.procs[pid];
    WithProc(s, pid, b.objs, pr.(areas := InsertArea(pr.areas, MapArea(lo, n, prot, shared, off, b.top))))
  }

  ghost predicate MapPre(s: State, pid: nat, file: Option<nat>, lo: nat, n: nat) {
    && pid < |s.procs| && (file.Some? ==> IsFile(s.objs, file.value))
    && 0 < n && LOW_PAGE <= lo && lo + n <= HIGH_PAGE
  }

  lemma FileLive(s: State, f: nat)
    requires Inv(s) && IsFile(s.objs, f)
    ensures s.objs[f].live
  {
    assert ExactAt(s.objs, Ext(s), f);
  }

  // No area points past the end of the object table
  lemma {:induction false} NoFutureAreas(s: State, n: nat, o: nat)
    requires n <= |s.procs| && (forall pid | 0 <= pid < n :: AreasOk(s, pid)) && o >= |s.objs|
    ensures AreaRefs(s.procs[..n], o) == 0
  {
    if n > 0 {
      NoFutureAreas(s, n - 1, o);
      assert s.procs[..n][..n - 1] == s.procs[..n - 1];
      assert AreasOk(s, n - 1);
      CountZero(s.procs[n - 1].areas, o);
    }
  }

  lemma ExtPastEnd(s: State)
    requires Inv(s)
    ensures forall o | o >= |s.objs| :: Ext(s)(o) == 0
  {
    forall o | o >= |s.objs|
      ensures Ext(s)(o) == 0
    {
      NoFutureAreas(s, |s.procs|, o);
      assert s.procs[..|s.procs|] == s.procs;
    }
  }

  lemma MapFreeExact(s: State, pid: nat, file: Option<nat>, lo: nat, n: nat, prot: Prot, shared: bool, off: nat)
    requires Inv(s) && MapPre(s, pid, file, lo, n)
    ensures var s' := MapFree(s, pid, file, lo, n, prot, shared, off);
            Formed(s'.objs) && Keeps(s.objs, s'.objs) && Exact(s'.objs, Ext(s'))
  {
    if file.Some? {
      FileLive(s, file.value);
    }
    ExtPastEnd(s);
    BackingExact(s.objs, file, shared, Ext(s));
    var b := NewBacking(s.objs, file, shared);
    var s' := MapFree(s, pid, file, lo, n, prot, shared, off);
    var areas, areas' := s.procs[pid].areas, s'.procs[pid].areas;
    forall o: nat
      ensures Bump(Ext(s), b.top, 1)(o) == ExtPlus(Ext(s), areas, areas')(o)
    {
      InsertCount(areas, MapArea(lo, n, prot, shared, off, b.top), o);
    }
    ExactCongruent(b.objs, Bump(Ext(s), b.top, 1), ExtPlus(Ext(s), areas, areas'));
    WithProcExact(s, pid, b.objs, s'.procs[pid]);
  }

  lemma InsertMember(areas: seq<Area>, a: Area, b: Area)
    ensures b in InsertArea(areas, a) <==> b == a || b in areas
  {
    var i := InsertPos(areas, a.end);
    assert areas == areas[..i] + areas[i..];
  }

  lemma MapFreeAreas(s: State, pid: nat, file: Option<nat>, lo: nat, n: nat, prot: Prot, shared: bool, off: nat, q: nat)
    requires Inv(s) && MapPre(s, pid, file, lo, n) && RangeFree(s.procs[pid].areas, lo, lo + n) && q < |s.procs|
    ensures AreasOk(MapFree(s, pid, file, lo, n, prot, shared, off), q)
  {
    var s' := MapFree(s, pid, file, lo, n, prot, shared, off);
    if file.Some? {
      FileLive(s, file.value);
    }
    ExtPastEnd(s);
    BackingExact(s.objs, file, shared, Ext(s));
    assert AreasOk(s, q);
    if q == pid {
      var b := NewBacking(s.objs, file, shared);
      var a := MapArea(lo, n, prot, shared, off, b.top);
      InsertSorted(s.procs[q].areas, a);
      forall c | c in InsertArea(s.procs[q].areas, a)
        ensures c.obj < |s'.objs| && (c.shared <==> !s'.objs[c.obj].kind.Shadow?)
      {
        InsertMember(s.procs[q].areas, a, c);
      }
    }
  }

  lemma MapFreePrivates(s: State, pid: nat, file: Option<nat>, lo: nat, n: nat, prot: Prot, shared: bool, off: nat)
    requires Inv(s) && MapPre(s, pid, file, lo, n)
    ensures PrivatesOk(MapFree(s, pid, file, lo, n, prot, shared, off))
  {
    var s' := MapFree(s, pid, file, lo, n, prot, shared, off);
    if file.Some? {
      FileLive(s, file.value);
    }
    ExtPastEnd(s);
    BackingExact(s.objs, file, shared, Ext(s));
    var b := NewBacking(s.objs, file, shared);
    var a := MapArea(lo, n, prot, shared, off, b.top);
    forall q, c | 0 <= q < |s'.procs| && c in s'.procs[q].areas
      ensures c in s.procs[q].areas || (q == pid && c == a)
    {
      InsertMember(s.procs[pid].areas, a, c);
    }
    forall q, c | 0 <= q < |s'.procs| && c in s'.procs[q].areas && !c.shared
      ensures PrivateOk(s', q, c)
    {
      MapFreePrivate(s, s', pid, a, b, q, c);
    }
  }

  lemma MapFreePrivate(s: State, s': State, pid: nat, a: Area, b: Backed, q: nat, c: Area)
    requires Inv(s) && pid < |s.procs| && q < |s.procs| == |s'.procs| && c in s'.procs[q].areas && !c.shared
    requires forall q', d | 0 <= q' < |s'.procs| && d in s'.procs[q'].areas ::
             d in s.procs[q'].areas || (q' == pid && d == a)
    requires s'.objs == b.objs && a.obj == b.top && Keeps(s.objs, b.objs) && Formed(b.objs) && b.top < |b.objs|
    requires !a.shared ==> a.obj >= |s.objs|
    requires a.shared <==> !b.objs[b.top].kind.Shadow?
    requires forall x | |s.objs| <= x < |b.objs| && b.objs[x].kind.Shadow? ::
               b.objs[x].shadowed < |b.objs| && !b.objs[b.objs[x].shadowed].kind.Shadow?
    ensures PrivateOk(s', q, c)
  {
    forall q', d | 0 <= q' < |s'.procs| && d in s'.procs[q'].areas && d.obj == c.obj
      ensures q' == q && d.off - d.start == c.off - c.start
    {
      MapFreeSame(s, pid, a, q, c, q', d);
    }
    MapFreeUncovered(s, pid, a, b, q, c);
  }

  lemma MapFreeSame(s: State, pid: nat, a: Area, q: nat, c: Area, q': nat, d: Area)
    requires Inv(s) && pid < |s.procs| && q < |s.procs| && q' < |s.procs| && (!a.shared ==> a.obj >= |s.objs|)
    requires a.shared ==> a.obj < |s.objs| ==> !s.objs[a.obj].kind.Shadow?
    requires c in s.procs[q].areas || (q == pid && c == a)
    requires d in s.procs[q'].areas || (q' == pid && d == a)
    requires !c.shared && d.obj == c.obj
    ensures q' == q && d.off - d.start == c.off - c.start
  {
    assert AreasOk(s, q) && AreasOk(s, q');
    if c in s.procs[q].areas {
      assert PrivateOk(s, q, c);
    }
  }

  lemma MapFreeUncovered(s: State, pid: nat, a: Area, b: Backed, q: nat, c: Area)
    requires Inv(s) && pid < |s.procs| && q < |s.procs| && Keeps(s.objs, b.objs) && Formed(b.objs)
    requires a.obj == b.top && !c.shared
             && (!a.shared ==> a.obj >= |s.objs| && b.top < |b.objs| && b.objs[b.top].kind.Shadow?)
    requires c in s.procs[q].areas || (q == pid && c == a)
    requires forall x | |s.objs| <= x < |b.objs| && b.objs[x].kind.Shadow? ::
               b.objs[x].shadowed < |b.objs| && !b.objs[b.objs[x].shadowed].kind.Shadow?
    ensures Uncovered(b.objs, c.obj)
  {
    assert AreasOk(s, q);
    if c in s.procs[q].areas {
      assert PrivateOk(s, q, c);
    }
    forall y | 0 <= y < |b.objs| && b.objs[y].live && b.objs[y].kind.Shadow?
      ensures b.objs[y].shadowed != c.obj
    {
      assert ObjOk(b.objs, y);
    }
  }

  lemma MapFreeAnons(s: State, pid: nat, file: Option<nat>, lo: nat, n: nat, prot: Prot, shared: bool, off: nat)
    requires Inv(s) && MapPre(s, pid, file, lo, n)
    ensures AnonsApart(MapFree(s, pid, file, lo, n, prot, shared, off))
  {
    var s' := MapFree(s, pid, file, lo, n, prot, shared, off);
    var a := MapArea(lo, n, prot, shared, off, NewBacking(s.objs, file, shared).top);
    forall y | 0 <= y < |s'.objs|
      ensures AnonApart(s', y)
    {
      if y < |s.objs| {
        assert AnonApart(s, y) && ObjOk(s.objs, y);
      }
      forall q, c | 0 <= q < |s'.procs| && c in s'.procs[q].areas && c.shared && c.obj == s'.objs[y].bottom
        && s'.objs[y].kind.Shadow?
        ensures c.obj < |s'.objs| && (s'.objs[y].live ==> s'.objs[c.obj].kind.File?)
      {
        assert AreasOk(s, q);
        InsertMember(s.procs[pid].areas, a, c);
      }
    }
  }

  lemma MapFreePt(s: State, pid: nat, file: Option<nat>, lo: nat, n: nat, prot: Prot, shared: bool, off: nat)
    requires Inv(s) && MapPre(s, pid, file, lo, n) && RangeFree(s.procs[pid].areas, lo, lo + n)
    ensures PtOk(MapFree(s, pid, file, lo, n, prot, shared, off), pid)
  {
    var s' := MapFree(s, pid, file, lo, n, prot, shared, off);
    MapFreeExact(s, pid, file, lo, n, prot, shared, off);
    var pr, pr' := s.procs[pid], s'.procs[pid];
    var a := MapArea(lo, n, prot, shared, off, NewBacking(s.objs, file, shared).top);
    forall p | p in pr'.pt
      ensures PteOk(s'.objs, pr'.areas, p, pr'.pt[p])
    {
      assert PtOk(s, pid) && PteOk(s.objs, pr.areas, p, pr.pt[p]);
      InsertMeaning(pr.areas, a, p);
      LiveAfter(s', pid, p);
      PteKeeps(s.objs, s'.objs, Ext(s'), pr.areas, pr'.areas, p, pr.pt[p]);
    }
  }

  lemma MapFreeInv(s: State, pid: nat, file: Option<nat>, lo: nat, n: nat, prot: Prot, shared: bool, off: nat)
    requires Inv(s) && MapPre(s, pid, file, lo, n) && RangeFree(s.procs[pid].areas, lo, lo + n)
    ensures Inv(MapFree(s, pid, file, lo, n, prot, shared, off))
  {
    var s' := MapFree(s, pid, file, lo, n, prot, shared, off);
    MapFreeExact(s, pid, file, lo, n, prot, shared, off);
    MapFreePrivates(s, pid, file, lo, n, prot, shared, off);
    MapFreeAnons(s, pid, file, lo, n, prot, shared, off);
    forall q | 0 <= q < |s'.procs|
      ensures AreasOk(s', q) && PtOk(s', q)
    {
      MapFreeAreas(s, pid, file, lo, n, prot, shared, off, q);
      if q == pid {
        MapFreePt(s, pid, file, lo, n, prot, shared, off);
      } else {
        PtKeeps(s, s', q);
      }
    }
  }

  // What the pages of a new mapping show
  function NewBytes(objs: seq<MmObj>, file: Option<nat>, pn: nat): Page
    requires file.Some? ==> file.value < |objs|
  {
    if file.None? then ZERO_PAGE else Resolve(objs, file.value, pn)
  }

  lemma MapFreeView(s: State, pid: nat, file: Option<nat>, lo: nat, n: nat, prot: Prot, shared: bool, off: nat,
                    q: nat, p: nat)
    requires Inv(s) && MapPre(s, pid, file, lo, n) && RangeFree(s.procs[pid].areas, lo, lo + n) && q < |s.procs|
    ensures View(MapFree(s, pid, file, lo, n, prot, shared, off), q, p) ==
            if q == pid && lo <= p < lo + n then Some(NewBytes(s.objs, file, off + (p - lo))) else View(s, q, p)
  {
    assert Formed(s.objs);
    hide Inv, InsertArea;
    MapFreeExact(s, pid, file, lo, n, prot, shared, off);
    MapFreeTarget(s, pid, file, lo, n, prot, shared, off, q, p);
    if q == pid && lo <= p < lo + n {
      BackingResolve(s.objs, file, shared, off + (p - lo));
    } else {
      InvAreasOk(s, q);
      ViewKeeps(s, MapFree(s, pid, file, lo, n, prot, shared, off), q, p);
    }
  }

  lemma InvAreasOk(s: State, q: nat)
    requires Inv(s) && q < |s.procs|
    ensures AreasOk(s, q)
  {
  }

  lemma MapFreeTarget(s: State, pid: nat, file: Option<nat>, lo: nat, n: nat, prot: Prot, shared: bool, off: nat,
                      q: nat, p: nat)
    requires Inv(s) && MapPre(s, pid, file, lo, n) && RangeFree(s.procs[pid].areas, lo, lo + n) && q < |s.procs|
    ensures var top := NewBacking(s.objs, file, shared).top;
            Target(MapFree(s, pid, file, lo, n, prot, shared, off).procs[q].areas, p) ==
            if q == pid && lo <= p < lo + n then Some(MappingOf(MapArea(lo, n, prot, shared, off, top), p))
            else Target(s.procs[q].areas, p)
  {
    hide Inv;
    if q == pid {
      InsertMeaning(s.procs[pid].areas, MapArea(lo, n, prot, shared, off, NewBacking(s.objs, file, shared).top), p);
    }
  }

  // vmmap_map at a given range: whatever was mapped there goes first
  ghost function MapAt(s: State, pid: nat, file: Option<nat>, lo: nat, n: nat, prot: Prot, shared: bool,
                       off: nat): State
    requires AreasIn(s, pid) && (file.Some? ==> file.value < |s.objs|)
  {
    if RangeFree(s.procs[pid].areas, lo, lo + n) then MapFree(s, pid, file, lo, n, prot, shared, off)
    else MapFree(Remove(s, pid, lo, lo + n), pid, file, lo, n, prot, shared, off)
  }

  lemma RemoveKeepsFiles(s: State, pid: nat, lo: nat, hi: nat, f: nat, pn: nat)
    requires Inv(s) && AreasIn(s, pid) && lo <= hi && IsFile(s.objs, f)
    ensures IsFile(Remove(s, pid, lo, hi).objs, f)
    ensures Resolve(Remove(s, pid, lo, hi).objs, f, pn) == Resolve(s.objs, f, pn)
  {
    RemoveInv(s, pid, lo, hi);
    RemoveExact(s, pid, lo, hi);
    FileLive(Remove(s, pid, lo, hi), f);
  }

  lemma MapAtReady(s: State, pid: nat, lo: nat, n: nat)
    requires Inv(s) && pid < |s.procs|
    ensures AreasIn(s, pid) && Inv(Remove(s, pid, lo, lo + n))
    ensures RangeFree(Remove(s, pid, lo, lo + n).procs[pid].areas, lo, lo + n)
  {
    RemoveInv(s, pid, lo, lo + n);
    var areas := Remove(s, pid, lo, lo + n).procs[pid].areas;
    forall p | lo <= p < lo + n
      ensures Target(areas, p).None?
    {
      CutMeaning(s.procs[pid].areas, lo, lo + n, p);
    }
  }

  lemma MapAtInv(s: State, pid: nat, file: Option<nat>, lo: nat, n: nat, prot: Prot, shared: bool, off: nat)
    requires Inv(s) && MapPre(s, pid, file, lo, n)
    ensures AreasIn(s, pid) && Inv(MapAt(s, pid, file, lo, n, prot, shared, off))
  {
    MapAtReady(s, pid, lo, n);
    if RangeFree(s.procs[pid].areas, lo, lo + n) {
      MapFreeInv(s, pid, file, lo, n, prot, shared, off);
    } else {
      if file.Some? {
        RemoveKeepsFiles(s, pid, lo, lo + n, file.value, 0);
      }
      MapFreeInv(Remove(s, pid, lo, lo + n), pid, file, lo, n, prot, shared, off);
    }
  }

  // A successful map overrides the process's pages on exactly the new range
  // and is invisible to everybody else.
  lemma MapAtView(s: State, pid: nat, file: Option<nat>, lo: nat, n: nat, prot: Prot, shared: bool, off: nat, q: nat,
                  p: nat)
    requires Inv(s) && MapPre(s, pid, file, lo, n) && AreasIn(s, pid) && q < |s.procs|
    ensures View(MapAt(s, pid, file, lo, n, prot, shared, off), q, p) ==
            if q == pid && lo <= p < lo + n then Some(NewBytes(s.objs, file, off + (p - lo))) else View(s, q, p)
  {
    if RangeFree(s.procs[pid].areas, lo, lo + n) {
      MapFreeView(s, pid, file, lo, n, prot, shared, off, q, p);
    } else {
      MapOverView(s, pid, file, lo, n, prot, shared, off, q, p);
    }
  }

  lemma MapOverView(s: State, pid: nat, file: Option<nat>, lo: nat, n: nat, prot: Prot, shared: bool, off: nat,
                    q: nat, p: nat)
    requires Inv(s) && MapPre(s, pid, file, lo, n) && AreasIn(s, pid) && q < |s.procs|
    ensures View(MapFree(Remove(s, pid, lo, lo + n), pid, file, lo, n, prot, shared, off), q, p) ==
            if q == pid && lo <= p < lo + n then Some(NewBytes(s.objs, file, off + (p - lo))) else View(s, q, p)
  {
    hide Inv, View, MapFree;
    var s1 := Remove(s, pid, lo, lo + n);
    MapAtReady(s, pid, lo, n);
    assert View(s1, q, p) == if q == pid && lo <= p < lo + n then None else View(s, q, p) by {
      RemoveView(s, pid, lo, lo + n, q, p);
    }
    var k := if p >= lo then off + (p - lo) else 0;
    if file.Some? {
      RemoveKeepsFiles(s, pid, lo, lo + n, file.value, k);
    }
    assert NewBytes(s1.objs, file, k) == NewBytes(s.objs, file, k);
    MapFreeView(s1, pid, file, lo, n, prot, shared, off, q, p);
  }

  // ---- do_brk ----

  function PageOf(addr: nat): nat {
    addr / PAGE_SIZE
  }

  // ADDR_TO_PN(PAGE_ALIGN_UP(addr)); addr is at most USER_MEM_HIGH, so the
  // rounding does not overflow
  function PageUp(addr: nat): nat {
    (addr + PAGE_SIZE - 1) / PAGE_SIZE
  }

  ghost predicate HeapPresent(s: State, pid: nat) {
    AreasIn(s, pid) && Find(s.procs[pid].areas, PageOf(s.procs[pid].startBrk)).Some?
  }

  ghost function HeapIndex(s: State, pid: nat): (i: nat)
    requires HeapPresent(s, pid)
    ensures i < |s.procs[pid].areas| && s.procs[pid].areas[i].Covers(PageOf(s.procs[pid].startBrk))
  {
    FindIndex(s.procs[pid].areas, PageOf(s.procs[pid].startBrk))
  }

  ghost predicate BrkAccepted(s: State, pid: nat, addr: nat)
    requires HeapPresent(s, pid)
  {
    var pr := s.procs[pid];
    && pr.startBrk <= addr <= HIGH_PAGE * PAGE_SIZE
    && RangeFree(pr.areas, pr.areas[HeapIndex(s, pid)].end, PageUp(addr))
  }

  ghost function GrowHeap(s: State, pid: nat, end: nat): State
    requires HeapPresent(s, pid)
  {
    var pr := s.procs[pid];
    WithProc(s, pid, s.objs, pr.(areas := Grow(pr.areas, HeapIndex(s, pid), end)))
  }

  // The state after an accepted do_brk(addr)
  ghost function Brk(s: State, pid: nat, addr: nat): State
    requires HeapPresent(s, pid)
  {
    var oldEnd, newEnd := s.procs[pid].areas[HeapIndex(s, pid)].end, PageUp(addr);
    var s' := if newEnd < oldEnd then Remove(s, pid, newEnd, oldEnd)
              else if oldEnd < newEnd then GrowHeap(s, pid, newEnd)
              else s;
    s'.(procs := s'.procs[pid := s'.procs[pid].(brk := addr)])
  }

  // What the loader does for a program whose data ends at start: the break
  // and its lower limit are set there
  ghost function Load(s: State, pid: nat, start: nat): State
    requires pid < |s.procs|
  {
    s.(procs := s.procs[pid := s.procs[pid].(startBrk := start, brk := start)])
  }

  lemma SetBrkInv(s: State, pid: nat, start: nat, addr: nat)
    requires Inv(s) && pid < |s.procs|
    ensures Inv(s.(procs := s.procs[pid := s.procs[pid].(startBrk := start, brk := addr)]))
  {
    var s' := s.(procs := s.procs[pid := s.procs[pid].(startBrk := start, brk := addr)]);
    forall o: nat
      ensures AreaRefs(s'.procs, o) == AreaRefs(s.procs, o)
    {
      AreaRefsUpdate(s.procs, pid, s'.procs[pid], o);
    }
    ExactCongruent(s.objs, Ext(s), Ext(s'));
    forall q | 0 <= q < |s'.procs|
      ensures AreasOk(s', q) && PtOk(s', q)
    {
      assert AreasOk(s, q) && PtOk(s, q);
    }
    forall q, a | 0 <= q < |s'.procs| && a in s'.procs[q].areas && !a.shared
      ensures PrivateOk(s', q, a)
    {
      assert PrivateOk(s, q, a);
    }
    forall y | 0 <= y < |s'.objs|
      ensures AnonApart(s', y)
    {
      assert AnonApart(s, y);
    }
  }

  lemma GrowHeapExact(s: State, pid: nat, end: nat)
    requires Inv(s) && HeapPresent(s, pid)
    ensures Exact(s.objs, Ext(GrowHeap(s, pid, end)))
  {
    var s' := GrowHeap(s, pid, end);
    var areas, i := s.procs[pid].areas, HeapIndex(s, pid);
    forall o: nat
      ensures Ext(s)(o) == ExtPlus(Ext(s), areas, s'.procs[pid].areas)(o)
    {
      CountUpdate(areas, i, areas[i].(end := end), o);
      assert [areas[i]][1..] == [] && [areas[i].(end := end)][1..] == [];
    }
    ExactCongruent(s.objs, Ext(s), ExtPlus(Ext(s), areas, s'.procs[pid].areas));
    WithProcExact(s, pid, s.objs, s'.procs[pid]);
  }

  lemma GrowHeapPrivates(s: State, pid: nat, end: nat)
    requires Inv(s) && HeapPresent(s, pid)
    ensures PrivatesOk(GrowHeap(s, pid, end)) && AnonsApart(GrowHeap(s, pid, end))
  {
    var s' := GrowHeap(s, pid, end);
    var i := HeapIndex(s, pid);
    forall q, b | 0 <= q < |s'.procs| && b in s'.procs[q].areas
      ensures exists a :: a in s.procs[q].areas && AlignedWith(b, a)
    {
      if q == pid && b == s'.procs[pid].areas[i] {
        assert AlignedWith(b, s.procs[pid].areas[i]);
      } else {
        assert AlignedWith(b, b);
      }
    }
    PrivatesAligned(s, s');
    AnonsAligned(s, s');
  }

  lemma GrowHeapInv(s: State, pid: nat, end: nat)
    requires Inv(s) && HeapPresent(s, pid)
    requires var areas := s.procs[pid].areas;
             var e := areas[HeapIndex(s, pid)].end; e < end <= HIGH_PAGE && RangeFree(areas, e, end)
    ensures Inv(GrowHeap(s, pid, end))
  {
    var s' := GrowHeap(s, pid, end);
    GrowHeapExact(s, pid, end);
    GrowHeapPrivates(s, pid, end);
    var areas, i := s.procs[pid].areas, HeapIndex(s, pid);
    forall q | 0 <= q < |s'.procs|
      ensures AreasOk(s', q) && PtOk(s', q)
    {
      assert AreasOk(s, q) && PtOk(s, q);
      if q == pid {
        GrowSorted(areas, i, end);
        forall p | p in s.procs[pid].pt
          ensures PteOk(s'.objs, s'.procs[pid].areas, p, s.procs[pid].pt[p])
        {
          assert PteOk(s.objs, areas, p, s.procs[pid].pt[p]);
          GrowMeaning(areas, i, end, p);
        }
      }
    }
  }

  lemma BrkInv(s: State, pid: nat, addr: nat)
    requires Inv(s) && HeapPresent(s, pid) && BrkAccepted(s, pid, addr)
    ensures Inv(Brk(s, pid, addr))
  {
    var oldEnd, newEnd := s.procs[pid].areas[HeapIndex(s, pid)].end, PageUp(addr);
    if newEnd < oldEnd {
      RemoveInv(s, pid, newEnd, oldEnd);
      SetBrkInv(Remove(s, pid, newEnd, oldEnd), pid, s.procs[pid].startBrk, addr);
    } else if oldEnd < newEnd {
      GrowHeapInv(s, pid, newEnd);
      SetBrkInv(GrowHeap(s, pid, newEnd), pid, s.procs[pid].startBrk, addr);
    } else {
      SetBrkInv(s, pid, s.procs[pid].startBrk, addr);
    }
  }

  // brk changes only the pages between the old and the new end of the heap
  // area; added pages continue the area's object.
  lemma BrkView(s: State, pid: nat, addr: nat, q: nat, p: nat)
    requires Inv(s) && HeapPresent(s, pid) && BrkAccepted(s, pid, addr) && q < |s.procs|
    ensures var a := s.procs[pid].areas[HeapIndex(s, pid)];
            View(Brk(s, pid, addr), q, p) ==
            if q == pid && PageUp(addr) <= p < a.end then None
            else if q == pid && a.end <= p < PageUp(addr) then Some(Resolve(s.objs, a.obj, a.off + (p - a.start)))
            else View(s, q, p)
  {
    var areas, i := s.procs[pid].areas, HeapIndex(s, pid);
    var oldEnd, newEnd := areas[i].end, PageUp(addr);
    if newEnd < oldEnd {
      RemoveView(s, pid, newEnd, oldEnd, q, p);
    } else if oldEnd < newEnd && q == pid {
      GrowMeaning(areas, i, newEnd, p);
    }
  }

  // After a successful call the next one finds its area again, unless the
  // break went back to a page-aligned start: then the area may be gone.
  lemma BrkAgain(s: State, pid: nat, addr: nat)
    requires Inv(s) && HeapPresent(s, pid) && BrkAccepted(s, pid, addr)
    ensures HeapPresent(Brk(s, pid, addr), pid) <==> !(addr == s.procs[pid].startBrk && addr % PAGE_SIZE == 0)
  {
    BrkInv(s, pid, addr);
    var s' := Brk(s, pid, addr);
    assert AreasOk(s', pid);
    var areas, i, h := s.procs[pid].areas, HeapIndex(s, pid), PageOf(s.procs[pid].startBrk);
    var oldEnd, newEnd := areas[i].end, PageUp(addr);
    FindTarget(areas, h);
    FindTarget(s'.procs[pid].areas, h);
    PageUpBound(s.procs[pid].startBrk, addr);
    if newEnd < oldEnd {
      CutMeaning(areas, newEnd, oldEnd, h);
    } else if oldEnd < newEnd {
      GrowMeaning(areas, i, newEnd, h);
    }
  }

  // What a break is for: every address from the start up to it is mapped, and of
  // the old heap no page that lies wholly beyond it is
  lemma BrkCovers(s: State, pid: nat, addr: nat, b: nat)
    requires Inv(s) && HeapPresent(s, pid) && BrkAccepted(s, pid, addr)
    ensures s.procs[pid].startBrk <= b < addr ==> View(Brk(s, pid, addr), pid, b / PAGE_SIZE).Some?
    ensures addr <= b && b % PAGE_SIZE == 0 && b / PAGE_SIZE < s.procs[pid].areas[HeapIndex(s, pid)].end ==>
              View(Brk(s, pid, addr), pid, b / PAGE_SIZE).None?
  {
    var areas, i, p := s.procs[pid].areas, HeapIndex(s, pid), b / PAGE_SIZE;
    BrkView(s, pid, addr, pid, p);
    if s.procs[pid].startBrk <= b < addr && p < areas[i].end {
      assert AreasOk(s, pid);
      PageUpBeyond(b, addr);
      FindAt(areas, i, p);
    }
  }

  lemma PageUpBeyond(b: nat, addr: nat)
    requires b < addr
    ensures b / PAGE_SIZE < PageUp(addr)
  {
  }

  lemma PageUpBound(start: nat, addr: nat)
    requires start <= addr
    ensures PageOf(start) <= PageUp(addr)
    ensures PageOf(start) == PageUp(addr) <==> addr == start && addr % PAGE_SIZE == 0
  {
  }

  // Shrink to addr, then grow back to addr'
  ghost predicate ShrinkGrow(s: State, pid: nat, addr: nat, addr': nat) {
    && HeapPresent(s, pid) && s.procs[pid].startBrk <= addr
    && !(addr == s.procs[pid].startBrk && addr % PAGE_SIZE == 0)
    && PageUp(addr) < s.procs[pid].areas[HeapIndex(s, pid)].end == PageUp(addr')
    && addr' <= HIGH_PAGE * PAGE_SIZE
  }

  lemma ShrinkGrowAccepted(s: State, pid: nat, addr: nat, addr': nat)
    requires Inv(s) && ShrinkGrow(s, pid, addr, addr')
    ensures BrkAccepted(s, pid, addr) && HeapPresent(Brk(s, pid, addr), pid)
            && BrkAccepted(Brk(s, pid, addr), pid, addr')
    ensures var s1 := Brk(s, pid, addr);
            s1.procs[pid].areas[HeapIndex(s1, pid)] == s.procs[pid].areas[HeapIndex(s, pid)].(end := PageUp(addr))
  {
    var areas := s.procs[pid].areas;
    var newEnd, oldEnd := PageUp(addr), areas[HeapIndex(s, pid)].end;
    PageUpBound(s.procs[pid].startBrk, addr);
    HeapAfterShrink(s, pid, addr);
    var areas1 := Brk(s, pid, addr).procs[pid].areas;
    forall p | newEnd <= p < oldEnd
      ensures Target(areas1, p).None?
    {
      CutMeaning(areas, newEnd, oldEnd, p);
    }
  }

  // The pages cut off by a shrink keep their bytes in the area's object
  lemma ShrinkKeepsBytes(s: State, pid: nat, addr: nat, addr': nat, p: nat)
    requires Inv(s) && ShrinkGrow(s, pid, addr, addr') && PageUp(addr) <= p < PageUp(addr')
    ensures var a := s.procs[pid].areas[HeapIndex(s, pid)];
            var s1 := Brk(s, pid, addr);
            && a.obj < |s1.objs|
            && View(s, pid, p) == Some(Resolve(s1.objs, a.obj, a.off + (p - a.start)))
  {
    assert AreasOk(s, pid);
    var areas, i := s.procs[pid].areas, HeapIndex(s, pid);
    PageUpBound(s.procs[pid].startBrk, addr);
    FindAt(areas, i, p);
    ShrinkGrowAccepted(s, pid, addr, addr');
    RemoveExact(s, pid, PageUp(addr), areas[i].end);
    RemoveInv(s, pid, PageUp(addr), areas[i].end);
    var s2 := Remove(s, pid, PageUp(addr), areas[i].end);
    AreaLive(s2, pid, areas[i].(end := PageUp(addr)));
    KeepsOwner(s.objs, s2.objs, Ext(s2), areas[i].obj, areas[i].off + (p - areas[i].start));
  }

  // Shrinking the heap and growing it back shows the old bytes again
  lemma BrkRoundTrip(s: State, pid: nat, addr: nat, addr': nat, q: nat, p: nat)
    requires Inv(s) && ShrinkGrow(s, pid, addr, addr') && q < |s.procs|
    ensures BrkAccepted(s, pid, addr) && HeapPresent(Brk(s, pid, addr), pid)
            && BrkAccepted(Brk(s, pid, addr), pid, addr')
    ensures View(Brk(Brk(s, pid, addr), pid, addr'), q, p) == View(s, q, p)
  {
    ShrinkGrowAccepted(s, pid, addr, addr');
    var s1 := Brk(s, pid, addr);
    BrkInv(s, pid, addr);
    if q == pid && PageUp(addr) <= p < PageUp(addr') {
      RegrowInside(s, pid, addr, addr', p);
    } else {
      RegrowOutside(s1, pid, addr', q, p);
      ShrinkOutside(s, pid, addr, q, p);
    }
  }

  lemma ShrinkOutside(s: State, pid: nat, addr: nat, q: nat, p: nat)
    requires Inv(s) && HeapPresent(s, pid) && BrkAccepted(s, pid, addr) && q < |s.procs|
    requires var end := s.procs[pid].areas[HeapIndex(s, pid)].end;
             PageUp(addr) <= end && !(q == pid && PageUp(addr) <= p < end)
    ensures View(Brk(s, pid, addr), q, p) == View(s, q, p)
  {
    BrkView(s, pid, addr, q, p);
  }

  lemma RegrowOutside(s: State, pid: nat, addr: nat, q: nat, p: nat)
    requires Inv(s) && HeapPresent(s, pid) && BrkAccepted(s, pid, addr) && q < |s.procs|
    requires var end := s.procs[pid].areas[HeapIndex(s, pid)].end;
             end <= PageUp(addr) && !(q == pid && end <= p < PageUp(addr))
    ensures View(Brk(s, pid, addr), q, p) == View(s, q, p)
  {
    BrkView(s, pid, addr, q, p);
  }

  lemma RegrowInside(s: State, pid: nat, addr: nat, addr': nat, p: nat)
    requires Inv(s) && ShrinkGrow(s, pid, addr, addr') && PageUp(addr) <= p < PageUp(addr')
    requires BrkAccepted(s, pid, addr) && HeapPresent(Brk(s, pid, addr), pid)
             && BrkAccepted(Brk(s, pid, addr), pid, addr')
    requires Inv(Brk(s, pid, addr))
    ensures View(Brk(Brk(s, pid, addr), pid, addr'), pid, p) == View(s, pid, p)
  {
    hide Inv, View;
    var s1 := Brk(s, pid, addr);
    ShrinkGrowAccepted(s, pid, addr, addr');
    ShrinkKeepsBytes(s, pid, addr, addr', p);
    var a := s.procs[pid].areas[HeapIndex(s, pid)];
    assert View(Brk(s1, pid, addr'), pid, p) == Some(Resolve(s1.objs, a.obj, a.off + (p - a.start))) by {
      BrkView(s1, pid, addr', pid, p);
    }
  }

  lemma HeapAfterShrink(s: State, pid: nat, addr: nat)
    requires Inv(s) && HeapPresent(s, pid) && BrkAccepted(s, pid, addr)
    requires PageOf(s.procs[pid].startBrk) < PageUp(addr) < s.procs[pid].areas[HeapIndex(s, pid)].end
    ensures var s1 := Brk(s, pid, addr);
            && HeapPresent(s1, pid)
            && s1.procs[pid].areas[HeapIndex(s1, pid)] == s.procs[pid].areas[HeapIndex(s, pid)].(end := PageUp(addr))
  {
    var areas, i, h := s.procs[pid].areas, HeapIndex(s, pid), PageOf(s.procs[pid].startBrk);
    var lo, hi := PageUp(addr), areas[i].end;
    BrkInv(s, pid, addr);
    var s1 := Brk(s, pid, addr);
    assert AreasOk(s, pid) && AreasOk(s1, pid);
    CutMember(areas, lo, hi, i, areas[i].(end := lo));
    var k :| 0 <= k < |s1.procs[pid].areas| && s1.procs[pid].areas[k] == areas[i].(end := lo);
    FindAt(s1.procs[pid].areas, k, h);
  }

  lemma {:induction false} CutMember(areas: seq<Area>, lo: nat, hi: nat, i: nat, b: Area)
    requires lo <= hi && i < |areas| && b in Cut(areas[i], lo, hi)
    ensures b in CutAll(areas, lo, hi)
  {
    if i > 0 {
      CutMember(areas[1..], lo, hi, i - 1, b);
    }
  }
}
