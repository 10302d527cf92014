/**
 The virtual memory operations as the kernel performs them: a class whose
 methods change the object table and the processes step by step.  Each method
 is tied to the operation on values of the same name, about which the other
 modules prove what the kernel promises.  The kernel's own assertions about
 counts, pins and ranges hold where they stand; those about NULL pointers and
 busy frames have no counterpart here.

 A freed object stays in the table and is marked as not live.  The body of each
 loop is a method of its own (`CutNext`, `ForkNext`, `ReadTurn`, `WriteTurn`).  The
 parameter `ext` is the number of references held from outside the object table
 at that moment, which makes exact counts expressible in the middle of an
 operation.  Addresses and sizes have 32 bits.
 */
module VmKernel {
  import opened Basics
  import opened Areas
  import opened Objects
  import opened AddressSpaces
  import opened PageAccess
  import opened Mappings
  import opened Forking
  import opened Transfer
  import Scan = AreaScans
  import O = Objects
  import M = Mappings
  import F = Forking
  import I = Isolation

  // ---- facts about intermediate object tables ----

  // One page uncached, its reference still counted
  lemma PageGone(objs: seq<MmObj>, o: nat, pn: nat, ext: nat -> int)
    requires Formed(objs) && Exact(objs, ext) && o < |objs| && pn in objs[o].pages && objs[o].live
    ensures Formed(Uncached(objs, o, pn)) && Exact(Uncached(objs, o, pn), Bump(ext, o, 1))
    ensures |Uncached(objs, o, pn)[o].pages| == |objs[o].pages| - 1
  {
    var x := objs[o];
    var r := Uncached(objs, o, pn);
    assert ObjOk(objs, o) && FramesOk(x);
    assert (x.pages - {pn}).Keys == x.pages.Keys - {pn};
    assert |x.pages| == |x.pages.Keys| && |x.pages - {pn}| == |(x.pages - {pn}).Keys|;
    FormedUpdate(objs, o, r[o]);
    SameLinks(objs, o, r[o]);
    forall y | 0 <= y < |r|
      ensures ExactAt(r, Bump(ext, o, 1), y)
    {
      assert ExactAt(objs, ext, y);
    }
  }

  // The table with page pn of object o uncached, unpinned or pinned once
  function Uncached(objs: seq<MmObj>, o: nat, pn: nat): seq<MmObj>
    requires o < |objs|
  {
    objs[o := objs[o].(nres := objs[o].nres - 1, pages := objs[o].pages - {pn})]
  }

  function Repinned(objs: seq<MmObj>, o: nat, pn: nat, pin: nat): seq<MmObj>
    requires o < |objs| && pn in objs[o].pages
  {
    objs[o := objs[o].(pages := objs[o].pages[pn := objs[o].pages[pn].(pin := pin)])]
  }

  lemma UncachedRepinned(objs: seq<MmObj>, o: nat, pn: nat, pin: nat)
    requires o < |objs| && pn in objs[o].pages
    ensures Uncached(Repinned(objs, o, pn, pin), o, pn) == Uncached(objs, o, pn)
    ensures |Repinned(objs, o, pn, pin)[o].pages| == |objs[o].pages|
  {
    var r := Repinned(objs, o, pn, pin);
    assert r[o].pages - {pn} == objs[o].pages - {pn};
    assert r[o].pages.Keys == objs[o].pages.Keys;
    assert |r[o].pages| == |r[o].pages.Keys| && |objs[o].pages| == |objs[o].pages.Keys|;
  }

  lemma RefAppend(objs: seq<MmObj>, t: seq<MmObj>, o: nat)
    requires o < |objs|
    ensures O.Ref(objs + t, o) == O.Ref(objs, o) + t
  {
  }

  // What lies below an object does not depend on the object
  lemma {:induction false} OwnerBelow(objs: seq<MmObj>, o: nat, x: MmObj, y: nat, pn: nat)
    requires o < |objs| && y < o
    ensures Owner(objs[o := x], y, pn) == Owner(objs, y, pn)
    decreases y
  {
    if !(pn in objs[y].pages || !objs[y].kind.Shadow? || objs[y].shadowed >= y) {
      OwnerBelow(objs, o, x, objs[y].shadowed, pn);
    }
  }

  class Kernel {
    var objs: seq<MmObj>
    var procs: seq<Proc>

    ghost function S(): State
      reads this
    {
      State(objs, procs)
    }

    constructor (files: seq<seq<Page>>)
      ensures S() == I.Boot(files) && Inv(S())
    {
      objs := [I.NO_OBJ] + seq(|files|, i requires 0 <= i < |files| => I.FileObj(files[i]));
      procs := [Proc([], map[], 0, 0)];
      new;
      I.BootInv(files);
      assert objs == I.Boot(files).objs;
    }

    // ---- reference counts ----

    // anon_ref, shadow_ref
    method Ref(o: nat)
      requires o < |objs| && 0 < objs[o].refcount
      modifies this`objs
      ensures objs == O.Ref(old(objs), o)
    {
      objs := objs[o := objs[o].(refcount := objs[o].refcount + 1)];
    }

    method PframePin(o: nat, pn: nat)
      requires o < |objs| && pn in objs[o].pages
      modifies this`objs
      ensures objs == Repinned(old(objs), o, pn, old(objs)[o].pages[pn].pin + 1)
    {
      var x := objs[o];
      objs := objs[o := x.(pages := x.pages[pn := x.pages[pn].(pin := x.pages[pn].pin + 1)])];
    }

    method PframeUnpin(o: nat, pn: nat)
      requires o < |objs| && pn in objs[o].pages && objs[o].pages[pn].pin > 0
      modifies this`objs
      ensures objs == Repinned(old(objs), o, pn, old(objs)[o].pages[pn].pin - 1)
    {
      var x := objs[o];
      objs := objs[o := x.(pages := x.pages[pn := x.pages[pn].(pin := x.pages[pn].pin - 1)])];
    }

    // pframe_free: uncache the page, then drop its reference on the object
    method PframeFree(o: nat, pn: nat, ghost ext: nat -> int)
      requires o < |objs| && pn in objs[o].pages && objs[o].pages[pn].pin == 0
      requires Formed(Uncached(objs, o, pn)) && Exact(Uncached(objs, o, pn), ext) && ext(o) > 0
      requires |Uncached(objs, o, pn)[o].pages| < |objs[o].pages|
      modifies this`objs
      ensures objs == O.Put(Uncached(old(objs), o, pn), o)
      decreases o, |objs[o].pages|, 0
    {
      objs := objs[o := objs[o].(nres := objs[o].nres - 1, pages := objs[o].pages - {pn})];
      Put(o, ext);
    }

    // anon_put, shadow_put.  Freeing the pages of a dying object calls put
    // on the same object again, once per page.
    method Put(o: nat, ghost ext: nat -> int)
      requires Formed(objs) && Exact(objs, ext) && o < |objs| && ext(o) > 0
      modifies this`objs
      ensures objs == O.Put(old(objs), o)
      decreases o, |objs[o].pages|, 3
    {
      ghost var objs0, x := objs, objs[o];
      assert ExactAt(objs, ext, o) && ObjOk(objs, o);
      assert 0 < objs[o].refcount;
      if objs[o].refcount - 1 == objs[o].nres {
        UncachePages(o, ext);
        assert objs == objs0[o := x.(refcount := 1, nres := 0, pages := map[])];
        PutRelease(objs0, o, ext);
        FormedUpdate(objs0, o, Emptied(x));
        objs := objs[o := objs[o].(live := false)];
        assert objs == objs0[o := Emptied(x)];
        if objs[o].kind.Shadow? {
          ghost var e1 := Bump(Bump(Bump(ext, o, -1), x.bottom, 1), x.shadowed, 1);
          PutExact(objs, objs[o].bottom, e1);
          PutFormed(objs, objs[o].bottom);
          Put(objs[o].bottom, e1);
          Put(objs[o].shadowed, Bump(e1, x.bottom, -1));
        }
        objs := objs[o := objs[o].(refcount := objs[o].refcount - 1)];
      } else {
        objs := objs[o := objs[o].(refcount := objs[o].refcount - 1)];
      }
    }

    // Unpin a resident page of a dying object once and free it
    method UncachePage(o: nat, pn: nat, ghost ext: nat -> int)
      requires Formed(objs) && Exact(objs, ext) && o < |objs| && objs[o].live && ext(o) > 0
      requires objs[o].refcount - 1 == objs[o].nres && pn in objs[o].pages
      modifies this`objs
      ensures objs == PageDropped(old(objs), o, pn)
      decreases o, |objs[o].pages|, 1
    {
      ghost var before := objs;
      assert FramesOk(objs[o]);
      PageGone(objs, o, pn, ext);
      PageDroppedByPut(before, o, pn, ext);
      if objs[o].pages[pn].pin > 0 {
        UncachedRepinned(objs, o, pn, objs[o].pages[pn].pin - 1);
        PframeUnpin(o, pn);
      }
      PframeFree(o, pn, Bump(ext, o, 1));
    }

    // The teardown loop
    method UncachePages(o: nat, ghost ext: nat -> int)
      requires Formed(objs) && Exact(objs, ext) && o < |objs| && objs[o].live && ext(o) > 0
      requires objs[o].refcount - 1 == objs[o].nres
      modifies this`objs
      ensures objs == old(objs)[o := old(objs)[o].(refcount := 1, nres := 0, pages := map[])]
      decreases o, |objs[o].pages|, 2
    {
      ghost var n0 := |objs[o].pages|;
      while objs[o].pages != map[]
        invariant |objs| == |old(objs)|
        invariant Formed(objs) && Exact(objs, ext) && objs[o].live
        invariant objs[o].refcount - 1 == objs[o].nres && |objs[o].pages| <= n0
        invariant objs ==
                  old(objs)[o := old(objs)[o].(refcount := objs[o].refcount, nres := objs[o].nres,
                    pages := objs[o].pages)]
        decreases |objs[o].pages|
      {
        var pn :| pn in objs[o].pages;
        PageDroppedByPut(objs, o, pn, ext);
        UncachePage(o, pn, ext);
      }
      assert ObjOk(objs, o);
    }

    // ---- pages ----

    // pframe_alloc: a frame with nothing in it yet
    method PframeAlloc(o: nat, pn: nat)
      requires o < |objs| && pn !in objs[o].pages
      modifies this`objs
      ensures |objs| == |old(objs)| && pn in objs[o].pages
      ensures objs[o].pages[pn].pin == 0 && !objs[o].pages[pn].dirty
      ensures objs == AddPage(old(objs), o, pn, objs[o].pages[pn])
    {
      var junk: Page := *;
      var x := objs[o];
      objs := objs[o := x.(refcount := x.refcount + 1, nres := x.nres + 1,
        pages := x.pages[pn := Frame(junk, 0, false)])];
    }

    // memset and memcpy into a frame
    method CopyInto(o: nat, pn: nat, bytes: Page)
      requires o < |objs| && pn in objs[o].pages
      modifies this`objs
      ensures objs ==
              old(objs)[o := old(objs)[o].(pages := old(objs)[o].pages[pn := old(objs)[o].pages[pn].(bytes := bytes)])]
    {
      objs := objs[o := objs[o].(pages := objs[o].pages[pn := objs[o].pages[pn].(bytes := bytes)])];
    }

    method PframeDirty(o: nat, pn: nat)
      requires o < |objs| && pn in objs[o].pages
      modifies this`objs
      ensures objs ==
              old(objs)[o := old(objs)[o].(pages := old(objs)[o].pages[pn := old(objs)[o].pages[pn].(dirty := true)])]
    {
      objs := objs[o := objs[o].(pages := objs[o].pages[pn := objs[o].pages[pn].(dirty := true)])];
    }

    // anon_lookuppage: pframe_get, with anon_fillpage for a new page.  A
    // file's page is filled from the file and left unpinned.
    method BottomLookup(b: nat, pn: nat)
      requires b < |objs| && !objs[b].kind.Shadow?
      modifies this`objs
      ensures objs == PageIn(old(objs), b, pn) && pn in objs[b].pages
    {
      if pn !in objs[b].pages {
        PframeAlloc(b, pn);
        if objs[b].kind.Anon? {
          assert objs[b].pages[pn].pin == 0;
          PframePin(b, pn);
        }
        CopyInto(b, pn, Backing(objs[b].kind, pn));
        assert objs[b].pages == PageIn(old(objs), b, pn)[b].pages;
      }
    }

    // shadow_fillpage for the frame just allocated at (o, pn): walk down the
    // chain below o, else ask the bottom object.
    method ShadowFill(o: nat, pn: nat)
      requires o < |objs| && Shaped(objs) && objs[o].kind.Shadow?
      requires pn in objs[o].pages && objs[o].pages[pn].pin == 0 && objs[o].shadowed < o
      modifies this`objs
      ensures objs == Filled(old(objs), o, pn)
    {
      assert ObjOk(objs, o);
      var cur: nat := o;
      var found := false;
      ghost var w := Owner(objs, objs[o].shadowed, pn);
      while objs[cur].kind.Shadow? && !found
        invariant cur <= o && objs == old(objs)
        invariant objs[cur].kind.Shadow? ==> objs[cur].shadowed < cur
        invariant !found && objs[cur].kind.Shadow? ==> Owner(objs, objs[cur].shadowed, pn) == w
        invariant !found && !objs[cur].kind.Shadow? ==> cur == w && pn !in objs[w].pages
        invariant found ==> pn in objs[w].pages && objs[cur].kind.Shadow? && objs[cur].shadowed == w
        decreases cur, !found
      {
        assert ObjOk(objs, objs[cur].shadowed);
        if pn in objs[objs[cur].shadowed].pages {
          found := true;
        } else {
          cur := objs[cur].shadowed;
        }
      }
      OwnerInChain(objs, objs[o].shadowed, pn);
      if found {
        CopyInto(o, pn, objs[objs[cur].shadowed].pages[pn].bytes);
        PframePin(o, pn);
        assert objs[o].pages == Filled(old(objs), o, pn)[o].pages;
      } else {
        var b := objs[o].bottom;
        assert b == w;
        BottomLookup(b, pn);
        CopyInto(o, pn, objs[b].pages[pn].bytes);
        PframePin(o, pn);
        assert objs[o].pages == Filled(old(objs), o, pn)[o].pages;
      }
    }

    // shadow_lookuppage; w is the object whose frame is returned
    method ShadowLookup(o: nat, pn: nat, forwrite: bool) returns (w: nat)
      requires o < |objs| && Shaped(objs) && objs[o].kind.Shadow?
      modifies this`objs
      ensures |objs| == |old(objs)| && w < |objs| && pn in objs[w].pages
      ensures forwrite ==> w == o && objs == WriteLookup(old(objs), o, pn)
      ensures !forwrite ==> w == Owner(old(objs), o, pn) && objs == ReadLookup(old(objs), o, pn)
    {
      assert ObjOk(objs, o);
      if forwrite {
        w := o;
        if pn !in objs[o].pages {
          PframeAlloc(o, pn);
          FilledIsWriteLookup(old(objs), o, pn, objs[o].pages[pn]);
          ShadowFill(o, pn);
          PframeDirty(o, pn);
        }
      } else {
        w := o;
        var found := false;
        while objs[w].kind.Shadow? && !found
          invariant w <= o && objs == old(objs)
          invariant Owner(objs, w, pn) == Owner(objs, o, pn)
          invariant found ==> pn in objs[w].pages
          decreases w, !found
        {
          assert ObjOk(objs, w);
          if pn in objs[w].pages {
            found := true;
          } else {
            w := objs[w].shadowed;
          }
        }
        if !found {
          OwnerInChain(objs, o, pn);
          w := objs[o].bottom;
          BottomLookup(w, pn);
        }
      }
    }

    // pframe_lookup: dispatch on the kind of object
    method PframeLookup(o: nat, pn: nat, forwrite: bool) returns (w: nat)
      requires o < |objs| && Shaped(objs)
      modifies this`objs
      ensures |objs| == |old(objs)| && w < |objs| && pn in objs[w].pages
      ensures forwrite ==> w == o && objs == WriteLookup(old(objs), o, pn)
      ensures !forwrite ==> w == Owner(old(objs), o, pn) && objs == ReadLookup(old(objs), o, pn)
    {
      if objs[o].kind.Shadow? {
        w := ShadowLookup(o, pn, forwrite);
      } else {
        BottomLookup(o, pn);
        w := o;
      }
    }

    // ---- the area list ----

    method SetAreas(pid: nat, areas: seq<Area>)
      requires pid < |procs|
      modifies this`procs
      ensures procs == old(procs)[pid := old(procs)[pid].(areas := areas)]
    {
      procs := procs[pid := procs[pid].(areas := areas)];
    }

    // vmmap_insert
    method VmmapInsert(pid: nat, a: Area)
      requires pid < |procs| && a.InUser()
      modifies this`procs
      ensures procs == old(procs)[pid := old(procs)[pid].(areas := InsertArea(old(procs)[pid].areas, a))]
    {
      var i := Scan.InsertPlace(procs[pid].areas, a.end);
      SetAreas(pid, procs[pid].areas[..i] + [a] + procs[pid].areas[i..]);
    }

    // The body of vmmap_remove's loop for the area at index i; returns the
    // index of its successor.
    method CutAreaAt(pid: nat, i: nat, lopage: nat, endvfn: nat, ghost ext: nat -> int) returns (next: nat)
      requires pid < |procs| && i < |procs[pid].areas| && lopage <= endvfn
      requires procs[pid].areas[i].InUser() && procs[pid].areas[i].obj < |objs|
      requires forall j | 0 <= j < i :: procs[pid].areas[j].start < procs[pid].areas[i].end
      requires i + 1 < |procs[pid].areas| ==> procs[pid].areas[i + 1].start >= procs[pid].areas[i].end
      requires Formed(objs) && Exact(objs, ext) && ext(procs[pid].areas[i].obj) > 0
      modifies this`objs, this`procs
      ensures var areas := old(procs)[pid].areas;
              var c := Cut(areas[i], lopage, endvfn);
              && next == i + |c|
              && objs == CutStep(old(objs), areas[i], lopage, endvfn)
              && procs == old(procs)[pid := old(procs)[pid].(areas := areas[..i] + c + areas[i + 1..])]
    {
      hide Formed, Exact, ExactAt, O.Put, O.Ref;
      var areas := procs[pid].areas;
      var vma := areas[i];
      LiveCount(objs, ext, vma.obj);
      if vma.end > endvfn && vma.start < lopage {
        SplitAt(pid, i, lopage, endvfn);
        Ref(vma.obj);
        next := i + 2;
      } else if vma.end <= endvfn && vma.start < lopage && vma.end > lopage {
        SetAreas(pid, areas[i := vma.(end := lopage)]);
        ReplaceOne(areas, i, vma.(end := lopage));
        next := i + 1;
      } else if vma.end > endvfn && vma.start >= lopage && vma.start < endvfn {
        var cut := vma.(off := vma.off + (endvfn - vma.start), start := endvfn);
        SetAreas(pid, areas[i := cut]);
        ReplaceOne(areas, i, cut);
        next := i + 1;
      } else if vma.end <= endvfn && vma.start >= lopage {
        SetAreas(pid, areas[..i] + areas[i + 1..]);
        assert areas[..i] + [] + areas[i + 1..] == areas[..i] + areas[i + 1..];
        Put(vma.obj, ext);
        next := i;
      } else {
        ReplaceOne(areas, i, vma);
        assert areas[i := vma] == areas;
        next := i + 1;
      }
    }

    // The case of a hole inside the area: the right part is a new area
    method SplitAt(pid: nat, i: nat, lopage: nat, endvfn: nat)
      requires pid < |procs| && i < |procs[pid].areas|
      requires procs[pid].areas[i].InUser() && procs[pid].areas[i].start < lopage <= endvfn < procs[pid].areas[i].end
      requires forall j | 0 <= j < i :: procs[pid].areas[j].start < procs[pid].areas[i].end
      requires i + 1 < |procs[pid].areas| ==> procs[pid].areas[i + 1].start >= procs[pid].areas[i].end
      modifies this`procs
      ensures var areas := old(procs)[pid].areas;
              procs == old(procs)[pid := old(procs)[pid].(areas := areas[..i] + Cut(areas[i], lopage, endvfn)
                + areas[i + 1..])]
    {
      var areas := procs[pid].areas;
      var vma := areas[i];
      var newvma := vma.(start := endvfn, off := vma.off + endvfn - vma.start);
      Scan.InsertPosIs(areas, vma.end, i + 1);
      VmmapInsert(pid, newvma);
      SetAreas(pid, procs[pid].areas[i := vma.(end := lopage)]);
      assert procs[pid].areas == areas[..i] + [vma.(end := lopage), newvma] + areas[i + 1..];
    }

    // vmmap_remove.  Page numbers have at most 20 bits, so lopage + npages
    // does not wrap.
    method VmmapRemove(pid: nat, lopage: nat, npages: nat)
      requires Inv(S()) && pid < |procs| && lopage + npages < WORD
      modifies this
      ensures AreasIn(old(S()), pid) && S() == M.Remove(old(S()), pid, lopage, lopage + npages)
    {
      var endvfn := (lopage + npages) % WORD;
      assert AreasOk(S(), pid);
      ExtCoversAreas(S(), pid);
      CutList(pid, lopage, endvfn, Ext(S()));
      // pt_unmap_range
      procs := procs[pid := procs[pid].(pt := map p | p in procs[pid].pt && !(lopage <= p < endvfn) ::
        procs[pid].pt[p])];
    }

    // The loop of vmmap_remove
    method CutList(pid: nat, lopage: nat, endvfn: nat, ghost ext0: nat -> int)
      requires pid < |procs| && lopage <= endvfn && Sorted(procs[pid].areas)
      requires forall a | a in procs[pid].areas :: a.obj < |objs|
      requires Formed(objs) && Exact(objs, ext0) && forall o: nat :: ext0(o) >= Count(procs[pid].areas, o)
      modifies this
      ensures objs == CutObjs(old(objs), old(procs)[pid].areas, lopage, endvfn)
      ensures procs == old(procs)[pid := old(procs)[pid].(areas := CutAll(old(procs)[pid].areas, lopage, endvfn))]
    {
      ghost var areas0, ext := procs[pid].areas, ext0;
      ghost var k: nat := 0;
      var i: nat := 0;
      CutStateInit(objs, areas0, lopage, endvfn, ext0);
      hide CutShape, CutCounts;
      while i < |procs[pid].areas|
        invariant |procs| == |old(procs)| && procs == old(procs)[pid := old(procs)[pid].(areas := procs[pid].areas)]
        invariant i <= |procs[pid].areas| && k <= |areas0|
        invariant CutShape(areas0, lopage, endvfn, procs[pid].areas, i, k)
        invariant CutCounts(old(objs), areas0, lopage, endvfn, objs, k, ext)
        decreases |areas0| - k
      {
        i, ext := CutNext(pid, i, lopage, endvfn, old(objs), areas0, k, ext);
        k := k + 1;
      }
      CutStateDone(old(objs), areas0, lopage, endvfn, objs, procs[pid].areas, k, ext);
    }

    // One turn of that loop
    method CutNext(pid: nat, i: nat, lopage: nat, endvfn: nat,
                   ghost objs0: seq<MmObj>, ghost areas0: seq<Area>, ghost k: nat, ghost ext: nat -> int)
      returns (next: nat, ghost ext': nat -> int)
      requires pid < |procs| && i < |procs[pid].areas|
      requires CutShape(areas0, lopage, endvfn, procs[pid].areas, i, k)
               && CutCounts(objs0, areas0, lopage, endvfn, objs, k, ext)
      modifies this
      ensures |procs| == |old(procs)| && procs == old(procs)[pid := old(procs)[pid].(areas := procs[pid].areas)]
      ensures next <= |procs[pid].areas| && k < |areas0|
      ensures CutShape(areas0, lopage, endvfn, procs[pid].areas, next, k + 1)
              && CutCounts(objs0, areas0, lopage, endvfn, objs, k + 1, ext')
    {
      CutReady(areas0, lopage, endvfn, procs[pid].areas, i, k);
      CutCountsStep(objs0, areas0, lopage, endvfn, objs, k, ext);
      CutShapeStep(areas0, lopage, endvfn, procs[pid].areas, i, k);
      ext' := ExtPlus(ext, [areas0[k]], Cut(areas0[k], lopage, endvfn));
      next := CutAreaAt(pid, i, lopage, endvfn, ext);
    }

    // vmmap_destroy, and the page table that goes with the process
    method VmmapDestroy(pid: nat)
      requires Inv(S()) && pid < |procs|
      modifies this
      ensures AreasIn(old(S()), pid) && S() == M.Destroy(old(S()), pid)
    {
      ghost var s0, ext := S(), Ext(S());
      DestroyEmpties(s0, pid);
      assert AreasOk(s0, pid);
      ExtCoversAreas(s0, pid);
      hide Inv, Ext, AreasOk, M.Remove, CutAll, CutObjs;
      var areas := procs[pid].areas;
      var i: nat := 0;
      while i < |areas|
        invariant i <= |areas| && |procs| == |old(procs)|
        invariant procs == old(procs)[pid := old(procs)[pid].(areas := areas[i..])]
        invariant CutCounts(old(objs), areas, LOW_PAGE, HIGH_PAGE, objs, i, ext)
      {
        CutCountsStep(old(objs), areas, LOW_PAGE, HIGH_PAGE, objs, i, ext);
        assert areas[i..][1..] == areas[i + 1..] && areas[i].InUser();
        SetAreas(pid, procs[pid].areas[1..]);
        Put(areas[i].obj, ext);
        ext := ExtPlus(ext, [areas[i]], Cut(areas[i], LOW_PAGE, HIGH_PAGE));
        i := i + 1;
      }
      assert areas[i..] == [];
      procs := procs[pid := procs[pid].(pt := map[])];
    }

    // ---- vmmap_map ----

    method AnonCreate() returns (o: nat)
      modifies this`objs
      ensures o == |old(objs)| && objs == old(objs) + [NewAnon()]
    {
      o := |objs|;
      objs := objs + [MmObj(true, Anon, 1, 0, map[], 0, 0)];
    }

    // shadow_create, with the two links its callers set at once
    method ShadowCreate(shadowed: nat, bottom: nat) returns (o: nat)
      modifies this`objs
      ensures o == |old(objs)| && objs == old(objs) + [NewShadow(shadowed, bottom)]
    {
      o := |objs|;
      objs := objs + [MmObj(true, Shadow, 1, 0, map[], shadowed, bottom)];
    }

    // The second half of vmmap_map: insert the area, then give it an object.
    // A file's mmap operation hands out the file's object with a reference.
    method MapHere(pid: nat, file: Option<nat>, lopage: nat, npages: nat, prot: Prot, shared: bool, off: nat)
      requires Inv(S()) && MapPre(S(), pid, file, lopage, npages)
      modifies this
      ensures S() == M.MapFree(old(S()), pid, file, lopage, npages, prot, shared, off)
    {
      if file.Some? {
        FileLive(S(), file.value);
        assert ExactAt(objs, Ext(S()), file.value);
      }
      var o: nat;
      if file.None? {
        o := AnonCreate();
      } else {
        o := file.value;
        Ref(o);
      }
      var top := o;
      if !shared {
        top := ShadowCreate(o, o);
        Ref(o);
      }
      VmmapInsert(pid, Area(lopage, lopage + npages, off, prot, shared, top));
    }

    // vmmap_map.  On success `start` is where the mapping went: lopage, or if
    // that is 0 the highest (lowest) free range.
    method VmmapMap(pid: nat, file: Option<nat>, lopage: nat, npages: nat, prot: Prot, shared: bool, off: nat,
                    hilo: bool)
      returns (ret: int, start: nat)
      requires Inv(S()) && pid < |procs| && 0 < npages && (file.Some? ==> IsFile(objs, file.value))
      requires lopage == 0 || (LOW_PAGE <= lopage && lopage + npages <= HIGH_PAGE)
      requires lopage == 0 ==> procs[pid].areas != []
      modifies this
      ensures ret == 0 || ret == -1
      ensures ret == 0 ==> && AreasIn(old(S()), pid) && LOW_PAGE <= start && start + npages <= HIGH_PAGE
                           && S() == M.MapAt(old(S()), pid, file, start, npages, prot, shared, off)
      ensures lopage != 0 ==> ret == 0 && start == lopage
      ensures lopage == 0 && ret == 0 ==>
                && Scan.FreeRun(old(procs)[pid].areas, start, npages)
                && forall q | Scan.FreeRun(old(procs)[pid].areas, q, npages) :: if hilo then q <= start else start <= q
      ensures ret == -1 ==> S() == old(S()) && forall q :: !Scan.FreeRun(old(procs)[pid].areas, q, npages)
    {
      assert AreasOk(S(), pid);
      start := lopage;
      if lopage == 0 {
        var range := Scan.FindRange(procs[pid].areas, npages, hilo);
        if range < 0 {
          return -1, 0;
        }
        start := range;
      } else {
        var empty := Scan.IsRangeEmpty(procs[pid].areas, lopage, npages);
        if !empty {
          if file.Some? {
            MapAtReady(S(), pid, lopage, npages);
            RemoveKeepsFiles(S(), pid, lopage, lopage + npages, file.value, 0);
          }
          RemoveInv(S(), pid, lopage, lopage + npages);
          VmmapRemove(pid, lopage, npages);
        }
      }
      MapHere(pid, file, start, npages, prot, shared, off);
      ret := 0;
    }

    // ---- do_fork ----

    // vmmap_clone: the same areas with no object yet
    method VmmapClone(pid: nat) returns (areas: seq<Area>)
      requires pid < |procs|
      ensures |areas| == |procs[pid].areas|
      ensures forall i | 0 <= i < |areas| :: areas[i] == procs[pid].areas[i].(obj := 0)
    {
      areas := [];
      var i := 0;
      while i < |procs[pid].areas|
        invariant i == |areas| <= |procs[pid].areas|
        invariant forall j | 0 <= j < i :: areas[j] == procs[pid].areas[j].(obj := 0)
      {
        areas := areas + [procs[pid].areas[i].(obj := 0)];
        i := i + 1;
      }
    }

    // Forking the parent's area at index i: what parent and child get
    method ForkArea(pid: nat, i: nat, ghost ext: nat -> int) returns (childObj: nat)
      requires pid < |procs| && i < |procs[pid].areas| && Forkable(objs, [procs[pid].areas[i]])
      requires procs[pid].areas[i].obj < |objs| && BottomOf(objs, procs[pid].areas[i].obj) < |objs|
      requires Exact(objs, ext) && objs[procs[pid].areas[i].obj].live
      modifies this
      ensures var a := old(procs)[pid].areas[i];
              var r := ForkOne(old(objs), a);
              && objs == r.objs && r.child == [a.(obj := childObj)]
              && procs == old(procs)[pid := old(procs)[pid].(areas := old(procs)[pid].areas[i := r.parent[0]])]
    {
      var a := procs[pid].areas[i];
      assert ExactAt(objs, ext, a.obj) && ObjOk(objs, a.obj);
      if a.shared {
        childObj := a.obj;
        Ref(childObj);
        assert procs[pid].areas[i := a] == procs[pid].areas;
      } else {
        LinksLive(objs, ext, a.obj);
        assert ExactAt(objs, ext, objs[a.obj].bottom);
        var parentShadow := 0;
        parentShadow, childObj := TwoShadows(a.obj, objs[a.obj].bottom);
        SetAreas(pid, procs[pid].areas[i := a.(obj := parentShadow)]);
      }
    }

    // Shadows for parent and child over o, with the references they hold;
    // the parent's takes over the reference of its area.
    method TwoShadows(o: nat, b: nat) returns (parentShadow: nat, childShadow: nat)
      requires o < |objs| && b < |objs| && b != o && objs[o].refcount > 0 && objs[b].refcount > 0
      modifies this`objs
      ensures parentShadow == |old(objs)| && childShadow == |old(objs)| + 1
      ensures objs == O.Ref(O.Ref(O.Ref(old(objs), o), b), b) + [NewShadow(o, b), NewShadow(o, b)]
    {
      parentShadow := ShadowCreate(o, b);
      childShadow := ShadowCreate(o, b);
      Ref(o);
      Ref(b);
      Ref(b);
      ghost var t, objs0 := [NewShadow(o, b), NewShadow(o, b)], old(objs);
      assert objs0 + [NewShadow(o, b)] + [NewShadow(o, b)] == objs0 + t;
      RefAppend(objs0, t, o);
      RefAppend(O.Ref(objs0, o), t, b);
      RefAppend(O.Ref(O.Ref(objs0, o), b), t, b);
    }

    // One turn of the area loop: find the parent's area by its start
    method ForkNext(pid: nat, childAreas: seq<Area>, k: nat, ghost r0: Forked, ghost areas0: seq<Area>,
                    ghost ext: nat -> int)
      returns (childAreas': seq<Area>, ghost ext': nat -> int)
      requires pid < |procs| && k < |areas0|
      requires ForkState(r0, areas0, objs, procs[pid].areas, childAreas, k, ext)
      modifies this
      ensures |procs| == |old(procs)| && procs == old(procs)[pid := old(procs)[pid].(areas := procs[pid].areas)]
      ensures ForkState(r0, areas0, objs, procs[pid].areas, childAreas', k + 1, ext')
    {
      hide ForkCounts, ForkShape, Forkable, Exact, ForkExt;
      ghost var done := childAreas[..k];
      ForkReady(r0, areas0, objs, procs[pid].areas, done, k);
      var i := Scan.Lookup(procs[pid].areas, childAreas[k].start);
      ForkCountsStep(areas0, objs, k, ext);
      ForkShapeStep(r0, areas0, objs, procs[pid].areas, done, k);
      ext' := ForkExt(ext, areas0[k], ForkOne(objs, areas0[k]));
      var childObj := ForkArea(pid, i, ext);
      childAreas' := childAreas[k := childAreas[k].(obj := childObj)];
      assert childAreas'[..k + 1] == done + [childAreas'[k]];
    }

    // The area loop of do_fork
    method ForkList(pid: nat, ghost areas0: seq<Area>, ghost r0: Forked, ghost ext0: nat -> int)
      returns (childAreas: seq<Area>)
      requires pid < |procs| && areas0 == procs[pid].areas
      requires ForkCounts(areas0, objs, 0, ext0) && ForkShape(r0, areas0, objs, areas0, [], 0)
      modifies this
      ensures objs == r0.objs && childAreas == r0.child
      ensures procs == old(procs)[pid := old(procs)[pid].(areas := r0.parent)]
    {
      hide ForkCounts, ForkShape;
      ghost var ext := ext0;
      childAreas := VmmapClone(pid);
      var k: nat := 0;
      assert childAreas[..k] == [];
      while k < |childAreas|
        invariant |procs| == |old(procs)| && procs == old(procs)[pid := old(procs)[pid].(areas := procs[pid].areas)]
        invariant ForkState(r0, areas0, objs, procs[pid].areas, childAreas, k, ext)
      {
        childAreas, ext := ForkNext(pid, childAreas, k, r0, areas0, ext);
        k := k + 1;
      }
      ForkShapeDone(r0, areas0, objs, procs[pid].areas, childAreas[..k], k);
      assert childAreas[..k] == childAreas;
    }

    // The address-space part of do_fork; the child is the new last process
    method DoFork(pid: nat) returns (child: nat)
      requires Inv(S()) && pid < |procs|
      modifies this
      ensures Forkable(old(objs), old(procs)[pid].areas)
      ensures child == |old(procs)| && S() == F.Fork(old(S()), pid)
    {
      hide Inv, Forkable, ForkAreas, Ext, ForkCounts, ForkShape;
      ghost var r0 := ForkStart(S(), pid);
      var childAreas := ForkList(pid, procs[pid].areas, r0, Ext(S()));
      // pt_unmap_range over the whole user range
      procs := procs[pid := procs[pid].(pt := map p | p in procs[pid].pt && !(LOW_PAGE <= p < HIGH_PAGE) ::
        procs[pid].pt[p])];
      child := |procs|;
      procs := procs + [Proc(childAreas, map[], procs[pid].startBrk, procs[pid].brk)];
    }

    // ---- handle_pagefault ----

    // A refused fault kills the process; here it only reports false
    method HandlePagefault(pid: nat, vaddr: nat, cause: Cause) returns (ok: bool)
      requires Inv(S()) && pid < |procs|
      modifies this
      ensures ok <==> && Mapped(old(S()), pid, vaddr / PAGE_SIZE)
                      && var prot := MappingAt(old(S()), pid, vaddr / PAGE_SIZE).prot;
                         match cause
                         case Cause(false, false) => prot.read
                         case Cause(true, false) => prot.write
                         case Cause(false, true) => prot.exec
                         case Cause(true, true) => prot.write && prot.exec
      ensures ok ==> I.Enabled(old(S()), I.OpFault(pid, vaddr / PAGE_SIZE, cause))
      ensures S() == if ok then Fault(old(S()), pid, vaddr / PAGE_SIZE, cause.write) else old(S())
    {
      var p := vaddr / PAGE_SIZE;
      var i := Scan.Lookup(procs[pid].areas, p);
      FindIndexTarget(procs[pid].areas, p);
      if i == |procs[pid].areas| {
        return false;
      }
      var a := procs[pid].areas[i];
      assert AreasOk(S(), pid);
      if !(cause.write || cause.exec) && !a.prot.read {
        return false;
      }
      if cause.write && !a.prot.write {
        return false;
      }
      if cause.exec && !a.prot.exec {
        return false;
      }
      FaultIn(pid, p, a, cause.write);
      ok := true;
    }

    method FaultIn(pid: nat, p: nat, a: Area, write: bool)
      requires Inv(S()) && Mapped(S(), pid, p) && a.Covers(p) && MappingAt(S(), pid, p) == MappingOf(a, p)
      modifies this
      ensures S() == Fault(old(S()), pid, p, write)
    {
      hide Inv, Shaped, WriteLookup, ReadLookup, Owner, View, MappingAt, Mapped;
      var pn := p - a.start + a.off;
      ghost var s0 := S();
      FaultReady(s0, pid, p);
      var w := PframeLookup(a.obj, pn, write);
      if write {
        PframePin(w, pn);
        PframeDirty(w, pn);
        PframeUnpin(w, pn);
        assert objs[w].pages == Store(WriteLookup(s0.objs, a.obj, pn), a.obj, pn, View(s0, pid, p).value)[w].pages;
      }
      procs := procs[pid := procs[pid].(pt := procs[pid].pt[p := Pte(w, pn, write)])];
    }

    // ---- do_brk ----

    // The loader's part: a new program's break starts at its own end
    method LoadBreak(pid: nat, start: nat)
      requires Inv(S()) && pid < |procs|
      modifies this`procs
      ensures S() == Load(old(S()), pid, start) && Inv(S())
    {
      SetBrkInv(S(), pid, start, start);
      procs := procs[pid := procs[pid].(startBrk := start, brk := start)];
    }

    method DoBrk(pid: nat, addr: nat) returns (ret: int, brk: nat)
      requires Inv(S()) && pid < |procs| && addr < WORD
      requires addr != 0 && procs[pid].startBrk <= addr <= HIGH_PAGE * PAGE_SIZE ==> HeapPresent(S(), pid)
      modifies this
      ensures addr == 0 ==> ret == 0 && brk == old(procs)[pid].brk && S() == old(S())
      ensures addr != 0 ==>
                (ret == 0 <==>
                 && old(procs)[pid].startBrk <= addr <= 0xC000_0000 && HeapPresent(old(S()), pid)
                 && forall p | old(procs)[pid].areas[HeapIndex(old(S()), pid)].end <= p < PageUp(addr) ::
                      View(old(S()), pid, p).None?)
      ensures addr != 0 && ret == 0 ==> I.Enabled(old(S()), I.OpBrk(pid, addr))
      ensures addr != 0 && ret == 0 ==> brk == addr && S() == M.Brk(old(S()), pid, addr)
      ensures ret != 0 ==> ret == -12 && S() == old(S())
    {
      brk := procs[pid].brk;
      if addr == 0 {
        return 0, brk;
      }
      if addr < procs[pid].startBrk || addr > HIGH_PAGE * PAGE_SIZE {
        return -12, brk;
      }
      UnseenIsFree(S(), pid, procs[pid].areas[HeapIndex(S(), pid)].end, PageUp(addr));
      var i := Scan.Lookup(procs[pid].areas, procs[pid].startBrk / PAGE_SIZE);
      var ok := MoveHeapEnd(pid, i, (addr + PAGE_SIZE - 1) / PAGE_SIZE);
      if !ok {
        return -12, brk;
      }
      procs := procs[pid := procs[pid].(brk := addr)];
      return 0, addr;
    }

    // Shrink by unmapping, or grow in place if the pages are free.  The page
    // difference is unsigned; negating it gives the number to unmap.
    method MoveHeapEnd(pid: nat, i: nat, newEnd: nat) returns (ok: bool)
      requires Inv(S()) && pid < |procs| && HeapPresent(S(), pid) && i == HeapIndex(S(), pid) && newEnd <= HIGH_PAGE
      modifies this
      ensures var end := old(procs)[pid].areas[i].end;
              && (ok <==> RangeFree(old(procs)[pid].areas, end, newEnd))
              && S() == if newEnd < end then M.Remove(old(S()), pid, newEnd, end)
                        else if ok && end < newEnd then GrowHeap(old(S()), pid, newEnd) else old(S())
    {
      assert AreasOk(S(), pid);
      hide Inv, AreasOk, Find, FindIndex, CutAll;
      var vma := procs[pid].areas[i];
      var prevEnd := vma.end;
      UnsignedDifference(newEnd, prevEnd);
      var npages := (newEnd - prevEnd) % WORD;
      ok := true;
      if prevEnd > newEnd {
        VmmapRemove(pid, newEnd, (-npages) % WORD);
      } else if prevEnd < newEnd {
        ok := Scan.IsRangeEmpty(procs[pid].areas, prevEnd, npages);
        if ok {
          SetAreas(pid, procs[pid].areas[i := vma.(end := newEnd)]);
        }
      }
    }

    // ---- vmmap_read, vmmap_write ----

    // The bytes up to the first unmapped page.  If the end address wraps
    // around, nothing is copied and the call still succeeds.
    method VmmapRead(pid: nat, vaddr: nat, count: nat) returns (ret: int, buf: seq<Byte>)
      requires Inv(S()) && pid < |procs| && vaddr < WORD && count < WORD
      modifies this
      ensures SameViews(old(S()), S())
      ensures ReadsAs(old(S()), pid, vaddr, buf)
      ensures |buf| == MappedLen(old(S()), pid, vaddr, Effective(vaddr, count))
      ensures ret == if |buf| == Effective(vaddr, count) then 0 else -1
      ensures vaddr + count >= WORD ==> buf == [] && ret == 0
    {
      hide Inv, ReadsAs, SameViews;
      ghost var s0 := S();
      buf := [];
      ReadNothing(s0, pid, vaddr);
      var endaddr := (vaddr + count) % WORD;
      var curraddr := vaddr;
      while curraddr < endaddr
        invariant curraddr == vaddr + |buf| && ReadState(s0, S(), pid, vaddr, Effective(vaddr, count), buf)
        decreases endaddr - curraddr
      {
        var chunk := ReadTurn(pid, curraddr, count - |buf|, s0, vaddr, buf);
        if chunk == [] {
          return -1, buf;
        }
        buf := buf + chunk;
        curraddr := curraddr + |chunk|;
      }
      ret := 0;
    }

    // One turn of vmmap_read; no bytes if the page is not mapped
    method ReadTurn(pid: nat, addr: nat, left: nat, ghost s0: State, ghost vaddr: nat, ghost buf: seq<Byte>)
      returns (chunk: seq<Byte>)
      requires pid < |s0.procs| && 0 < left && addr == vaddr + |buf|
      requires ReadState(s0, S(), pid, vaddr, |buf| + left, buf)
      modifies this
      ensures |chunk| <= left && ReadState(s0, S(), pid, vaddr, |buf| + left, buf + chunk)
      ensures chunk == [] ==> |buf| == MappedLen(s0, pid, vaddr, |buf| + left)
    {
      hide Inv, ReadsAs, Progress, MappedLen;
      ProgressStep(s0, pid, vaddr, |buf| + left, |buf|);
      var i := Scan.Lookup(procs[pid].areas, addr / PAGE_SIZE);
      LookupMapped(s0, S(), pid, addr / PAGE_SIZE, i);
      if i == |procs[pid].areas| {
        assert buf + [] == buf;
        return [];
      }
      chunk := ReadChunk(pid, addr, procs[pid].areas[i], ChunkLen(addr, left), s0);
      ReadsAppend(s0, pid, vaddr, buf, chunk);
    }

    // The copy out of the frame
    method ReadChunk(pid: nat, addr: nat, vma: Area, n: nat, ghost s0: State) returns (chunk: seq<Byte>)
      requires pid < |s0.procs| && SameViews(s0, S()) && addr % PAGE_SIZE + n <= PAGE_SIZE
      requires vma.Covers(addr / PAGE_SIZE) && Mapped(S(), pid, addr / PAGE_SIZE)
      requires MappingAt(S(), pid, addr / PAGE_SIZE) == MappingOf(vma, addr / PAGE_SIZE)
      modifies this
      ensures SameViews(s0, S()) && |chunk| == n && ReadsAs(s0, pid, addr, chunk)
    {
      ghost var s1 := S();
      var p := addr / PAGE_SIZE;
      var pagenum := vma.off + p - vma.start;
      ReadPageInv(s1, pid, p);
      ReadPageFrame(s1, pid, p);
      var w := PframeLookup(vma.obj, pagenum, false);
      assert S() == ReadPage(s1, pid, p);
      chunk := objs[w].pages[pagenum].bytes[addr % PAGE_SIZE..addr % PAGE_SIZE + n];
      forall j | 0 <= j < |chunk|
        ensures ByteAt(s0, pid, addr + j) == Some(chunk[j])
      {
        SamePage(addr, n, addr + j);
      }
    }

    method VmmapWrite(pid: nat, vaddr: nat, buf: seq<Byte>) returns (ret: int)
      requires Inv(S()) && pid < |procs| && vaddr < WORD && |buf| < WORD
      modifies this
      ensures var n := Effective(vaddr, |buf|);
              var k := MappedLen(old(S()), pid, vaddr, n);
              Written(old(S()), S(), pid, vaddr, buf[..k]) && ret == if k == n then 0 else -1
      ensures vaddr + |buf| >= WORD ==> S() == old(S()) && ret == 0
    {
      hide WriteState, MappedLen, Written, Inv;
      ghost var s0 := S();
      var endaddr := (vaddr + |buf|) % WORD;
      var curraddr, writeBytes: nat := vaddr, 0;
      WriteStart(s0, pid, vaddr, buf, Effective(vaddr, |buf|));
      while curraddr < endaddr
        invariant curraddr == vaddr + writeBytes
                  && WriteState(s0, S(), pid, vaddr, buf, Effective(vaddr, |buf|), writeBytes)
        invariant writeBytes == 0 ==> S() == s0
        decreases endaddr - curraddr
      {
        var bytes := WriteTurn(pid, curraddr, buf, writeBytes, s0, vaddr);
        if bytes == 0 {
          WriteEnd(s0, S(), pid, vaddr, buf, |buf|, writeBytes);
          return -1;
        }
        curraddr := curraddr + bytes;
        writeBytes := writeBytes + bytes;
      }
      WriteWithin(s0, S(), pid, vaddr, buf, Effective(vaddr, |buf|), writeBytes);
      WriteEnd(s0, S(), pid, vaddr, buf, Effective(vaddr, |buf|), writeBytes);
      ret := 0;
    }

    // What is read back after a write is what was written: the whole buffer,
    // or its part before the first unmapped page
    method WriteThenRead(pid: nat, vaddr: nat, buf: seq<Byte>) returns (data: seq<Byte>)
      requires Inv(S()) && pid < |procs| && vaddr < WORD && |buf| < WORD
      requires SeparateRange(S(), pid, vaddr, MappedLen(S(), pid, vaddr, Effective(vaddr, |buf|)))
      modifies this
      ensures data == buf[..MappedLen(old(S()), pid, vaddr, Effective(vaddr, |buf|))]
      ensures vaddr + |buf| < WORD && MappedLen(old(S()), pid, vaddr, |buf|) == |buf| ==> data == buf
    {
      hide Inv, SeparateRange, BytesWritten, OthersSee, ByteByByte, SameViews, ReadsAs;
      ghost var s0, n := S(), Effective(vaddr, |buf|);
      var _ := VmmapWrite(pid, vaddr, buf);
      ghost var s1 := S();
      MappedStable(s0, s1, pid, vaddr, n);
      var _, d := VmmapRead(pid, vaddr, |buf|);
      data := d;
      ReadBack(s0, s1, pid, vaddr, buf[..MappedLen(s0, pid, vaddr, n)], data);
    }

    // One turn of vmmap_write; no bytes if the page is not mapped
    method WriteTurn(pid: nat, addr: nat, buf: seq<Byte>, writeBytes: nat, ghost s0: State, ghost vaddr: nat)
      returns (bytes: nat)
      requires pid < |s0.procs| && addr == vaddr + writeBytes && writeBytes < |buf|
      requires WriteState(s0, S(), pid, vaddr, buf, |buf|, writeBytes)
      modifies this
      ensures WriteState(s0, S(), pid, vaddr, buf, |buf|, writeBytes + bytes)
      ensures bytes == 0 ==> writeBytes == MappedLen(s0, pid, vaddr, |buf|)
    {
      hide Inv, SeparateRange, BytesWritten, OthersSee, ByteByByte, MappedLen, MappingAt;
      ProgressStep(s0, pid, vaddr, |buf|, writeBytes);
      var i := Scan.Lookup(procs[pid].areas, addr / PAGE_SIZE);
      LookupMapped(s0, S(), pid, addr / PAGE_SIZE, i);
      if i == |procs[pid].areas| {
        return 0;
      }
      bytes := ChunkLen(addr, |buf| - writeBytes);
      assert buf[..writeBytes] + buf[writeBytes..writeBytes + bytes] == buf[..writeBytes + bytes];
      WriteNext(pid, addr, procs[pid].areas[i], buf[writeBytes..writeBytes + bytes], s0, vaddr, buf[..writeBytes]);
    }

    // Store a chunk after what is done already
    method WriteNext(pid: nat, addr: nat, vma: Area, chunk: seq<Byte>, ghost s0: State, ghost vaddr: nat,
                     ghost done: seq<Byte>)
      requires pid < |s0.procs| && Written(s0, S(), pid, vaddr, done) && addr == vaddr + |done|
      requires addr % PAGE_SIZE + |chunk| <= PAGE_SIZE && |chunk| > 0
      requires vma.Covers(addr / PAGE_SIZE) && Mapped(S(), pid, addr / PAGE_SIZE)
      requires MappingAt(S(), pid, addr / PAGE_SIZE) == MappingOf(vma, addr / PAGE_SIZE)
      modifies this
      ensures Written(s0, S(), pid, vaddr, done + chunk)
    {
      hide Written, WriteChunk;
      WrittenFacts(s0, S(), pid, vaddr, done);
      WrittenStep(s0, S(), pid, vaddr, done, chunk);
      StoreChunk(pid, addr, vma, chunk);
    }

    // Look the page up for writing, copy the bytes in, dirty it
    method StoreChunk(pid: nat, addr: nat, vma: Area, chunk: seq<Byte>)
      requires Inv(S()) && addr % PAGE_SIZE + |chunk| <= PAGE_SIZE
      requires vma.Covers(addr / PAGE_SIZE) && Mapped(S(), pid, addr / PAGE_SIZE)
      requires MappingAt(S(), pid, addr / PAGE_SIZE) == MappingOf(vma, addr / PAGE_SIZE)
      modifies this
      ensures S() == WriteChunk(old(S()), pid, addr, chunk)
    {
      ghost var s1 := S();
      var p, off := addr / PAGE_SIZE, addr % PAGE_SIZE;
      var pagenum := vma.off + p - vma.start;
      TargetFacts(s1, pid, p);
      WriteLookupMeaning(objs, vma.obj, pagenum, Ext(s1));
      var w := PframeLookup(vma.obj, pagenum, true);
      var frame := objs[w].pages[pagenum].bytes;
      CopyInto(w, pagenum, Splice(frame, off, chunk));
      PframeDirty(w, pagenum);
      assert objs[w].pages ==
             Store(WriteLookup(s1.objs, vma.obj, pagenum), w, pagenum, Splice(frame, off, chunk))[w].pages;
    }
  }

  // Nobody sees a difference
  ghost predicate SameViews(s: State, s': State) {
    && Inv(s') && s'.procs == s.procs && |s'.objs| == |s.objs|
    && forall q, p: nat | 0 <= q < |s.procs| :: View(s', q, p) == View(s, q, p)
  }

  // done bytes of the mapped part of a range of n bytes are dealt with
  ghost predicate Progress(s: State, pid: nat, addr: nat, n: nat, done: nat) {
    done <= n && done + MappedLen(s, pid, addr + done, n - done) == MappedLen(s, pid, addr, n)
  }

  lemma ReadNothing(s: State, pid: nat, addr: nat)
    requires Inv(s) && pid < |s.procs|
    ensures SameViews(s, s) && ReadsAs(s, pid, addr, [])
  {
  }

  ghost predicate ReadState(s0: State, s: State, pid: nat, addr: nat, n: nat, buf: seq<Byte>)
    requires pid < |s0.procs|
  {
    SameViews(s0, s) && ReadsAs(s0, pid, addr, buf) && Progress(s0, pid, addr, n, |buf|)
  }

  ghost predicate WriteState(s0: State, s: State, pid: nat, addr: nat, buf: seq<Byte>, n: nat, done: nat)
    requires pid < |s0.procs|
  {
    n <= |buf| && Progress(s0, pid, addr, n, done) && Written(s0, s, pid, addr, buf[..done])
  }

  lemma WrittenFacts(s0: State, s: State, pid: nat, addr: nat, data: seq<Byte>)
    requires pid < |s0.procs| && Written(s0, s, pid, addr, data)
    ensures Inv(s) && s.procs == s0.procs
  {
  }

  lemma WriteStart(s: State, pid: nat, addr: nat, buf: seq<Byte>, n: nat)
    requires Inv(s) && pid < |s.procs| && n <= |buf|
    ensures WriteState(s, s, pid, addr, buf, n, 0)
  {
    WrittenNothing(s, pid, addr);
    hide Written, Inv, MappedLen;
    assert buf[..0] == [];
  }

  lemma WriteWithin(s0: State, s: State, pid: nat, addr: nat, buf: seq<Byte>, n: nat, done: nat)
    requires pid < |s0.procs| && WriteState(s0, s, pid, addr, buf, n, done)
    ensures done <= n
  {
  }

  // At the end of the range or before a gap the mapped part is written
  lemma WriteEnd(s0: State, s: State, pid: nat, addr: nat, buf: seq<Byte>, n: nat, done: nat)
    requires pid < |s0.procs| && WriteState(s0, s, pid, addr, buf, n, done)
    requires done == n || done == MappedLen(s0, pid, addr, n)
    ensures n <= |buf| && done == MappedLen(s0, pid, addr, n) && Written(s0, s, pid, addr, buf[..done])
  {
    hide Written;
  }

  lemma ProgressStep(s: State, pid: nat, addr: nat, n: nat, done: nat)
    requires Progress(s, pid, addr, n, done) && done < n
    ensures if Mapped(s, pid, (addr + done) / PAGE_SIZE) then
            Progress(s, pid, addr, n, done + ChunkLen(addr + done, n - done))
            else done == MappedLen(s, pid, addr, n)
  {
    var c := ChunkLen(addr + done, n - done);
    assert addr + done + c == addr + (done + c) && n - done - c == n - (done + c);
  }

  // The area found is the mapping of the page, before and after
  lemma LookupMapped(s: State, s': State, pid: nat, p: nat, i: nat)
    requires Inv(s') && s'.procs == s.procs && |s'.objs| == |s.objs| && pid < |s.procs|
             && i == FindIndex(s.procs[pid].areas, p)
    ensures i < |s.procs[pid].areas| <==> Mapped(s, pid, p)
    ensures Mapped(s, pid, p) <==> Mapped(s', pid, p)
    ensures Mapped(s', pid, p) ==>
            s.procs[pid].areas[i].Covers(p) && MappingAt(s', pid, p) == MappingOf(s.procs[pid].areas[i], p)
  {
    FindIndexTarget(s.procs[pid].areas, p);
    assert AreasOk(s', pid);
  }

  // The number of bytes a transfer tries to move: none if the end address
  // wraps around
  lemma UnseenIsFree(s: State, pid: nat, lo: nat, hi: nat)
    requires AreasIn(s, pid)
    ensures RangeFree(s.procs[pid].areas, lo, hi) <==> forall p | lo <= p < hi :: View(s, pid, p).None?
  {
    forall p: nat
      ensures View(s, pid, p).None? <==> Target(s.procs[pid].areas, p).None?
    {
      FindTarget(s.procs[pid].areas, p);
    }
  }

  function Effective(vaddr: nat, count: nat): nat {
    if vaddr + count < WORD then count else 0
  }

  lemma ReadsAppend(s: State, pid: nat, addr: nat, a: seq<Byte>, b: seq<Byte>)
    requires pid < |s.procs| && ReadsAs(s, pid, addr, a) && ReadsAs(s, pid, addr + |a|, b)
    ensures ReadsAs(s, pid, addr, a + b)
  {
    forall i | 0 <= i < |a + b|
      ensures ByteAt(s, pid, addr + i) == Some((a + b)[i])
    {
      if i >= |a| {
        assert ByteAt(s, pid, addr + |a| + (i - |a|)) == Some(b[i - |a|]);
      }
    }
  }

  // do_fork has dealt with the first k areas
  ghost predicate ForkShape(r0: Forked, areas0: seq<Area>, objs: seq<MmObj>, areas: seq<Area>, child: seq<Area>,
                            k: nat) {
    && k == |child| && k <= |areas0| && |areas| == |areas0| && Sorted(areas0)
    && Forkable(objs, areas0[k..])
    && areas[k..] == areas0[k..]
    && (forall j | 0 <= j < |areas| :: areas[j].start == areas0[j].start && areas[j].end == areas0[j].end)
    && var r := ForkAreas(objs, areas0[k..]);
       r.objs == r0.objs && areas[..k] + r.parent == r0.parent && child + r.child == r0.child
  }

  ghost function ForkExt(ext: nat -> int, a: Area, one: Forked): nat -> int {
    (o: nat) => ext(o) - Count([a], o) + Count(one.parent, o) + Count(one.child, o)
  }

  ghost predicate ForkCounts(areas0: seq<Area>, objs: seq<MmObj>, k: nat, ext: nat -> int) {
    && k <= |areas0| && Forkable(objs, areas0[k..]) && Exact(objs, ext)
    && (forall o: nat :: ext(o) >= Count(areas0[k..], o)) && (forall o | o >= |objs| :: ext(o) == 0)
  }

  // The child's list: done up to k, still without objects from k on
  ghost predicate ForkState(r0: Forked, areas0: seq<Area>, objs: seq<MmObj>, areas: seq<Area>, child: seq<Area>,
                            k: nat, ext: nat -> int) {
    && |child| == |areas0| && k <= |areas0|
    && (forall i | k <= i < |areas0| :: child[i] == areas0[i].(obj := 0))
    && ForkCounts(areas0, objs, k, ext)
    && ForkShape(r0, areas0, objs, areas, child[..k], k)
  }

  lemma UnsignedDifference(a: nat, b: nat)
    requires a < WORD && b < WORD
    ensures a >= b ==> (a - b) % WORD == a - b
    ensures a < b ==> (-((a - b) % WORD)) % WORD == b - a
  {
    if a < b {
      assert (a - b) % WORD == a - b + WORD;
      assert (-(a - b + WORD)) % WORD == b - a;
    }
  }

  lemma FaultReady(s: State, pid: nat, p: nat)
    requires Inv(s) && Mapped(s, pid, p)
    ensures var t := MappingAt(s, pid, p);
            && pid < |s.procs| && Shaped(s.objs) && t.obj < |s.objs| && View(s, pid, p).Some?
            && |WriteLookup(s.objs, t.obj, t.page)| == |s.objs|
               && t.page in WriteLookup(s.objs, t.obj, t.page)[t.obj].pages
            && WriteLookup(s.objs, t.obj, t.page)[t.obj].pages[t.page].bytes == View(s, pid, p).value
  {
    TargetFacts(s, pid, p);
    var t := MappingAt(s, pid, p);
    WriteLookupMeaning(s.objs, t.obj, t.page, Ext(s));
  }

  lemma ForkStart(s: State, pid: nat) returns (r0: Forked)
    requires Inv(s) && pid < |s.procs|
    ensures var areas := s.procs[pid].areas;
            && Forkable(s.objs, areas) && r0 == ForkAreas(s.objs, areas)
            && ForkCounts(areas, s.objs, 0, Ext(s)) && ForkShape(r0, areas, s.objs, areas, [], 0)
  {
    InvForkable(s, pid);
    assert AreasOk(s, pid);
    ExtCoversAreas(s, pid);
    ExtPastEnd(s);
    r0 := ForkShapeInit(s.objs, s.procs[pid].areas);
  }

  lemma ForkShapeInit(objs: seq<MmObj>, areas: seq<Area>) returns (r0: Forked)
    requires Sorted(areas) && Forkable(objs, areas[0..])
    ensures Forkable(objs, areas) && r0 == ForkAreas(objs, areas) && ForkShape(r0, areas, objs, areas, [], 0)
  {
    assert areas[0..] == areas && areas[..0] == [];
    r0 := ForkAreas(objs, areas);
    assert [] + r0.parent == r0.parent && [] + r0.child == r0.child;
  }

  lemma ForkReady(r0: Forked, areas0: seq<Area>, objs: seq<MmObj>, areas: seq<Area>, child: seq<Area>, k: nat)
    requires ForkShape(r0, areas0, objs, areas, child, k) && k < |areas0|
    ensures |areas| == |areas0| && areas[k] == areas0[k] && FindIndex(areas, areas0[k].start) == k
    ensures Forkable(objs, [areas0[k]]) && areas0[k].obj < |objs| && BottomOf(objs, areas0[k].obj) < |objs|
  {
    assert areas[k] == areas[k..][0] && areas0[k..][0] == areas0[k];
    ForkHead(objs, areas0[k..]);
    Scan.FindIndexIs(areas, areas0[k].start, k);
  }

  lemma ForkCountsStep(areas0: seq<Area>, objs: seq<MmObj>, k: nat, ext: nat -> int)
    requires ForkCounts(areas0, objs, k, ext) && k < |areas0|
    ensures areas0[k].obj < |objs| && BottomOf(objs, areas0[k].obj) < |objs| && objs[areas0[k].obj].live
            && Exact(objs, ext)
    ensures var one := ForkOne(objs, areas0[k]);
            ForkCounts(areas0, one.objs, k + 1, ForkExt(ext, areas0[k], one))
  {
    var a, rest := areas0[k], areas0[k + 1..];
    assert areas0[k..][0] == a && areas0[k..][1..] == rest;
    ForkHead(objs, areas0[k..]);
    assert ext(a.obj) >= Count(areas0[k..], a.obj);
    assert ExactAt(objs, ext, a.obj);
    ForkOneExact(objs, a, ext);
    var one := ForkOne(objs, a);
    forall o: nat
      ensures ForkExt(ext, a, one)(o) >= Count(rest, o) && (o >= |one.objs| ==> ForkExt(ext, a, one)(o) == 0)
    {
      assert ext(o) >= Count(areas0[k..], o);
      ForkCount(a, o);
      ForkCount(one.parent[0], o);
      ForkCount(one.child[0], o);
      assert one.parent == [one.parent[0]] && one.child == [one.child[0]];
    }
  }

  lemma ForkShapeStep(r0: Forked, areas0: seq<Area>, objs: seq<MmObj>, areas: seq<Area>, child: seq<Area>, k: nat)
    requires ForkShape(r0, areas0, objs, areas, child, k) && k < |areas0|
    ensures areas0[k].obj < |objs| && BottomOf(objs, areas0[k].obj) < |objs|
    ensures var one := ForkOne(objs, areas0[k]);
            ForkShape(r0, areas0, one.objs, areas[k := one.parent[0]], child + one.child, k + 1)
  {
    hide ForkAreas, ForkOne, Forkable;
    var rest := areas0[k + 1..];
    var one := ForkUnfold(objs, areas0[k..]);
    assert areas0[k..][0] == areas0[k] && areas0[k..][1..] == rest;
    var r := ForkAreas(one.objs, rest);
    var areas' := areas[k := one.parent[0]];
    assert areas'[k + 1..] == areas[k..][1..] == rest;
    assert areas'[..k + 1] == areas[..k] + one.parent;
    SeqShift(areas[..k], one.parent, r.parent);
    SeqShift(child, one.child, r.child);
    assert areas[k] == areas[k..][0];
  }

  lemma ReplaceOne(areas: seq<Area>, i: nat, a: Area)
    requires i < |areas|
    ensures areas[i := a] == areas[..i] + [a] + areas[i + 1..]
  {
  }

  lemma LiveCount(objs: seq<MmObj>, ext: nat -> int, o: nat)
    requires Formed(objs) && Exact(objs, ext) && o < |objs| && ext(o) > 0
    ensures objs[o].refcount > 0
  {
    assert ExactAt(objs, ext, o);
  }

  lemma SeqShift(a: seq<Area>, b: seq<Area>, c: seq<Area>)
    ensures (a + b) + c == a + (b + c)
  {
  }

  lemma ForkShapeDone(r0: Forked, areas0: seq<Area>, objs: seq<MmObj>, areas: seq<Area>, child: seq<Area>, k: nat)
    requires ForkShape(r0, areas0, objs, areas, child, k) && k == |areas0|
    ensures objs == r0.objs && areas == r0.parent && child == r0.child
  {
    assert areas0[k..] == [] && areas[..k] + [] == areas && child + [] == child;
  }

  // vmmap_remove has dealt with the first k areas of the original list,
  // which are now the first i areas of the current one
  ghost predicate CutShape(areas0: seq<Area>, lo: nat, hi: nat, areas: seq<Area>, i: nat, k: nat) {
    && lo <= hi && i <= |areas| && k <= |areas0| && Sorted(areas0)
    && areas[i..] == areas0[k..]
    && areas[..i] + CutAll(areas0[k..], lo, hi) == CutAll(areas0, lo, hi)
    && (forall j | 0 <= j < i :: areas[j].InUser() && (k < |areas0| ==> areas[j].end <= areas0[k].start))
  }

  // ... and counts are exact for what is left to do
  ghost predicate CutCounts(objs0: seq<MmObj>, areas0: seq<Area>, lo: nat, hi: nat, objs: seq<MmObj>, k: nat,
                            ext: nat -> int) {
    && lo <= hi && k <= |areas0| && |objs| == |objs0|
    && (forall a | a in areas0 :: a.obj < |objs|)
    && CutObjs(objs, areas0[k..], lo, hi) == CutObjs(objs0, areas0, lo, hi)
    && Formed(objs) && Exact(objs, ext) && (forall o: nat :: ext(o) >= Count(areas0[k..], o))
  }

  lemma CutReady(areas0: seq<Area>, lo: nat, hi: nat, areas: seq<Area>, i: nat, k: nat)
    requires CutShape(areas0, lo, hi, areas, i, k) && i < |areas|
    ensures k < |areas0| && areas[i] == areas0[k] && areas[i].InUser()
    ensures forall j | 0 <= j < i :: areas[j].start < areas[i].end
    ensures i + 1 < |areas| ==> areas[i + 1].start >= areas[i].end
    ensures areas[i + 1..] == areas0[k + 1..] && areas0[k..] == [areas0[k]] + areas0[k + 1..]
  {
    assert areas[i] == areas[i..][0] && areas[i..][0] == areas0[k..][0];
    assert areas[i + 1..] == areas[i..][1..] == areas0[k..][1..];
    if i + 1 < |areas| {
      assert areas[i + 1] == areas[i + 1..][0] == areas0[k + 1];
    }
  }

  lemma CutShapeStep(areas0: seq<Area>, lo: nat, hi: nat, areas: seq<Area>, i: nat, k: nat)
    requires CutShape(areas0, lo, hi, areas, i, k) && i < |areas|
    ensures k < |areas0|
    ensures var c := Cut(areas0[k], lo, hi);
            CutShape(areas0, lo, hi, areas[..i] + c + areas[i + 1..], i + |c|, k + 1)
  {
    CutReady(areas0, lo, hi, areas, i, k);
    var a, rest := areas0[k], areas0[k + 1..];
    var c := Cut(a, lo, hi);
    var areas' := areas[..i] + c + areas[i + 1..];
    CutPiecesBound(a, lo, hi);
    assert areas'[i + |c|..] == rest && areas'[..i + |c|] == areas[..i] + c;
    assert CutAll(areas0[k..], lo, hi) == c + CutAll(rest, lo, hi) by {
      assert areas0[k..][1..] == rest;
    }
    assert areas'[..i + |c|] + CutAll(rest, lo, hi) == areas[..i] + (c + CutAll(rest, lo, hi));
    forall j | 0 <= j < i + |c|
      ensures areas'[j].InUser() && (k + 1 < |areas0| ==> areas'[j].end <= areas0[k + 1].start)
    {
      if j >= i {
        assert areas'[j] in c;
      }
    }
  }

  lemma CutStateInit(objs: seq<MmObj>, areas: seq<Area>, lo: nat, hi: nat, ext: nat -> int)
    requires lo <= hi && Sorted(areas) && (forall a | a in areas :: a.obj < |objs|)
    requires Formed(objs) && Exact(objs, ext) && forall o: nat :: ext(o) >= Count(areas, o)
    ensures CutShape(areas, lo, hi, areas, 0, 0) && CutCounts(objs, areas, lo, hi, objs, 0, ext)
  {
    assert areas[0..] == areas && areas[..0] == [];
    assert [] + CutAll(areas, lo, hi) == CutAll(areas, lo, hi);
  }

  lemma CutStateDone(objs0: seq<MmObj>, areas0: seq<Area>, lo: nat, hi: nat, objs: seq<MmObj>, areas: seq<Area>,
                     k: nat, ext: nat -> int)
    requires CutShape(areas0, lo, hi, areas, |areas|, k) && CutCounts(objs0, areas0, lo, hi, objs, k, ext)
    ensures areas == CutAll(areas0, lo, hi) && (forall a | a in areas0 :: a.obj < |objs0|)
            && objs == CutObjs(objs0, areas0, lo, hi)
  {
    assert areas[|areas|..] == [] && areas[..|areas|] == areas;
    assert areas0[k..] == [];
    assert areas + [] == areas;
  }

  lemma CutCountsStep(objs0: seq<MmObj>, areas0: seq<Area>, lo: nat, hi: nat, objs: seq<MmObj>, k: nat, ext: nat -> int)
    requires CutCounts(objs0, areas0, lo, hi, objs, k, ext) && k < |areas0|
    ensures areas0[k].obj < |objs| && ext(areas0[k].obj) > 0
    ensures CutCounts(objs0, areas0, lo, hi, CutStep(objs, areas0[k], lo, hi), k + 1,
            ExtPlus(ext, [areas0[k]], Cut(areas0[k], lo, hi)))
  {
    var a, rest := areas0[k], areas0[k + 1..];
    assert areas0[k..] == [a] + rest && areas0[k..][1..] == rest;
    assert ext(a.obj) >= Count(areas0[k..], a.obj);
    CutStepExact(objs, a, lo, hi, ext);
    CutRest(a, rest, lo, hi, ext);
  }

  // Taking the head off the areas still to be cut
  lemma CutRest(a: Area, rest: seq<Area>, lo: nat, hi: nat, ext: nat -> int)
    requires lo <= hi && forall o: nat :: ext(o) >= Count([a] + rest, o)
    ensures forall o: nat :: ExtPlus(ext, [a], Cut(a, lo, hi))(o) >= Count(rest, o)
    ensures CutAll([a] + rest, lo, hi) == Cut(a, lo, hi) + CutAll(rest, lo, hi)
  {
    assert ([a] + rest)[1..] == rest;
    forall o: nat
      ensures ExtPlus(ext, [a], Cut(a, lo, hi))(o) >= Count(rest, o)
    {
      assert ext(o) >= Count([a] + rest, o);
      CutCount(a, lo, hi, o);
    }
  }

  lemma CutPiecesBound(a: Area, lo: nat, hi: nat)
    requires lo <= hi && a.InUser()
    ensures forall b | b in Cut(a, lo, hi) :: b.end <= a.end && b.InUser()
  {
  }

  // The frame at (o, pn) filled from below and pinned
  function Filled(objs: seq<MmObj>, o: nat, pn: nat): seq<MmObj>
    requires o < |objs| && pn in objs[o].pages && objs[o].shadowed < o
  {
    var w := Owner(objs, objs[o].shadowed, pn);
    var a := PageIn(objs, w, pn);
    a[o := a[o].(pages := a[o].pages[pn := a[o].pages[pn].(bytes := ContentOf(objs[w], pn),
      pin := a[o].pages[pn].pin + 1)])]
  }

  // Allocate, fill, dirty: together the write lookup
  lemma FilledIsWriteLookup(objs: seq<MmObj>, o: nat, pn: nat, f: Frame)
    requires o < |objs| && Shaped(objs) && objs[o].kind.Shadow? && pn !in objs[o].pages && f.pin == 0
    ensures var a := AddPage(objs, o, pn, f);
            && Shaped(a) && a[o].shadowed < o
            && var b := Filled(a, o, pn);
               b[o := b[o].(pages := b[o].pages[pn := b[o].pages[pn].(dirty := true)])] == WriteLookup(objs, o, pn)
  {
    assert ObjOk(objs, o);
    var a := AddPage(objs, o, pn, f);
    OwnerBelow(objs, o, a[o], objs[o].shadowed, pn);
    forall y | 0 <= y < |a|
      ensures ObjOk(a, y)
    {
      assert ObjOk(objs, y);
    }
    var w := Owner(objs, objs[o].shadowed, pn);
    assert w < o;
    var b := Filled(a, o, pn);
    var c := b[o := b[o].(pages := b[o].pages[pn := b[o].pages[pn].(dirty := true)])];
    assert c[o].pages == objs[o].pages[pn := Frame(ContentOf(objs[w], pn), 1, true)];
  }

  // Page pn uncached and its reference given back
  function PageDropped(objs: seq<MmObj>, o: nat, pn: nat): seq<MmObj>
    requires o < |objs|
  {
    var x := objs[o];
    objs[o := x.(refcount := x.refcount - 1, nres := x.nres - 1, pages := x.pages - {pn})]
  }

  // The nested put of a page being freed only counts down
  lemma PageDroppedByPut(objs: seq<MmObj>, o: nat, pn: nat, ext: nat -> int)
    requires Formed(objs) && Exact(objs, ext) && o < |objs| && objs[o].live && pn in objs[o].pages && ext(o) > 0
    requires objs[o].refcount - 1 == objs[o].nres
    ensures O.Put(Uncached(objs, o, pn), o) == PageDropped(objs, o, pn)
    ensures Formed(PageDropped(objs, o, pn)) && Exact(PageDropped(objs, o, pn), ext)
    ensures |PageDropped(objs, o, pn)[o].pages| == |objs[o].pages| - 1
  {
    PageGone(objs, o, pn, ext);
    var r := Uncached(objs, o, pn);
    PutExact(r, o, Bump(ext, o, 1));
    PutFormed(r, o);
    ExactCongruent(O.Put(r, o), Bump(Bump(ext, o, 1), o, -1), ext);
    assert ObjOk(r, o);
  }
}
