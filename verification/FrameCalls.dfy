/**
 The calls into mm/pframe.c that lookups and puts make, in the order they make
 them.  They are decided as the code decides them, from what pframe_get_resident
 finds, the lists of resident pages, pin counts, and the links and counts of the
 objects; page maps are not consulted.  Each call is allowed when its turn comes,
 and afterwards the cache is in step with the page maps.
 */
module FrameCalls {
  import opened Basics
  import opened Objects
  import opened FrameLink
  import F = FrameCache
  import V = VmKernel

  // ---- sequences of calls ----

  // The calls are allowed in turn and lead to a cache in step with objs
  ghost predicate Follows(c: F.Cache, calls: seq<F.CacheOp>, objs: seq<MmObj>) {
    F.Runs(c, calls) && Agrees(objs, F.Run(c, calls))
  }

  ghost function After(c: F.Cache, calls: seq<F.CacheOp>): F.Cache {
    if F.Runs(c, calls) then F.Run(c, calls) else c
  }

  lemma {:induction false} RunsConcat(c: F.Cache, a: seq<F.CacheOp>, b: seq<F.CacheOp>)
    requires F.Runs(c, a) && F.Runs(F.Run(c, a), b)
    ensures F.Runs(c, a + b) && F.Run(c, a + b) == F.Run(F.Run(c, a), b)
    decreases |a|
  {
    if a == [] {
      assert a + b == b;
    } else {
      assert (a + b)[0] == a[0] && (a + b)[1..] == a[1..] + b;
      RunsConcat(F.Performed(c, a[0]), a[1..], b);
    }
  }

  lemma Then(c: F.Cache, a: seq<F.CacheOp>, b: seq<F.CacheOp>, objs: seq<MmObj>)
    requires F.Runs(c, a) && Follows(After(c, a), b, objs)
    ensures Follows(c, a + b, objs) && After(c, a + b) == After(After(c, a), b)
  {
    hide Agrees, F.Runs, F.Run;
    RunsConcat(c, a, b);
  }

  lemma OneCall(c: F.Cache, op: F.CacheOp)
    requires F.Allowed(c, op)
    ensures F.Runs(c, [op]) && F.Run(c, [op]) == F.Performed(c, op) && After(c, [op]) == F.Performed(c, op)
  {
    assert [op][1..] == [];
  }

  lemma NoCall(c: F.Cache)
    ensures F.Runs(c, []) && F.Run(c, []) == c && After(c, []) == c
  {
  }

  // Steps that leave residency alone need no call
  lemma Idle(objs: seq<MmObj>, objs': seq<MmObj>, c: F.Cache)
    requires Agrees(objs, c) && SameResidency(objs, objs')
    ensures Follows(c, [], objs')
  {
    ResidencyAgrees(objs, objs', c);
  }

  // ... nor do they after others
  lemma ThenIdle(c: F.Cache, calls: seq<F.CacheOp>, objs: seq<MmObj>, objs': seq<MmObj>)
    requires Follows(c, calls, objs) && SameResidency(objs, objs')
    ensures Follows(c, calls, objs')
  {
    ResidencyAgrees(objs, objs', F.Run(c, calls));
  }

  // ---- lookups ----

  // The frame pframe_get_resident finds
  ghost function Found(c: F.Cache, o: nat, pn: nat): nat
    requires HasFrame(c, o, pn)
  {
    var f :| F.Holds(c, f, o, pn);
    f
  }

  // pframe_get: a resident frame is requested, otherwise one is allocated and
  // filled, which pins it unless it belongs to a file.  f is the frame the slab
  // allocator would hand out.
  ghost function GetCalls(objs: seq<MmObj>, c: F.Cache, b: nat, pn: nat, f: nat): seq<F.CacheOp>
    requires b < |objs|
  {
    if HasFrame(c, b, pn) then [F.OpRequest(Found(c, b, pn))]
    else [F.OpAlloc(f, b, pn)] + if objs[b].kind.File? then [] else [F.OpPin(f)]
  }

  // The walk down the chain: the first object whose page is resident, or the
  // bottom object
  ghost function Seen(objs: seq<MmObj>, c: F.Cache, o: nat, pn: nat): (w: nat)
    requires o < |objs|
    ensures w <= o
    decreases o
  {
    if HasFrame(c, o, pn) || !objs[o].kind.Shadow? || objs[o].shadowed >= o then o
    else Seen(objs, c, objs[o].shadowed, pn)
  }

  // lookuppage for reading
  ghost function ReadCalls(objs: seq<MmObj>, c: F.Cache, o: nat, pn: nat, f: nat): seq<F.CacheOp>
    requires o < |objs|
  {
    GetCalls(objs, c, Seen(objs, c, o, pn), pn, f)
  }

  // lookuppage for writing: a shadow's missing page is allocated, then the page
  // to copy is looked up below, then the copy is pinned
  ghost function WriteCalls(objs: seq<MmObj>, c: F.Cache, o: nat, pn: nat, f: nat, g: nat): seq<F.CacheOp>
    requires o < |objs|
  {
    if HasFrame(c, o, pn) || !objs[o].kind.Shadow? || objs[o].shadowed >= o then GetCalls(objs, c, o, pn, f)
    else
      var a := [F.OpAlloc(f, o, pn)];
      a + ReadCalls(objs, After(c, a), objs[o].shadowed, pn, g) + [F.OpPin(f)]
  }

  // A write fault pins the frame while it dirties it
  ghost function FaultCalls(objs: seq<MmObj>, c: F.Cache, o: nat, pn: nat, f: nat, g: nat): seq<F.CacheOp>
    requires o < |objs|
  {
    var calls := WriteCalls(objs, c, o, pn, f, g);
    var c1 := After(c, calls);
    if HasFrame(c1, o, pn) then calls + [F.OpPin(Found(c1, o, pn))] + [F.OpUnpin(Found(c1, o, pn))] else calls
  }

  lemma FoundHolds(objs: seq<MmObj>, c: F.Cache, o: nat, pn: nat)
    requires Agrees(objs, c) && o < |objs| && pn in objs[o].pages
    ensures HasFrame(c, o, pn) && F.Holds(c, Found(c, o, pn), o, pn)
  {
    ResidentIff(objs, c, o, pn);
  }

  lemma RequestAgrees(objs: seq<MmObj>, c: F.Cache, f: nat)
    requires Agrees(objs, c) && f in c.frames
    ensures Agrees(objs, F.Requested(c, f))
  {
    F.RequestedOk(c, f);
    var r := F.Requested(c, f);
    hide F.CacheOk;
    forall g | g in r.frames
      ensures FrameAgrees(objs, r, g)
    {
      assert FrameAgrees(objs, c, g);
    }
    forall y, q | 0 <= y < |objs| && q in objs[y].pages
      ensures HasFrame(r, y, q)
    {
      assert HasFrame(c, y, q);
      var g :| F.Holds(c, g, y, q);
      assert F.Holds(r, g, y, q);
    }
  }

  lemma GetFollows(objs: seq<MmObj>, c: F.Cache, b: nat, pn: nat, f: nat)
    requires Agrees(objs, c) && b < |objs| && f !in c.frames
    ensures Follows(c, GetCalls(objs, c, b, pn, f), PageIn(objs, b, pn))
  {
    ResidentIff(objs, c, b, pn);
    if pn in objs[b].pages {
      FoundHolds(objs, c, b, pn);
      hide Agrees;
      RequestAgrees(objs, c, Found(c, b, pn));
      OneCall(c, F.OpRequest(Found(c, b, pn)));
    } else {
      AgreesOk(objs, c);
      AllocAgrees(objs, c, f, b, pn, Frame(Backing(objs[b].kind, pn), 0, false));
      PageInAgrees(objs, c, f, b, pn);
      hide Agrees, PageIn;
      var alloc := F.OpAlloc(f, b, pn);
      OneCall(c, alloc);
      if objs[b].kind.File? {
        assert [alloc] + [] == [alloc];
      } else {
        OneCall(F.Allocated(c, f, b, pn), F.OpPin(f));
        Then(c, [alloc], [F.OpPin(f)], PageIn(objs, b, pn));
      }
    }
  }

  // A looked-up page of a file is the most recently used of the unpinned ones
  lemma GetTouches(objs: seq<MmObj>, c: F.Cache, b: nat, pn: nat, f: nat)
    requires Agrees(objs, c) && Formed(objs) && b < |objs| && objs[b].kind.File? && f !in c.frames
    ensures var l := After(c, GetCalls(objs, c, b, pn, f)).allocList;
            l != [] && F.Holds(After(c, GetCalls(objs, c, b, pn, f)), l[|l| - 1], b, pn)
  {
    AgreesOk(objs, c);
    ResidentIff(objs, c, b, pn);
    if HasFrame(c, b, pn) {
      FoundHolds(objs, c, b, pn);
      var g := Found(c, b, pn);
      assert FrameAgrees(objs, c, g) && FramesOk(objs[b]);
      hide Agrees, Formed;
      OneCall(c, F.OpRequest(g));
    } else {
      var alloc := F.OpAlloc(f, b, pn);
      assert F.Allowed(c, alloc) by {
        hide F.Holds;
      }
      hide Agrees, Formed;
      OneCall(c, alloc);
      assert [alloc] + [] == [alloc];
    }
  }

  // The walk over the cache meets the owner of the page
  lemma {:induction false} SeenIsOwner(objs: seq<MmObj>, c: F.Cache, o: nat, pn: nat)
    requires Agrees(objs, c) && o < |objs|
    ensures Seen(objs, c, o, pn) == Owner(objs, o, pn)
    decreases o
  {
    ResidentIff(objs, c, o, pn);
    if !(pn in objs[o].pages || !objs[o].kind.Shadow? || objs[o].shadowed >= o) {
      SeenIsOwner(objs, c, objs[o].shadowed, pn);
    }
  }

  lemma ReadFollows(objs: seq<MmObj>, c: F.Cache, o: nat, pn: nat, f: nat)
    requires Agrees(objs, c) && o < |objs| && f !in c.frames
    ensures Follows(c, ReadCalls(objs, c, o, pn, f), ReadLookup(objs, o, pn))
  {
    SeenIsOwner(objs, c, o, pn);
    GetFollows(objs, c, Owner(objs, o, pn), pn, f);
  }

  // ---- copying ----

  // The walk depends on links and cache only
  lemma {:induction false} SeenSame(objs: seq<MmObj>, objs': seq<MmObj>, c: F.Cache, o: nat, pn: nat)
    requires o < |objs| <= |objs'|
    requires forall y | 0 <= y <= o :: objs'[y].kind == objs[y].kind && objs'[y].shadowed == objs[y].shadowed
    ensures Seen(objs', c, o, pn) == Seen(objs, c, o, pn)
    decreases o
  {
    if !(HasFrame(c, o, pn) || !objs[o].kind.Shadow? || objs[o].shadowed >= o) {
      SeenSame(objs, objs', c, objs[o].shadowed, pn);
    }
  }

  lemma {:induction false} OwnerBelow(objs: seq<MmObj>, objs': seq<MmObj>, o: nat, pn: nat)
    requires o < |objs| <= |objs'| && forall y | 0 <= y <= o :: objs'[y] == objs[y]
    ensures Owner(objs', o, pn) == Owner(objs, o, pn)
    decreases o
  {
    if !(pn in objs[o].pages || !objs[o].kind.Shadow? || objs[o].shadowed >= o) {
      OwnerBelow(objs, objs', objs[o].shadowed, pn);
    }
  }

  // A frame keeps its identity while others are looked up
  lemma GetKeeps(objs: seq<MmObj>, c: F.Cache, b: nat, pn: nat, g: nat, f: nat, o: nat, q: nat)
    requires Agrees(objs, c) && b < |objs| && g !in c.frames && F.Holds(c, f, o, q)
    ensures F.Holds(After(c, GetCalls(objs, c, b, pn, g)), f, o, q)
  {
    GetFollows(objs, c, b, pn, g);
    AgreesOk(objs, c);
    ResidentIff(objs, c, b, pn);
    hide Agrees;
    if HasFrame(c, b, pn) {
      FoundHolds(objs, c, b, pn);
      OneCall(c, F.OpRequest(Found(c, b, pn)));
    } else {
      var alloc := F.OpAlloc(g, b, pn);
      assert F.Allowed(c, alloc) by {
        hide F.Holds;
      }
      OneCall(c, alloc);
      if objs[b].kind.File? {
        assert [alloc] + [] == [alloc];
      } else {
        OneCall(F.Allocated(c, g, b, pn), F.OpPin(g));
        RunsConcat(c, [alloc], [F.OpPin(g)]);
      }
    }
  }

  // What is in place before the copy is pinned
  lemma CopyReads(objs: seq<MmObj>, c: F.Cache, o: nat, pn: nat, f: nat, g: nat, x: Frame)
    requires Agrees(objs, c) && o < |objs| && pn !in objs[o].pages && objs[o].shadowed < o && x.pin == 0
    requires f !in c.frames && g !in c.frames && f != g
    ensures var a, w := [F.OpAlloc(f, o, pn)], Owner(objs, objs[o].shadowed, pn);
            var r := a + ReadCalls(objs, After(c, a), objs[o].shadowed, pn, g);
            Follows(c, r, PageIn(AddPage(objs, o, pn, x), w, pn)) && F.Holds(After(c, r), f, o, pn)
  {
    hide Agrees, F.Runs, F.Run, F.Allocated, AddPage, PageIn, F.Holds, HasFrame, GetCalls;
    var a, y := [F.OpAlloc(f, o, pn)], objs[o].shadowed;
    var objs1, c1, w := AddPage(objs, o, pn, x), After(c, a), Owner(objs, y, pn);
    AllocCall(objs, c, o, pn, f, x);
    CopyWalk(objs, c1, o, pn, g, x);
    GetFollows(objs1, c1, w, pn, g);
    GetKeeps(objs1, c1, w, pn, g, f, o, pn);
    Then(c, a, GetCalls(objs1, c1, w, pn, g), PageIn(objs1, w, pn));
  }

  lemma AllocCall(objs: seq<MmObj>, c: F.Cache, o: nat, pn: nat, f: nat, x: Frame)
    requires Agrees(objs, c) && o < |objs| && pn !in objs[o].pages && x.pin == 0 && f !in c.frames
    ensures F.Runs(c, [F.OpAlloc(f, o, pn)])
    ensures var c1 := After(c, [F.OpAlloc(f, o, pn)]);
            && Agrees(AddPage(objs, o, pn, x), c1) && F.Holds(c1, f, o, pn) && c1.frames.Keys == c.frames.Keys + {f}
  {
    AgreesOk(objs, c);
    AllocAgrees(objs, c, f, o, pn, x);
    hide Agrees;
    OneCall(c, F.OpAlloc(f, o, pn));
  }

  // The walk below a page just added
  lemma CopyWalk(objs: seq<MmObj>, c: F.Cache, o: nat, pn: nat, g: nat, x: Frame)
    requires o < |objs| && objs[o].shadowed < o && Agrees(AddPage(objs, o, pn, x), c)
    ensures var y := objs[o].shadowed;
            var w := Owner(objs, y, pn);
            |AddPage(objs, o, pn, x)| == |objs|
              && ReadCalls(objs, c, y, pn, g) == GetCalls(AddPage(objs, o, pn, x), c, w, pn, g)
  {
    var y, objs1 := objs[o].shadowed, AddPage(objs, o, pn, x);
    SeenSame(objs, objs1, c, y, pn);
    OwnerBelow(objs, objs1, y, pn);
    SeenIsOwner(objs1, c, y, pn);
    hide Agrees, HasFrame;
    assert objs1[Owner(objs, y, pn)] == objs[Owner(objs, y, pn)];
  }

  lemma CopyFollows(objs: seq<MmObj>, c: F.Cache, o: nat, pn: nat, f: nat, g: nat)
    requires Agrees(objs, c) && o < |objs| && objs[o].kind.Shadow? && objs[o].shadowed < o && pn !in objs[o].pages
    requires f !in c.frames && g !in c.frames && f != g
    ensures Follows(c, WriteCalls(objs, c, o, pn, f, g), WriteLookup(objs, o, pn))
  {
    hide Agrees, F.Runs, F.Run, PageIn, ReadCalls, F.Holds, V.Repinned, Owner, HasFrame, F.Pinned;
    var w := Owner(objs, objs[o].shadowed, pn);
    var x := Frame(ContentOf(objs[w], pn), 1, true);
    var a := [F.OpAlloc(f, o, pn)];
    var r := a + ReadCalls(objs, After(c, a), objs[o].shadowed, pn, g);
    ResidentIff(objs, c, o, pn);
    CopyReads(objs, c, o, pn, f, g, x.(pin := 0));
    CopyOrder(objs, o, w, pn, x);
    var objs2 := PageIn(AddPage(objs, o, pn, x.(pin := 0)), w, pn);
    PinAgrees(objs2, After(c, r), f, o, pn);
    PinCall(After(c, r), f, o, pn);
    Then(c, r, [F.OpPin(f)], WriteLookup(objs, o, pn));
  }

  lemma PinCall(c: F.Cache, f: nat, o: nat, pn: nat)
    requires F.Holds(c, f, o, pn)
    ensures F.Runs(c, [F.OpPin(f)]) && F.Run(c, [F.OpPin(f)]) == F.Pinned(c, f)
    ensures After(c, [F.OpPin(f)]) == F.Pinned(c, f)
  {
    OneCall(c, F.OpPin(f));
  }

  lemma WriteLookupFollows(objs: seq<MmObj>, c: F.Cache, o: nat, pn: nat, f: nat, g: nat)
    requires Agrees(objs, c) && o < |objs| && f !in c.frames && g !in c.frames && f != g
    ensures Follows(c, WriteCalls(objs, c, o, pn, f, g), WriteLookup(objs, o, pn))
  {
    ResidentIff(objs, c, o, pn);
    hide Agrees, F.Runs, F.Run;
    if pn in objs[o].pages || !objs[o].kind.Shadow? || objs[o].shadowed >= o {
      GetFollows(objs, c, o, pn, f);
    } else {
      CopyFollows(objs, c, o, pn, f, g);
    }
  }

  lemma FaultFollows(objs: seq<MmObj>, c: F.Cache, o: nat, pn: nat, f: nat, g: nat)
    requires Agrees(objs, c) && o < |objs| && f !in c.frames && g !in c.frames && f != g
    ensures Follows(c, FaultCalls(objs, c, o, pn, f, g), WriteLookup(objs, o, pn))
  {
    hide Agrees, F.Runs, F.Run, WriteCalls, WriteLookup, HasFrame, F.Holds;
    var calls := WriteCalls(objs, c, o, pn, f, g);
    var objs1, c1 := WriteLookup(objs, o, pn), After(c, calls);
    WriteLookupFollows(objs, c, o, pn, f, g);
    WriteResident(objs, o, pn);
    FoundHolds(objs1, c1, o, pn);
    var h := Found(c1, o, pn);
    PinUnpin(objs1, c1, h, o, pn);
    Then(c, calls, [F.OpPin(h)] + [F.OpUnpin(h)], objs1);
    assert calls + [F.OpPin(h)] + [F.OpUnpin(h)] == calls + ([F.OpPin(h)] + [F.OpUnpin(h)]);
  }

  lemma WriteResident(objs: seq<MmObj>, o: nat, pn: nat)
    requires o < |objs|
    ensures |WriteLookup(objs, o, pn)| == |objs| && pn in WriteLookup(objs, o, pn)[o].pages
  {
  }

  // Pinning around the dirtying
  lemma PinUnpin(objs: seq<MmObj>, c: F.Cache, h: nat, o: nat, pn: nat)
    requires Agrees(objs, c) && F.Holds(c, h, o, pn)
    ensures Follows(c, [F.OpPin(h)] + [F.OpUnpin(h)], objs)
  {
    hide Agrees, F.Runs, F.Run, F.Pinned, F.Unpinned;
    StillHeld(c, h, o, pn);
    PinAgrees(objs, c, h, o, pn);
    var n := objs[o].pages[pn].pin;
    var objs1, c1 := V.Repinned(objs, o, pn, n + 1), F.Pinned(c, h);
    PinAgrees(objs1, c1, h, o, pn);
    PinCall(c, h, o, pn);
    UnpinCall(c1, h);
    RepinBack(objs, o, pn);
    Then(c, [F.OpPin(h)], [F.OpUnpin(h)], objs);
  }

  lemma StillHeld(c: F.Cache, h: nat, o: nat, pn: nat)
    requires F.Holds(c, h, o, pn)
    ensures F.Holds(F.Pinned(c, h), h, o, pn)
  {
  }

  lemma RepinBack(objs: seq<MmObj>, o: nat, pn: nat)
    requires o < |objs| && pn in objs[o].pages
    ensures var n := objs[o].pages[pn].pin;
            V.Repinned(V.Repinned(objs, o, pn, n + 1), o, pn, n) == objs
  {
    var n := objs[o].pages[pn].pin;
    var r := V.Repinned(V.Repinned(objs, o, pn, n + 1), o, pn, n);
    assert r[o].pages == objs[o].pages;
    assert r[o] == objs[o];
  }

  lemma UnpinCall(c: F.Cache, f: nat)
    requires f in c.frames && c.frames[f].pin > 0
    ensures F.Runs(c, [F.OpUnpin(f)]) && F.Run(c, [F.OpUnpin(f)]) == F.Unpinned(c, f)
    ensures After(c, [F.OpUnpin(f)]) == F.Unpinned(c, f)
  {
    OneCall(c, F.OpUnpin(f));
  }

  lemma FreeCall(c: F.Cache, f: nat)
    requires |c.hash| > 0 && f in c.frames && c.frames[f].pin == 0
    ensures F.Runs(c, [F.OpFree(f)]) && F.Run(c, [F.OpFree(f)]) == F.Freed(c, f)
    ensures After(c, [F.OpFree(f)]) == F.Freed(c, f)
  {
    OneCall(c, F.OpFree(f));
  }

  // ---- teardown ----

  // One frame of a dying object: unpinned if pinned, then freed
  ghost function DropCalls(c: F.Cache, f: nat): seq<F.CacheOp> {
    (if f in c.frames && c.frames[f].pin > 0 then [F.OpUnpin(f)] else []) + [F.OpFree(f)]
  }

  // The loop over the list of resident pages
  ghost function TeardownCalls(c: F.Cache, l: seq<nat>): seq<F.CacheOp>
    decreases |l|
  {
    if l == [] then []
    else
      var d := DropCalls(c, l[0]);
      d + TeardownCalls(After(c, d), l[1..])
  }

  // The object's put operation, bottom before shadowed
  ghost function PutCalls(objs: seq<MmObj>, c: F.Cache, o: nat): seq<F.CacheOp>
    requires o < |objs|
    decreases o, 0
  {
    var x := objs[o];
    if x.refcount - 1 != x.nres then []
    else
      var t := TeardownCalls(c, F.ResidentList(c.respages, o));
      if x.kind.Shadow? && x.bottom < o && x.shadowed < o then
        t + PutsCalls(objs[o := Emptied(x)], After(c, t), x.bottom, x.shadowed)
      else t
  }

  ghost function PutsCalls(objs: seq<MmObj>, c: F.Cache, b: nat, w: nat): seq<F.CacheOp>
    requires b < |objs| && w < |objs|
    decreases if b < w then w else b, 1
  {
    var calls := PutCalls(objs, c, b);
    calls + PutCalls(Put(objs, b), After(c, calls), w)
  }

  lemma DropFollows(objs: seq<MmObj>, c: F.Cache, f: nat, o: nat, pn: nat)
    requires Agrees(objs, c) && F.Holds(c, f, o, pn) && o < |objs| && pn in objs[o].pages
             && objs[o].pages[pn].pin <= 1
    ensures Follows(c, DropCalls(c, f), V.Uncached(objs, o, pn))
    ensures var r := F.ResidentList(c.respages, o);
            F.ResidentList(After(c, DropCalls(c, f)).respages, o) == Erase(r, f)
  {
    hide Agrees, F.Runs, F.Run, V.Uncached, F.Freed, F.Unpinned, F.ResidentList;
    DropFacts(objs, c, f, o, pn);
    if objs[o].pages[pn].pin == 0 {
      FreeAgrees(objs, c, f, o, pn);
      FreeCall(c, f);
      assert [] + [F.OpFree(f)] == [F.OpFree(f)];
    } else {
      TeardownAgrees(objs, c, f, o, pn);
      UnpinCall(c, f);
      FreeCall(F.Unpinned(c, f), f);
      Then(c, [F.OpUnpin(f)], [F.OpFree(f)], V.Uncached(objs, o, pn));
    }
  }

  lemma DropFacts(objs: seq<MmObj>, c: F.Cache, f: nat, o: nat, pn: nat)
    requires Agrees(objs, c) && F.Holds(c, f, o, pn) && o < |objs| && pn in objs[o].pages
    ensures |c.hash| > 0 && c.frames[f].pin == objs[o].pages[pn].pin
    ensures F.ResidentList(F.Freed(c, f).respages, o) == Erase(F.ResidentList(c.respages, o), f)
    ensures c.frames[f].pin == 1 ==>
              var c1 := F.Unpinned(c, f);
              && |c1.hash| > 0 && f in c1.frames && c1.frames[f].pin == 0
              && F.ResidentList(F.Freed(c1, f).respages, o) == Erase(F.ResidentList(c.respages, o), f)
  {
    assert FrameAgrees(objs, c, f);
  }

  ghost function Stripped(objs: seq<MmObj>, o: nat): seq<MmObj>
    requires o < |objs|
  {
    objs[o := objs[o].(pages := map[])]
  }

  ghost predicate OnePin(x: MmObj) {
    forall pn | pn in x.pages :: x.pages[pn].pin <= 1
  }

  // The loop drops exactly the object's pages
  lemma {:induction false} TeardownFollows(objs: seq<MmObj>, c: F.Cache, o: nat, l: seq<nat>)
    requires Agrees(objs, c) && o < |objs| && OnePin(objs[o]) && l == F.ResidentList(c.respages, o)
    ensures Follows(c, TeardownCalls(c, l), Stripped(objs, o))
    decreases |l|
  {
    hide Agrees, F.Runs, F.Run, DropCalls, F.ResidentList, F.Holds, V.Uncached, SameResidency;
    if l == [] {
      NoPages(objs, c, o);
      NoCall(c);
    } else {
      var pn := HeadPage(objs, c, o);
      var d := DropCalls(c, l[0]);
      var objs1 := V.Uncached(objs, o, pn);
      DropFollows(objs, c, l[0], o, pn);
      OneLess(objs, o, pn);
      var c1 := After(c, d);
      TeardownFollows(objs1, c1, o, l[1..]);
      ThenIdle(c1, TeardownCalls(c1, l[1..]), Stripped(objs1, o), Stripped(objs, o));
      Then(c, d, TeardownCalls(c1, l[1..]), Stripped(objs, o));
    }
  }

  lemma OneLess(objs: seq<MmObj>, o: nat, pn: nat)
    requires o < |objs| && OnePin(objs[o])
    ensures var objs1 := V.Uncached(objs, o, pn);
            |objs1| == |objs| && OnePin(objs1[o]) && SameResidency(Stripped(objs1, o), Stripped(objs, o))
  {
  }

  lemma NoPages(objs: seq<MmObj>, c: F.Cache, o: nat)
    requires Agrees(objs, c) && o < |objs| && F.ResidentList(c.respages, o) == []
    ensures Stripped(objs, o) == objs
  {
    assert F.LinkedAt(c, o);
    forall pn | pn in objs[o].pages
      ensures false
    {
      FoundHolds(objs, c, o, pn);
    }
    assert objs[o].pages == map[];
  }

  lemma HeadPage(objs: seq<MmObj>, c: F.Cache, o: nat) returns (pn: nat)
    requires Agrees(objs, c) && o < |objs| && F.ResidentList(c.respages, o) != []
    ensures F.Holds(c, F.ResidentList(c.respages, o)[0], o, pn) && pn in objs[o].pages
  {
    var f := F.ResidentList(c.respages, o)[0];
    assert F.LinkedAt(c, o) && f in F.ResidentList(c.respages, o);
    assert FrameAgrees(objs, c, f);
    pn := c.frames[f].pagenum;
  }

  // The whole cascade
  lemma {:induction false} PutFollows(objs: seq<MmObj>, c: F.Cache, o: nat)
    requires Agrees(objs, c) && Formed(objs) && o < |objs|
    ensures Follows(c, PutCalls(objs, c, o), Put(objs, o))
    decreases o, 1
  {
    var x := objs[o];
    PutReady(objs, o);
    hide Agrees, Formed, F.Runs, F.Run, TeardownCalls, PutsCalls, SameResidency, Put;
    PutCases(objs, o);
    if x.refcount - 1 != x.nres {
      Idle(objs, Put(objs, o), c);
    } else {
      var l := F.ResidentList(c.respages, o);
      var t, objs1 := TeardownCalls(c, l), objs[o := Emptied(x)];
      TeardownFollows(objs, c, o, l);
      ThenIdle(c, t, Stripped(objs, o), objs1);
      if x.kind.Shadow? {
        PutsFollow(objs1, After(c, t), x.bottom, x.shadowed, o);
        Then(c, t, PutsCalls(objs1, After(c, t), x.bottom, x.shadowed), Put(objs, o));
      } else {
        ThenIdle(c, t, objs1, Put(objs, o));
      }
    }
  }

  lemma PutReady(objs: seq<MmObj>, o: nat)
    requires Formed(objs) && o < |objs|
    ensures OnePin(objs[o]) && Formed(objs[o := Emptied(objs[o])])
    ensures objs[o].kind.Shadow? ==> objs[o].bottom < o && objs[o].shadowed < o
    ensures SameResidency(Stripped(objs, o), objs[o := Emptied(objs[o])])
  {
    assert ObjOk(objs, o) && FramesOk(objs[o]);
    FormedUpdate(objs, o, Emptied(objs[o]));
  }

  lemma PutCases(objs: seq<MmObj>, o: nat)
    requires o < |objs| && (objs[o].kind.Shadow? ==> objs[o].bottom < o && objs[o].shadowed < o)
    ensures var x := objs[o];
            if x.refcount - 1 != x.nres then SameResidency(objs, Put(objs, o))
            else if !x.kind.Shadow? then SameResidency(objs[o := Emptied(x)], Put(objs, o))
            else var r := Put(Put(objs[o := Emptied(x)], x.bottom), x.shadowed);
                 Put(objs, o) == r[o := r[o].(refcount := 0)]
  {
  }

  lemma {:induction false} PutsFollow(objs: seq<MmObj>, c: F.Cache, b: nat, w: nat, o: nat)
    requires Agrees(objs, c) && Formed(objs) && b < o < |objs| && w < o
    ensures var r := Put(Put(objs, b), w);
            Follows(c, PutsCalls(objs, c, b, w), r[o := r[o].(refcount := 0)])
    decreases o, 0
  {
    hide Agrees, Formed, F.Runs, F.Run, PutCalls;
    var calls := PutCalls(objs, c, b);
    PutFollows(objs, c, b);
    PutFormed(objs, b);
    PutFollows(Put(objs, b), After(c, calls), w);
    hide Put;
    var r := Put(Put(objs, b), w);
    var more := PutCalls(Put(objs, b), After(c, calls), w);
    Then(c, calls, more, r);
    ThenIdle(c, calls + more, r, r[o := r[o].(refcount := 0)]);
  }
}
