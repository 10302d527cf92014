/**
 The frame cache and the page maps of the memory objects are two sides of the
 same frames: the cache knows where a frame is linked, the object what the page
 holds.  Here the two are kept in step by every operation on frames.
 */
module FrameLink {
  import opened Objects
  import opened FrameCache
  import V = VmKernel

  ghost predicate HasFrame(c: Cache, o: nat, pn: nat) {
    exists f :: Holds(c, f, o, pn)
  }

  // The cached frame is that of a page of its object, pinned as often
  ghost predicate FrameAgrees(objs: seq<MmObj>, c: Cache, f: nat)
    requires f in c.frames
  {
    var x := c.frames[f];
    x.obj < |objs| && x.pagenum in objs[x.obj].pages && x.pin == objs[x.obj].pages[x.pagenum].pin
  }

  // Frames and resident pages correspond one to one
  ghost predicate Agrees(objs: seq<MmObj>, c: Cache) {
    && CacheOk(c)
    && (forall f | f in c.frames :: FrameAgrees(objs, c, f))
    && (forall o, pn | 0 <= o < |objs| && pn in objs[o].pages :: HasFrame(c, o, pn))
  }

  // pframe_get_resident finds exactly the resident pages
  lemma ResidentIff(objs: seq<MmObj>, c: Cache, o: nat, pn: nat)
    requires Agrees(objs, c) && o < |objs|
    ensures HasFrame(c, o, pn) <==> pn in objs[o].pages
  {
    if f :| Holds(c, f, o, pn) {
      assert FrameAgrees(objs, c, f);
    }
  }

  // ---- counting ----

  ghost function PageNums(c: Cache, l: seq<nat>): set<nat>
    requires forall i | 0 <= i < |l| :: l[i] in c.frames
  {
    if l == [] then {} else {c.frames[l[0]].pagenum} + PageNums(c, l[1..])
  }

  lemma {:induction false} PageNumsIn(c: Cache, l: seq<nat>, pn: nat)
    requires forall i | 0 <= i < |l| :: l[i] in c.frames
    ensures pn in PageNums(c, l) <==> exists i :: 0 <= i < |l| && c.frames[l[i]].pagenum == pn
  {
    if l != [] {
      PageNumsIn(c, l[1..], pn);
      if pn in PageNums(c, l[1..]) {
        var i :| 0 <= i < |l[1..]| && c.frames[l[1..][i]].pagenum == pn;
        assert l[i + 1] == l[1..][i];
      }
      if i :| 0 < i < |l| && c.frames[l[i]].pagenum == pn {
        assert l[1..][i - 1] == l[i];
      }
    }
  }

  lemma {:induction false} PageNumsCount(c: Cache, l: seq<nat>)
    requires forall i | 0 <= i < |l| :: l[i] in c.frames
    requires forall i, j | 0 <= i < j < |l| :: c.frames[l[i]].pagenum != c.frames[l[j]].pagenum
    ensures |PageNums(c, l)| == |l|
  {
    if l != [] {
      PageNumsCount(c, l[1..]);
      PageNumsIn(c, l[1..], c.frames[l[0]].pagenum);
    }
  }

  // The object's counter of resident pages is the length of its list
  lemma CountsAgree(objs: seq<MmObj>, c: Cache, o: nat)
    requires Agrees(objs, c) && o < |objs| && Formed(objs)
    ensures |ResidentList(c.respages, o)| == objs[o].nres
  {
    hide Formed, Agrees, ResidentList, PageNums;
    var l := ResidentList(c.respages, o);
    PageCount(objs, o);
    ListFrames(objs, c, o);
    PageNumsCount(c, l);
    forall pn
      ensures pn in PageNums(c, l) <==> pn in objs[o].pages
    {
      PagesListed(objs, c, o, pn);
    }
    assert PageNums(c, l) == objs[o].pages.Keys;
  }

  lemma PageCount(objs: seq<MmObj>, o: nat)
    requires Formed(objs) && o < |objs|
    ensures objs[o].nres == |objs[o].pages.Keys|
  {
    assert ObjOk(objs, o);
    assert |objs[o].pages| == |objs[o].pages.Keys|;
  }

  // The list has at most one frame for each page ...
  lemma ListFrames(objs: seq<MmObj>, c: Cache, o: nat)
    requires Agrees(objs, c)
    ensures var l := ResidentList(c.respages, o);
            && (forall i | 0 <= i < |l| :: l[i] in c.frames)
            && (forall i, j | 0 <= i < j < |l| :: c.frames[l[i]].pagenum != c.frames[l[j]].pagenum)
  {
    assert LinkedAt(c, o);
    hide Hashed, Linked, Listed, ResidentList, FrameAgrees, HasFrame;
    var l := ResidentList(c.respages, o);
    forall i, j | 0 <= i < j < |l|
      ensures c.frames[l[i]].pagenum != c.frames[l[j]].pagenum
    {
      assert l[i] in l && l[j] in l && l[i] != l[j];
    }
  }

  // ... and one for each resident page
  lemma PagesListed(objs: seq<MmObj>, c: Cache, o: nat, pn: nat)
    requires Agrees(objs, c) && o < |objs|
    ensures var l := ResidentList(c.respages, o);
            (forall i | 0 <= i < |l| :: l[i] in c.frames) && (pn in PageNums(c, l) <==> pn in objs[o].pages)
  {
    var l := ResidentList(c.respages, o);
    assert LinkedAt(c, o);
    ListFrames(objs, c, o);
    PageNumsIn(c, l, pn);
    ResidentIff(objs, c, o, pn);
    hide PageNums, Agrees, ResidentList;
    if f :| Holds(c, f, o, pn) {
      assert f in l;
    }
    if i :| 0 <= i < |l| && c.frames[l[i]].pagenum == pn {
      assert l[i] in l;
      assert Holds(c, l[i], o, pn);
    }
  }

  // ---- single operations ----

  // pframe_alloc: one more frame, one more page
  lemma AllocAgrees(objs: seq<MmObj>, c: Cache, f: nat, o: nat, pn: nat, x: Frame)
    requires Agrees(objs, c) && o < |objs| && pn !in objs[o].pages && f !in c.frames && x.pin == 0
    ensures (forall g :: !Holds(c, g, o, pn)) && Agrees(AddPage(objs, o, pn, x), Allocated(c, f, o, pn))
  {
    AgreesOk(objs, c);
    assert forall g :: !Holds(c, g, o, pn) by {
      ResidentIff(objs, c, o, pn);
      hide Holds, Agrees;
    }
    AllocatedOk(c, f, o, pn);
    hide CacheOk, Holds, Allocated, AddPage;
    var objs', c' := AddPage(objs, o, pn, x), Allocated(c, f, o, pn);
    AllocFrames(objs, c, f, o, pn, x);
    AllocPages(objs, c, f, o, pn, x);
  }

  lemma AllocFrames(objs: seq<MmObj>, c: Cache, f: nat, o: nat, pn: nat, x: Frame)
    requires Agrees(objs, c) && o < |objs| && pn !in objs[o].pages && f !in c.frames && x.pin == 0 && |c.hash| > 0
    ensures var objs', c' := AddPage(objs, o, pn, x), Allocated(c, f, o, pn);
            forall g | g in c'.frames :: FrameAgrees(objs', c', g)
  {
    hide CacheOk, HasFrame;
    var objs', c' := AddPage(objs, o, pn, x), Allocated(c, f, o, pn);
    forall g | g in c'.frames
      ensures FrameAgrees(objs', c', g)
    {
      if g != f {
        assert FrameAgrees(objs, c, g);
      }
    }
  }

  lemma AllocPages(objs: seq<MmObj>, c: Cache, f: nat, o: nat, pn: nat, x: Frame)
    requires Agrees(objs, c) && o < |objs| && f !in c.frames && |c.hash| > 0
    ensures var objs', c' := AddPage(objs, o, pn, x), Allocated(c, f, o, pn);
            forall y, q | 0 <= y < |objs'| && q in objs'[y].pages :: HasFrame(c', y, q)
  {
    hide CacheOk, FrameAgrees;
    var objs', c' := AddPage(objs, o, pn, x), Allocated(c, f, o, pn);
    assert Holds(c', f, o, pn);
    forall y, q | 0 <= y < |objs'| && q in objs'[y].pages
      ensures HasFrame(c', y, q)
    {
      if !(y == o && q == pn) {
        assert HasFrame(c, y, q);
        var g :| Holds(c, g, y, q);
        assert Holds(c', g, y, q);
      }
    }
  }

  // A frame keeps its place while its pin count changes on both sides
  lemma RepinAgrees(objs: seq<MmObj>, c: Cache, c': Cache, f: nat, o: nat, pn: nat, pin: nat)
    requires Agrees(objs, c) && Holds(c, f, o, pn) && o < |objs| && pn in objs[o].pages
    requires CacheOk(c') && c'.frames == c.frames[f := c.frames[f].(pin := pin)]
    ensures Agrees(V.Repinned(objs, o, pn, pin), c')
  {
    hide CacheOk;
    var objs' := V.Repinned(objs, o, pn, pin);
    forall g | g in c'.frames
      ensures FrameAgrees(objs', c', g)
    {
      assert FrameAgrees(objs, c, g);
      if g != f {
        OneFrame(objs, c, f, g);
      }
    }
    forall y, q | 0 <= y < |objs'| && q in objs'[y].pages
      ensures HasFrame(c', y, q)
    {
      assert HasFrame(c, y, q);
      var g :| Holds(c, g, y, q);
      assert Holds(c', g, y, q);
    }
  }

  lemma OneFrame(objs: seq<MmObj>, c: Cache, f: nat, g: nat)
    requires Agrees(objs, c) && f in c.frames && g in c.frames && f != g
    ensures c.frames[f].obj != c.frames[g].obj || c.frames[f].pagenum != c.frames[g].pagenum
  {
  }

  lemma AgreesOk(objs: seq<MmObj>, c: Cache)
    requires Agrees(objs, c)
    ensures CacheOk(c) && |c.hash| > 0
  {
  }

  // pframe_pin and pframe_unpin
  lemma PinAgrees(objs: seq<MmObj>, c: Cache, f: nat, o: nat, pn: nat)
    requires Agrees(objs, c) && Holds(c, f, o, pn)
    ensures o < |objs| && pn in objs[o].pages
    ensures Agrees(V.Repinned(objs, o, pn, objs[o].pages[pn].pin + 1), Pinned(c, f))
    ensures objs[o].pages[pn].pin > 0 ==>
              c.frames[f].pin > 0 && Agrees(V.Repinned(objs, o, pn, objs[o].pages[pn].pin - 1), Unpinned(c, f))
  {
    hide CacheOk;
    assert FrameAgrees(objs, c, f);
    hide Agrees;
    AgreesOk(objs, c);
    PinnedOk(c, f);
    RepinAgrees(objs, c, Pinned(c, f), f, o, pn, c.frames[f].pin + 1);
    if c.frames[f].pin > 0 {
      UnpinnedOk(c, f);
      RepinAgrees(objs, c, Unpinned(c, f), f, o, pn, c.frames[f].pin - 1);
    }
  }

  // pframe_free: the page and its frame are gone; the condition on the pin
  // count is the same on both sides
  lemma FreeAgrees(objs: seq<MmObj>, c: Cache, f: nat, o: nat, pn: nat)
    requires Agrees(objs, c) && Holds(c, f, o, pn)
    ensures o < |objs| && pn in objs[o].pages && (objs[o].pages[pn].pin == 0 <==> c.frames[f].pin == 0)
    ensures |c.hash| > 0 && (objs[o].pages[pn].pin == 0 ==> Agrees(V.Uncached(objs, o, pn), Freed(c, f)))
  {
    assert FrameAgrees(objs, c, f);
    if c.frames[f].pin == 0 {
      FreedOk(c, f);
      FreeKeeps(objs, c, f, o, pn);
    }
  }

  lemma FreeKeeps(objs: seq<MmObj>, c: Cache, f: nat, o: nat, pn: nat)
    requires Agrees(objs, c) && Holds(c, f, o, pn) && o < |objs| && |c.hash| > 0 && CacheOk(Freed(c, f))
    ensures Agrees(V.Uncached(objs, o, pn), Freed(c, f))
  {
    hide CacheOk;
    var objs', c' := V.Uncached(objs, o, pn), Freed(c, f);
    forall g | g in c'.frames
      ensures FrameAgrees(objs', c', g)
    {
      assert FrameAgrees(objs, c, g);
      OneFrame(objs, c, f, g);
    }
    forall y, q | 0 <= y < |objs'| && q in objs'[y].pages
      ensures HasFrame(c', y, q)
    {
      assert HasFrame(c, y, q);
      var g :| Holds(c, g, y, q);
      assert Holds(c', g, y, q);
    }
  }

  // Filling, dirtying and counting references leave the cache alone, and so
  // does a new object
  ghost predicate SameResidency(objs: seq<MmObj>, objs': seq<MmObj>) {
    && |objs| <= |objs'|
    && (forall o | 0 <= o < |objs| :: SamePins(objs[o].pages, objs'[o].pages))
    && (forall o | |objs| <= o < |objs'| :: objs'[o].pages == map[])
  }

  ghost predicate SamePins(pages: map<nat, Frame>, pages': map<nat, Frame>) {
    && pages.Keys == pages'.Keys
    && forall pn | pn in pages :: pages'[pn].pin == pages[pn].pin
  }

  lemma ResidencyAgrees(objs: seq<MmObj>, objs': seq<MmObj>, c: Cache)
    requires Agrees(objs, c) && SameResidency(objs, objs')
    ensures Agrees(objs', c)
  {
    forall f | f in c.frames
      ensures FrameAgrees(objs', c, f)
    {
      assert FrameAgrees(objs, c, f);
    }
    forall y, q | 0 <= y < |objs'| && q in objs'[y].pages
      ensures HasFrame(c, y, q)
    {
      assert y < |objs| && q in objs[y].pages;
    }
  }

  // ---- whole operations ----

  // A page of a bottom object made resident: allocated, filled, and pinned if
  // the object is anonymous
  lemma PageInAgrees(objs: seq<MmObj>, c: Cache, f: nat, b: nat, pn: nat)
    requires Agrees(objs, c) && b < |objs| && pn !in objs[b].pages && f !in c.frames
    ensures var c1 := Allocated(c, f, b, pn);
            Agrees(PageIn(objs, b, pn), if objs[b].kind.File? then c1 else Pinned(c1, f))
  {
    FilledAgrees(objs, c, f, b, pn, Frame(Backing(objs[b].kind, pn), PinOf(objs[b].kind), false));
  }

  lemma AddThenPin(objs: seq<MmObj>, o: nat, pn: nat, x: Frame)
    requires o < |objs| && x.pin == 1
    ensures var objs1 := AddPage(objs, o, pn, x.(pin := 0));
            && |objs1| == |objs| && pn in objs1[o].pages && objs1[o].pages[pn].pin == 0
            && V.Repinned(objs1, o, pn, 1) == AddPage(objs, o, pn, x)
  {
    var objs1 := AddPage(objs, o, pn, x.(pin := 0));
    assert V.Repinned(objs1, o, pn, 1)[o].pages == AddPage(objs, o, pn, x)[o].pages;
  }

  // A new page of any object, with no pin or with one
  lemma FilledAgrees(objs: seq<MmObj>, c: Cache, f: nat, o: nat, pn: nat, x: Frame)
    requires Agrees(objs, c) && o < |objs| && pn !in objs[o].pages && f !in c.frames && x.pin <= 1
    ensures var c1 := Allocated(c, f, o, pn);
            Agrees(AddPage(objs, o, pn, x), if x.pin == 0 then c1 else Pinned(c1, f))
  {
    AgreesOk(objs, c);
    hide Agrees, CacheOk, Pinned;
    var raw := x.(pin := 0);
    AllocAgrees(objs, c, f, o, pn, raw);
    if x.pin == 1 {
      assert Holds(Allocated(c, f, o, pn), f, o, pn);
      AddThenPin(objs, o, pn, x);
      hide AddPage, Allocated, Holds;
      PinAgrees(AddPage(objs, o, pn, raw), Allocated(c, f, o, pn), f, o, pn);
    }
  }

  // Copy-on-write: the page added before the one below it is looked up, or after
  lemma CopyOrder(objs: seq<MmObj>, o: nat, b: nat, pn: nat, x: Frame)
    requires o < |objs| && b < o && x.pin == 1
    ensures var objs2 := PageIn(AddPage(objs, o, pn, x.(pin := 0)), b, pn);
            && |objs2| == |objs| && pn in objs2[o].pages && objs2[o].pages[pn].pin == 0
            && V.Repinned(objs2, o, pn, 1) == AddPage(PageIn(objs, b, pn), o, pn, x)
  {
    var objs2 := PageIn(AddPage(objs, o, pn, x.(pin := 0)), b, pn);
    var l, r := V.Repinned(objs2, o, pn, 1), AddPage(PageIn(objs, b, pn), o, pn, x);
    assert l[o].pages == r[o].pages;
    assert l[b] == r[b] && l[o] == r[o];
  }

  // Teardown of a page pinned once: one unpin, then free
  lemma TeardownAgrees(objs: seq<MmObj>, c: Cache, f: nat, o: nat, pn: nat)
    requires Agrees(objs, c) && Holds(c, f, o, pn) && o < |objs| && pn in objs[o].pages && objs[o].pages[pn].pin == 1
    ensures |c.hash| > 0 && c.frames[f].pin == 1
    ensures Agrees(V.Uncached(objs, o, pn), Freed(Unpinned(c, f), f))
  {
    assert FrameAgrees(objs, c, f);
    PinAgrees(objs, c, f, o, pn);
    FreeAgrees(V.Repinned(objs, o, pn, 0), Unpinned(c, f), f, o, pn);
    V.UncachedRepinned(objs, o, pn, 0);
  }

  // Before any page is resident both sides are empty
  lemma EmptyAgrees(objs: seq<MmObj>, size: nat)
    requires size > 0 && forall o | 0 <= o < |objs| :: objs[o].pages == map[]
    ensures Agrees(objs, Cache(map[], seq(size, _ => []), map[], [], [], 0, 0))
  {
    var c := Cache(map[], seq(size, _ => []), map[], [], [], 0, 0);
    assert forall o :: ResidentList(c.respages, o) == [];
    assert forall o :: LinkedAt(c, o);
  }
}
