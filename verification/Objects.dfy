/**
 Memory objects: vm/anon.c, vm/shadow.c and the reference counting they share.

 Objects are numbered in order of creation, so a shadow object always refers
 to older numbers.  Number 0 is the null object and is never live.  A freed
 object stays in the sequence with `live` off.  The resident pages of an
 object are a map from page number to frame.
 */
module Objects {

  const PAGE_SIZE: nat := 4096

  newtype Byte = x: int | 0 <= x < 256
  type Page = s: seq<Byte> | |s| == PAGE_SIZE witness Zeros(PAGE_SIZE)

  function Zeros(n: nat): (s: seq<Byte>)
    ensures |s| == n
    ensures forall i | 0 <= i < n :: s[i] == 0
  {
    if n == 0 then [] else Zeros(n - 1) + [0]
  }

  const ZERO_PAGE: Page := Zeros(PAGE_SIZE)

  datatype Kind = Anon | File(content: seq<Page>) | Shadow

  datatype Frame = Frame(bytes: Page, pin: nat, dirty: bool)

  datatype MmObj = MmObj(live: bool, kind: Kind, refcount: int, nres: int,
                         pages: map<nat, Frame>, shadowed: nat, bottom: nat)

  // What a page holds before anything was stored in it
  function Backing(kind: Kind, pn: nat): Page {
    if kind.File? && pn < |kind.content| then kind.content[pn] else ZERO_PAGE
  }

  // Frames of anonymous and shadow objects carry one permanent pin
  function PinOf(kind: Kind): nat {
    if kind.File? then 0 else 1
  }

  predicate FrameOk(kind: Kind, pn: nat, f: Frame) {
    && f.pin == PinOf(kind)
    && (kind.Shadow? ==> f.dirty)
    && (!f.dirty ==> f.bytes == Backing(kind, pn))
  }

  function BottomOf(objs: seq<MmObj>, o: nat): nat
    requires o < |objs|
  {
    if objs[o].kind.Shadow? then objs[o].bottom else o
  }

  // ---- structure of the shadow forest ----

  ghost predicate ObjOk(objs: seq<MmObj>, o: nat)
    requires o < |objs|
  {
    var x := objs[o];
    && x.nres == |x.pages|
    && (x.kind.Shadow? ==> && x.shadowed < o && x.bottom < o
                           && !objs[x.bottom].kind.Shadow?
                           && x.bottom == BottomOf(objs, x.shadowed))
  }

  ghost predicate FramesOk(x: MmObj) {
    forall pn | pn in x.pages :: FrameOk(x.kind, pn, x.pages[pn])
  }

  ghost predicate Shaped(objs: seq<MmObj>) {
    forall o | 0 <= o < |objs| :: ObjOk(objs, o)
  }

  ghost predicate Formed(objs: seq<MmObj>) {
    && Shaped(objs)
    && (forall o {:trigger FramesOk(objs[o])} | 0 <= o < |objs| :: FramesOk(objs[o]))
  }

  // ---- reference counts ----

  // References that object x holds on object o
  function Links(x: MmObj, o: nat): nat {
    if x.live && x.kind.Shadow? then (if x.shadowed == o then 1 else 0) + (if x.bottom == o then 1 else 0) else 0
  }

  // References on o held by live shadow objects
  function ShadowRefs(objs: seq<MmObj>, o: nat): nat {
    if objs == [] then 0 else ShadowRefs(objs[..|objs| - 1], o) + Links(objs[|objs| - 1], o)
  }

  // `ext` gives the references held from outside the object table.  A live
  // object is counted exactly and is wanted by somebody; a freed one is not
  // referred to at all.
  ghost predicate ExactAt(objs: seq<MmObj>, ext: nat -> int, o: nat)
    requires o < |objs|
  {
    var n := ext(o) + ShadowRefs(objs, o);
    if objs[o].live then n > 0 && objs[o].refcount == |objs[o].pages| + n else n == 0
  }

  ghost predicate Exact(objs: seq<MmObj>, ext: nat -> int) {
    && (forall o | 0 <= o < |objs| :: ext(o) >= 0)
    && (forall o | 0 <= o < |objs| :: ExactAt(objs, ext, o))
  }

  ghost function Bump(ext: nat -> int, o: nat, d: int): nat -> int {
    (x: nat) => if x == o then ext(x) + d else ext(x)
  }

  lemma {:induction false} ShadowRefsUpdate(objs: seq<MmObj>, i: nat, x: MmObj, o: nat)
    requires i < |objs|
    ensures ShadowRefs(objs[i := x], o) == ShadowRefs(objs, o) - Links(objs[i], o) + Links(x, o)
  {
    var n := |objs| - 1;
    if i == n {
      assert objs[i := x][..n] == objs[..n];
    } else {
      assert objs[i := x][..n] == objs[..n][i := x];
      ShadowRefsUpdate(objs[..n], i, x, o);
    }
  }

  lemma ShadowRefsAppend(objs: seq<MmObj>, x: MmObj, o: nat)
    ensures ShadowRefs(objs + [x], o) == ShadowRefs(objs, o) + Links(x, o)
  {
    assert (objs + [x])[..|objs|] == objs;
  }

  lemma {:induction false} LinkCounted(objs: seq<MmObj>, i: nat, o: nat)
    requires i < |objs|
    ensures ShadowRefs(objs, o) >= Links(objs[i], o)
  {
    if i < |objs| - 1 {
      assert objs[..|objs| - 1][i] == objs[i];
      LinkCounted(objs[..|objs| - 1], i, o);
    }
  }

  // A live shadow object refers only to live objects
  lemma LinksLive(objs: seq<MmObj>, ext: nat -> int, i: nat)
    requires Exact(objs, ext) && i < |objs| && ObjOk(objs, i) && objs[i].live && objs[i].kind.Shadow?
    ensures objs[objs[i].shadowed].live && objs[objs[i].bottom].live
  {
    LinkCounted(objs, i, objs[i].shadowed);
    LinkCounted(objs, i, objs[i].bottom);
    assert ExactAt(objs, ext, objs[i].shadowed) && ExactAt(objs, ext, objs[i].bottom);
  }

  // An update that keeps an object's links keeps every shadow count
  lemma SameLinks(objs: seq<MmObj>, i: nat, x: MmObj)
    requires i < |objs| && x.live == objs[i].live && x.kind == objs[i].kind
    requires x.shadowed == objs[i].shadowed && x.bottom == objs[i].bottom
    ensures forall o: nat :: ShadowRefs(objs[i := x], o) == ShadowRefs(objs, o)
  {
    forall o: nat
      ensures ShadowRefs(objs[i := x], o) == ShadowRefs(objs, o)
    {
      ShadowRefsUpdate(objs, i, x, o);
    }
  }

  // ---- ref ----

  function Ref(objs: seq<MmObj>, o: nat): seq<MmObj>
    requires o < |objs|
  {
    objs[o := objs[o].(refcount := objs[o].refcount + 1)]
  }

  lemma RefExact(objs: seq<MmObj>, o: nat, ext: nat -> int)
    requires Exact(objs, ext) && o < |objs| && objs[o].live
    ensures Exact(Ref(objs, o), Bump(ext, o, 1))
  {
    var r, e := Ref(objs, o), Bump(ext, o, 1);
    SameLinks(objs, o, r[o]);
    forall y | 0 <= y < |r|
      ensures ExactAt(r, e, y)
    {
      assert ExactAt(objs, ext, y);
    }
  }

  lemma RefFormed(objs: seq<MmObj>, o: nat)
    requires Formed(objs) && o < |objs|
    ensures Formed(Ref(objs, o))
  {
    assert ObjOk(objs, o) && FramesOk(objs[o]);
    FormedUpdate(objs, o, Ref(objs, o)[o]);
  }

  // ---- put ----

  // The object with its pages uncached
  function Emptied(x: MmObj): MmObj {
    x.(live := false, refcount := 1, nres := 0, pages := map[])
  }

  function Put(objs: seq<MmObj>, o: nat): (r: seq<MmObj>)
    requires o < |objs|
    ensures |r| == |objs|
    ensures forall x | o < x < |objs| :: r[x] == objs[x]
    decreases o
  {
    var x := objs[o];
    if x.refcount - 1 != x.nres then
      objs[o := x.(refcount := x.refcount - 1)]
    else if x.kind.Shadow? && x.bottom < o && x.shadowed < o then
      var r := Put(Put(objs[o := Emptied(x)], x.bottom), x.shadowed);
      r[o := r[o].(refcount := 0)]
    else
      objs[o := Emptied(x).(refcount := 0)]
  }

  // x' is x, possibly with another reference count
  predicate SameContent(x: MmObj, x': MmObj) {
    x'.kind == x.kind && x'.nres == x.nres && x'.pages == x.pages && x'.shadowed == x.shadowed && x'.bottom == x.bottom
  }

  // Survivors of objs keep their contents in objs'
  ghost predicate Keeps(objs: seq<MmObj>, objs': seq<MmObj>) {
    && |objs| <= |objs'|
    && (forall x | 0 <= x < |objs| :: objs'[x].live ==> objs[x].live && SameContent(objs[x], objs'[x]))
    && (forall x | 0 <= x < |objs| :: objs'[x].kind == objs[x].kind)
  }

  lemma {:induction false} PutKeeps(objs: seq<MmObj>, o: nat)
    requires o < |objs|
    ensures Keeps(objs, Put(objs, o))
    decreases o
  {
    var x := objs[o];
    if x.refcount - 1 == x.nres && x.kind.Shadow? && x.bottom < o && x.shadowed < o {
      var a := objs[o := Emptied(x)];
      PutKeeps(a, x.bottom);
      PutKeeps(Put(a, x.bottom), x.shadowed);
    }
  }

  // Links and page counts survive a put
  lemma {:induction false} PutFormed(objs: seq<MmObj>, o: nat)
    requires o < |objs| && Formed(objs)
    ensures Formed(Put(objs, o))
    decreases o
  {
    var x := objs[o];
    assert ObjOk(objs, o) && FramesOk(x);
    if x.refcount - 1 != x.nres {
      FormedUpdate(objs, o, x.(refcount := x.refcount - 1));
    } else {
      var a := objs[o := Emptied(x)];
      FormedUpdate(objs, o, Emptied(x));
      if x.kind.Shadow? {
        PutFormed(a, x.bottom);
        PutFormed(Put(a, x.bottom), x.shadowed);
        var r := Put(Put(a, x.bottom), x.shadowed);
        FormedUpdate(r, o, r[o].(refcount := 0));
      } else {
        FormedUpdate(objs, o, Emptied(x).(refcount := 0));
      }
    }
  }

  lemma FormedUpdate(objs: seq<MmObj>, o: nat, x: MmObj)
    requires o < |objs| && Formed(objs)
    requires x.kind == objs[o].kind && x.shadowed == objs[o].shadowed && x.bottom == objs[o].bottom
    requires x.nres == |x.pages| && FramesOk(x)
    ensures Formed(objs[o := x])
  {
    var r := objs[o := x];
    forall y | 0 <= y < |r|
      ensures ObjOk(r, y)
    {
      assert ObjOk(objs, y);
    }
  }

  // Giving up one outside reference leaves every count exact: an object is
  // freed exactly when nothing but its own pages refers to it.
  lemma {:induction false} PutExact(objs: seq<MmObj>, o: nat, ext: nat -> int)
    requires Formed(objs) && Exact(objs, ext) && o < |objs| && ext(o) > 0
    ensures Exact(Put(objs, o), Bump(ext, o, -1))
    decreases o
  {
    var x := objs[o];
    assert ExactAt(objs, ext, o) && ObjOk(objs, o);
    if x.refcount - 1 != x.nres {
      PutDecrement(objs, o, ext);
    } else if x.kind.Shadow? {
      PutRelease(objs, o, ext);
      var a := objs[o := Emptied(x)];
      var e1 := Bump(Bump(Bump(ext, o, -1), x.bottom, 1), x.shadowed, 1);
      FormedUpdate(objs, o, Emptied(x));
      PutExact(a, x.bottom, e1);
      PutFormed(a, x.bottom);
      var b := Put(a, x.bottom);
      PutExact(b, x.shadowed, Bump(e1, x.bottom, -1));
      var c := Put(b, x.shadowed);
      PutDeadCount(c, o, Bump(Bump(e1, x.bottom, -1), x.shadowed, -1), Bump(ext, o, -1));
    } else {
      PutRelease(objs, o, ext);
      PutDeadCount(objs[o := Emptied(x)], o, Bump(ext, o, -1), Bump(ext, o, -1));
      assert objs[o := Emptied(x)][o := Emptied(x).(refcount := 0)] == objs[o := Emptied(x).(refcount := 0)];
    }
  }

  // A put frees its object exactly when the reference given up was the last
  // one other than those of its own pages
  lemma PutFreesLast(objs: seq<MmObj>, o: nat, ext: nat -> int)
    requires Formed(objs) && Exact(objs, ext) && o < |objs| && ext(o) > 0
    ensures objs[o].live
    ensures !Put(objs, o)[o].live <==> ext(o) + ShadowRefs(objs, o) == 1
    ensures forall x | 0 <= x < |objs| && Put(objs, o)[x].live :: SameContent(objs[x], Put(objs, o)[x])
  {
    assert ExactAt(objs, ext, o) && ObjOk(objs, o);
    PutKeeps(objs, o);
    var x := objs[o];
    if x.refcount - 1 == x.nres && x.kind.Shadow? {
      var a := objs[o := Emptied(x)];
      var b := Put(a, x.bottom);
      assert b[o] == Emptied(x) && Put(b, x.shadowed)[o] == Emptied(x);
    }
  }

  lemma PutDecrement(objs: seq<MmObj>, o: nat, ext: nat -> int)
    requires Formed(objs) && Exact(objs, ext) && o < |objs| && ext(o) > 0
    requires objs[o].refcount - 1 != objs[o].nres
    ensures Exact(objs[o := objs[o].(refcount := objs[o].refcount - 1)], Bump(ext, o, -1))
  {
    var r, e := objs[o := objs[o].(refcount := objs[o].refcount - 1)], Bump(ext, o, -1);
    SameLinks(objs, o, r[o]);
    assert ObjOk(objs, o);
    forall y | 0 <= y < |r|
      ensures ExactAt(r, e, y)
    {
      assert ExactAt(objs, ext, y);
    }
  }

  // Emptying an unwanted object hands its links over to the two puts to come
  lemma PutRelease(objs: seq<MmObj>, o: nat, ext: nat -> int)
    requires Formed(objs) && Exact(objs, ext) && o < |objs| && ext(o) > 0
    requires objs[o].refcount - 1 == objs[o].nres
    ensures var x := objs[o];
            var e := Bump(ext, o, -1);
            Exact(objs[o := Emptied(x)], if x.kind.Shadow? then Bump(Bump(e, x.bottom, 1), x.shadowed, 1) else e)
  {
    var x := objs[o];
    var a := objs[o := Emptied(x)];
    var e := Bump(ext, o, -1);
    var e1 := if x.kind.Shadow? then Bump(Bump(e, x.bottom, 1), x.shadowed, 1) else e;
    assert ObjOk(objs, o) && ExactAt(objs, ext, o);
    forall y | 0 <= y < |a|
      ensures ExactAt(a, e1, y)
    {
      assert ExactAt(objs, ext, y);
      ShadowRefsUpdate(objs, o, Emptied(x), y);
    }
  }

  // The reference count of a freed object is not looked at any more
  lemma PutDeadCount(objs: seq<MmObj>, o: nat, ext: nat -> int, ext': nat -> int)
    requires Exact(objs, ext) && o < |objs| && !objs[o].live
    requires forall y: nat :: ext(y) == ext'(y)
    ensures Exact(objs[o := objs[o].(refcount := 0)], ext')
  {
    var r := objs[o := objs[o].(refcount := 0)];
    SameLinks(objs, o, r[o]);
    forall y | 0 <= y < |r|
      ensures ExactAt(r, ext', y)
    {
      assert ExactAt(objs, ext, y);
    }
  }

  // ---- creation ----

  function NewShadow(o: nat, bottom: nat): MmObj {
    MmObj(true, Shadow, 1, 0, map[], o, bottom)
  }

  function NewAnon(): MmObj {
    MmObj(true, Anon, 1, 0, map[], 0, 0)
  }

  lemma FormedAppend(objs: seq<MmObj>, x: MmObj)
    requires Formed(objs) && x.pages == map[] && x.nres == 0
    requires x.kind.Shadow? ==> && x.shadowed < |objs| && x.bottom < |objs| && !objs[x.bottom].kind.Shadow?
                                && x.bottom == BottomOf(objs, x.shadowed)
    ensures Formed(objs + [x])
  {
    var r := objs + [x];
    forall y | 0 <= y < |r|
      ensures ObjOk(r, y)
    {
      if y < |objs| {
        assert ObjOk(objs, y);
      }
    }
  }

  // A new object with one outside reference.  Its own links are taken over
  // from `ext`, which must hold them already.
  lemma AppendExact(objs: seq<MmObj>, x: MmObj, ext: nat -> int, ext': nat -> int)
    requires Exact(objs, ext) && x.live && x.refcount == 1 && x.pages == map[]
    requires x.kind.Shadow? ==> x.shadowed < |objs| && x.bottom < |objs|
    requires forall y | 0 <= y < |objs| :: ext'(y) == ext(y) - Links(x, y) && ext'(y) >= 0
    requires ext'(|objs|) == 1 && ShadowRefs(objs, |objs|) == 0
    ensures Exact(objs + [x], ext')
  {
    var r := objs + [x];
    forall y | 0 <= y < |r|
      ensures ExactAt(r, ext', y)
    {
      ShadowRefsAppend(objs, x, y);
      if y < |objs| {
        assert ExactAt(objs, ext, y);
      }
    }
  }

  // Nothing refers to a number not handed out yet
  lemma {:induction false} NoFutureRefs(objs: seq<MmObj>, o: nat)
    requires forall i | 0 <= i < |objs| && objs[i].kind.Shadow? :: objs[i].shadowed < i && objs[i].bottom < i
    requires |objs| <= o + 1
    ensures ShadowRefs(objs, o) == 0
  {
    if objs != [] {
      var n := |objs| - 1;
      assert forall i | 0 <= i < n :: objs[..n][i] == objs[i];
      NoFutureRefs(objs[..n], o);
    }
  }

  lemma FreshUnreferenced(objs: seq<MmObj>, o: nat)
    requires Formed(objs) && |objs| <= o
    ensures ShadowRefs(objs, o) == 0
  {
    forall i | 0 <= i < |objs| && objs[i].kind.Shadow?
      ensures objs[i].shadowed < i && objs[i].bottom < i
    {
      assert ObjOk(objs, i);
    }
    NoFutureRefs(objs, o);
  }

  // ---- what a page means ----

  // The object whose frame a read finds: the first one down the chain that
  // has the page resident, or else the bottom object.
  function Owner(objs: seq<MmObj>, o: nat, pn: nat): (w: nat)
    requires o < |objs|
    ensures w <= o
    decreases o
  {
    if pn in objs[o].pages || !objs[o].kind.Shadow? || objs[o].shadowed >= o then o
    else Owner(objs, objs[o].shadowed, pn)
  }

  function ContentOf(x: MmObj, pn: nat): Page {
    if pn in x.pages then x.pages[pn].bytes else Backing(x.kind, pn)
  }

  function Resolve(objs: seq<MmObj>, o: nat, pn: nat): Page
    requires o < |objs|
  {
    ContentOf(objs[Owner(objs, o, pn)], pn)
  }

  // w lies on the shadow chain that starts at o
  predicate InChain(objs: seq<MmObj>, o: nat, w: nat)
    requires o < |objs|
    decreases o
  {
    o == w || (objs[o].kind.Shadow? && objs[o].shadowed < o && InChain(objs, objs[o].shadowed, w))
  }

  lemma {:induction false} OwnerInChain(objs: seq<MmObj>, o: nat, pn: nat)
    requires o < |objs| && Shaped(objs)
    ensures InChain(objs, o, Owner(objs, o, pn))
    ensures pn !in objs[Owner(objs, o, pn)].pages ==> Owner(objs, o, pn) == BottomOf(objs, o)
    ensures !objs[Owner(objs, o, pn)].kind.Shadow? ==> Owner(objs, o, pn) == BottomOf(objs, o)
    decreases o
  {
    assert ObjOk(objs, o);
    if !(pn in objs[o].pages || !objs[o].kind.Shadow?) {
      OwnerInChain(objs, objs[o].shadowed, pn);
    }
  }

  // Every object on the chain of a live object is live
  lemma {:induction false} ChainLive(objs: seq<MmObj>, ext: nat -> int, o: nat, w: nat)
    requires Formed(objs) && Exact(objs, ext) && o < |objs| && objs[o].live && InChain(objs, o, w)
    ensures w <= o && objs[w].live
    decreases o
  {
    if o != w {
      assert ObjOk(objs, o);
      LinksLive(objs, ext, o);
      ChainLive(objs, ext, objs[o].shadowed, w);
    }
  }

  // Objects that survive keep their owners, chains and contents
  lemma {:induction false} KeepsOwner(objs: seq<MmObj>, objs': seq<MmObj>, ext': nat -> int, o: nat, pn: nat)
    requires Formed(objs') && Exact(objs', ext') && Keeps(objs, objs') && o < |objs| && objs'[o].live
    ensures Owner(objs', o, pn) == Owner(objs, o, pn)
    ensures Resolve(objs', o, pn) == Resolve(objs, o, pn)
    decreases o
  {
    assert ObjOk(objs', o);
    if !(pn in objs'[o].pages || !objs'[o].kind.Shadow?) {
      LinksLive(objs', ext', o);
      KeepsOwner(objs, objs', ext', objs'[o].shadowed, pn);
    }
  }

  lemma {:induction false} KeepsChain(objs: seq<MmObj>, objs': seq<MmObj>, ext': nat -> int, o: nat, w: nat)
    requires Formed(objs') && Exact(objs', ext') && Keeps(objs, objs') && o < |objs| && objs'[o].live
    ensures InChain(objs', o, w) == InChain(objs, o, w)
    decreases o
  {
    assert ObjOk(objs', o);
    if o != w && objs'[o].kind.Shadow? {
      LinksLive(objs', ext', o);
      KeepsChain(objs, objs', ext', objs'[o].shadowed, w);
    }
  }

  // ---- pages coming in ----

  // pframe_alloc followed by a fill with `f`
  function AddPage(objs: seq<MmObj>, o: nat, pn: nat, f: Frame): seq<MmObj>
    requires o < |objs|
  {
    var x := objs[o];
    objs[o := x.(refcount := x.refcount + 1, nres := x.nres + 1, pages := x.pages[pn := f])]
  }

  // pframe_get on a bottom object
  function PageIn(objs: seq<MmObj>, b: nat, pn: nat): seq<MmObj>
    requires b < |objs|
  {
    if pn in objs[b].pages then objs
    else AddPage(objs, b, pn, Frame(Backing(objs[b].kind, pn), PinOf(objs[b].kind), false))
  }

  // Lookup for reading: finds the owner's frame, paging in the bottom if need be
  function ReadLookup(objs: seq<MmObj>, o: nat, pn: nat): seq<MmObj>
    requires o < |objs|
  {
    PageIn(objs, Owner(objs, o, pn), pn)
  }

  // Lookup for writing: the object itself ends up with a frame
  function WriteLookup(objs: seq<MmObj>, o: nat, pn: nat): seq<MmObj>
    requires o < |objs|
  {
    if pn in objs[o].pages || !objs[o].kind.Shadow? || objs[o].shadowed >= o then PageIn(objs, o, pn)
    else
      var w := Owner(objs, objs[o].shadowed, pn);
      AddPage(PageIn(objs, w, pn), o, pn, Frame(ContentOf(objs[w], pn), 1, true))
  }

  // objs' differs from objs in page residency and counts only
  ghost predicate SameForest(objs: seq<MmObj>, objs': seq<MmObj>) {
    && |objs'| == |objs|
    && forall x | 0 <= x < |objs| ::
         && objs'[x].live == objs[x].live && objs'[x].kind == objs[x].kind
         && objs'[x].shadowed == objs[x].shadowed && objs'[x].bottom == objs[x].bottom
  }

  // Nothing leaves memory and nothing becomes clean
  ghost predicate PagesGrow(objs: seq<MmObj>, objs': seq<MmObj>) {
    && |objs'| == |objs|
    && forall x, pn | 0 <= x < |objs| && pn in objs[x].pages ::
         pn in objs'[x].pages && (objs[x].pages[pn].dirty ==> objs'[x].pages[pn].dirty)
  }

  lemma {:induction false} SameForestChain(objs: seq<MmObj>, objs': seq<MmObj>, o: nat, w: nat)
    requires SameForest(objs, objs') && o < |objs|
    ensures InChain(objs', o, w) == InChain(objs, o, w)
    decreases o
  {
    if o != w && objs[o].kind.Shadow? && objs[o].shadowed < o {
      SameForestChain(objs, objs', objs[o].shadowed, w);
    }
  }

  lemma AddPageExact(objs: seq<MmObj>, o: nat, pn: nat, f: Frame, ext: nat -> int)
    requires Formed(objs) && Exact(objs, ext) && o < |objs| && objs[o].live
    requires pn !in objs[o].pages && FrameOk(objs[o].kind, pn, f)
    ensures Formed(AddPage(objs, o, pn, f)) && Exact(AddPage(objs, o, pn, f), ext)
    ensures SameForest(objs, AddPage(objs, o, pn, f)) && PagesGrow(objs, AddPage(objs, o, pn, f))
  {
    var r := AddPage(objs, o, pn, f);
    assert ObjOk(objs, o);
    SameLinks(objs, o, r[o]);
    assert FramesOk(objs[o]);
    FormedUpdate(objs, o, r[o]);
    forall y | 0 <= y < |r|
      ensures ExactAt(r, ext, y)
    {
      assert ExactAt(objs, ext, y);
    }
  }

  // Adding a page that repeats what the page means already changes nothing
  lemma {:induction false} AddPageMeaning(objs: seq<MmObj>, o: nat, pn: nat, f: Frame, x: nat, q: nat)
    requires o < |objs| && pn !in objs[o].pages && f.bytes == Resolve(objs, o, pn) && x < |objs|
    ensures Resolve(AddPage(objs, o, pn, f), x, q) == Resolve(objs, x, q)
    decreases x
  {
    var r := AddPage(objs, o, pn, f);
    if x == o && q == pn {
    } else if !(q in objs[x].pages || !objs[x].kind.Shadow? || objs[x].shadowed >= x) {
      AddPageMeaning(objs, o, pn, f, objs[x].shadowed, q);
    }
  }

  ghost predicate SameMeaning(objs: seq<MmObj>, objs': seq<MmObj>) {
    && |objs'| == |objs|
    && forall x, q: nat | 0 <= x < |objs| :: Resolve(objs', x, q) == Resolve(objs, x, q)
  }

  lemma PageInMeaning(objs: seq<MmObj>, b: nat, pn: nat, ext: nat -> int)
    requires Formed(objs) && Exact(objs, ext) && b < |objs| && objs[b].live
    requires pn in objs[b].pages || !objs[b].kind.Shadow?
    ensures var r := PageIn(objs, b, pn);
            && Formed(r) && Exact(r, ext) && SameForest(objs, r) && PagesGrow(objs, r) && SameMeaning(objs, r)
            && pn in r[b].pages && r[b].pages[pn].bytes == Resolve(objs, b, pn)
            && (forall y | 0 <= y < |objs| && y != b :: r[y] == objs[y])
  {
    if pn !in objs[b].pages {
      var f := Frame(Backing(objs[b].kind, pn), PinOf(objs[b].kind), false);
      AddPageExact(objs, b, pn, f, ext);
      forall x, q: nat | 0 <= x < |objs|
        ensures Resolve(AddPage(objs, b, pn, f), x, q) == Resolve(objs, x, q)
      {
        AddPageMeaning(objs, b, pn, f, x, q);
      }
    }
  }

  // Read lookup: the owner has the frame, with the bytes the page means
  lemma ReadLookupMeaning(objs: seq<MmObj>, o: nat, pn: nat, ext: nat -> int)
    requires Formed(objs) && Exact(objs, ext) && o < |objs| && objs[o].live
    ensures var r := ReadLookup(objs, o, pn);
            var w := Owner(objs, o, pn);
            && Formed(r) && Exact(r, ext) && SameForest(objs, r) && PagesGrow(objs, r) && SameMeaning(objs, r)
            && pn in r[w].pages && r[w].pages[pn].bytes == Resolve(objs, o, pn) && InChain(r, o, w)
  {
    var w := Owner(objs, o, pn);
    OwnerInChain(objs, o, pn);
    ChainLive(objs, ext, o, w);
    OwnerOwner(objs, o, pn);
    PageInMeaning(objs, w, pn, ext);
    SameForestChain(objs, ReadLookup(objs, o, pn), o, w);
  }

  lemma {:induction false} OwnerOwner(objs: seq<MmObj>, o: nat, pn: nat)
    requires Formed(objs) && o < |objs|
    ensures var w := Owner(objs, o, pn);
            (pn in objs[w].pages || !objs[w].kind.Shadow?) && Resolve(objs, w, pn) == Resolve(objs, o, pn)
    decreases o
  {
    assert ObjOk(objs, o);
    if !(pn in objs[o].pages || !objs[o].kind.Shadow?) {
      OwnerOwner(objs, objs[o].shadowed, pn);
    }
  }

  // Write lookup preserves meaning: the object owns a frame with the bytes a
  // read returned before, and no page of any object changes its meaning.
  lemma WriteLookupMeaning(objs: seq<MmObj>, o: nat, pn: nat, ext: nat -> int)
    requires Formed(objs) && Exact(objs, ext) && o < |objs| && objs[o].live
    ensures var r := WriteLookup(objs, o, pn);
            && Formed(r) && Exact(r, ext) && SameForest(objs, r) && PagesGrow(objs, r) && SameMeaning(objs, r)
            && pn in r[o].pages && r[o].pages[pn].bytes == Resolve(objs, o, pn)
  {
    assert ObjOk(objs, o);
    if pn in objs[o].pages || !objs[o].kind.Shadow? {
      PageInMeaning(objs, o, pn, ext);
    } else {
      var s := objs[o].shadowed;
      var w := Owner(objs, s, pn);
      LinksLive(objs, ext, o);
      OwnerOwner(objs, s, pn);
      OwnerInChain(objs, s, pn);
      ChainLive(objs, ext, s, w);
      PageInMeaning(objs, w, pn, ext);
      var a := PageIn(objs, w, pn);
      var f := Frame(ContentOf(objs[w], pn), 1, true);
      assert Resolve(a, o, pn) == Resolve(objs, o, pn) == f.bytes;
      AddPageExact(a, o, pn, f, ext);
      var r := AddPage(a, o, pn, f);
      forall x, q: nat | 0 <= x < |objs|
        ensures Resolve(r, x, q) == Resolve(objs, x, q)
      {
        AddPageMeaning(a, o, pn, f, x, q);
      }
    }
  }

  // ---- stores ----

  function Store(objs: seq<MmObj>, o: nat, pn: nat, bytes: Page): seq<MmObj>
    requires o < |objs| && pn in objs[o].pages
  {
    objs[o := objs[o].(pages := objs[o].pages[pn := objs[o].pages[pn].(bytes := bytes, dirty := true)])]
  }

  lemma StoreExact(objs: seq<MmObj>, o: nat, pn: nat, bytes: Page, ext: nat -> int)
    requires Formed(objs) && Exact(objs, ext) && o < |objs| && pn in objs[o].pages
    ensures Formed(Store(objs, o, pn, bytes)) && Exact(Store(objs, o, pn, bytes), ext)
    ensures SameForest(objs, Store(objs, o, pn, bytes)) && PagesGrow(objs, Store(objs, o, pn, bytes))
  {
    var r := Store(objs, o, pn, bytes);
    SameLinks(objs, o, r[o]);
    assert ObjOk(objs, o) && FramesOk(objs[o]);
    assert r[o].pages.Keys == objs[o].pages.Keys;
    assert |r[o].pages| == |r[o].pages.Keys| && |objs[o].pages| == |objs[o].pages.Keys|;
    FormedUpdate(objs, o, r[o]);
    forall y | 0 <= y < |r|
      ensures ExactAt(r, ext, y)
    {
      assert ExactAt(objs, ext, y);
    }
  }

  // A store changes the meaning of exactly the pages it is the owner of
  lemma {:induction false} StoreMeaning(objs: seq<MmObj>, o: nat, pn: nat, bytes: Page, x: nat, q: nat)
    requires o < |objs| && pn in objs[o].pages && x < |objs|
    ensures Owner(Store(objs, o, pn, bytes), x, q) == Owner(objs, x, q)
    ensures Resolve(Store(objs, o, pn, bytes), x, q) ==
            if q == pn && Owner(objs, x, q) == o then bytes else Resolve(objs, x, q)
    decreases x
  {
    if !(q in objs[x].pages || !objs[x].kind.Shadow? || objs[x].shadowed >= x) {
      StoreMeaning(objs, o, pn, bytes, objs[x].shadowed, q);
    }
  }

  // An object that no live shadow covers is on no live chain but its own
  lemma {:induction false} UncoveredChain(objs: seq<MmObj>, ext: nat -> int, o: nat, x: nat)
    requires Formed(objs) && Exact(objs, ext) && x < |objs| && objs[x].live
    requires forall y | 0 <= y < |objs| && objs[y].live && objs[y].kind.Shadow? :: objs[y].shadowed != o
    ensures InChain(objs, x, o) ==> x == o
    decreases x
  {
    if x != o && objs[x].kind.Shadow? {
      assert ObjOk(objs, x);
      LinksLive(objs, ext, x);
      UncoveredChain(objs, ext, o, objs[x].shadowed);
    }
  }
}
