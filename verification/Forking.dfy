/**
 do_fork: the child gets a copy of the parent's area list; shared areas share
 the object, and every private area of parent and child gets a fresh shadow
 object over the old one.
 */
module Forking {
  import opened Areas
  import opened Objects
  import opened AddressSpaces
  import opened Mappings

  datatype Forked = Forked(objs: seq<MmObj>, parent: seq<Area>, child: seq<Area>)

  function ForkOne(objs: seq<MmObj>, a: Area): (r: Forked)
    requires a.obj < |objs| && BottomOf(objs, a.obj) < |objs|
    ensures |r.parent| == |r.child| == 1
  {
    if a.shared then Forked(Ref(objs, a.obj), [a], [a])
    else
      var n, b := |objs|, BottomOf(objs, a.obj);
      Forked(Ref(Ref(Ref(objs, a.obj), b), b) + [NewShadow(a.obj, b), NewShadow(a.obj, b)],
             [a.(obj := n)], [a.(obj := n + 1)])
  }

  // Areas point to live objects of the right kind
  ghost predicate Forkable(objs: seq<MmObj>, areas: seq<Area>) {
    && Formed(objs)
    && forall a | a in areas :: a.obj < |objs| && (a.shared <==> !objs[a.obj].kind.Shadow?)
  }

  lemma ForkOneFormed(objs: seq<MmObj>, a: Area)
    requires Forkable(objs, [a])
    ensures a.obj < |objs| && BottomOf(objs, a.obj) < |objs|
    ensures var r := ForkOne(objs, a).objs;
            && Formed(r) && Keeps(objs, r)
            && (forall x | |objs| <= x < |r| :: !a.shared && r[x].live && r[x].kind.Shadow? && r[x].shadowed == a.obj)
  {
    assert a in [a];
    var b := BottomOf(objs, a.obj);
    assert ObjOk(objs, a.obj) && ObjOk(objs, b);
    var o1 := Ref(objs, a.obj);
    RefFormed(objs, a.obj);
    if !a.shared {
      var o2, x := Ref(o1, b), NewShadow(a.obj, b);
      RefFormed(o1, b);
      var o3 := Ref(o2, b);
      RefFormed(o2, b);
      FormedAppend(o3, x);
      FormedAppend(o3 + [x], x);
      assert o3 + [x] + [x] == o3 + [x, x];
    }
  }

  lemma ForkHead(objs: seq<MmObj>, areas: seq<Area>)
    requires Forkable(objs, areas) && areas != []
    ensures areas[0].obj < |objs| && BottomOf(objs, areas[0].obj) < |objs|
    ensures var r := ForkOne(objs, areas[0]).objs;
            |objs| <= |r| && Forkable(objs, [areas[0]]) && Forkable(r, areas[1..])
  {
    ForkOneFormed(objs, areas[0]);
  }

  // Fork the areas in list order
  ghost function ForkAreas(objs: seq<MmObj>, areas: seq<Area>): (r: Forked)
    requires Forkable(objs, areas)
    ensures |r.parent| == |r.child| == |areas| && |objs| <= |r.objs|
    decreases |areas|
  {
    if areas == [] then Forked(objs, [], [])
    else
      ForkHead(objs, areas);
      var one := ForkOne(objs, areas[0]);
      var rest := ForkAreas(one.objs, areas[1..]);
      Forked(rest.objs, one.parent + rest.parent, one.child + rest.child)
  }

  // The fork of a list, head first
  lemma ForkUnfold(objs: seq<MmObj>, areas: seq<Area>) returns (one: Forked)
    requires Forkable(objs, areas) && areas != []
    ensures areas[0].obj < |objs| && BottomOf(objs, areas[0].obj) < |objs| && one == ForkOne(objs, areas[0])
    ensures Forkable(one.objs, areas[1..])
    ensures var r := ForkAreas(one.objs, areas[1..]);
            ForkAreas(objs, areas) == Forked(r.objs, one.parent + r.parent, one.child + r.child)
    ensures |one.parent| == 1 && |one.child| == 1 && one.parent[0].start == areas[0].start
            && one.parent[0].end == areas[0].end
  {
    ForkHead(objs, areas);
    one := ForkOne(objs, areas[0]);
  }

  lemma {:induction false} ForkFormed(objs: seq<MmObj>, areas: seq<Area>)
    requires Forkable(objs, areas)
    ensures var r := ForkAreas(objs, areas).objs; Formed(r) && Keeps(objs, r)
    decreases |areas|
  {
    if areas != [] {
      ForkHead(objs, areas);
      ForkOneFormed(objs, areas[0]);
      ForkFormed(ForkOne(objs, areas[0]).objs, areas[1..]);
    }
  }

  lemma {:induction false} ForkCount(a: Area, o: nat)
    ensures Count([a], o) == if a.obj == o then 1 else 0
  {
    assert [a][1..] == [];
  }

  // One area forked: its reference moves to the new shadows
  lemma ForkOneExact(objs: seq<MmObj>, a: Area, ext: nat -> int)
    requires Forkable(objs, [a]) && Exact(objs, ext) && a.obj < |objs| && ext(a.obj) > 0
    requires forall o | o >= |objs| :: ext(o) == 0
    ensures BottomOf(objs, a.obj) < |objs|
    ensures var r := ForkOne(objs, a);
            Exact(r.objs, (o: nat) => ext(o) - Count([a], o) + Count(r.parent, o) + Count(r.child, o))
  {
    ForkOneFormed(objs, a);
    assert a in [a];
    var r, b := ForkOne(objs, a), BottomOf(objs, a.obj);
    var e := (o: nat) => ext(o) - Count([a], o) + Count(r.parent, o) + Count(r.child, o);
    assert ExactAt(objs, ext, a.obj) && ObjOk(objs, a.obj);
    forall o: nat
      ensures Count([a], o) == (if a.obj == o then 1 else 0)
      ensures Count(r.parent, o) == if r.parent[0].obj == o then 1 else 0
      ensures Count(r.child, o) == if r.child[0].obj == o then 1 else 0
    {
      ForkCount(a, o);
      ForkCount(r.parent[0], o);
      ForkCount(r.child[0], o);
    }
    if a.shared {
      RefExact(objs, a.obj, ext);
      ExactCongruent(r.objs, Bump(ext, a.obj, 1), e);
    } else {
      LinksLive(objs, ext, a.obj);
      ForkShadows(objs, a.obj, b, ext);
      ExactCongruent(r.objs, Bump(Bump(Bump(ext, a.obj, -1), |objs|, 1), |objs| + 1, 1), e);
    }
  }

  lemma ForkShadows(objs: seq<MmObj>, o: nat, b: nat, ext: nat -> int)
    requires Formed(objs) && Exact(objs, ext) && o < |objs| && b < o && ext(o) > 0
    requires objs[o].live && objs[b].live && !objs[b].kind.Shadow? && b == BottomOf(objs, o)
    requires forall x | x >= |objs| :: ext(x) == 0
    ensures Exact(Ref(Ref(Ref(objs, o), b), b) + [NewShadow(o, b), NewShadow(o, b)],
                  Bump(Bump(Bump(ext, o, -1), |objs|, 1), |objs| + 1, 1))
  {
    var x, n := NewShadow(o, b), |objs|;
    var o1, e1 := Ref(objs, o), Bump(ext, o, 1);
    RefExact(objs, o, ext);
    RefFormed(objs, o);
    var o2, e2 := Ref(o1, b), Bump(e1, b, 1);
    RefExact(o1, b, e1);
    RefFormed(o1, b);
    var o3, e3 := Ref(o2, b), Bump(e2, b, 1);
    RefExact(o2, b, e2);
    RefFormed(o2, b);
    var e4 := Bump(Bump(Bump(e3, o, -1), b, -1), n, 1);
    FreshUnreferenced(o3, n);
    AppendExact(o3, x, e3, e4);
    FormedAppend(o3, x);
    FreshUnreferenced(o3 + [x], n + 1);
    var e5 := Bump(Bump(Bump(ext, o, -1), n, 1), n + 1, 1);
    AppendExact(o3 + [x], x, e4, e5);
    assert o3 + [x] + [x] == o3 + [x, x];
  }

  // Counts over the whole fork
  lemma {:induction false} ForkExact(objs: seq<MmObj>, areas: seq<Area>, ext: nat -> int)
    requires Forkable(objs, areas) && Exact(objs, ext)
    requires forall o: nat :: ext(o) >= Count(areas, o)
    requires forall o | o >= |objs| :: ext(o) == 0
    ensures var r := ForkAreas(objs, areas);
            Exact(r.objs, (o: nat) => ext(o) - Count(areas, o) + Count(r.parent, o) + Count(r.child, o))
    decreases |areas|
  {
    var r := ForkAreas(objs, areas);
    var e := (o: nat) => ext(o) - Count(areas, o) + Count(r.parent, o) + Count(r.child, o);
    if areas == [] {
      ExactCongruent(objs, ext, e);
    } else {
      var a, tail := areas[0], areas[1..];
      ForkHead(objs, areas);
      var one := ForkOne(objs, a);
      var e1 := (o: nat) => ext(o) - Count([a], o) + Count(one.parent, o) + Count(one.child, o);
      ForkOneExact(objs, a, ext);
      forall o: nat
        ensures e1(o) >= Count(tail, o) && (o >= |one.objs| ==> e1(o) == 0)
      {
        assert ext(o) >= Count(areas, o);
        ForkCount(a, o);
        ForkCount(one.parent[0], o);
        ForkCount(one.child[0], o);
        assert one.parent == [one.parent[0]] && one.child == [one.child[0]];
      }
      ForkExact(one.objs, tail, e1);
      var rest := ForkAreas(one.objs, tail);
      var e2 := (o: nat) => e1(o) - Count(tail, o) + Count(rest.parent, o) + Count(rest.child, o);
      forall o: nat
        ensures e2(o) == e(o)
      {
        ForkCount(a, o);
        CountConcat(one.parent, rest.parent, o);
        CountConcat(one.child, rest.child, o);
      }
      ExactCongruent(r.objs, e2, e);
    }
  }

  // New areas: same pages and attributes; shared ones keep the object,
  // private ones get an object of their own.
  ghost predicate NewTop(n: nat, a: Area, b: Area) {
    b == a.(obj := b.obj) && if a.shared then b.obj == a.obj else b.obj >= n
  }

  lemma {:induction false} ForkTops(objs: seq<MmObj>, areas: seq<Area>, i: nat)
    requires Forkable(objs, areas) && i < |areas|
    ensures var r := ForkAreas(objs, areas);
            && NewTop(|objs|, areas[i], r.parent[i]) && NewTop(|objs|, areas[i], r.child[i])
            && r.parent[i].obj < |r.objs| && r.child[i].obj < |r.objs|
            && (r.parent[i].shared <==> !r.objs[r.parent[i].obj].kind.Shadow?)
            && (r.child[i].shared <==> !r.objs[r.child[i].obj].kind.Shadow?)
    decreases |areas|
  {
    ForkHead(objs, areas);
    var one := ForkOne(objs, areas[0]);
    if i > 0 {
      ForkTops(one.objs, areas[1..], i - 1);
    } else {
      ForkOneFormed(objs, areas[0]);
      ForkFormed(one.objs, areas[1..]);
    }
  }

  // Objects made by the fork shadow the old objects of private areas
  lemma {:induction false} ForkLinks(objs: seq<MmObj>, areas: seq<Area>, x: nat)
    requires Forkable(objs, areas) && |objs| <= x < |ForkAreas(objs, areas).objs|
    ensures var r := ForkAreas(objs, areas).objs;
            r[x].kind.Shadow? && exists a :: a in areas && !a.shared && r[x].shadowed == a.obj
    decreases |areas|
  {
    ForkHead(objs, areas);
    var one := ForkOne(objs, areas[0]);
    var rest := ForkAreas(one.objs, areas[1..]);
    if x < |one.objs| {
      ForkSurvives(one.objs, areas[1..], x);
      assert areas[0] in areas;
    } else {
      ForkLinks(one.objs, areas[1..], x);
      var a :| a in areas[1..] && !a.shared && rest.objs[x].shadowed == a.obj;
      assert a in areas;
    }
  }

  // A fork frees nothing
  lemma {:induction false} ForkSurvives(objs: seq<MmObj>, areas: seq<Area>, x: nat)
    requires Forkable(objs, areas) && x < |objs|
    ensures var r := ForkAreas(objs, areas).objs;
            r[x].live == objs[x].live && SameContent(objs[x], r[x])
    decreases |areas|
  {
    if areas != [] {
      ForkHead(objs, areas);
      ForkSurvives(ForkOne(objs, areas[0]).objs, areas[1..], x);
    }
  }

  // Number of private areas before index i
  function PrivatesBefore(areas: seq<Area>, i: nat): nat
    requires i <= |areas|
  {
    if i == 0 then 0 else (if areas[0].shared then 0 else 1) + PrivatesBefore(areas[1..], i - 1)
  }

  lemma {:induction false} PrivatesBeforeRises(areas: seq<Area>, i: nat, j: nat)
    requires i < j <= |areas| && !areas[i].shared
    ensures PrivatesBefore(areas, i) < PrivatesBefore(areas, j)
  {
    if i > 0 {
      PrivatesBeforeRises(areas[1..], i - 1, j - 1);
    }
  }

  // The shadows are numbered in list order, parent's before child's
  lemma {:induction false} ForkNumbers(objs: seq<MmObj>, areas: seq<Area>, i: nat)
    requires Forkable(objs, areas) && i < |areas| && !areas[i].shared
    ensures var r := ForkAreas(objs, areas);
            && r.parent[i].obj == |objs| + 2 * PrivatesBefore(areas, i)
            && r.child[i].obj == |objs| + 2 * PrivatesBefore(areas, i) + 1
    decreases |areas|
  {
    ForkHead(objs, areas);
    if i > 0 {
      ForkNumbers(ForkOne(objs, areas[0]).objs, areas[1..], i - 1);
    }
  }

  // No two private areas, in parent or child, end up with the same object
  lemma ForkDistinct(objs: seq<MmObj>, areas: seq<Area>, i: nat, j: nat)
    requires Forkable(objs, areas) && i < |areas| && j < |areas| && !areas[i].shared
    ensures var r := ForkAreas(objs, areas);
            && (r.parent[i].obj == r.parent[j].obj ==> i == j)
            && (r.child[i].obj == r.child[j].obj ==> i == j)
            && r.parent[i].obj != r.child[j].obj
            && r.child[i].obj != r.parent[j].obj
  {
    ForkNumbers(objs, areas, i);
    if areas[j].shared {
      ForkTops(objs, areas, j);
    } else {
      ForkNumbers(objs, areas, j);
      if i < j {
        PrivatesBeforeRises(areas, i, j);
      } else if j < i {
        PrivatesBeforeRises(areas, j, i);
      }
    }
  }

  lemma ForkOneMeaning(objs: seq<MmObj>, a: Area, pn: nat)
    requires Forkable(objs, [a]) && a.obj < |objs| && BottomOf(objs, a.obj) < |objs|
    ensures var r := ForkOne(objs, a);
            && r.parent[0].obj < |r.objs| && r.child[0].obj < |r.objs|
            && Resolve(r.objs, r.parent[0].obj, pn) == Resolve(objs, a.obj, pn)
            && Resolve(r.objs, r.child[0].obj, pn) == Resolve(objs, a.obj, pn)
  {
    ForkOneResolve(objs, a, a.obj, pn);
    if !a.shared {
      var r := ForkOne(objs, a).objs;
      assert Owner(r, |objs|, pn) == Owner(r, a.obj, pn) == Owner(r, |objs| + 1, pn);
    }
  }

  // Both new areas show what the old one showed
  lemma {:induction false} ForkMeaning(objs: seq<MmObj>, areas: seq<Area>, i: nat, pn: nat)
    requires Forkable(objs, areas) && i < |areas|
    ensures var r := ForkAreas(objs, areas);
            && r.parent[i].obj < |r.objs| && r.child[i].obj < |r.objs|
            && Resolve(r.objs, r.parent[i].obj, pn) == Resolve(objs, areas[i].obj, pn)
            && Resolve(r.objs, r.child[i].obj, pn) == Resolve(objs, areas[i].obj, pn)
    decreases |areas|
  {
    ForkHead(objs, areas);
    hide ForkAreas, ForkOne, Resolve;
    var one := ForkUnfold(objs, areas);
    var tail := areas[1..];
    if i > 0 {
      ForkMeaning(one.objs, tail, i - 1, pn);
      ForkOneResolve(objs, areas[0], areas[i].obj, pn);
    } else {
      ForkOneMeaning(objs, areas[0], pn);
      ForkResolve(one.objs, tail, one.parent[0].obj, pn);
      ForkResolve(one.objs, tail, one.child[0].obj, pn);
    }
  }

  lemma {:induction false} ForkOneResolve(objs: seq<MmObj>, a: Area, x: nat, pn: nat)
    requires Forkable(objs, [a]) && a.obj < |objs| && BottomOf(objs, a.obj) < |objs| && x < |objs|
    ensures Owner(ForkOne(objs, a).objs, x, pn) == Owner(objs, x, pn)
    ensures Resolve(ForkOne(objs, a).objs, x, pn) == Resolve(objs, x, pn)
    decreases x
  {
    assert ObjOk(objs, x);
    if !(pn in objs[x].pages || !objs[x].kind.Shadow?) {
      ForkOneResolve(objs, a, objs[x].shadowed, pn);
    }
  }

  lemma {:induction false} ForkResolve(objs: seq<MmObj>, areas: seq<Area>, x: nat, pn: nat)
    requires Forkable(objs, areas) && x < |objs|
    ensures Resolve(ForkAreas(objs, areas).objs, x, pn) == Resolve(objs, x, pn)
    decreases |areas|
  {
    if areas != [] {
      ForkHead(objs, areas);
      ForkOneResolve(objs, areas[0], x, pn);
      ForkResolve(ForkOne(objs, areas[0]).objs, areas[1..], x, pn);
    }
  }

  // ---- the whole operation ----

  lemma InvForkable(s: State, pid: nat)
    requires Inv(s) && pid < |s.procs|
    ensures Forkable(s.objs, s.procs[pid].areas)
  {
    assert AreasOk(s, pid);
  }

  // The parent's user page-table entries are unmapped; the child starts
  // with none and inherits the break.
  ghost function Fork(s: State, pid: nat): State
    requires pid < |s.procs| && Forkable(s.objs, s.procs[pid].areas)
  {
    var pr := s.procs[pid];
    var r := ForkAreas(s.objs, pr.areas);
    State(r.objs, s.procs[pid := pr.(areas := r.parent, pt := Without(pr.pt, LOW_PAGE, HIGH_PAGE))]
                  + [Proc(r.child, map[], pr.startBrk, pr.brk)])
  }

  lemma ForkStateExact(s: State, pid: nat)
    requires Inv(s) && pid < |s.procs| && Forkable(s.objs, s.procs[pid].areas)
    ensures Exact(Fork(s, pid).objs, Ext(Fork(s, pid)))
  {
    var s' := Fork(s, pid);
    var areas, r := s.procs[pid].areas, ForkAreas(s.objs, s.procs[pid].areas);
    ExtCoversAreas(s, pid);
    ExtPastEnd(s);
    ForkExact(s.objs, areas, Ext(s));
    var e := (o: nat) => Ext(s)(o) - Count(areas, o) + Count(r.parent, o) + Count(r.child, o);
    forall o: nat
      ensures e(o) == Ext(s')(o)
    {
      AreaRefsUpdate(s.procs, pid, s'.procs[pid], o);
      assert s'.procs == s.procs[pid := s'.procs[pid]] + [s'.procs[|s.procs|]];
      AreaRefsAppend(s.procs[pid := s'.procs[pid]], s'.procs[|s.procs|], o);
      ForkHeld(s, pid, o);
    }
    ExactCongruent(r.objs, e, Ext(s'));
  }

  lemma ForkHeld(s: State, pid: nat, o: nat)
    requires pid < |s.procs| && Forkable(s.objs, s.procs[pid].areas)
    ensures Held(Fork(s, pid).objs, o) == Held(s.objs, o)
  {
    ForkFormed(s.objs, s.procs[pid].areas);
    if |s.objs| <= o < |Fork(s, pid).objs| {
      ForkLinks(s.objs, s.procs[pid].areas, o);
    }
  }

  lemma {:induction false} ForkIndex(n: nat, areas: seq<Area>, copy: seq<Area>, p: nat)
    requires |copy| == |areas| && forall i | 0 <= i < |areas| :: NewTop(n, areas[i], copy[i])
    ensures FindIndex(copy, p) == FindIndex(areas, p)
    decreases |areas|
  {
    if areas != [] {
      assert NewTop(n, areas[0], copy[0]);
      assert forall i | 0 <= i < |areas| - 1 :: areas[1..][i] == areas[i + 1] && copy[1..][i] == copy[i + 1];
      ForkIndex(n, areas[1..], copy[1..], p);
    }
  }

  lemma ForkNewTops(objs: seq<MmObj>, areas: seq<Area>)
    requires Forkable(objs, areas)
    ensures var r := ForkAreas(objs, areas);
            && (forall i | 0 <= i < |areas| :: NewTop(|objs|, areas[i], r.parent[i]))
            && (forall i | 0 <= i < |areas| :: NewTop(|objs|, areas[i], r.child[i]))
  {
    forall i | 0 <= i < |areas|
      ensures NewTop(|objs|, areas[i], ForkAreas(objs, areas).parent[i])
              && NewTop(|objs|, areas[i], ForkAreas(objs, areas).child[i])
    {
      ForkTops(objs, areas, i);
    }
  }

  lemma ForkCopyView(objs: seq<MmObj>, areas: seq<Area>, p: nat)
    requires Forkable(objs, areas)
    ensures var r := ForkAreas(objs, areas);
            PageOn(r.objs, r.parent, p) == PageOn(objs, areas, p)
              && PageOn(r.objs, r.child, p) == PageOn(objs, areas, p)
  {
    ForkNewTops(objs, areas);
    var i := FindIndex(areas, p);
    if i < |areas| {
      ForkMeaning(objs, areas, i, areas[i].off + (p - areas[i].start));
    }
    var r := ForkAreas(objs, areas);
    CopyView(objs, areas, r.objs, r.parent, p);
    CopyView(objs, areas, r.objs, r.child, p);
  }

  lemma ForkBystander(s: State, pid: nat, q: nat, p: nat)
    requires Inv(s) && pid < |s.procs| && Forkable(s.objs, s.procs[pid].areas) && q < |s.procs| && q != pid
    ensures View(Fork(s, pid), q, p) == View(s, q, p)
  {
    var t := Target(s.procs[q].areas, p);
    assert AreasOk(s, q);
    FindTarget(s.procs[q].areas, p);
    if t.Some? {
      ForkResolve(s.objs, s.procs[pid].areas, t.value.obj, t.value.page);
    }
  }

  // Right after a fork the child sees exactly the parent's bytes, and nobody
  // else's view, the parent's included, has changed.
  lemma ForkView(s: State, pid: nat, q: nat, p: nat)
    requires Inv(s) && pid < |s.procs| && Forkable(s.objs, s.procs[pid].areas) && q <= |s.procs|
    ensures View(Fork(s, pid), q, p) == View(s, if q == |s.procs| then pid else q, p)
  {
    if q == pid || q == |s.procs| {
      ForkCopyView(s.objs, s.procs[pid].areas, p);
    } else {
      ForkBystander(s, pid, q, p);
    }
  }

  // Copied areas map the pages the originals map, to the same bytes
  lemma CopyView(objs: seq<MmObj>, areas: seq<Area>, objs': seq<MmObj>, copy: seq<Area>, p: nat)
    requires |copy| == |areas| && forall i | 0 <= i < |areas| :: NewTop(|objs|, areas[i], copy[i])
    requires var i := FindIndex(areas, p);
             i < |areas| ==> && areas[i].obj < |objs| && copy[i].obj < |objs'|
                             && Resolve(objs', copy[i].obj, areas[i].off + (p - areas[i].start))
                                == Resolve(objs, areas[i].obj, areas[i].off + (p - areas[i].start))
    ensures PageOn(objs', copy, p) == PageOn(objs, areas, p)
  {
    ForkIndex(|objs|, areas, copy, p);
    FindIndexTarget(areas, p);
    FindIndexTarget(copy, p);
    var i := FindIndex(areas, p);
    if i < |areas| {
      assert NewTop(|objs|, areas[i], copy[i]);
    }
  }

  // ---- the invariant ----

  lemma CopySorted(n: nat, areas: seq<Area>, copy: seq<Area>)
    requires Sorted(areas) && |copy| == |areas| && forall i | 0 <= i < |areas| :: NewTop(n, areas[i], copy[i])
    ensures Sorted(copy)
  {
    forall i | 0 <= i < |copy|
      ensures copy[i].start == areas[i].start && copy[i].end == areas[i].end
    {
      assert NewTop(n, areas[i], copy[i]);
    }
  }

  lemma ForkKinds(objs: seq<MmObj>, areas: seq<Area>, b: Area)
    requires Forkable(objs, areas)
    requires var r := ForkAreas(objs, areas); b in r.parent || b in r.child
    ensures var r := ForkAreas(objs, areas); b.obj < |r.objs| && (b.shared <==> !r.objs[b.obj].kind.Shadow?)
  {
    var r := ForkAreas(objs, areas);
    if b in r.parent {
      var i :| 0 <= i < |r.parent| && r.parent[i] == b;
      ForkTops(objs, areas, i);
    } else {
      var i :| 0 <= i < |r.child| && r.child[i] == b;
      ForkTops(objs, areas, i);
    }
  }

  lemma ForkAreasOk(s: State, pid: nat, q: nat)
    requires pid < |s.procs| && AreasOk(s, pid) && Forkable(s.objs, s.procs[pid].areas)
    requires q <= |s.procs| && (q < |s.procs| ==> AreasOk(s, q))
    ensures AreasOk(Fork(s, pid), q)
  {
    var s' := Fork(s, pid);
    var areas, r := s.procs[pid].areas, ForkAreas(s.objs, s.procs[pid].areas);
    if q == pid || q == |s.procs| {
      ForkNewTops(s.objs, areas);
      CopySorted(|s.objs|, areas, if q == pid then r.parent else r.child);
      forall b | b in s'.procs[q].areas
        ensures b.obj < |s'.objs| && (b.shared <==> !s'.objs[b.obj].kind.Shadow?)
      {
        ForkKinds(s.objs, areas, b);
      }
    } else {
      ForkFormed(s.objs, areas);
    }
  }

  // Where an area of the new state comes from
  lemma ForkOrigin(s: State, pid: nat, q: nat, b: Area) returns (i: nat)
    requires Inv(s) && pid < |s.procs| && Forkable(s.objs, s.procs[pid].areas) && q <= |s.procs|
    requires b in Fork(s, pid).procs[q].areas
    ensures q != pid && q < |s.procs| ==> b in s.procs[q].areas && b.obj < |s.objs|
    ensures q == pid || q == |s.procs| ==>
              && i < |s.procs[pid].areas| && NewTop(|s.objs|, s.procs[pid].areas[i], b)
              && b == (if q == pid then ForkAreas(s.objs, s.procs[pid].areas).parent[i]
                   else ForkAreas(s.objs, s.procs[pid].areas).child[i])
  {
    var areas := s.procs[pid].areas;
    var copy := Fork(s, pid).procs[q].areas;
    i := 0;
    if q == pid || q == |s.procs| {
      i :| 0 <= i < |copy| && copy[i] == b;
      ForkTops(s.objs, areas, i);
    } else {
      assert AreasOk(s, q);
    }
  }

  lemma ForkUncovered(s: State, pid: nat, q: nat, a: Area)
    requires Inv(s) && pid < |s.procs| && Forkable(s.objs, s.procs[pid].areas) && q <= |s.procs|
    requires a in Fork(s, pid).procs[q].areas && !a.shared
    ensures Uncovered(Fork(s, pid).objs, a.obj)
  {
    var s' := Fork(s, pid);
    var areas := s.procs[pid].areas;
    var i := ForkOrigin(s, pid, q, a);
    forall y | 0 <= y < |s'.objs| && s'.objs[y].live && s'.objs[y].kind.Shadow?
      ensures s'.objs[y].shadowed != a.obj
    {
      if y >= |s.objs| {
        ForkLinks(s.objs, areas, y);
        var c :| c in areas && !c.shared && s'.objs[y].shadowed == c.obj;
        if q != pid && q < |s.procs| {
          assert PrivateOk(s, q, a);
        }
      } else {
        ForkSurvives(s.objs, areas, y);
        assert ObjOk(s.objs, y);
        if q != pid && q < |s.procs| {
          assert PrivateOk(s, q, a);
        }
      }
    }
  }

  // A private area of another process shares no object with pid's areas
  lemma ForkForeign(s: State, pid: nat, q: nat, a: Area, oldArea: Area, b: Area)
    requires Inv(s) && pid < |s.procs| && q < |s.procs| && q != pid && a in s.procs[q].areas && !a.shared
    requires oldArea in s.procs[pid].areas && NewTop(|s.objs|, oldArea, b)
    ensures b.obj != a.obj
  {
    assert AreasOk(s, q) && AreasOk(s, pid) && PrivateOk(s, q, a);
  }

  lemma ForkSole(s: State, pid: nat, q: nat, a: Area, q': nat, b: Area)
    requires Inv(s) && pid < |s.procs| && Forkable(s.objs, s.procs[pid].areas) && q <= |s.procs| && q' <= |s.procs|
    requires a in Fork(s, pid).procs[q].areas && !a.shared && b in Fork(s, pid).procs[q'].areas && b.obj == a.obj
    ensures q' == q && b.off - b.start == a.off - a.start
  {
    var areas := s.procs[pid].areas;
    var i := ForkOrigin(s, pid, q, a);
    var j := ForkOrigin(s, pid, q', b);
    if q == pid || q == |s.procs| {
      if q' == pid || q' == |s.procs| {
        ForkDistinct(s.objs, areas, i, j);
      }
    } else {
      assert PrivateOk(s, q, a);
      if q' == pid || q' == |s.procs| {
        ForkForeign(s, pid, q, a, areas[j], b);
      }
    }
  }

  lemma ForkPrivates(s: State, pid: nat)
    requires Inv(s) && pid < |s.procs| && Forkable(s.objs, s.procs[pid].areas)
    ensures PrivatesOk(Fork(s, pid))
  {
    var s' := Fork(s, pid);
    forall q, a | 0 <= q < |s'.procs| && a in s'.procs[q].areas && !a.shared
      ensures PrivateOk(s', q, a)
    {
      ForkUncovered(s, pid, q, a);
      forall q', b | 0 <= q' < |s'.procs| && b in s'.procs[q'].areas && b.obj == a.obj
        ensures q' == q && b.off - b.start == a.off - a.start
      {
        ForkSole(s, pid, q, a, q', b);
      }
    }
  }

  lemma {:induction false} ForkBottoms(objs: seq<MmObj>, areas: seq<Area>, x: nat)
    requires Forkable(objs, areas) && |objs| <= x < |ForkAreas(objs, areas).objs|
    ensures var r := ForkAreas(objs, areas).objs;
            r[x].kind.Shadow? && exists a :: a in areas && !a.shared && r[x].bottom == objs[a.obj].bottom
    decreases |areas|
  {
    ForkHead(objs, areas);
    ForkOneBottoms(objs, areas);
    hide ForkOne, Formed, ForkAreas, Forkable;
    var one := ForkUnfold(objs, areas);
    if x < |one.objs| {
      ForkSurvives(one.objs, areas[1..], x);
      assert areas[0] in areas;
    } else {
      ForkBottoms(one.objs, areas[1..], x);
      var a :| a in areas[1..] && !a.shared && ForkAreas(one.objs, areas[1..]).objs[x].bottom == one.objs[a.obj].bottom;
      assert a in areas;
    }
  }

  // The new shadows have the forked area's bottom; all areas keep theirs
  lemma ForkOneBottoms(objs: seq<MmObj>, areas: seq<Area>)
    requires Forkable(objs, areas) && areas != []
    requires areas[0].obj < |objs| && BottomOf(objs, areas[0].obj) < |objs|
    ensures var one := ForkOne(objs, areas[0]).objs;
            && |objs| <= |one|
            && (forall x | |objs| <= x < |one| ::
                  one[x].kind.Shadow? && !areas[0].shared && one[x].bottom == objs[areas[0].obj].bottom)
            && (forall a | a in areas :: a.obj < |objs| && one[a.obj].bottom == objs[a.obj].bottom)
  {
    hide Formed;
  }

  lemma ForkAnons(s: State, pid: nat)
    requires Inv(s) && pid < |s.procs| && Forkable(s.objs, s.procs[pid].areas)
    ensures AnonsApart(Fork(s, pid))
  {
    var s' := Fork(s, pid);
    var areas := s.procs[pid].areas;
    ForkFormed(s.objs, areas);
    forall y | 0 <= y < |s'.objs|
      ensures AnonApart(s', y)
    {
      if s'.objs[y].live && s'.objs[y].kind.Shadow? {
        var y0 := ForkCoveredBefore(s, pid, y);
        assert AnonApart(s, y0);
        forall q, b | 0 <= q < |s'.procs| && b in s'.procs[q].areas && b.shared && b.obj == s'.objs[y].bottom
          ensures b.obj < |s'.objs| && s'.objs[b.obj].kind.File?
        {
          var i := ForkOrigin(s, pid, q, b);
          assert b in s.procs[if q == |s.procs| then pid else q].areas;
        }
      }
    }
  }

  // Every live shadow shares its bottom with one that lived before the fork
  lemma ForkCoveredBefore(s: State, pid: nat, y: nat) returns (y0: nat)
    requires Inv(s) && pid < |s.procs| && Forkable(s.objs, s.procs[pid].areas)
    requires var r := Fork(s, pid).objs; y < |r| && r[y].live && r[y].kind.Shadow?
    ensures y0 < |s.objs| && s.objs[y0].live && s.objs[y0].kind.Shadow?
            && s.objs[y0].bottom == Fork(s, pid).objs[y].bottom
  {
    var areas := s.procs[pid].areas;
    if y < |s.objs| {
      ForkSurvives(s.objs, areas, y);
      y0 := y;
    } else {
      ForkBottoms(s.objs, areas, y);
      var a :| a in areas && !a.shared && Fork(s, pid).objs[y].bottom == s.objs[a.obj].bottom;
      AreaLive(s, pid, a);
      y0 := a.obj;
    }
  }

  // The unmap in do_fork leaves the parent no user entry at all
  lemma ForkPt(s: State, pid: nat)
    requires Inv(s) && pid < |s.procs|
    ensures Without(s.procs[pid].pt, LOW_PAGE, HIGH_PAGE) == map[]
  {
    var pr := s.procs[pid];
    assert PtOk(s, pid);
    forall p | p in pr.pt
      ensures LOW_PAGE <= p < HIGH_PAGE
    {
      assert PteOk(s.objs, pr.areas, p, pr.pt[p]);
      TargetFacts(s, pid, p);
    }
  }

  lemma ForkInv(s: State, pid: nat)
    requires Inv(s) && pid < |s.procs|
    ensures Forkable(s.objs, s.procs[pid].areas) && Inv(Fork(s, pid))
  {
    InvForkable(s, pid);
    ForkFormed(s.objs, s.procs[pid].areas);
    var s' := Fork(s, pid);
    ForkStateExact(s, pid);
    ForkPrivates(s, pid);
    ForkAnons(s, pid);
    ForkPt(s, pid);
    forall q | 0 <= q < |s'.procs|
      ensures AreasOk(s', q) && PtOk(s', q)
    {
      assert AreasOk(s, pid) && (q < |s.procs| ==> AreasOk(s, q));
      ForkAreasOk(s, pid, q);
      if q != pid && q < |s.procs| {
        PtKeeps(s, s', q);
      }
    }
  }
}
