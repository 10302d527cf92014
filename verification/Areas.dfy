/**
 Address-space areas: the sorted list of `vmarea_t` kept by vm/vmmap.c.

 An area maps the virtual pages [start, end) onto the pages
 [off, off + end - start) of a memory object.  This module holds the list
 itself: what a page maps to, and what insertion, removal and growth do to
 that meaning.  Reference counts and page contents live in Objects.
 */
module Areas {
  import opened Basics

  // ADDR_TO_PN(USER_MEM_LOW) and ADDR_TO_PN(USER_MEM_HIGH)
  const LOW_PAGE: nat := 0x400
  const HIGH_PAGE: nat := 0xC0000

  datatype Prot = Prot(read: bool, write: bool, exec: bool)

  datatype Area = Area(start: nat, end: nat, off: nat, prot: Prot, shared: bool, obj: nat) {
    predicate Covers(p: nat) {
      start <= p < end
    }

    predicate InUser() {
      LOW_PAGE <= start < end <= HIGH_PAGE
    }
  }

  // What one virtual page maps to
  datatype Mapping = Mapping(obj: nat, page: nat, prot: Prot, shared: bool)

  function MappingOf(a: Area, p: nat): Mapping
    requires a.Covers(p)
  {
    Mapping(a.obj, a.off + (p - a.start), a.prot, a.shared)
  }

  // The first area of the list that covers page p
  function Find(areas: seq<Area>, p: nat): Option<Area> {
    if areas == [] then None
    else if areas[0].Covers(p) then Some(areas[0])
    else Find(areas[1..], p)
  }

  // The meaning of an area list: a partial map from virtual pages
  function Target(areas: seq<Area>, p: nat): Option<Mapping> {
    if areas == [] then None
    else if areas[0].Covers(p) then Some(MappingOf(areas[0], p))
    else Target(areas[1..], p)
  }

  // Sorted, pairwise disjoint, no area empty, all inside user memory
  ghost predicate Sorted(areas: seq<Area>) {
    && (forall i | 0 <= i < |areas| :: areas[i].InUser())
    && (forall i, j | 0 <= i < j < |areas| :: areas[i].end <= areas[j].start)
  }

  lemma {:induction false} FindTarget(areas: seq<Area>, p: nat)
    ensures Find(areas, p).None? <==> Target(areas, p).None?
    ensures Find(areas, p).None? <==> forall a | a in areas :: !a.Covers(p)
    ensures var f := Find(areas, p);
            f.Some? ==> f.value in areas && f.value.Covers(p) && Target(areas, p) == Some(MappingOf(f.value, p))
  {
    if areas != [] {
      FindTarget(areas[1..], p);
      assert forall a :: a in areas <==> a == areas[0] || a in areas[1..];
    }
  }

  // In a sorted list the covering area is unique
  lemma FindAt(areas: seq<Area>, i: nat, p: nat)
    requires Sorted(areas) && i < |areas| && areas[i].Covers(p)
    ensures Find(areas, p) == Some(areas[i])
    ensures Target(areas, p) == Some(MappingOf(areas[i], p))
  {
    FindTarget(areas, p);
    var f := Find(areas, p);
    assert areas[i] in areas;
    var j :| 0 <= j < |areas| && areas[j] == f.value;
  }

  lemma {:induction false} TargetConcat(a: seq<Area>, b: seq<Area>, p: nat)
    ensures Target(a + b, p) == if Target(a, p).Some? then Target(a, p) else Target(b, p)
  {
    if a == [] {
      assert a + b == b;
    } else {
      assert (a + b)[0] == a[0] && (a + b)[1..] == a[1..] + b;
      TargetConcat(a[1..], b, p);
    }
  }

  // Number of areas that point to object o
  function Count(areas: seq<Area>, o: nat): nat {
    if areas == [] then 0 else (if areas[0].obj == o then 1 else 0) + Count(areas[1..], o)
  }

  lemma {:induction false} CountConcat(a: seq<Area>, b: seq<Area>, o: nat)
    ensures Count(a + b, o) == Count(a, o) + Count(b, o)
  {
    if a == [] {
      assert a + b == b;
    } else {
      assert (a + b)[0] == a[0] && (a + b)[1..] == a[1..] + b;
      CountConcat(a[1..], b, o);
    }
  }

  lemma {:induction false} CountZero(areas: seq<Area>, o: nat)
    ensures Count(areas, o) == 0 <==> forall a | a in areas :: a.obj != o
  {
    if areas != [] {
      CountZero(areas[1..], o);
      assert forall a :: a in areas <==> a == areas[0] || a in areas[1..];
    }
  }

  // Index of the area covering p, or the length of the list
  function FindIndex(areas: seq<Area>, p: nat): (i: nat)
    ensures i <= |areas|
    ensures i < |areas| <==> Find(areas, p).Some?
    ensures i < |areas| ==> areas[i].Covers(p) && Find(areas, p).value == areas[i]
    ensures forall j | 0 <= j < i :: !areas[j].Covers(p)
  {
    if areas == [] || areas[0].Covers(p) then 0 else 1 + FindIndex(areas[1..], p)
  }

  lemma FindIndexTarget(areas: seq<Area>, p: nat)
    ensures var i := FindIndex(areas, p);
            Target(areas, p) == if i < |areas| then Some(MappingOf(areas[i], p)) else None
  {
    FindTarget(areas, p);
  }

  // ---- vmmap_insert ----

  // Index of the first area starting at or after `end`
  function InsertPos(areas: seq<Area>, end: nat): (i: nat)
    ensures i <= |areas|
    ensures forall j | 0 <= j < i :: areas[j].start < end
    ensures i < |areas| ==> areas[i].start >= end
  {
    if areas == [] || areas[0].start >= end then 0 else 1 + InsertPos(areas[1..], end)
  }

  function InsertArea(areas: seq<Area>, a: Area): seq<Area> {
    var i := InsertPos(areas, a.end);
    areas[..i] + [a] + areas[i..]
  }

  ghost predicate RangeFree(areas: seq<Area>, lo: nat, hi: nat) {
    forall p | lo <= p < hi :: Target(areas, p).None?
  }

  // No area of a sorted list meets a free non-empty range
  lemma FreeMeansDisjoint(areas: seq<Area>, lo: nat, hi: nat)
    requires Sorted(areas) && RangeFree(areas, lo, hi) && lo < hi
    ensures forall i | 0 <= i < |areas| :: areas[i].end <= lo || hi <= areas[i].start
  {
    forall i | 0 <= i < |areas|
      ensures areas[i].end <= lo || hi <= areas[i].start
    {
      if lo < areas[i].end && areas[i].start < hi {
        FindAt(areas, i, if areas[i].start < lo then lo else areas[i].start);
        assert false;
      }
    }
  }

  lemma InsertSorted(areas: seq<Area>, a: Area)
    requires Sorted(areas) && a.InUser() && RangeFree(areas, a.start, a.end)
    ensures Sorted(InsertArea(areas, a))
  {
    FreeMeansDisjoint(areas, a.start, a.end);
    var i := InsertPos(areas, a.end);
    SortedConcat(areas[..i], [a], a.start);
    SortedConcat(areas[..i] + [a], areas[i..], a.end);
  }

  // Inserting into a free range overrides the page map on exactly the new
  // range
  lemma InsertMeaning(areas: seq<Area>, a: Area, p: nat)
    requires RangeFree(areas, a.start, a.end)
    ensures Target(InsertArea(areas, a), p) == if a.Covers(p) then Some(MappingOf(a, p)) else Target(areas, p)
  {
    var i := InsertPos(areas, a.end);
    var l, r := areas[..i], areas[i..];
    assert areas == l + r;
    TargetConcat(l + [a], r, p);
    TargetConcat(l, [a], p);
    TargetConcat(l, r, p);
  }

  lemma InsertCount(areas: seq<Area>, a: Area, o: nat)
    ensures Count(InsertArea(areas, a), o) == Count(areas, o) + if a.obj == o then 1 else 0
  {
    var i := InsertPos(areas, a.end);
    var l, r := areas[..i], areas[i..];
    assert areas == l + r;
    CountConcat(l + [a], r, o);
    CountConcat(l, [a], o);
    CountConcat(l, r, o);
  }

  // ---- vmmap_remove ----

  // What one area becomes when [lo, hi) is unmapped: the four cases of
  // vmmap_remove, and the untouched area.
  function Cut(a: Area, lo: nat, hi: nat): seq<Area>
    requires lo <= hi
  {
    if a.end > hi && a.start < lo then [a.(end := lo), a.(start := hi, off := a.off + (hi - a.start))]
    else if a.end <= hi && a.start < lo && a.end > lo then [a.(end := lo)]
    else if a.end > hi && a.start >= lo && a.start < hi then [a.(start := hi, off := a.off + (hi - a.start))]
    else if a.end <= hi && a.start >= lo then []
    else [a]
  }

  function CutAll(areas: seq<Area>, lo: nat, hi: nat): seq<Area>
    requires lo <= hi
  {
    if areas == [] then [] else Cut(areas[0], lo, hi) + CutAll(areas[1..], lo, hi)
  }

  // Removal is exact set difference on the page map
  lemma {:induction false} CutMeaning(areas: seq<Area>, lo: nat, hi: nat, p: nat)
    requires lo <= hi
    ensures Target(CutAll(areas, lo, hi), p) == if lo <= p < hi then None else Target(areas, p)
  {
    if areas != [] {
      var c := Cut(areas[0], lo, hi);
      CutMeaning(areas[1..], lo, hi, p);
      TargetConcat(c, CutAll(areas[1..], lo, hi), p);
      assert |c| == 2 ==> c[1..] == [c[1]];
    }
  }

  // b is a piece of a: same object, attributes and page alignment
  predicate PieceOf(b: Area, a: Area) {
    && b.obj == a.obj && b.shared == a.shared && b.prot == a.prot
    && a.start <= b.start && b.end <= a.end && b.off - b.start == a.off - a.start
  }

  // b shows pages of a's object at the same virtual addresses as a would
  predicate AlignedWith(b: Area, a: Area) {
    b.obj == a.obj && b.shared == a.shared && b.off - b.start == a.off - a.start
  }

  lemma {:induction false} CutPieces(areas: seq<Area>, lo: nat, hi: nat, b: Area)
    requires lo <= hi && b in CutAll(areas, lo, hi)
    ensures exists a :: a in areas && PieceOf(b, a)
  {
    if b in Cut(areas[0], lo, hi) {
      assert areas[0] in areas && PieceOf(b, areas[0]);
    } else {
      CutPieces(areas[1..], lo, hi, b);
      var a :| a in areas[1..] && PieceOf(b, a);
      assert a in areas;
    }
  }

  lemma {:induction false} CutSorted(areas: seq<Area>, lo: nat, hi: nat)
    requires Sorted(areas) && lo <= hi
    ensures Sorted(CutAll(areas, lo, hi))
  {
    if areas != [] {
      var c, r := Cut(areas[0], lo, hi), CutAll(areas[1..], lo, hi);
      CutSorted(areas[1..], lo, hi);
      forall j | 0 <= j < |r|
        ensures areas[0].end <= r[j].start
      {
        CutPieces(areas[1..], lo, hi, r[j]);
      }
      SortedConcat(c, r, areas[0].end);
    }
  }

  lemma SortedConcat(c: seq<Area>, r: seq<Area>, m: nat)
    requires Sorted(c) && Sorted(r)
    requires forall i | 0 <= i < |c| :: c[i].end <= m
    requires forall j | 0 <= j < |r| :: m <= r[j].start
    ensures Sorted(c + r)
  {
  }

  // All pieces of an area point to the area's object
  lemma CutCount(a: Area, lo: nat, hi: nat, o: nat)
    requires lo <= hi
    ensures Count([a], o) == if a.obj == o then 1 else 0
    ensures Count(Cut(a, lo, hi), o) == if a.obj == o then |Cut(a, lo, hi)| else 0
  {
    var c := Cut(a, lo, hi);
    assert [a][1..] == [];
    if |c| == 1 {
      assert c[1..] == [];
    } else if |c| == 2 {
      assert c[1..] == [c[1]] && c[1..][1..] == [];
    }
  }

  // A cut that covers every area leaves nothing
  lemma {:induction false} CutEverything(areas: seq<Area>)
    requires Sorted(areas)
    ensures CutAll(areas, LOW_PAGE, HIGH_PAGE) == []
  {
    if areas != [] {
      CutEverything(areas[1..]);
    }
  }

  // ---- do_brk growth ----

  function Grow(areas: seq<Area>, i: nat, end: nat): seq<Area>
    requires i < |areas|
  {
    areas[i := areas[i].(end := end)]
  }

  lemma GrowSorted(areas: seq<Area>, i: nat, end: nat)
    requires Sorted(areas) && i < |areas| && areas[i].end < end <= HIGH_PAGE
    requires RangeFree(areas, areas[i].end, end)
    ensures Sorted(Grow(areas, i, end))
  {
    FreeMeansDisjoint(areas, areas[i].end, end);
  }

  // Growing an area into free pages maps exactly those pages in addition
  lemma GrowMeaning(areas: seq<Area>, i: nat, end: nat, p: nat)
    requires i < |areas| && areas[i].start <= areas[i].end < end
    requires RangeFree(areas, areas[i].end, end)
    ensures Target(Grow(areas, i, end), p) ==
            if areas[i].end <= p < end then Some(MappingOf(areas[i].(end := end), p)) else Target(areas, p)
  {
    var g := areas[i].(end := end);
    var l, r := areas[..i], areas[i + 1..];
    assert areas == l + [areas[i]] + r && Grow(areas, i, end) == l + [g] + r;
    TargetConcat(l + [g], r, p);
    TargetConcat(l, [g], p);
    TargetConcat(l + [areas[i]], r, p);
    TargetConcat(l, [areas[i]], p);
  }

  lemma {:induction false} CountUpdate(areas: seq<Area>, i: nat, a: Area, o: nat)
    requires i < |areas|
    ensures Count(areas[i := a], o) == Count(areas, o) - Count([areas[i]], o) + Count([a], o)
  {
    var l, r := areas[..i], areas[i + 1..];
    assert areas == l + [areas[i]] + r && areas[i := a] == l + [a] + r;
    CountConcat(l + [a], r, o);
    CountConcat(l, [a], o);
    CountConcat(l + [areas[i]], r, o);
    CountConcat(l, [areas[i]], o);
  }
}
