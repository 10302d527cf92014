/**
 The loops of vm/vmmap.c that walk an area list without changing it.
 */
module AreaScans {
  import opened Basics
  import opened Areas

  lemma FindIndexIs(areas: seq<Area>, p: nat, i: nat)
    requires i <= |areas| && (forall j | 0 <= j < i :: !areas[j].Covers(p)) && (i < |areas| ==> areas[i].Covers(p))
    ensures FindIndex(areas, p) == i
  {
  }

  // vmmap_lookup; the index is the length of the list when no area covers vfn
  method Lookup(areas: seq<Area>, vfn: nat) returns (i: nat)
    ensures i == FindIndex(areas, vfn)
    ensures Find(areas, vfn) == if i < |areas| then Some(areas[i]) else None
  {
    i := 0;
    while i < |areas|
      invariant i <= |areas|
      invariant forall j | 0 <= j < i :: !areas[j].Covers(vfn)
    {
      if areas[i].end > vfn && areas[i].start <= vfn {
        FindIndexIs(areas, vfn, i);
        return;
      }
      i := i + 1;
    }
    FindIndexIs(areas, vfn, i);
  }

  // The scan of vmmap_insert for the place of an area that ends at `end`
  method InsertPlace(areas: seq<Area>, end: nat) returns (i: nat)
    ensures i == InsertPos(areas, end)
  {
    i := 0;
    while i < |areas|
      invariant i <= |areas|
      invariant forall j | 0 <= j < i :: areas[j].start < end
    {
      if areas[i].start >= end {
        InsertPosIs(areas, end, i);
        return;
      }
      i := i + 1;
    }
    InsertPosIs(areas, end, i);
  }

  lemma InsertPosIs(areas: seq<Area>, end: nat, i: nat)
    requires i <= |areas| && (forall j | 0 <= j < i :: areas[j].start < end) && (i < |areas| ==> areas[i].start >= end)
    ensures InsertPos(areas, end) == i
  {
  }

  // A page inside an area is mapped; a page that no area covers is not
  lemma UncoveredPage(areas: seq<Area>, p: nat)
    requires forall j | 0 <= j < |areas| :: !areas[j].Covers(p)
    ensures Target(areas, p).None?
  {
    FindTarget(areas, p);
  }

  // vmmap_is_range_empty: the early exit at the first area past the range
  // agrees with looking up every page.
  method IsRangeEmpty(areas: seq<Area>, startvfn: nat, npages: nat) returns (empty: bool)
    requires Sorted(areas) && 0 < npages && LOW_PAGE <= startvfn && startvfn + npages <= HIGH_PAGE
    ensures empty <==> forall p | startvfn <= p < startvfn + npages :: Find(areas, p).None?
    ensures empty <==> RangeFree(areas, startvfn, startvfn + npages)
  {
    var endvfn := startvfn + npages;
    empty := true;
    var i := 0;
    while i < |areas|
      invariant i <= |areas|
      invariant forall j | 0 <= j < i :: areas[j].end <= startvfn
    {
      if areas[i].start >= endvfn {
        break;
      }
      if areas[i].start < endvfn && areas[i].end > startvfn {
        empty := false;
        FindAt(areas, i, if areas[i].start < startvfn then startvfn else areas[i].start);
        return;
      }
      i := i + 1;
    }
    forall p | startvfn <= p < endvfn
      ensures Find(areas, p).None? && Target(areas, p).None?
    {
      FindTarget(areas, p);
    }
  }

  // ---- vmmap_find_range ----

  // n free pages of user memory start at q
  ghost predicate FreeRun(areas: seq<Area>, q: int, n: nat) {
    LOW_PAGE <= q && q + n <= HIGH_PAGE && RangeFree(areas, q, q + n)
  }

  // A free run lies entirely before or entirely after any area
  lemma FreeRunBeside(areas: seq<Area>, q: int, n: nat, i: nat)
    requires Sorted(areas) && FreeRun(areas, q, n) && 0 < n && i < |areas|
    ensures q + n <= areas[i].start || areas[i].end <= q
  {
    FreeMeansDisjoint(areas, q, q + n);
  }

  // The gap between neighbours is free
  lemma GapFree(areas: seq<Area>, i: nat, lo: nat, hi: nat)
    requires Sorted(areas) && i <= |areas|
    requires i > 0 ==> areas[i - 1].end <= lo
    requires i < |areas| ==> hi <= areas[i].start
    ensures RangeFree(areas, lo, hi)
  {
    forall p | lo <= p < hi
      ensures Target(areas, p).None?
    {
      UncoveredPage(areas, p);
    }
  }

  // The highest (hilo) or lowest start of a free run of npages pages, and -1
  // exactly when there is none.  The list must not be empty: the code reads
  // its head and its tail without looking.
  method FindRange(areas: seq<Area>, npages: nat, hilo: bool) returns (r: int)
    requires Sorted(areas) && areas != []
    ensures r == -1 <==> forall q :: !FreeRun(areas, q, npages)
    ensures r != -1 ==> FreeRun(areas, r, npages)
    ensures r != -1 && hilo ==> forall q | FreeRun(areas, q, npages) :: q <= r
    ensures r != -1 && !hilo ==> forall q | FreeRun(areas, q, npages) :: r <= q
  {
    if hilo {
      r := FindHighest(areas, npages);
    } else {
      r := FindLowest(areas, npages);
    }
  }

  method FindHighest(areas: seq<Area>, npages: nat) returns (r: int)
    requires Sorted(areas) && areas != []
    ensures r == -1 ==> forall q :: !FreeRun(areas, q, npages)
    ensures r != -1 ==> FreeRun(areas, r, npages) && forall q | FreeRun(areas, q, npages) :: q <= r
  {
    var preStart := HIGH_PAGE;
    var i := |areas|;
    while i > 0
      invariant 0 <= i <= |areas|
      invariant preStart == if i == |areas| then HIGH_PAGE else areas[i].start
      invariant forall q | FreeRun(areas, q, npages) :: q + npages <= preStart
    {
      assert areas[i - 1].InUser();
      if preStart - areas[i - 1].end >= npages {
        GapFree(areas, i, preStart - npages, preStart);
        return preStart - npages;
      }
      i := i - 1;
      forall q | FreeRun(areas, q, npages)
        ensures q + npages <= areas[i].start
      {
        FreeRunBeside(areas, q, npages, i);
      }
      preStart := areas[i].start;
    }
    if areas[0].start - LOW_PAGE >= npages {
      GapFree(areas, 0, areas[0].start - npages, areas[0].start);
      return areas[0].start - npages;
    }
    return -1;
  }

  method FindLowest(areas: seq<Area>, npages: nat) returns (r: int)
    requires Sorted(areas) && areas != []
    ensures r == -1 ==> forall q :: !FreeRun(areas, q, npages)
    ensures r != -1 ==> FreeRun(areas, r, npages) && forall q | FreeRun(areas, q, npages) :: r <= q
  {
    var preEnd := LOW_PAGE;
    var i := 0;
    while i < |areas|
      invariant 0 <= i <= |areas|
      invariant preEnd == if i == 0 then LOW_PAGE else areas[i - 1].end
      invariant forall q | FreeRun(areas, q, npages) :: preEnd <= q
    {
      assert areas[i].InUser();
      if preEnd > 0 && areas[i].start - preEnd >= npages {
        GapFree(areas, i, preEnd, preEnd + npages);
        return preEnd;
      }
      forall q | FreeRun(areas, q, npages)
        ensures areas[i].end <= q
      {
        FreeRunBeside(areas, q, npages, i);
      }
      preEnd := areas[i].end;
      i := i + 1;
    }
    assert areas[|areas| - 1].InUser();
    if HIGH_PAGE - areas[|areas| - 1].end >= npages {
      GapFree(areas, |areas|, areas[|areas| - 1].end, areas[|areas| - 1].end + npages);
      return areas[|areas| - 1].end;
    }
    return -1;
  }
}
