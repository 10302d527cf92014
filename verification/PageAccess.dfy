/**
 Access to one page: the lookups behind vmmap_read and vmmap_write, the page
 fault handler, and user stores through the page table.
 */
module PageAccess {
  import opened Basics
  import opened Areas
  import opened Objects
  import opened AddressSpaces

  ghost predicate Mapped(s: State, pid: nat, p: nat) {
    pid < |s.procs| && var t := Target(s.procs[pid].areas, p); t.Some? && t.value.obj < |s.objs|
  }

  function MappingAt(s: State, pid: nat, p: nat): Mapping
    requires Mapped(s, pid, p)
  {
    Target(s.procs[pid].areas, p).value
  }

  // ---- reading ----

  function ReadPage(s: State, pid: nat, p: nat): State
    requires Mapped(s, pid, p)
  {
    var t := MappingAt(s, pid, p);
    s.(objs := ReadLookup(s.objs, t.obj, t.page))
  }

  lemma ReadPageInv(s: State, pid: nat, p: nat)
    requires Inv(s) && Mapped(s, pid, p)
    ensures Inv(ReadPage(s, pid, p))
    ensures forall q, p': nat | 0 <= q < |s.procs| :: View(ReadPage(s, pid, p), q, p') == View(s, q, p')
  {
    var t := MappingAt(s, pid, p);
    TargetFacts(s, pid, p);
    ReadLookupMeaning(s.objs, t.obj, t.page, Ext(s));
    InvSameForest(s, ReadLookup(s.objs, t.obj, t.page));
  }

  // The frame a read lookup returns holds what the process sees
  lemma ReadPageFrame(s: State, pid: nat, p: nat)
    requires Inv(s) && Mapped(s, pid, p)
    ensures var t := MappingAt(s, pid, p);
            var w := Owner(s.objs, t.obj, t.page);
            var r := ReadPage(s, pid, p);
            t.page in r.objs[w].pages && View(s, pid, p) == Some(r.objs[w].pages[t.page].bytes)
  {
    var t := MappingAt(s, pid, p);
    TargetFacts(s, pid, p);
    ReadLookupMeaning(s.objs, t.obj, t.page, Ext(s));
  }

  // ---- writing ----

  ghost function WritePage(s: State, pid: nat, p: nat, bytes: Page): State
    requires Inv(s) && Mapped(s, pid, p)
  {
    var t := MappingAt(s, pid, p);
    TargetFacts(s, pid, p);
    WriteLookupMeaning(s.objs, t.obj, t.page, Ext(s));
    s.(objs := Store(WriteLookup(s.objs, t.obj, t.page), t.obj, t.page, bytes))
  }

  lemma WritePageInv(s: State, pid: nat, p: nat, bytes: Page)
    requires Inv(s) && Mapped(s, pid, p)
    ensures Inv(WritePage(s, pid, p, bytes))
    ensures SameForest(s.objs, WritePage(s, pid, p, bytes).objs)
  {
    var t := MappingAt(s, pid, p);
    TargetFacts(s, pid, p);
    WriteLookupMeaning(s.objs, t.obj, t.page, Ext(s));
    var a := WriteLookup(s.objs, t.obj, t.page);
    StoreExact(a, t.obj, t.page, bytes, Ext(s));
    InvSameForest(s, Store(a, t.obj, t.page, bytes));
  }

  // What a write does to any page of any process, in terms of owners after
  // the lookup
  lemma WriteView(s: State, pid: nat, p: nat, bytes: Page, q: nat, p': nat)
    requires Inv(s) && Mapped(s, pid, p) && q < |s.procs|
    ensures var t := MappingAt(s, pid, p);
            var t' := Target(s.procs[q].areas, p');
            View(WritePage(s, pid, p, bytes), q, p') ==
            if t'.Some? && t'.value.obj < |s.objs| && t'.value.page == t.page
               && Owner(WriteLookup(s.objs, t.obj, t.page), t'.value.obj, t.page) == t.obj
            then Some(bytes) else View(s, q, p')
  {
    var t := MappingAt(s, pid, p);
    TargetFacts(s, pid, p);
    WriteLookupMeaning(s.objs, t.obj, t.page, Ext(s));
    var t' := Target(s.procs[q].areas, p');
    if t'.Some? && t'.value.obj < |s.objs| {
      StoreMeaning(WriteLookup(s.objs, t.obj, t.page), t.obj, t.page, bytes, t'.value.obj, t'.value.page);
    }
  }

  // A write through a private mapping is seen on that page of that process
  // and nowhere else.
  lemma PrivateWrite(s: State, pid: nat, p: nat, bytes: Page, q: nat, p': nat)
    requires Inv(s) && Mapped(s, pid, p) && !MappingAt(s, pid, p).shared && q < |s.procs|
    ensures View(WritePage(s, pid, p, bytes), q, p') == if q == pid && p' == p then Some(bytes) else View(s, q, p')
  {
    WriteView(s, pid, p, bytes, q, p');
    var t := MappingAt(s, pid, p);
    TargetFacts(s, pid, p);
    WriteLookupMeaning(s.objs, t.obj, t.page, Ext(s));
    var r := WriteLookup(s.objs, t.obj, t.page);
    if Mapped(s, q, p') {
      var t' := MappingAt(s, q, p');
      TargetFacts(s, q, p');
      if Owner(r, t'.obj, t.page) == t.obj {
        OwnerInChain(r, t'.obj, t.page);
        var a := Find(s.procs[pid].areas, p).value;
        assert PrivateOk(s, pid, a);
        UncoveredChain(r, Ext(s), t.obj, t'.obj);
        assert t'.obj == t.obj;
      }
    }
  }

  lemma {:induction false} PageInOwner(objs: seq<MmObj>, b: nat, pn: nat, x: nat, q: nat)
    requires b < |objs| && x < |objs| && (pn in objs[b].pages || !objs[b].kind.Shadow?)
    ensures Owner(PageIn(objs, b, pn), x, q) == Owner(objs, x, q)
    decreases x
  {
    if !(q in objs[x].pages || !objs[x].kind.Shadow? || objs[x].shadowed >= x) {
      PageInOwner(objs, b, pn, objs[x].shadowed, q);
    }
  }

  // A write through a shared mapping is seen on every page, of any process,
  // whose bytes came from the written page.
  lemma SharedWrite(s: State, pid: nat, p: nat, bytes: Page, q: nat, p': nat)
    requires Inv(s) && Mapped(s, pid, p) && MappingAt(s, pid, p).shared && q < |s.procs|
    ensures var t := MappingAt(s, pid, p);
            View(WritePage(s, pid, p, bytes), q, p') ==
            if Mapped(s, q, p') && MappingAt(s, q, p').page == t.page
               && Owner(s.objs, MappingAt(s, q, p').obj, t.page) == t.obj
            then Some(bytes) else View(s, q, p')
  {
    WriteView(s, pid, p, bytes, q, p');
    TargetFacts(s, pid, p);
    if Mapped(s, q, p') {
      var t := MappingAt(s, pid, p);
      PageInOwner(s.objs, t.obj, t.page, MappingAt(s, q, p').obj, t.page);
    }
  }

  // The object whose frame holds what q sees on p
  ghost function OwnerAt(s: State, q: nat, p: nat): nat
    requires Mapped(s, q, p)
  {
    Owner(s.objs, MappingAt(s, q, p).obj, MappingAt(s, q, p).page)
  }

  lemma {:induction false} AddPageOwner(objs: seq<MmObj>, o: nat, pn: nat, f: Frame, x: nat, q: nat)
    requires o < |objs| && x < |objs| && (q != pn || !InChain(objs, x, o))
    ensures Owner(AddPage(objs, o, pn, f), x, q) == Owner(objs, x, q)
    decreases x
  {
    if !(q in objs[x].pages || !objs[x].kind.Shadow? || objs[x].shadowed >= x) {
      AddPageOwner(objs, o, pn, f, objs[x].shadowed, q);
    }
  }

  // Only the page an area's object names leads to it, if the area is private
  lemma PrivatePageAlone(s: State, pid: nat, p: nat, q: nat, p': nat)
    requires Inv(s) && Mapped(s, pid, p) && Mapped(s, q, p') && !MappingAt(s, pid, p).shared
    requires MappingAt(s, q, p').page == MappingAt(s, pid, p).page
    requires InChain(s.objs, MappingAt(s, q, p').obj, MappingAt(s, pid, p).obj)
    ensures q == pid && p' == p
  {
    TargetFacts(s, pid, p);
    TargetFacts(s, q, p');
    var a := Find(s.procs[pid].areas, p).value;
    assert PrivateOk(s, pid, a);
    UncoveredChain(s.objs, Ext(s), a.obj, MappingAt(s, q, p').obj);
  }

  lemma LookupKeepsOwner(s: State, pid: nat, p: nat, q: nat, p': nat)
    requires Inv(s) && Mapped(s, pid, p) && Mapped(s, q, p')
    requires MappingAt(s, pid, p).shared || q != pid || p' != p
    ensures var t, t' := MappingAt(s, pid, p), MappingAt(s, q, p');
            && |WriteLookup(s.objs, t.obj, t.page)| == |s.objs|
            && Owner(WriteLookup(s.objs, t.obj, t.page), t'.obj, t'.page) == OwnerAt(s, q, p')
  {
    var t, t', objs := MappingAt(s, pid, p), MappingAt(s, q, p'), s.objs;
    TargetFacts(s, pid, p);
    if t.page in objs[t.obj].pages || !objs[t.obj].kind.Shadow? {
      PageInOwner(objs, t.obj, t.page, t'.obj, t'.page);
    } else {
      assert ObjOk(objs, t.obj);
      var w := Owner(objs, objs[t.obj].shadowed, t.page);
      OwnerOwner(objs, objs[t.obj].shadowed, t.page);
      PageInOwner(objs, w, t.page, t'.obj, t'.page);
      var objs1 := PageIn(objs, w, t.page);
      SameForestChain(objs, objs1, t'.obj, t.obj);
      if t'.page == t.page && InChain(objs, t'.obj, t.obj) {
        PrivatePageAlone(s, pid, p, q, p');
        assert false;
      }
      AddPageOwner(objs1, t.obj, t.page, Frame(ContentOf(objs[w], t.page), 1, true), t'.obj, t'.page);
    }
  }

  // A write changes the owner of no page but, if private, the written one
  lemma WriteKeepsOwner(s: State, pid: nat, p: nat, bytes: Page, q: nat, p': nat)
    requires Inv(s) && Mapped(s, pid, p) && Mapped(s, q, p')
    requires MappingAt(s, pid, p).shared || q != pid || p' != p
    ensures var s' := WritePage(s, pid, p, bytes);
            Mapped(s', q, p') && MappingAt(s', q, p') == MappingAt(s, q, p') && OwnerAt(s', q, p') == OwnerAt(s, q, p')
  {
    var t, t' := MappingAt(s, pid, p), MappingAt(s, q, p');
    TargetFacts(s, pid, p);
    WriteLookupMeaning(s.objs, t.obj, t.page, Ext(s));
    LookupKeepsOwner(s, pid, p, q, p');
    StoreMeaning(WriteLookup(s.objs, t.obj, t.page), t.obj, t.page, bytes, t'.obj, t'.page);
  }

  // The written page is owned by its area's own object
  lemma WriteOwns(s: State, pid: nat, p: nat, bytes: Page)
    requires Inv(s) && Mapped(s, pid, p)
    ensures var s' := WritePage(s, pid, p, bytes);
            Mapped(s', pid, p) && MappingAt(s', pid, p) == MappingAt(s, pid, p)
              && OwnerAt(s', pid, p) == MappingAt(s, pid, p).obj
  {
    var t := MappingAt(s, pid, p);
    TargetFacts(s, pid, p);
    WriteLookupMeaning(s.objs, t.obj, t.page, Ext(s));
  }

  lemma ReadKeepsOwner(s: State, pid: nat, p: nat, q: nat, p': nat)
    requires Inv(s) && Mapped(s, pid, p) && Mapped(s, q, p')
    ensures var s' := ReadPage(s, pid, p);
            Mapped(s', q, p') && MappingAt(s', q, p') == MappingAt(s, q, p') && OwnerAt(s', q, p') == OwnerAt(s, q, p')
  {
    var t, t' := MappingAt(s, pid, p), MappingAt(s, q, p');
    OwnerOwner(s.objs, t.obj, t.page);
    PageInOwner(s.objs, OwnerAt(s, pid, p), t.page, t'.obj, t'.page);
  }

  // ---- page faults ----

  datatype Cause = Cause(write: bool, exec: bool)

  // The permission test of handle_pagefault
  predicate Permitted(prot: Prot, c: Cause) {
    && (!(c.write || c.exec) ==> prot.read)
    && (c.write ==> prot.write)
    && (c.exec ==> prot.exec)
  }

  ghost function WithEntry(s: State, pid: nat, p: nat, e: Pte): State
    requires pid < |s.procs|
  {
    s.(procs := s.procs[pid := s.procs[pid].(pt := s.procs[pid].pt[p := e])])
  }

  // A permitted fault: look the page up, dirty it if it is to be written,
  // and enter it into the page table.
  ghost function Fault(s: State, pid: nat, p: nat, write: bool): State
    requires Inv(s) && Mapped(s, pid, p)
  {
    var t := MappingAt(s, pid, p);
    if write then WithEntry(WritePage(s, pid, p, View(s, pid, p).value), pid, p, Pte(t.obj, t.page, true))
    else WithEntry(ReadPage(s, pid, p), pid, p, Pte(Owner(s.objs, t.obj, t.page), t.page, false))
  }

  lemma EntryInv(s: State, pid: nat, p: nat, e: Pte)
    requires Inv(s) && pid < |s.procs| && PteOk(s.objs, s.procs[pid].areas, p, e)
    ensures Inv(WithEntry(s, pid, p, e))
  {
    var s' := WithEntry(s, pid, p, e);
    forall o: nat
      ensures AreaRefs(s'.procs, o) == AreaRefs(s.procs, o)
    {
      AreaRefsUpdate(s.procs, pid, s'.procs[pid], o);
    }
    ExactCongruent(s.objs, Ext(s), Ext(s'));
    forall q | 0 <= q < |s'.procs|
      ensures AreasOk(s', q) && PtOk(s', q)
    {
      assert AreasOk(s, q) && PtOk(s, q);
    }
    forall q, a | 0 <= q < |s'.procs| && a in s'.procs[q].areas && !a.shared
      ensures PrivateOk(s', q, a)
    {
      assert PrivateOk(s, q, a);
    }
    forall y | 0 <= y < |s'.objs|
      ensures AnonApart(s', y)
    {
      assert AnonApart(s, y);
    }
  }

  // Faults keep the invariant, hence every writable entry still designates
  // the frame of its area's own object, and show nobody anything new.
  lemma FaultInv(s: State, pid: nat, p: nat, write: bool)
    requires Inv(s) && Mapped(s, pid, p)
    ensures Inv(Fault(s, pid, p, write))
  {
    var t := MappingAt(s, pid, p);
    TargetFacts(s, pid, p);
    if write {
      var bytes := View(s, pid, p).value;
      WritePageInv(s, pid, p, bytes);
      EntryInv(WritePage(s, pid, p, bytes), pid, p, Pte(t.obj, t.page, true));
    } else {
      ReadPageInv(s, pid, p);
      ReadLookupMeaning(s.objs, t.obj, t.page, Ext(s));
      EntryInv(ReadPage(s, pid, p), pid, p, Pte(Owner(s.objs, t.obj, t.page), t.page, false));
    }
  }

  lemma FaultView(s: State, pid: nat, p: nat, write: bool, q: nat, p': nat)
    requires Inv(s) && Mapped(s, pid, p) && q < |s.procs|
    ensures View(Fault(s, pid, p, write), q, p') == View(s, q, p')
  {
    if write {
      FaultWriteView(s, pid, p, q, p');
    } else {
      ReadPageInv(s, pid, p);
    }
  }

  // Rewriting a page with its own bytes is invisible
  lemma FaultWriteView(s: State, pid: nat, p: nat, q: nat, p': nat)
    requires Inv(s) && Mapped(s, pid, p) && q < |s.procs|
    ensures View(WritePage(s, pid, p, View(s, pid, p).value), q, p') == View(s, q, p')
  {
    var t := MappingAt(s, pid, p);
    var bytes := View(s, pid, p).value;
    WriteView(s, pid, p, bytes, q, p');
    TargetFacts(s, pid, p);
    WriteLookupMeaning(s.objs, t.obj, t.page, Ext(s));
    var r := WriteLookup(s.objs, t.obj, t.page);
    if Mapped(s, q, p') && MappingAt(s, q, p').page == t.page && Owner(r, MappingAt(s, q, p').obj, t.page) == t.obj {
      assert Resolve(r, MappingAt(s, q, p').obj, t.page) == Resolve(r, t.obj, t.page);
    }
  }

  // ---- user accesses through the page table ----

  ghost predicate Writable(s: State, pid: nat, p: nat) {
    pid < |s.procs| && p in s.procs[pid].pt && s.procs[pid].pt[p].write
  }

  ghost function UserStore(s: State, pid: nat, p: nat, bytes: Page): State
    requires Inv(s) && Writable(s, pid, p)
  {
    var e := s.procs[pid].pt[p];
    assert PtOk(s, pid) && PteOk(s.objs, s.procs[pid].areas, p, e);
    s.(objs := Store(s.objs, e.obj, e.page, bytes))
  }

  // A store the hardware makes through a writable entry is the same as a
  // write by the kernel on behalf of the process.
  lemma UserStoreIsWrite(s: State, pid: nat, p: nat, bytes: Page)
    requires Inv(s) && Writable(s, pid, p)
    ensures Mapped(s, pid, p) && UserStore(s, pid, p, bytes) == WritePage(s, pid, p, bytes)
  {
    var e := s.procs[pid].pt[p];
    assert PtOk(s, pid) && PteOk(s.objs, s.procs[pid].areas, p, e);
  }

  // The bytes user code reads through its entry for page p
  ghost function EntryBytes(s: State, pid: nat, p: nat): Page
    requires Inv(s) && pid < |s.procs| && p in s.procs[pid].pt
  {
    var e := s.procs[pid].pt[p];
    assert PtOk(s, pid) && PteOk(s.objs, s.procs[pid].areas, p, e);
    s.objs[e.obj].pages[e.page].bytes
  }

  // A writable entry always shows what the process is meant to see
  lemma WritableCoherent(s: State, pid: nat, p: nat)
    requires Inv(s) && Writable(s, pid, p)
    ensures View(s, pid, p) == Some(EntryBytes(s, pid, p))
  {
    assert PtOk(s, pid) && PteOk(s.objs, s.procs[pid].areas, p, s.procs[pid].pt[p]);
  }

  // A read-only entry does not: vmmap_write leaves page tables alone.  An
  // entry that was right shows the new bytes exactly when it designates the
  // frame of the area's own object.
  lemma KernelWriteCoherence(s: State, pid: nat, p: nat, bytes: Page)
    requires Inv(s) && Mapped(s, pid, p) && p in s.procs[pid].pt
    requires View(s, pid, p) == Some(EntryBytes(s, pid, p)) && View(s, pid, p) != Some(bytes)
    ensures Inv(WritePage(s, pid, p, bytes))
    ensures var s' := WritePage(s, pid, p, bytes);
            View(s', pid, p) == Some(EntryBytes(s', pid, p)) <==> s.procs[pid].pt[p].obj == MappingAt(s, pid, p).obj
  {
    var t, e := MappingAt(s, pid, p), s.procs[pid].pt[p];
    assert PtOk(s, pid) && PteOk(s.objs, s.procs[pid].areas, p, e);
    WritePageInv(s, pid, p, bytes);
    WriteView(s, pid, p, bytes, pid, p);
    TargetFacts(s, pid, p);
    WriteLookupMeaning(s.objs, t.obj, t.page, Ext(s));
    WriteLookupKeepsFrames(s.objs, t.obj, t.page, e.obj, e.page);
  }

  lemma WriteLookupKeepsFrames(objs: seq<MmObj>, o: nat, pn: nat, x: nat, q: nat)
    requires o < |objs| && x < |objs| && q in objs[x].pages && (x != o || pn in objs[o].pages)
    requires Formed(objs)
    ensures q in WriteLookup(objs, o, pn)[x].pages
    ensures WriteLookup(objs, o, pn)[x].pages[q].bytes == objs[x].pages[q].bytes
  {
    assert ObjOk(objs, o);
  }
}
