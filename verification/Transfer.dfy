/**
 vmmap_read and vmmap_write: copying byte ranges between the kernel and a
 process across page and area boundaries.
 */
module Transfer {
  import opened Basics
  import opened Objects
  import opened AddressSpaces
  import opened PageAccess

  // The byte process pid sees at address b
  function ByteAt(s: State, pid: nat, b: nat): Option<Byte>
    requires pid < |s.procs|
  {
    var v := View(s, pid, b / PAGE_SIZE);
    if v.Some? then Some(v.value[b % PAGE_SIZE]) else None
  }

  // Bytes moved in one turn of the loop: up to the end of the page
  function ChunkLen(addr: nat, count: nat): (n: nat)
    ensures n <= count && addr % PAGE_SIZE + n <= PAGE_SIZE && (count > 0 ==> n > 0)
  {
    if count <= PAGE_SIZE - addr % PAGE_SIZE then count else PAGE_SIZE - addr % PAGE_SIZE
  }

  // Length of the mapped part of [addr, addr + count) before the first gap
  ghost function MappedLen(s: State, pid: nat, addr: nat, count: nat): (k: nat)
    ensures k <= count
    decreases count
  {
    if count == 0 || !Mapped(s, pid, addr / PAGE_SIZE) then 0
    else
      var n := ChunkLen(addr, count);
      n + MappedLen(s, pid, addr + n, count - n)
  }

  // All bytes before that length are mapped, and the one at it is not
  lemma {:induction false} MappedLenMeaning(s: State, pid: nat, addr: nat, count: nat, i: nat)
    requires i < count
    ensures i < MappedLen(s, pid, addr, count) ==> Mapped(s, pid, (addr + i) / PAGE_SIZE)
    ensures i == MappedLen(s, pid, addr, count) ==> !Mapped(s, pid, (addr + i) / PAGE_SIZE)
    decreases count
  {
    if Mapped(s, pid, addr / PAGE_SIZE) {
      var n := ChunkLen(addr, count);
      if i < n {
        SamePage(addr, n, addr + i);
      } else {
        MappedLenMeaning(s, pid, addr + n, count - n, i - n);
        assert addr + n + (i - n) == addr + i;
      }
    }
  }

  lemma SamePage(addr: nat, n: nat, b: nat)
    requires addr % PAGE_SIZE + n <= PAGE_SIZE && addr <= b < addr + n
    ensures b / PAGE_SIZE == addr / PAGE_SIZE && b % PAGE_SIZE == addr % PAGE_SIZE + (b - addr)
  {
  }

  lemma OtherPage(addr: nat, n: nat, b: nat)
    requires addr % PAGE_SIZE + n <= PAGE_SIZE && b / PAGE_SIZE == addr / PAGE_SIZE
    ensures addr <= b < addr + n <==> addr % PAGE_SIZE <= b % PAGE_SIZE < addr % PAGE_SIZE + n
    ensures b % PAGE_SIZE - addr % PAGE_SIZE == b - addr
  {
  }

  lemma OffPage(addr: nat, n: nat, b: nat)
    requires addr % PAGE_SIZE + n <= PAGE_SIZE && b / PAGE_SIZE != addr / PAGE_SIZE
    ensures !(addr <= b < addr + n)
  {
  }

  // Mappings do not depend on page contents
  lemma MappedStable(s: State, s': State, pid: nat, addr: nat, count: nat)
    requires s'.procs == s.procs && |s'.objs| == |s.objs|
    ensures MappedLen(s', pid, addr, count) == MappedLen(s, pid, addr, count)
    decreases count
  {
    if !(count == 0 || !Mapped(s, pid, addr / PAGE_SIZE)) {
      MappedStable(s, s', pid, addr + ChunkLen(addr, count), count - ChunkLen(addr, count));
    }
  }

  // `data` is what process pid sees from address addr on
  ghost predicate ReadsAs(s: State, pid: nat, addr: nat, data: seq<Byte>)
    requires pid < |s.procs|
  {
    forall i | 0 <= i < |data| :: ByteAt(s, pid, addr + i) == Some(data[i])
  }

  // ---- writing ----

  function Splice(page: Page, off: nat, chunk: seq<Byte>): (r: Page)
    requires off + |chunk| <= PAGE_SIZE
    ensures forall i | 0 <= i < PAGE_SIZE :: r[i] == if off <= i < off + |chunk| then chunk[i - off] else page[i]
  {
    page[..off] + chunk + page[off + |chunk|..]
  }

  ghost function WriteChunk(s: State, pid: nat, addr: nat, chunk: seq<Byte>): (s': State)
    requires Inv(s) && Mapped(s, pid, addr / PAGE_SIZE) && addr % PAGE_SIZE + |chunk| <= PAGE_SIZE
    ensures Inv(s') && s'.procs == s.procs && SameForest(s.objs, s'.objs)
  {
    var p := addr / PAGE_SIZE;
    var bytes := Splice(View(s, pid, p).value, addr % PAGE_SIZE, chunk);
    WritePageInv(s, pid, p, bytes);
    WritePage(s, pid, p, bytes)
  }

  // ---- byte by byte ----

  ghost predicate ByteMapped(s: State, pid: nat, b: nat) {
    Mapped(s, pid, b / PAGE_SIZE)
  }

  ghost predicate AllMapped(s: State, pid: nat, addr: nat, count: nat) {
    forall b | addr <= b < addr + count :: ByteMapped(s, pid, b)
  }

  lemma ByteStays(s: State, s': State, pid: nat, b: nat)
    requires ByteMapped(s, pid, b) && s'.procs == s.procs && SameForest(s.objs, s'.objs)
    ensures ByteMapped(s', pid, b)
  {
  }

  ghost function WriteByte(s: State, pid: nat, b: nat, x: Byte): (s': State)
    requires Inv(s) && ByteMapped(s, pid, b)
    ensures Inv(s') && s'.procs == s.procs && SameForest(s.objs, s'.objs)
  {
    WriteChunk(s, pid, b, [x])
  }

  // The plain meaning of a write: one byte after the other
  ghost function WriteBytes(s: State, pid: nat, addr: nat, data: seq<Byte>): (s': State)
    requires Inv(s) && AllMapped(s, pid, addr, |data|)
    ensures Inv(s') && s'.procs == s.procs && SameForest(s.objs, s'.objs)
  {
    if data == [] then s
    else
      var n := |data| - 1;
      var s1 := WriteBytes(s, pid, addr, data[..n]);
      ByteStays(s, s1, pid, addr + n);
      WriteByte(s1, pid, addr + n, data[n])
  }

  lemma SpliceSplice(page: Page, off: nat, x: seq<Byte>, y: seq<Byte>)
    requires off + |x| + |y| <= PAGE_SIZE
    ensures Splice(Splice(page, off, x), off + |x|, y) == Splice(page, off, x + y)
  {
  }

  // Storing twice into one page is storing the last bytes
  lemma WriteTwice(s: State, pid: nat, p: nat, bytes1: Page, bytes2: Page)
    requires Inv(s) && Mapped(s, pid, p)
    ensures var s1 := WritePage(s, pid, p, bytes1);
            && Inv(s1) && Mapped(s1, pid, p) && View(s1, pid, p) == Some(bytes1)
            && WritePage(s1, pid, p, bytes2) == WritePage(s, pid, p, bytes2)
  {
    var t := MappingAt(s, pid, p);
    TargetFacts(s, pid, p);
    WriteLookupMeaning(s.objs, t.obj, t.page, Ext(s));
    WritePageInv(s, pid, p, bytes1);
    WriteView(s, pid, p, bytes1, pid, p);
    var a := WriteLookup(s.objs, t.obj, t.page);
    hide Inv, WriteLookup;
    StoreTwice(a, t.obj, t.page, bytes1, bytes2);
  }

  lemma StoreTwice(objs: seq<MmObj>, o: nat, pn: nat, bytes1: Page, bytes2: Page)
    requires o < |objs| && pn in objs[o].pages
    ensures var a := Store(objs, o, pn, bytes1);
            && |WriteLookup(a, o, pn)| == |objs| && pn in WriteLookup(a, o, pn)[o].pages
            && Store(WriteLookup(a, o, pn), o, pn, bytes2) == Store(objs, o, pn, bytes2)
  {
    var a := Store(objs, o, pn, bytes1);
    assert WriteLookup(a, o, pn) == a;
    assert Store(a, o, pn, bytes2)[o].pages == Store(objs, o, pn, bytes2)[o].pages;
  }

  // A chunk cut in two
  lemma ChunkSplit(s: State, pid: nat, addr: nat, x: seq<Byte>, y: seq<Byte>)
    requires Inv(s) && Mapped(s, pid, addr / PAGE_SIZE) && addr % PAGE_SIZE + |x| + |y| <= PAGE_SIZE && |y| > 0
    ensures (addr + |x|) / PAGE_SIZE == addr / PAGE_SIZE && (addr + |x|) % PAGE_SIZE == addr % PAGE_SIZE + |x|
    ensures var s1 := WriteChunk(s, pid, addr, x);
            Mapped(s1, pid, addr / PAGE_SIZE) && WriteChunk(s1, pid, addr + |x|, y) == WriteChunk(s, pid, addr, x + y)
  {
    SamePage(addr, |x| + |y|, addr + |x|);
    var p, off := addr / PAGE_SIZE, addr % PAGE_SIZE;
    var page := View(s, pid, p).value;
    hide Inv, WritePage, View, Splice;
    SpliceSplice(page, off, x, y);
    WriteTwice(s, pid, p, Splice(page, off, x), Splice(page, off, x + y));
  }

  lemma BytesUnfold(s: State, pid: nat, addr: nat, data: seq<Byte>)
    requires Inv(s) && AllMapped(s, pid, addr, |data|) && data != []
    ensures AllMapped(s, pid, addr, |data| - 1)
    ensures var n := |data| - 1;
            var s1 := WriteBytes(s, pid, addr, data[..n]);
            ByteMapped(s1, pid, addr + n) && WriteBytes(s, pid, addr, data) == WriteByte(s1, pid, addr + n, data[n])
  {
    hide Inv, WriteByte, SameForest;
    var n := |data| - 1;
    ByteStays(s, WriteBytes(s, pid, addr, data[..n]), pid, addr + n);
  }

  // The loop's chunks refine the plain meaning
  lemma {:induction false} ChunkIsBytes(s: State, pid: nat, addr: nat, data: seq<Byte>, chunk: seq<Byte>)
    requires Inv(s) && AllMapped(s, pid, addr, |data|) && Mapped(s, pid, (addr + |data|) / PAGE_SIZE)
    requires (addr + |data|) % PAGE_SIZE + |chunk| <= PAGE_SIZE && |chunk| > 0
    ensures AllMapped(s, pid, addr, |data + chunk|)
    ensures var s1 := WriteBytes(s, pid, addr, data);
            && Mapped(s1, pid, (addr + |data|) / PAGE_SIZE)
            && WriteChunk(s1, pid, addr + |data|, chunk) == WriteBytes(s, pid, addr, data + chunk)
    decreases |chunk|
  {
    var at, n := addr + |data|, |chunk| - 1;
    hide Inv, WriteChunk, WriteBytes, AllMapped, SameForest;
    RangeMapped(s, pid, addr, |data|, |chunk|);
    BytesUnfold(s, pid, addr, data + chunk);
    assert (data + chunk)[..|data| + n] == data + chunk[..n] && chunk == chunk[..n] + [chunk[n]];
    var s1 := WriteBytes(s, pid, addr, data);
    if n > 0 {
      ChunkIsBytes(s, pid, addr, data, chunk[..n]);
      ChunkSplit(s1, pid, at, chunk[..n], [chunk[n]]);
    } else {
      assert data + chunk[..n] == data && chunk == [chunk[n]];
    }
  }

  lemma RangeMapped(s: State, pid: nat, addr: nat, done: nat, n: nat)
    requires AllMapped(s, pid, addr, done) && Mapped(s, pid, (addr + done) / PAGE_SIZE)
    requires (addr + done) % PAGE_SIZE + n <= PAGE_SIZE
    ensures AllMapped(s, pid, addr, done + n)
  {
    forall b | addr <= b < addr + done + n
      ensures ByteMapped(s, pid, b)
    {
      if b >= addr + done {
        SamePage(addr + done, n, b);
      }
    }
  }

  // ---- what a write amounts to ----

  // Page p lies in the byte range
  predicate InPages(addr: nat, count: nat, p: nat) {
    addr / PAGE_SIZE <= p && p * PAGE_SIZE < addr + count
  }

  // Page p, if shared, is not mapped a second time, directly or at the
  // bottom of a private mapping
  ghost predicate Separate(s: State, pid: nat, p: nat) {
    Mapped(s, pid, p) && MappingAt(s, pid, p).shared ==>
      forall p': nat | p' != p && Mapped(s, pid, p') ::
        !(MappingAt(s, pid, p').page == MappingAt(s, pid, p).page
          && BottomOf(s.objs, MappingAt(s, pid, p').obj) == MappingAt(s, pid, p).obj)
  }

  ghost predicate SeparateRange(s: State, pid: nat, addr: nat, count: nat) {
    forall p: nat | InPages(addr, count, p) :: Separate(s, pid, p)
  }

  lemma SeparateStable(s: State, s': State, pid: nat, p: nat)
    requires s'.procs == s.procs && SameForest(s.objs, s'.objs) && Separate(s, pid, p)
    ensures Separate(s', pid, p)
  {
    if Mapped(s', pid, p) && MappingAt(s', pid, p).shared {
      forall p': nat | p' != p && Mapped(s', pid, p')
        ensures !(MappingAt(s', pid, p').page == MappingAt(s', pid, p).page
                  && BottomOf(s'.objs, MappingAt(s', pid, p').obj) == MappingAt(s', pid, p).obj)
      {
        assert Mapped(s, pid, p') && Mapped(s, pid, p);
      }
    }
  }

  // One chunk changes the bytes it covers and no other byte of the process
  lemma ChunkBytes(s: State, pid: nat, addr: nat, chunk: seq<Byte>, b: nat)
    requires Inv(s) && Mapped(s, pid, addr / PAGE_SIZE) && addr % PAGE_SIZE + |chunk| <= PAGE_SIZE
    requires Separate(s, pid, addr / PAGE_SIZE)
    ensures ByteAt(WriteChunk(s, pid, addr, chunk), pid, b) ==
            if addr <= b < addr + |chunk| then Some(chunk[b - addr]) else ByteAt(s, pid, b)
  {
    var p, off := addr / PAGE_SIZE, addr % PAGE_SIZE;
    var bytes := Splice(View(s, pid, p).value, off, chunk);
    OwnPageWrite(s, pid, p, bytes, b / PAGE_SIZE);
    if b / PAGE_SIZE == p {
      OtherPage(addr, |chunk|, b);
    } else {
      OffPage(addr, |chunk|, b);
    }
  }

  // Within the writing process a separate page changes alone
  lemma OwnPageWrite(s: State, pid: nat, p: nat, bytes: Page, p': nat)
    requires Inv(s) && Mapped(s, pid, p) && Separate(s, pid, p)
    ensures View(WritePage(s, pid, p, bytes), pid, p') == if p' == p then Some(bytes) else View(s, pid, p')
  {
    TargetFacts(s, pid, p);
    if MappingAt(s, pid, p).shared {
      SharedWrite(s, pid, p, bytes, pid, p');
      if Mapped(s, pid, p') {
        OwnerInChain(s.objs, MappingAt(s, pid, p').obj, MappingAt(s, pid, p).page);
      }
    } else {
      PrivateWrite(s, pid, p, bytes, pid, p');
    }
  }

  // ---- what others see of a write ----

  // What q sees on p' is the page that pid maps shared at p
  ghost predicate Shares(s: State, pid: nat, p: nat, q: nat, p': nat) {
    && Mapped(s, pid, p) && MappingAt(s, pid, p).shared && Mapped(s, q, p')
    && MappingAt(s, q, p').page == MappingAt(s, pid, p).page && OwnerAt(s, q, p') == MappingAt(s, pid, p).obj
  }

  // What q sees on p' is no page that pid maps shared in the range
  ghost predicate Unshared(s: State, pid: nat, addr: nat, count: nat, q: nat, p': nat) {
    forall p: nat | InPages(addr, count, p) :: !Shares(s, pid, p, q, p')
  }

  ghost predicate OwnerKept(s: State, s': State, q: nat, p': nat) {
    Mapped(s, q, p') ==> Mapped(s', q, p') && OwnerAt(s', q, p') == OwnerAt(s, q, p')
  }

  // Every page but those of the range itself, in any process, keeps its
  // owner, and its bytes too unless it shows a shared page of the range
  ghost predicate OthersSee(s: State, s': State, pid: nat, addr: nat, count: nat)
    requires s'.procs == s.procs
  {
    forall q, p': nat {:trigger View(s', q, p')} {:trigger OwnerKept(s, s', q, p')}
      | 0 <= q < |s.procs| && (q != pid || !InPages(addr, count, p')) ::
      OwnerKept(s, s', q, p') && (Unshared(s, pid, addr, count, q, p') ==> View(s', q, p') == View(s, q, p'))
  }

  // Bytes of the process: `data` at addr, everything else as it was
  ghost predicate BytesWritten(s: State, s': State, pid: nat, addr: nat, data: seq<Byte>)
    requires pid < |s.procs| && pid < |s'.procs|
  {
    forall b: nat ::
      ByteAt(s', pid, b) == if addr <= b < addr + |data| then Some(data[b - addr]) else ByteAt(s, pid, b)
  }

  // The state is that of storing the bytes one after the other, aliases and
  // all
  ghost predicate ByteByByte(s: State, s': State, pid: nat, addr: nat, data: seq<Byte>) {
    Inv(s) && AllMapped(s, pid, addr, |data|) && s' == WriteBytes(s, pid, addr, data)
  }

  // What storing `data` at addr amounts to: the bytes are there and no other
  // byte of the process changes, if shared pages in the range are mapped once;
  // and what all other pages of all processes show.
  ghost predicate Written(s: State, s': State, pid: nat, addr: nat, data: seq<Byte>)
    requires pid < |s.procs|
  {
    && Inv(s') && s'.procs == s.procs && SameForest(s.objs, s'.objs)
    && ByteByByte(s, s', pid, addr, data)
    && (SeparateRange(s, pid, addr, |data|) ==> BytesWritten(s, s', pid, addr, data))
    && OthersSee(s, s', pid, addr, |data|)
  }

  // Whoever shares a page of the writer sees after the write what the writer
  // sees there ...
  lemma SharerSees(s: State, s': State, pid: nat, addr: nat, data: seq<Byte>, p: nat, q: nat, p': nat)
    requires Inv(s) && pid < |s.procs| && Written(s, s', pid, addr, data)
    requires Shares(s, pid, p, q, p') && (q != pid || !InPages(addr, |data|, p'))
    ensures View(s', q, p') == View(s', pid, p)
  {
    TargetFacts(s, pid, p);
    assert OwnerKept(s, s', q, p');
  }

  // ... and nobody else notices anything; so a write to private pages only is
  // invisible to all other processes.
  lemma PrivateUnseen(s: State, s': State, pid: nat, addr: nat, data: seq<Byte>, q: nat, p': nat)
    requires pid < |s.procs| && Written(s, s', pid, addr, data) && q < |s.procs| && q != pid
    requires forall p: nat | InPages(addr, |data|, p) && Mapped(s, pid, p) :: !MappingAt(s, pid, p).shared
    ensures View(s', q, p') == View(s, q, p')
  {
    assert Unshared(s, pid, addr, |data|, q, p');
  }

  lemma WrittenNothing(s: State, pid: nat, addr: nat)
    requires Inv(s) && pid < |s.procs|
    ensures Written(s, s, pid, addr, [])
  {
  }

  // The next chunk continues the write
  lemma WrittenStep(s: State, s1: State, pid: nat, addr: nat, data: seq<Byte>, chunk: seq<Byte>)
    requires pid < |s.procs| && Written(s, s1, pid, addr, data)
    requires Mapped(s1, pid, (addr + |data|) / PAGE_SIZE)
    requires (addr + |data|) % PAGE_SIZE + |chunk| <= PAGE_SIZE && |chunk| > 0
    ensures Written(s, WriteChunk(s1, pid, addr + |data|, chunk), pid, addr, data + chunk)
  {
    hide Inv, OthersSee, BytesWritten, SeparateRange, WriteBytes, AllMapped;
    ChunkIsBytes(s, pid, addr, data, chunk);
    if SeparateRange(s, pid, addr, |data + chunk|) {
      ChunkWritten(s, s1, pid, addr, data, chunk);
    }
    ChunkOthers(s, s1, pid, addr, data, chunk);
  }

  lemma ChunkWritten(s: State, s1: State, pid: nat, addr: nat, data: seq<Byte>, chunk: seq<Byte>)
    requires pid < |s.procs| && Written(s, s1, pid, addr, data) && SeparateRange(s, pid, addr, |data + chunk|)
    requires Mapped(s1, pid, (addr + |data|) / PAGE_SIZE)
    requires (addr + |data|) % PAGE_SIZE + |chunk| <= PAGE_SIZE && |chunk| > 0
    ensures BytesWritten(s, WriteChunk(s1, pid, addr + |data|, chunk), pid, addr, data + chunk)
  {
    hide Inv, WriteChunk, ByteAt, OthersSee, Separate, SameForest, Mapped, ByteByByte;
    var at := addr + |data|;
    var s2 := WriteChunk(s1, pid, at, chunk);
    assert SeparateRange(s, pid, addr, |data|) && Separate(s, pid, at / PAGE_SIZE);
    SeparateStable(s, s1, pid, at / PAGE_SIZE);
    forall b: nat
      ensures ByteAt(s2, pid, b) ==
              if addr <= b < addr + |data + chunk| then Some((data + chunk)[b - addr]) else ByteAt(s, pid, b)
    {
      ChunkBytes(s1, pid, at, chunk, b);
    }
  }

  lemma ChunkOthers(s: State, s1: State, pid: nat, addr: nat, data: seq<Byte>, chunk: seq<Byte>)
    requires pid < |s.procs| && Written(s, s1, pid, addr, data)
    requires Mapped(s1, pid, (addr + |data|) / PAGE_SIZE)
    requires (addr + |data|) % PAGE_SIZE + |chunk| <= PAGE_SIZE && |chunk| > 0
    ensures OthersSee(s, WriteChunk(s1, pid, addr + |data|, chunk), pid, addr, |data + chunk|)
  {
    hide Inv, BytesWritten, SeparateRange, ByteByByte;
    var at := addr + |data|;
    var p0 := at / PAGE_SIZE;
    var s2 := WriteChunk(s1, pid, at, chunk);
    assert InPages(addr, |data + chunk|, p0);
    forall q, p': nat | 0 <= q < |s.procs| && (q != pid || !InPages(addr, |data + chunk|, p'))
      ensures OwnerKept(s, s2, q, p')
      ensures Unshared(s, pid, addr, |data + chunk|, q, p') ==> View(s2, q, p') == View(s, q, p')
    {
      assert OwnerKept(s, s1, q, p');
      ChunkElsewhere(s, s1, pid, at, chunk, q, p');
      if Unshared(s, pid, addr, |data + chunk|, q, p') {
        assert Unshared(s, pid, addr, |data|, q, p') && !Shares(s, pid, p0, q, p');
      }
    }
  }

  // What one chunk does to a page other than its own
  lemma ChunkElsewhere(s: State, s1: State, pid: nat, at: nat, chunk: seq<Byte>, q: nat, p': nat)
    requires Inv(s1) && s1.procs == s.procs && |s1.objs| == |s.objs|
    requires Mapped(s1, pid, at / PAGE_SIZE) && at % PAGE_SIZE + |chunk| <= PAGE_SIZE
    requires q < |s.procs| && (q != pid || p' != at / PAGE_SIZE) && OwnerKept(s, s1, q, p')
    ensures OwnerKept(s, WriteChunk(s1, pid, at, chunk), q, p')
    ensures !Shares(s, pid, at / PAGE_SIZE, q, p') ==> View(WriteChunk(s1, pid, at, chunk), q, p') == View(s1, q, p')
  {
    var p0 := at / PAGE_SIZE;
    var bytes := Splice(View(s1, pid, p0).value, at % PAGE_SIZE, chunk);
    if Mapped(s, q, p') {
      WriteKeepsOwner(s1, pid, p0, bytes, q, p');
    }
    if MappingAt(s1, pid, p0).shared {
      SharedWrite(s1, pid, p0, bytes, q, p');
    } else {
      PrivateWrite(s1, pid, p0, bytes, q, p');
    }
  }

  // Reading a range that was just written gives the written bytes
  lemma ReadBack(s: State, s': State, pid: nat, addr: nat, buf: seq<Byte>, data: seq<Byte>)
    requires pid < |s.procs| && Written(s, s', pid, addr, buf) && SeparateRange(s, pid, addr, |buf|)
    requires |data| == |buf| && ReadsAs(s', pid, addr, data)
    ensures data == buf
  {
    forall i | 0 <= i < |data|
      ensures data[i] == buf[i]
    {
      assert ByteAt(s', pid, addr + i) == Some(data[i]);
    }
  }
}
