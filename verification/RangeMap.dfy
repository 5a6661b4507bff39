/** Mapping a run of pages to a chain of frames: `vmap_page_range` of src/mm64.c. */
module RangeMap {
  import opened Bits
  import opened PageEntry
  import opened PageIndex
  import opened PageTable
  import opened PageFifo
  import opened Regions
  import opened Sequences
  import Frames

  const PAGE_SIZE: nat := 4096

  /** The page number of iteration i: 64-bit address arithmetic, then a shift. */
  function PageAt(addr: nat, i: nat): nat {
    Shr((addr + i * PAGE_SIZE) % WORD, 12)
  }

  function PagesFrom(addr: nat, m: nat): (pages: seq<nat>)
    ensures |pages| == m && forall i :: 0 <= i < m ==> pages[i] == PageAt(addr, i)
  {
    seq(m, i requires 0 <= i => PageAt(addr, i))
  }

  /** The entries after mapping the first m pages, one after the other. */
  ghost function MapFirst(flat: Flat, addr: nat, fpns: seq<nat>, m: nat): (r: Flat)
    requires m <= |fpns| && forall path :: path in flat <==> ValidPath(path)
    ensures forall path :: path in r <==> ValidPath(path)
  {
    if m == 0 then flat
    else
      var before := MapFirst(flat, addr, fpns, m - 1);
      var path := Path(PageAt(addr, m - 1));
      before[path := WithFrame(before[path], fpns[m - 1])]
  }

  /** What the first m iterations have done to the entries, the page list and the region. */
  ghost predicate Mapped(flat0: Flat, flat: Flat, pages0: seq<nat>, pages: seq<nat>, rg: Region,
                         addr: nat, fpns: seq<nat>, m: nat)
  {
    && m <= |fpns| && (forall path :: path in flat0 <==> ValidPath(path))
    && flat == MapFirst(flat0, addr, fpns, m)
    && pages == Reverse(PagesFrom(addr, m)) + pages0
    && rg == Region(addr, (addr + PAGE_SIZE * m) % WORD)
  }

  lemma MappedNone(flat: Flat, pages: seq<nat>, addr: nat, fpns: seq<nat>)
    requires addr < WORD && forall path :: path in flat <==> ValidPath(path)
    ensures Mapped(flat, flat, pages, pages, Region(addr, addr), addr, fpns, 0)
  {
    assert PagesFrom(addr, 0) == [];
  }

  lemma MappedNext(flat0: Flat, flat: Flat, pages0: seq<nat>, pages: seq<nat>, rg: Region,
                   addr: nat, fpns: seq<nat>, m: nat)
    requires Mapped(flat0, flat, pages0, pages, rg, addr, fpns, m) && m < |fpns|
    ensures var path := Path(PageAt(addr, m));
            path in flat &&
            Mapped(flat0, flat[path := WithFrame(flat[path], fpns[m])], pages0, [PageAt(addr, m)] + pages,
                   Region(addr, (rg.end + PAGE_SIZE) % WORD), addr, fpns, m + 1)
  {
    hide PageAt, Path, WithFrame, PagesFrom, Reverse;
    PagesNext(addr, m);
    var front, before := [PageAt(addr, m)], Reverse(PagesFrom(addr, m));
    assert front + (before + pages0) == front + before + pages0;
    EndNext(addr, m);
  }

  lemma PagesNext(addr: nat, m: nat)
    ensures Reverse(PagesFrom(addr, m + 1)) == [PageAt(addr, m)] + Reverse(PagesFrom(addr, m))
  {
    hide PageAt, Reverse;
    assert PagesFrom(addr, m + 1) == PagesFrom(addr, m) + [PageAt(addr, m)];
    ReverseAppend(PagesFrom(addr, m), PageAt(addr, m));
  }

  lemma EndNext(addr: nat, m: nat)
    ensures ((addr + PAGE_SIZE * m) % WORD + PAGE_SIZE) % WORD == (addr + PAGE_SIZE * (m + 1)) % WORD
  {
  }

  /** One iteration: set the entry, then put the page on the list. */
  method MapOne(mm: AddressSpace, fifo: PageList, pgn: nat, fpn: nat)
    requires mm.Valid() && fifo.Valid()
    modifies mm`tables, mm.tables.Values, fifo
    ensures mm.Valid() && fifo.Valid() && mm.Grows()
    ensures mm.Entries() == old(mm.Entries())[Path(pgn) := WithFrame(old(mm.Entries()[Path(pgn)]), fpn)]
    ensures fifo.pages == [pgn] + old(fifo.pages)
  {
    hide Path, WithFrame, AddressSpace.Valid, AddressSpace.Entries, PageList.Valid;
    mm.PteSetFpn(pgn, fpn);
    fifo.Enlist(pgn);
  }

  /** One iteration, with the region it extends. */
  method MapNext(mm: AddressSpace, fifo: PageList, addr: nat, pgit: nat, fpn: nat, rg: Region,
                 ghost flat0: Flat, ghost pages0: seq<nat>, ghost fpns: seq<nat>)
    returns (retRg: Region)
    requires mm.Valid() && fifo.Valid() && pgit < |fpns| && fpn == fpns[pgit] && rg.start == addr
    requires Mapped(flat0, mm.Entries(), pages0, fifo.pages, rg, addr, fpns, pgit)
    modifies mm`tables, mm.tables.Values, fifo
    ensures mm.Valid() && fifo.Valid() && mm.Grows() && retRg.start == addr
    ensures Mapped(flat0, mm.Entries(), pages0, fifo.pages, retRg, addr, fpns, pgit + 1)
  {
    hide Path, WithFrame, PageAt, Mapped, MapFirst, PagesFrom, Reverse;
    hide AddressSpace.Valid, AddressSpace.Entry, AddressSpace.Entries, PageList.Valid, PageList.At;
    MappedNext(flat0, mm.Entries(), pages0, fifo.pages, rg, addr, fpns, pgit);
    MapOne(mm, fifo, PageAt(addr, pgit), fpn);
    retRg := Region(rg.start, (rg.end + PAGE_SIZE) % WORD);
  }

  lemma MappedIs(flat0: Flat, flat: Flat, pages0: seq<nat>, pages: seq<nat>, rg: Region,
                 addr: nat, fpns: seq<nat>, m: nat)
    requires Mapped(flat0, flat, pages0, pages, rg, addr, fpns, m)
    ensures m <= |fpns| && (forall path :: path in flat0 <==> ValidPath(path))
    ensures flat == MapFirst(flat0, addr, fpns, m) && pages == Reverse(PagesFrom(addr, m)) + pages0
    ensures rg == Region(addr, (addr + 4096 * m) % 0x1_0000_0000_0000_0000)
  {
  }

  /** `vmap_page_range`: the first m pages from `addr` get the frames in order, go on the page
      list in reverse order, and make up the region, m being the smaller of `pgnum`, as long
      as that is positive, and the number of frames. */
  method VmapPageRange(mm: AddressSpace, fifo: PageList, addr: nat, pgnum: int, frames: Frames.FrameNode?,
                       ghost nodes: seq<Frames.FrameNode>, ghost fpns: seq<nat>)
    returns (retRg: Region)
    requires mm.Valid() && fifo.Valid() && Frames.Chain(frames, nodes, fpns)
    requires addr < 0x1_0000_0000_0000_0000
    modifies mm`tables, mm.tables.Values, fifo
    ensures mm.Valid() && fifo.Valid()
    ensures var m: nat := if pgnum <= 0 then 0 else if pgnum <= |fpns| then pgnum else |fpns|;
            && mm.Entries() == MapFirst(old(mm.Entries()), addr, fpns, m)
            && fifo.pages == Reverse(PagesFrom(addr, m)) + old(fifo.pages)
            && retRg == Region(addr, (addr + 4096 * m) % 0x1_0000_0000_0000_0000)
  {
    hide Frames.Chain, Path, WithFrame, PageAt, Mapped, MapFirst, PagesFrom, Reverse;
    hide AddressSpace.Valid, AddressSpace.Entry, AddressSpace.Entries;
    hide PageList.Valid, PageList.At;
    MappedNone(mm.Entries(), fifo.pages, addr, fpns);
    ghost var t0, flat0, pages0 := mm.tables, mm.Entries(), fifo.pages;
    retRg := Region(addr, addr);
    var fpit := frames;
    var pgit := 0;
    Frames.ChainAt(frames, nodes, fpns, 0);
    while pgit < pgnum && fpit != null
      invariant 0 <= pgit <= |fpns| && (pgit <= pgnum || pgit == 0) && fpit == Frames.At(nodes, pgit)
      invariant mm.Valid() && fifo.Valid() && Frames.Chain(frames, nodes, fpns)
      invariant forall p <- mm.tables :: (p in t0 && mm.tables[p] == t0[p]) || fresh(mm.tables[p])
      invariant retRg.start == addr && Mapped(flat0, mm.Entries(), pages0, fifo.pages, retRg, addr, fpns, pgit)
      decreases |fpns| - pgit
    {
      Frames.ChainAt(frames, nodes, fpns, pgit);
      retRg := MapNext(mm, fifo, addr, pgit, fpit.fpn, retRg, flat0, pages0, fpns);
      fpit := fpit.next;
      pgit := pgit + 1;
    }
    Frames.ChainAt(frames, nodes, fpns, pgit);
    MappedIs(flat0, mm.Entries(), pages0, fifo.pages, retRg, addr, fpns, pgit);
  }

  // ---- What the range mapping does to every page ----

  lemma PageAtValue(addr: nat, i: nat)
    ensures PageAt(addr, i) % PAGES == (addr / 4096 + i) % PAGES
    ensures addr + i * 4096 < 0x1_0000_0000_0000_0000 ==> PageAt(addr, i) == addr / 4096 + i
  {
    hide Shr, Pow2;
    var cur := (addr + i * PAGE_SIZE) % WORD;
    ShrIsDiv(cur, 12);
    PowersUpTo57();
    var wraps := (addr + i * PAGE_SIZE) / WORD;
    var pages := WORD / PAGE_SIZE;
    assert addr + i * PAGE_SIZE == WORD * wraps + cur;
    DivModUnique(cur, PAGE_SIZE, addr / PAGE_SIZE + i - pages * wraps, addr % PAGE_SIZE);
    assert addr / PAGE_SIZE + i == PageAt(addr, i) + PAGES * (128 * wraps);
    DivModUnique(addr / PAGE_SIZE + i, PAGES, PageAt(addr, i) / PAGES + 128 * wraps, PageAt(addr, i) % PAGES);
  }

  lemma PagesAreDistinct(addr: nat, i: nat, j: nat)
    requires i < j < i + PAGES
    ensures Path(PageAt(addr, i)) != Path(PageAt(addr, j))
  {
    hide Path, PageAt;
    PageAtValue(addr, i);
    PageAtValue(addr, j);
    PathsAreBijective(PageAt(addr, i), PageAt(addr, j));
  }

  lemma {:induction false} MapsInside(flat: Flat, addr: nat, fpns: seq<nat>, m: nat, i: nat)
    requires i < m <= |fpns| && m <= PAGES && forall path :: path in flat <==> ValidPath(path)
    ensures MapFirst(flat, addr, fpns, m)[Path(PageAt(addr, i))] == WithFrame(flat[Path(PageAt(addr, i))], fpns[i])
  {
    hide Path, PageAt, WithFrame;
    if i == m - 1 {
      forall j | 0 <= j < i ensures Path(PageAt(addr, i)) != Path(PageAt(addr, j)) {
        PagesAreDistinct(addr, j, i);
      }
      MapsOutside(flat, addr, fpns, i, Path(PageAt(addr, i)));
    } else {
      PagesAreDistinct(addr, i, m - 1);
      MapsInside(flat, addr, fpns, m - 1, i);
    }
  }

  lemma {:induction false} MapsOutside(flat: Flat, addr: nat, fpns: seq<nat>, m: nat, path: seq<nat>)
    requires m <= |fpns| && ValidPath(path) && forall p :: p in flat <==> ValidPath(p)
    requires forall i | 0 <= i < m :: path != Path(PageAt(addr, i))
    ensures MapFirst(flat, addr, fpns, m)[path] == flat[path]
  {
    hide Path, PageAt, WithFrame;
    if m == 0 {
    } else {
      MapsOutside(flat, addr, fpns, m - 1, path);
    }
  }

  /** Range mapping: the i-th page of the range gets the i-th frame, for every i, and no
      page outside the range changes. */
  lemma RangeIsMapped(flat: Flat, addr: nat, fpns: seq<nat>, m: nat)
    requires m <= |fpns| && m <= PAGES && forall path :: path in flat <==> ValidPath(path)
    ensures forall i | 0 <= i < m ::
              MapFirst(flat, addr, fpns, m)[Path(PageAt(addr, i))] == WithFrame(flat[Path(PageAt(addr, i))], fpns[i])
    ensures forall path | ValidPath(path) && (forall i | 0 <= i < m :: path != Path(PageAt(addr, i))) ::
              MapFirst(flat, addr, fpns, m)[path] == flat[path]
  {
    hide Path, PageAt, WithFrame, MapFirst;
    forall i | 0 <= i < m
      ensures MapFirst(flat, addr, fpns, m)[Path(PageAt(addr, i))] == WithFrame(flat[Path(PageAt(addr, i))], fpns[i])
    {
      MapsInside(flat, addr, fpns, m, i);
    }
    forall path | ValidPath(path) && (forall i | 0 <= i < m :: path != Path(PageAt(addr, i)))
      ensures MapFirst(flat, addr, fpns, m)[path] == flat[path]
    {
      MapsOutside(flat, addr, fpns, m, path);
    }
  }

  /** Read back through the entry: page addr/4096 + i is present, not swapped, in frame i. */
  lemma RangeDecodes(flat: Flat, addr: nat, fpns: seq<nat>, m: nat, i: nat)
    requires i < m <= |fpns| && m <= PAGES && forall path :: path in flat <==> ValidPath(path)
    requires addr + i * 4096 < 0x1_0000_0000_0000_0000
    ensures var e := MapFirst(flat, addr, fpns, m)[Path(addr / 4096 + i)];
            Present(e) && !Swapped(e) && Frame(e) == fpns[i] % 0x2000 && (Frame(e) == fpns[i] <==> fpns[i] < 0x2000)
  {
    hide Path, WithFrame, Present, Swapped, Frame, Low;
    RangeIsMapped(flat, addr, fpns, m);
    PageAtValue(addr, i);
    FrameDecodes(flat[Path(PageAt(addr, i))], fpns[i]);
    LowValue(fpns[i]);
  }
}
