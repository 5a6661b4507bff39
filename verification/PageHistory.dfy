/** Whole runs of page-table accesses over the flat view: each page reads back its last
    setting, whatever happened to the other pages. */
module PageHistory {
  import opened Bits
  import opened PageEntry
  import opened PageIndex
  import opened PageTable

  datatype Setting = InFrame(fpn: nat) | InSwap(swptyp: int, swpoff: nat) | Raw(value: nat)

  function Written(before: nat, s: Setting): nat {
    match s
    case InFrame(fpn) => WithFrame(before, fpn)
    case InSwap(t, o) => WithSwap(before, AsUnsigned(t), o)
    case Raw(v) => v
  }

  datatype Access = Get(pgn: nat) | Set(pgn: nat, setting: Setting)

  ghost predicate Total(flat: Flat) {
    forall path :: path in flat <==> ValidPath(path)
  }

  ghost function Step(flat: Flat, a: Access): (r: Flat)
    requires Total(flat)
    ensures Total(r)
  {
    match a
    case Get(_) => flat
    case Set(p, s) => flat[Path(p) := Written(flat[Path(p)], s)]
  }

  ghost function Run(flat: Flat, accesses: seq<Access>): (r: Flat)
    requires Total(flat)
    ensures Total(r)
  {
    if accesses == [] then flat
    else
      var n := |accesses| - 1;
      Step(Run(flat, accesses[..n]), accesses[n])
  }

  /** The position just after the last setting of a page, 0 if it was never set. Page
      numbers count modulo 2^45. */
  function LastSet(accesses: seq<Access>, page: nat): (k: nat)
    ensures k <= |accesses|
    ensures k > 0 ==> accesses[k - 1].Set? && accesses[k - 1].pgn % PAGES == page % PAGES
    ensures forall i | k <= i < |accesses| && accesses[i].Set? :: accesses[i].pgn % PAGES != page % PAGES
  {
    if accesses == [] then 0
    else
      var n := |accesses| - 1;
      if accesses[n].Set? && accesses[n].pgn % PAGES == page % PAGES then n + 1
      else LastSet(accesses[..n], page)
  }

  /** A page's entry is what its last setting made of the entry it had then. */
  lemma {:induction false} LastSettingDecides(flat: Flat, accesses: seq<Access>, page: nat)
    requires Total(flat)
    ensures var k := LastSet(accesses, page);
            Run(flat, accesses)[Path(page)] ==
            if k == 0 then flat[Path(page)]
            else Written(Run(flat, accesses[..k - 1])[Path(page)], accesses[k - 1].setting)
  {
    hide Path, Written;
    if accesses == [] {
    } else {
      var n := |accesses| - 1;
      PathsAreBijective(accesses[n].pgn, page);
      LastSettingDecides(flat, accesses[..n], page);
      var k := LastSet(accesses, page);
      if 0 < k <= n {
        assert accesses[..n][..k - 1] == accesses[..k - 1];
      }
    }
  }

  /** So after any run each page decodes to its last setting: a frame setting gives present,
      not swapped and that frame; a swap setting gives present, swapped, that type and
      offset; of values too wide for their field the low 13, 5 and 21 bits remain. A type is
      an int, of which a negative one counts in two's complement. The 32 bits that
      `pte_get_entry` returns are the whole entry. */
  lemma DecodesToLastSetting(flat: Flat, accesses: seq<Access>, page: nat)
    requires Total(flat) && LastSet(accesses, page) > 0
    ensures var e := Run(flat, accesses)[Path(page)];
            match accesses[LastSet(accesses, page) - 1].setting
            case InFrame(f) => Present(e) && !Swapped(e) && Frame(e) == f % 0x2000 && Low(e, 32) == e
            case InSwap(t, o) => Present(e) && Swapped(e) && SwapType(e) == t % 32
              && (0 <= t < 32 ==> SwapType(e) == t) && SwapOffset(e) == o % 0x20_0000 && Low(e, 32) == e
            case Raw(v) => e == v
  {
    hide Path, WithFrame, WithSwap, Present, Swapped, Frame, SwapType, SwapOffset, Low, Run, Pow2;
    LastSettingDecides(flat, accesses, page);
    var k := LastSet(accesses, page);
    var before := Run(flat, accesses[..k - 1])[Path(page)];
    BelowPow2(Run(flat, accesses)[Path(page)], 32);
    PowersOfTwo();
    match accesses[k - 1].setting {
      case InFrame(f) =>
        FrameDecodes(before, f);
        LowValue(f);
      case InSwap(t, o) =>
        SwapDecodes(before, AsUnsigned(t), o);
        LowValue(AsUnsigned(t));
        LowValue(o);
        UnsignedType(t);
      case Raw(v) =>
    }
  }

  lemma RunNext(flat: Flat, accesses: seq<Access>, k: nat)
    requires Total(flat) && k < |accesses|
    ensures Run(flat, accesses[..k + 1]) == Step(Run(flat, accesses[..k]), accesses[k])
  {
    assert accesses[..k + 1][..k] == accesses[..k];
  }

  /** One access to the tree. */
  method Do(mm: AddressSpace, a: Access)
    requires mm.Valid()
    modifies mm`tables, mm.tables.Values
    ensures mm.Valid() && mm.Grows() && mm.Entries() == Step(old(mm.Entries()), a)
  {
    hide Path, WithFrame, WithSwap, AddressSpace.Valid, AddressSpace.Entry;
    match a
    case Get(p) => var pte := mm.ReadEntry(p);
    case Set(p, s) =>
      match s {
        case InFrame(fpn) => mm.PteSetFpn(p, fpn);
        case InSwap(t, o) => mm.PteSetSwap(p, t, o);
        case Raw(v) => mm.PteSetEntry(p, v);
      }
  }

  /** Any sequence of accesses to the tree is the run on the flat view. */
  method Perform(mm: AddressSpace, accesses: seq<Access>)
    requires mm.Valid()
    modifies mm`tables, mm.tables.Values
    ensures mm.Valid() && mm.Entries() == Run(old(mm.Entries()), accesses)
  {
    hide Step, Run, AddressSpace.Valid, AddressSpace.Entry, AddressSpace.Entries;
    ghost var t0, flat0 := mm.tables, mm.Entries();
    assert accesses[..0] == [] && Run(flat0, []) == flat0 by { RunNone(flat0); }
    for i := 0 to |accesses|
      invariant mm.Valid() && mm.Entries() == Run(flat0, accesses[..i])
      invariant forall p <- mm.tables :: (p in t0 && mm.tables[p] == t0[p]) || fresh(mm.tables[p])
    {
      Do(mm, accesses[i]);
      RunNext(flat0, accesses, i);
    }
    assert accesses[..|accesses|] == accesses;
  }

  lemma RunNone(flat: Flat)
    requires Total(flat)
    ensures Run(flat, []) == flat
  {
  }
}
