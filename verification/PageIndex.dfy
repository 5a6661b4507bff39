/** Splitting a page number into five 9-bit table indices (`get_pd_from_address` and
    `get_pd_from_pagenum` of src/mm64.c, masks of include/mm64.h). */
module PageIndex {
  import opened Bits

  const TABLE_SIZE: nat := 512  // PAGING64_MAX_PGN

  const PGD_MASK: nat := 0x01FF_0000_0000_0000
  const P4D_MASK: nat := 0x0000_FF80_0000_0000
  const PUD_MASK: nat := 0x0000_007F_C000_0000
  const PMD_MASK: nat := 0x0000_0000_3FE0_0000
  const PT_MASK: nat := 0x0000_0000_001F_F000

  predicate ValidPath(path: seq<nat>) {
    |path| == 5 && forall k :: 0 <= k < 5 ==> path[k] < TABLE_SIZE
  }

  ghost predicate NineBits(mask: nat, lo: nat) {
    forall i: nat :: Bit(mask, i) <==> lo <= i <= lo + 8
  }

  lemma PowersUpTo57()
    ensures Pow2(0) == 1 && Pow2(9) == 512 && Pow2(12) == 0x1000 && Pow2(18) == 0x4_0000 && Pow2(21) == 0x20_0000
    ensures Pow2(27) == 0x800_0000 && Pow2(30) == 0x4000_0000 && Pow2(36) == 0x10_0000_0000
    ensures Pow2(39) == 0x80_0000_0000 && Pow2(45) == 0x2000_0000_0000 && Pow2(48) == 0x1_0000_0000_0000
  {
    assert Pow2(6) == 64;
    assert Pow2(9) == 8 * Pow2(6);
    assert Pow2(12) == 8 * Pow2(9);
    assert Pow2(15) == 8 * Pow2(12);
    assert Pow2(18) == 8 * Pow2(15);
    assert Pow2(21) == 8 * Pow2(18);
    assert Pow2(24) == 8 * Pow2(21);
    assert Pow2(27) == 8 * Pow2(24);
    assert Pow2(30) == 8 * Pow2(27);
    assert Pow2(33) == 8 * Pow2(30);
    assert Pow2(36) == 8 * Pow2(33);
    assert Pow2(39) == 8 * Pow2(36);
    assert Pow2(42) == 8 * Pow2(39);
    assert Pow2(45) == 8 * Pow2(42);
    assert Pow2(48) == 8 * Pow2(45);
  }

  lemma MaskNine(mask: nat, lo: nat)
    requires lo + 8 < 64 && mask == GenMask(64, lo + 8, lo)
    ensures NineBits(mask, lo)
  {
    forall i: nat ensures Bit(mask, i) <==> lo <= i <= lo + 8 {
      GenMaskBit(64, lo + 8, lo, i);
    }
  }

  /** The constants are what `GENMASK64` computes from the bit positions. */
  lemma AddressMasks()
    ensures PGD_MASK == GenMask(64, 56, 48) && P4D_MASK == GenMask(64, 47, 39) && PUD_MASK == GenMask(64, 38, 30)
    ensures PMD_MASK == GenMask(64, 29, 21) && PT_MASK == GenMask(64, 20, 12)
  {
    hide GenMask, Pow2;
    PowersUpTo57();
    GenMaskValue(64, 56, 48);
    GenMaskValue(64, 47, 39);
    GenMaskValue(64, 38, 30);
    GenMaskValue(64, 29, 21);
    GenMaskValue(64, 20, 12);
  }

  lemma AddressMaskBits()
    ensures NineBits(PGD_MASK, 48) && NineBits(P4D_MASK, 39) && NineBits(PUD_MASK, 30)
    ensures NineBits(PMD_MASK, 21) && NineBits(PT_MASK, 12)
  {
    hide GenMask, NineBits;
    AddressMasks();
    MaskNine(PGD_MASK, 48);
    MaskNine(P4D_MASK, 39);
    MaskNine(PUD_MASK, 30);
    MaskNine(PMD_MASK, 21);
    MaskNine(PT_MASK, 12);
  }

  lemma IndicesFit(addr: nat)
    ensures Shr(And(addr, PGD_MASK), 48) < TABLE_SIZE && Shr(And(addr, P4D_MASK), 39) < TABLE_SIZE
    ensures Shr(And(addr, PUD_MASK), 30) < TABLE_SIZE && Shr(And(addr, PMD_MASK), 21) < TABLE_SIZE
    ensures Shr(And(addr, PT_MASK), 12) < TABLE_SIZE
  {
    hide Pow2, And, Shr, Bit, NineBits;
    AddressMaskBits();
    IndexFits(addr, PGD_MASK, 48);
    IndexFits(addr, P4D_MASK, 39);
    IndexFits(addr, PUD_MASK, 30);
    IndexFits(addr, PMD_MASK, 21);
    IndexFits(addr, PT_MASK, 12);
  }

  lemma IndexFits(addr: nat, mask: nat, lo: nat)
    requires NineBits(mask, lo)
    ensures Shr(And(addr, mask), lo) < TABLE_SIZE
  {
    forall i: nat | i >= 9 ensures !Bit(Shr(And(addr, mask), lo), i) {
      ShrBit(And(addr, mask), lo, i);
      AndBit(addr, mask, i + lo);
    }
    HighBitsClear(Shr(And(addr, mask), lo), 9);
    PowersUpTo57();
  }

  /** The indices pgd, p4d, pud, pmd, pt of an address, outermost table first: every one is
      inside its table. */
  function PathOfAddress(addr: nat): (path: seq<nat>)
    ensures ValidPath(path)
  {
    IndicesFit(addr);
    [Shr(And(addr, PGD_MASK), 48), Shr(And(addr, P4D_MASK), 39), Shr(And(addr, PUD_MASK), 30),
     Shr(And(addr, PMD_MASK), 21), Shr(And(addr, PT_MASK), 12)]
  }

  /** `get_pd_from_pagenum`: the shift is done in a 64-bit word. */
  function Path(pgn: nat): (path: seq<nat>)
    ensures ValidPath(path)
  {
    PathOfAddress(Low(Shl(pgn, 12), 64))
  }

  /** One index is nine bits of the page number: bits lo-12 and up. */
  lemma OneIndex(pgn: nat, mask: nat, lo: nat)
    requires 12 <= lo <= 48 && NineBits(mask, lo)
    ensures var idx := Shr(And(Low(Shl(pgn, 12), 64), mask), lo);
            (forall i: nat :: Bit(idx, i) <==> i <= 8 && Bit(pgn, i + (lo - 12)))
            && idx == (pgn / Pow2(lo - 12)) % Pow2(9)
  {
    hide Pow2, And, Low, Shl, Shr, Bit;
    var addr := Low(Shl(pgn, 12), 64);
    var idx := Shr(And(addr, mask), lo);
    forall i: nat ensures Bit(idx, i) <==> i <= 8 && Bit(pgn, i + (lo - 12)) {
      ShrBit(And(addr, mask), lo, i);
      AndBit(addr, mask, i + lo);
      LowBit(Shl(pgn, 12), 64, i + lo);
      ShlBit(pgn, 12, i + lo);
    }
    forall i: nat ensures Bit(idx, i) == Bit(Low(Shr(pgn, lo - 12), 9), i) {
      LowBit(Shr(pgn, lo - 12), 9, i);
      ShrBit(pgn, lo - 12, i);
    }
    Extensionality(idx, Low(Shr(pgn, lo - 12), 9));
    LowIsMod(Shr(pgn, lo - 12), 9);
    ShrIsDiv(pgn, lo - 12);
  }

  /** The five indices are the five base-512 digits of the page number. */
  lemma PathDigits(pgn: nat)
    ensures Path(pgn) == [(pgn / 0x10_0000_0000) % 512, (pgn / 0x800_0000) % 512, (pgn / 0x4_0000) % 512,
                          (pgn / 512) % 512, pgn % 512]
  {
    hide Pow2, And, Low, Shl, Shr, Bit, NineBits;
    AddressMaskBits();
    PowersUpTo57();
    OneIndex(pgn, PGD_MASK, 48);
    OneIndex(pgn, P4D_MASK, 39);
    OneIndex(pgn, PUD_MASK, 30);
    OneIndex(pgn, PMD_MASK, 21);
    OneIndex(pgn, PT_MASK, 12);
  }

  const PAGES: nat := 0x2000_0000_0000  // 2^45

  /** The page number with the given indices. */
  function PageOf(path: seq<nat>): nat
    requires ValidPath(path)
  {
    (((path[0] * 512 + path[1]) * 512 + path[2]) * 512 + path[3]) * 512 + path[4]
  }

  lemma DigitsOf(pgn: nat)
    ensures PageOf(Path(pgn)) == pgn % PAGES
  {
    hide Path;
    PathDigits(pgn);
    var d1, e0 := pgn / 512, pgn % 512;
    var d2, e1 := d1 / 512, d1 % 512;
    var d3, e2 := d2 / 512, d2 % 512;
    var d4, e3 := d3 / 512, d3 % 512;
    var d5, e4 := d4 / 512, d4 % 512;
    DivModUnique(pgn, 0x4_0000, d2, e1 * 512 + e0);
    DivModUnique(pgn, 0x800_0000, d3, (e2 * 512 + e1) * 512 + e0);
    DivModUnique(pgn, 0x10_0000_0000, d4, ((e3 * 512 + e2) * 512 + e1) * 512 + e0);
    DivModUnique(pgn, PAGES, d5, (((e4 * 512 + e3) * 512 + e2) * 512 + e1) * 512 + e0);
  }

  lemma EveryPathIsAPage(path: seq<nat>)
    requires ValidPath(path)
    ensures PageOf(path) < PAGES && Path(PageOf(path)) == path
  {
    hide Path;
    var p1 := path[0] * 512 + path[1];
    var p2 := p1 * 512 + path[2];
    var p3 := p2 * 512 + path[3];
    var pgn := PageOf(path);
    assert pgn == p3 * 512 + path[4];
    PathDigits(pgn);
    DivModUnique(pgn, 512, p3, path[4]);
    DivModUnique(pgn, 0x4_0000, p2, path[3] * 512 + path[4]);
    DivModUnique(pgn, 0x800_0000, p1, (path[2] * 512 + path[3]) * 512 + path[4]);
    DivModUnique(pgn, 0x10_0000_0000, path[0], ((path[1] * 512 + path[2]) * 512 + path[3]) * 512 + path[4]);
    DivModUnique(p3, 512, p2, path[3]);
    DivModUnique(p2, 512, p1, path[2]);
    DivModUnique(p1, 512, path[0], path[1]);
  }

  /** Page numbers below 2^45 and index paths correspond one to one. Above that, two page
      numbers share a path exactly when they agree modulo 2^45. */
  lemma PathsAreBijective(p: nat, q: nat)
    ensures Path(p) == Path(q) <==> p % PAGES == q % PAGES
    ensures p < PAGES && q < PAGES ==> (Path(p) == Path(q) <==> p == q)
  {
    hide Path, PageOf, ValidPath;
    DigitsOf(p);
    DigitsOf(q);
    EveryPathIsAPage(Path(p));
    EveryPathIsAPage(Path(q));
  }
}
