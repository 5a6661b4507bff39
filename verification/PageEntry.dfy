/** The bit layout of a page table entry (include/mm.h) and the two ways
    src/mm64.c writes one. Frame and swap fields overlap in the low bits. */
module PageEntry {
  import opened Bits

  const PRESENT_BIT := 31
  const SWAPPED_BIT := 30

  // The masks are 32-bit unsigned values while an entry is stored in 64 bits, so
  // `v & ~mask` also clears the upper half of the entry. KEEP_x is `~x`.
  const PRESENT: nat := 0x8000_0000
  const SWAPPED: nat := 0x4000_0000
  const KEEP_SWAPPED: nat := 0xBFFF_FFFF
  const FPN_MASK: nat := 0x0000_1FFF
  const KEEP_FPN: nat := 0xFFFF_E000
  const SWPTYP_MASK: nat := 0x0000_001F
  const KEEP_SWPTYP: nat := 0xFFFF_FFE0
  const SWPOFF_MASK: nat := 0x03FF_FFE0
  const KEEP_SWPOFF: nat := 0xFC00_001F

  /** `SETVAL`: the bits of `value << lo` under the mask, the other bits of v kept. */
  function SetField(v: nat, value: nat, mask: nat, keep: nat, lo: nat): nat {
    Or(And(v, keep), And(Low(Shl(value, lo), 64), mask))
  }

  /** `GETVAL`. */
  function GetField(v: nat, mask: nat, lo: nat): nat {
    Shr(And(v, mask), lo)
  }

  function WithFrame(v: nat, fpn: nat): nat {
    SetField(And(Or(v, PRESENT), KEEP_SWAPPED), fpn, FPN_MASK, KEEP_FPN, 0)
  }

  function WithSwap(v: nat, swptyp: nat, swpoff: nat): nat {
    SetField(SetField(Or(Or(v, PRESENT), SWAPPED), swptyp, SWPTYP_MASK, KEEP_SWPTYP, 0),
             swpoff, SWPOFF_MASK, KEEP_SWPOFF, 5)
  }

  /** A C int as an unsigned 32-bit word. */
  function AsUnsigned(x: int): nat { x % 0x1_0000_0000 }

  predicate Present(v: nat) { And(v, PRESENT) != 0 }

  predicate Swapped(v: nat) { And(v, SWAPPED) != 0 }

  function Frame(v: nat): nat { GetField(v, FPN_MASK, 0) }

  function SwapType(v: nat): nat { GetField(v, SWPTYP_MASK, 0) }

  function SwapOffset(v: nat): nat { GetField(v, SWPOFF_MASK, 5) }

  /** The constants are what the macros of include/bitops.h and include/mm.h compute. */
  lemma FlagMasks()
    ensures PRESENT == OneBit(PRESENT_BIT) && SWAPPED == OneBit(SWAPPED_BIT)
    ensures KEEP_SWAPPED == Not(SWAPPED, 32)
  {
    hide Shl, Not, Pow2;
    PowersOfTwo();
    ShlValue(1, PRESENT_BIT);
    ShlValue(1, SWAPPED_BIT);
    NotValue(SWAPPED, 32);
  }

  lemma FrameMasks()
    ensures FPN_MASK == GenMask(32, 12, 0) && KEEP_FPN == Not(FPN_MASK, 32)
  {
    hide GenMask, Not, Pow2;
    PowersOfTwo();
    GenMaskValue(32, 12, 0);
    NotValue(FPN_MASK, 32);
  }

  lemma SwapTypeMasks()
    ensures SWPTYP_MASK == GenMask(32, 4, 0) && KEEP_SWPTYP == Not(SWPTYP_MASK, 32)
  {
    hide GenMask, Not, Pow2;
    PowersOfTwo();
    GenMaskValue(32, 4, 0);
    NotValue(SWPTYP_MASK, 32);
  }

  lemma SwapOffsetMasks()
    ensures SWPOFF_MASK == GenMask(32, 25, 5) && KEEP_SWPOFF == Not(SWPOFF_MASK, 32)
  {
    hide GenMask, Not, Pow2;
    PowersOfTwo();
    GenMaskValue(32, 25, 5);
    NotValue(SWPOFF_MASK, 32);
  }

  ghost predicate Covers(mask: nat, keep: nat, hi: nat, lo: nat) {
    forall i: nat :: (Bit(mask, i) <==> lo <= i <= hi) && (Bit(keep, i) <==> i < 32 && !(lo <= i <= hi))
  }

  lemma MaskCovers(mask: nat, keep: nat, hi: nat, lo: nat)
    requires lo <= hi < 32 && mask == GenMask(32, hi, lo) && keep == Not(mask, 32)
    ensures Covers(mask, keep, hi, lo)
  {
    forall i: nat ensures (Bit(mask, i) <==> lo <= i <= hi) && (Bit(keep, i) <==> i < 32 && !(lo <= i <= hi)) {
      GenMaskBit(32, hi, lo, i);
      NotBit(mask, 32, i);
    }
  }

  lemma FrameCovers()
    ensures Covers(FPN_MASK, KEEP_FPN, 12, 0)
  {
    hide GenMask, Not, Covers;
    FrameMasks();
    MaskCovers(FPN_MASK, KEEP_FPN, 12, 0);
  }

  lemma SwapTypeCovers()
    ensures Covers(SWPTYP_MASK, KEEP_SWPTYP, 4, 0)
  {
    hide GenMask, Not, Covers;
    SwapTypeMasks();
    MaskCovers(SWPTYP_MASK, KEEP_SWPTYP, 4, 0);
  }

  lemma SwapOffsetCovers()
    ensures Covers(SWPOFF_MASK, KEEP_SWPOFF, 25, 5)
  {
    hide GenMask, Not, Covers;
    SwapOffsetMasks();
    MaskCovers(SWPOFF_MASK, KEEP_SWPOFF, 25, 5);
  }

  lemma FlagBits(i: nat)
    ensures Bit(PRESENT, i) <==> i == PRESENT_BIT
    ensures Bit(SWAPPED, i) <==> i == SWAPPED_BIT
    ensures Bit(KEEP_SWAPPED, i) <==> i < 32 && i != SWAPPED_BIT
  {
    hide OneBit, Not;
    FlagMasks();
    OneBitBit(PRESENT_BIT, i);
    OneBitBit(SWAPPED_BIT, i);
    NotBit(SWAPPED, 32, i);
  }

  lemma TestBit(v: nat, mask: nat, b: nat)
    requires forall i: nat :: Bit(mask, i) <==> i == b
    ensures And(v, mask) != 0 <==> Bit(v, b)
  {
    AndBit(v, mask, b);
    ZeroBit(b);
    if !Bit(v, b) {
      forall i: nat ensures Bit(And(v, mask), i) == Bit(0, i) {
        AndBit(v, mask, i);
        ZeroBit(i);
      }
      Extensionality(And(v, mask), 0);
    }
  }

  lemma FlagsRead(e: nat)
    ensures Present(e) <==> Bit(e, PRESENT_BIT)
    ensures Swapped(e) <==> Bit(e, SWAPPED_BIT)
  {
    forall i: nat {
      FlagBits(i);
    }
    TestBit(e, PRESENT, PRESENT_BIT);
    TestBit(e, SWAPPED, SWAPPED_BIT);
  }

  lemma SetFieldBit(v: nat, value: nat, mask: nat, keep: nat, hi: nat, lo: nat, i: nat)
    requires lo <= hi < 32 && Covers(mask, keep, hi, lo)
    ensures Bit(SetField(v, value, mask, keep, lo), i) <==>
            if lo <= i <= hi then Bit(value, i - lo) else i < 32 && Bit(v, i)
  {
    OrBit(And(v, keep), And(Low(Shl(value, lo), 64), mask), i);
    AndBit(v, keep, i);
    AndBit(Low(Shl(value, lo), 64), mask, i);
    LowBit(Shl(value, lo), 64, i);
    ShlBit(value, lo, i);
  }

  /** A field reads back the value whose bits it holds, exactly when that value fits. */
  lemma FieldRead(v: nat, mask: nat, keep: nat, hi: nat, lo: nat, value: nat)
    requires lo <= hi < 32 && Covers(mask, keep, hi, lo)
    requires forall i: nat :: i <= hi - lo ==> Bit(v, i + lo) == Bit(value, i)
    ensures GetField(v, mask, lo) == Low(value, hi - lo + 1)
    ensures GetField(v, mask, lo) == value <==> value < Pow2(hi - lo + 1)
  {
    forall i: nat ensures Bit(GetField(v, mask, lo), i) == Bit(Low(value, hi - lo + 1), i) {
      ShrBit(And(v, mask), lo, i);
      AndBit(v, mask, i + lo);
      LowBit(value, hi - lo + 1, i);
    }
    Extensionality(GetField(v, mask, lo), Low(value, hi - lo + 1));
    BelowPow2(value, hi - lo + 1);
  }

  ghost predicate FrameShape(e: nat, v: nat, fpn: nat) {
    forall i: nat :: Bit(e, i) <==>
      if i <= 12 then Bit(fpn, i) else i == PRESENT_BIT || (i < 32 && i != SWAPPED_BIT && Bit(v, i))
  }

  ghost predicate SwapShape(e: nat, v: nat, swptyp: nat, swpoff: nat) {
    forall i: nat :: Bit(e, i) <==>
      if i <= 4 then Bit(swptyp, i)
      else if i <= 25 then Bit(swpoff, i - 5)
      else i == PRESENT_BIT || i == SWAPPED_BIT || (i < 32 && Bit(v, i))
  }

  /** A frame setting, bit by bit: the frame in bits 0-12, present, not swapped, the upper
      half of the 64-bit word cleared and every other bit as it was. */
  lemma WithFrameBits(v: nat, fpn: nat)
    ensures FrameShape(WithFrame(v, fpn), v, fpn)
  {
    hide Low, Shl, Or, And, Bit, SetField;
    var v1 := Or(v, PRESENT);
    var v2 := And(v1, KEEP_SWAPPED);
    FrameCovers();
    forall i: nat ensures Bit(WithFrame(v, fpn), i) <==>
                            if i <= 12 then Bit(fpn, i)
                            else i == PRESENT_BIT || (i < 32 && i != SWAPPED_BIT && Bit(v, i)) {
      SetFieldBit(v2, fpn, FPN_MASK, KEEP_FPN, 12, 0, i);
      AndBit(v1, KEEP_SWAPPED, i);
      OrBit(v, PRESENT, i);
      FlagBits(i);
    }
  }

  /** A swap setting, bit by bit: type in bits 0-4, offset in bits 5-25, present and swapped. */
  lemma WithSwapBits(v: nat, swptyp: nat, swpoff: nat)
    ensures SwapShape(WithSwap(v, swptyp, swpoff), v, swptyp, swpoff)
  {
    hide Low, Shl, Or, And, Bit, SetField;
    var v1 := Or(v, PRESENT);
    var v2 := Or(v1, SWAPPED);
    var v3 := SetField(v2, swptyp, SWPTYP_MASK, KEEP_SWPTYP, 0);
    SwapTypeCovers();
    SwapOffsetCovers();
    forall i: nat ensures Bit(WithSwap(v, swptyp, swpoff), i) <==>
                            if i <= 4 then Bit(swptyp, i)
                            else if i <= 25 then Bit(swpoff, i - 5)
                            else i == PRESENT_BIT || i == SWAPPED_BIT || (i < 32 && Bit(v, i)) {
      SetFieldBit(v3, swpoff, SWPOFF_MASK, KEEP_SWPOFF, 25, 5, i);
      SetFieldBit(v2, swptyp, SWPTYP_MASK, KEEP_SWPTYP, 4, 0, i);
      OrBit(v1, SWAPPED, i);
      OrBit(v, PRESENT, i);
      FlagBits(i);
    }
  }

  /** The widths of the three fields as remainders. */
  lemma LowValue(x: nat)
    ensures Low(x, 13) == x % 0x2000 && Low(x, 5) == x % 32 && Low(x, 21) == x % 0x20_0000
  {
    hide Low, Pow2;
    PowersOfTwo();
    LowIsMod(x, 13);
    LowIsMod(x, 5);
    LowIsMod(x, 21);
  }

  lemma UnsignedType(t: int)
    ensures AsUnsigned(t) % 32 == t % 32
  {
    var q, r := t / 0x1_0000_0000, t % 0x1_0000_0000;
    assert t == 0x1_0000_0000 * q + r;
  }

  /** After a frame setting the entry decodes to that frame, exactly when the frame number
      fits the 13-bit field; bits 13-29 are as before. */
  lemma FrameDecodes(v: nat, fpn: nat)
    ensures var e := WithFrame(v, fpn);
            Present(e) && !Swapped(e) && Frame(e) == Low(fpn, 13) && (Frame(e) == fpn <==> fpn < 0x2000)
            && e < 0x1_0000_0000 && (forall i :: 13 <= i < 30 ==> Bit(e, i) == Bit(v, i))
  {
    hide Pow2, Low, Shl, Or, And, Bit;
    var e := WithFrame(v, fpn);
    WithFrameBits(v, fpn);
    FlagsRead(e);
    FrameCovers();
    FieldRead(e, FPN_MASK, KEEP_FPN, 12, 0, fpn);
    HighBitsClear(e, 32);
    PowersOfTwo();
  }

  /** After a swap setting the entry decodes to that type and offset, exactly when they fit
      their 5-bit and 21-bit fields. */
  lemma SwapDecodes(v: nat, swptyp: nat, swpoff: nat)
    ensures var e := WithSwap(v, swptyp, swpoff);
            Present(e) && Swapped(e)
            && SwapType(e) == Low(swptyp, 5) && (SwapType(e) == swptyp <==> swptyp < 32)
            && SwapOffset(e) == Low(swpoff, 21) && (SwapOffset(e) == swpoff <==> swpoff < 0x20_0000)
            && e < 0x1_0000_0000
  {
    hide Pow2, Low, Shl, Or, And, Bit;
    var e := WithSwap(v, swptyp, swpoff);
    WithSwapBits(v, swptyp, swpoff);
    FlagsRead(e);
    SwapTypeCovers();
    FieldRead(e, SWPTYP_MASK, KEEP_SWPTYP, 4, 0, swptyp);
    SwapOffsetCovers();
    FieldRead(e, SWPOFF_MASK, KEEP_SWPOFF, 25, 5, swpoff);
    HighBitsClear(e, 32);
    PowersOfTwo();
  }
}
