/** Virtual memory regions and first-fit allocation from a free list, as values
    (`get_free_vmrg_area`, `__alloc` on the free-list path and `__free` of src/libmem.c). */
module Regions {
  import opened Sequences

  const WORD: nat := 0x1_0000_0000_0000_0000  // 2^64

  /** `vm_rg_struct`: the bytes start..end-1. */
  datatype Region = Region(start: nat, end: nat) {
    predicate Has(a: nat) { start <= a < end }

    predicate Empty() { start >= end }
  }

  /** A C int added to a 64-bit address is sign-extended first. */
  function Widened(size: int): (u: nat)
    ensures u < WORD
  {
    size % WORD
  }

  /** The 64-bit sum `rg_start + size`. */
  function Sum(start: nat, size: int): nat { (start + Widened(size)) % WORD }

  function EndOf(r: Region, size: int): nat { Sum(r.start, size) }

  predicate Fits(r: Region, size: int) { EndOf(r, size) <= r.end }

  /** The first node that passes the fit test, or the length of the list. */
  function FirstFit(free: seq<Region>, size: int): (i: nat)
    ensures i <= |free|
    ensures i < |free| ==> Fits(free[i], size)
    ensures forall k | 0 <= k < i :: !Fits(free[k], size)
  {
    if free == [] || Fits(free[0], size) then 0 else 1 + FirstFit(free[1..], size)
  }

  lemma {:induction false} FirstFitAt(free: seq<Region>, size: int, k: nat)
    requires k <= |free| && (k < |free| ==> Fits(free[k], size))
    requires forall i | 0 <= i < k :: !Fits(free[i], size)
    ensures FirstFit(free, size) == k
  {
    if k == 0 {
    } else {
      assert !Fits(free[0], size);
      FirstFitAt(free[1..], size, k - 1);
    }
  }

  const NOT_FOUND := Region(WORD - 1, WORD - 1)

  datatype Carved = Carved(got: Region, free: seq<Region>) {
    /** The return code: the marker address -1 means no region. */
    predicate Failed() { got.start == WORD - 1 }
  }

  /** A region that is used up leaves the list by taking over its successor's bounds, or
      stays as an empty region at the end of the list. */
  function Carve(free: seq<Region>, size: int): Carved {
    var i := FirstFit(free, size);
    if i == |free| then Carved(NOT_FOUND, free)
    else
      var r, end := free[i], EndOf(free[i], size);
      Carved(Region(r.start, end),
             if end < r.end then free[i := Region(end, r.end)]
             else if i + 1 < |free| then Without(free, i)
             else free[i := Region(r.end, r.end)])
  }

  // ---- Bytes covered ----

  /** How many regions of a list hold byte a. */
  function Cover(rs: seq<Region>, a: nat): nat {
    if rs == [] then 0 else (if rs[0].Has(a) then 1 else 0) + Cover(rs[1..], a)
  }

  ghost predicate Holds(rs: seq<Region>, a: nat) {
    exists i :: 0 <= i < |rs| && rs[i].Has(a)
  }

  ghost predicate Disjoint(rs: seq<Region>) {
    forall i, j, a: nat | 0 <= i < j < |rs| :: !(rs[i].Has(a) && rs[j].Has(a))
  }

  lemma {:induction false} CoverAppend(xs: seq<Region>, ys: seq<Region>, a: nat)
    ensures Cover(xs + ys, a) == Cover(xs, a) + Cover(ys, a)
  {
    if xs == [] {
      assert xs + ys == ys;
    } else {
      assert (xs + ys)[1..] == xs[1..] + ys;
      CoverAppend(xs[1..], ys, a);
    }
  }

  lemma CoverOne(r: Region, a: nat)
    ensures Cover([r], a) == if r.Has(a) then 1 else 0
  {
  }

  lemma CoverSplit(rs: seq<Region>, i: nat, a: nat)
    requires i < |rs|
    ensures Cover(rs, a) == Cover(rs[..i], a) + Cover([rs[i]], a) + Cover(rs[i + 1..], a)
  {
    assert rs == rs[..i] + ([rs[i]] + rs[i + 1..]);
    CoverAppend(rs[..i], [rs[i]] + rs[i + 1..], a);
    CoverAppend([rs[i]], rs[i + 1..], a);
  }

  lemma CoverUpdate(rs: seq<Region>, i: nat, r: Region, a: nat)
    requires i < |rs|
    ensures Cover(rs[i := r], a) + Cover([rs[i]], a) == Cover(rs, a) + Cover([r], a)
  {
    CoverSplit(rs, i, a);
    CoverSplit(rs[i := r], i, a);
    assert rs[i := r][..i] == rs[..i] && rs[i := r][i + 1..] == rs[i + 1..];
  }

  lemma {:induction false} CoverPositive(rs: seq<Region>, a: nat)
    ensures Cover(rs, a) > 0 <==> Holds(rs, a)
  {
    if rs == [] {
    } else {
      CoverPositive(rs[1..], a);
      if i :| 0 <= i < |rs| - 1 && rs[1..][i].Has(a) {
        assert rs[i + 1].Has(a);
      }
      if i :| 0 < i < |rs| && rs[i].Has(a) {
        assert rs[1..][i - 1].Has(a);
      }
    }
  }

  lemma OverlapCoversTwice(rs: seq<Region>, i: nat, j: nat, a: nat)
    requires i < j < |rs| && rs[i].Has(a) && rs[j].Has(a)
    ensures Cover(rs, a) >= 2
  {
    CoverSplit(rs, i, a);
    assert rs[i + 1..][j - i - 1].Has(a);
    CoverPositive(rs[i + 1..], a);
  }

  lemma {:induction false} CoveredTwiceOverlaps(rs: seq<Region>, a: nat) returns (i: nat, j: nat)
    requires Cover(rs, a) >= 2
    ensures i < j < |rs| && rs[i].Has(a) && rs[j].Has(a)
  {
    if rs[0].Has(a) {
      CoverPositive(rs[1..], a);
      var k :| 0 <= k < |rs| - 1 && rs[1..][k].Has(a);
      i, j := 0, k + 1;
    } else {
      var i', j' := CoveredTwiceOverlaps(rs[1..], a);
      i, j := i' + 1, j' + 1;
    }
  }

  /** Regions are pairwise disjoint exactly when no byte is covered twice. */
  lemma DisjointIsCoverOne(rs: seq<Region>)
    ensures Disjoint(rs) <==> forall a: nat :: Cover(rs, a) <= 1
  {
    if Disjoint(rs) {
      forall a: nat ensures Cover(rs, a) <= 1 {
        if Cover(rs, a) > 1 {
          var i, j := CoveredTwiceOverlaps(rs, a);
          assert false;
        }
      }
    } else {
      var i, j, a: nat :| 0 <= i < j < |rs| && rs[i].Has(a) && rs[j].Has(a);
      OverlapCoversTwice(rs, i, j, a);
    }
  }

  lemma SameCoverSameBytes(xs: seq<Region>, ys: seq<Region>)
    requires forall a: nat :: Cover(xs, a) == Cover(ys, a)
    ensures Disjoint(xs) ==> Disjoint(ys)
    ensures forall a: nat :: Holds(xs, a) <==> Holds(ys, a)
  {
    forall a: nat ensures Holds(xs, a) <==> Holds(ys, a) {
      CoverPositive(xs, a);
      CoverPositive(ys, a);
    }
    hide Disjoint;
    DisjointIsCoverOne(xs);
    DisjointIsCoverOne(ys);
    if Disjoint(xs) {
      assert forall a: nat :: Cover(ys, a) == Cover(xs, a) <= 1;
    }
  }

  // ---- First fit ----

  lemma WithoutWrap(r: Region, size: int)
    requires 0 <= size && r.start + size < WORD
    ensures EndOf(r, size) == r.start + size && (Fits(r, size) <==> r.end - r.start >= size)
  {
  }

  lemma SumOf(start: nat, size: int)
    requires start < WORD
    ensures Sum(start, size) ==
            if start + Widened(size) < WORD then start + Widened(size) else start + Widened(size) - WORD
  {
  }

  /** Carving moves bytes from the free list to the result and nothing else, whenever the
      address sum of the chosen region does not wrap. */
  lemma CarveConserves(free: seq<Region>, size: int, a: nat)
    requires var i := FirstFit(free, size); i < |free| ==> free[i].start + Widened(size) < WORD
    ensures var c := Carve(free, size); Cover(c.free, a) + Cover([c.got], a) == Cover(free, a)
  {
    hide FirstFit, Sum, Widened, Cover;
    var i := FirstFit(free, size);
    CoverOne(NOT_FOUND, a);
    if i < |free| {
      var r, end := free[i], EndOf(free[i], size);
      SumOf(r.start, size);
      CoverOne(r, a);
      CoverOne(Region(r.start, end), a);
      CoverOne(Region(end, r.end), a);
      CoverOne(Region(r.end, r.end), a);
      if end < r.end {
        CoverUpdate(free, i, Region(end, r.end), a);
      } else if i + 1 < |free| {
        CoverSplit(free, i, a);
        CoverAppend(free[..i], free[i + 1..], a);
      } else {
        CoverUpdate(free, i, Region(r.end, r.end), a);
      }
    }
  }

  /** ... and only then: if the sum wraps (a negative size, or a region at the top of the
      address space), the list afterwards claims a byte it did not have. */
  lemma CarveConservesExactlyWithoutWrap(free: seq<Region>, size: int)
    requires forall r <- free :: r.start <= r.end < WORD
    requires FirstFit(free, size) < |free|
    ensures (forall a: nat :: var c := Carve(free, size); Cover(c.free, a) + Cover([c.got], a) == Cover(free, a))
            <==> free[FirstFit(free, size)].start + Widened(size) < WORD
  {
    hide FirstFit, Sum, Widened;
    var c, i := Carve(free, size), FirstFit(free, size);
    var r, end := free[i], EndOf(free[i], size);
    assert r in free;
    SumOf(r.start, size);
    if r.start + Widened(size) < WORD {
      forall a: nat ensures Cover(c.free, a) + Cover([c.got], a) == Cover(free, a) {
        CarveConserves(free, size, a);
      }
    } else {
      CoverUpdate(free, i, Region(end, r.end), end);
      CoverOne(r, end);
      CoverOne(Region(r.start, end), end);
      CoverOne(Region(end, r.end), end);
      assert c.free == free[i := Region(end, r.end)];
      assert Cover(c.free, end) == Cover(free, end) + 1;
    }
  }

  /** What the fit test accepts for a size from 0 on: a region that is long enough, and also
      one so near the top of the address space that the 64-bit sum wraps. */
  predicate Accepts(r: Region, size: int) {
    r.end - r.start >= size || r.start + size >= 0x1_0000_0000_0000_0000
  }

  lemma FitsExactly(r: Region, size: int)
    requires 0 <= size < WORD && r.start <= r.end < WORD
    ensures Fits(r, size) <==> Accepts(r, size)
    ensures EndOf(r, size) == if r.start + size < WORD then r.start + size else r.start + size - WORD
  {
    SumOf(r.start, size);
  }

  /** First fit, for every size from 0 on: no region is found exactly when the fit test accepts
      none, and otherwise the first accepted one is taken. The result has exactly `size` bytes
      unless the 64-bit sum wraps: it is then empty, although the request is served. The return
      code is -1 exactly when none is found, or the one found starts at the marker address. */
  lemma FirstFitIsExact(free: seq<Region>, size: int)
    requires 0 <= size < 0x1_0000_0000_0000_0000
    requires forall r <- free :: r.start <= r.end < 0x1_0000_0000_0000_0000
    ensures var c, i := Carve(free, size), FirstFit(free, size);
            && (i == |free| <==> forall r <- free :: !Accepts(r, size))
            && (forall k | 0 <= k < i :: !Accepts(free[k], size))
            && (c.Failed() <==> i == |free| || free[i].start == 0xFFFF_FFFF_FFFF_FFFF)
            && (i == |free| ==> c.free == free && c.got == Region(0xFFFF_FFFF_FFFF_FFFF, 0xFFFF_FFFF_FFFF_FFFF))
            && (i < |free| ==> Accepts(free[i], size))
            && (i < |free| && free[i].start + size < 0x1_0000_0000_0000_0000 ==>
                  c.got == Region(free[i].start, free[i].start + size) && c.got.end <= free[i].end)
            && (i < |free| && free[i].start + size >= 0x1_0000_0000_0000_0000 ==>
                  c.got == Region(free[i].start, free[i].start + size - 0x1_0000_0000_0000_0000) && c.got.Empty())
  {
    forall r <- free {
      FitsExactly(r, size);
    }
    hide EndOf, Fits, Accepts;
    var i := FirstFit(free, size);
    forall k | 0 <= k < i ensures !Accepts(free[k], size) {
      assert free[k] in free;
    }
    if i < |free| {
      assert free[i] in free;
    }
  }

  /** A negative size takes bytes from in front of the region when it starts high enough, and
      otherwise wraps to the top of the address space. */
  lemma NegativeSize(r: Region, size: int)
    requires -0x1_0000_0000_0000_0000 < size < 0 && r.start <= r.end < 0x1_0000_0000_0000_0000
    ensures EndOf(r, size) == if r.start + size >= 0 then r.start + size else r.start + size + 0x1_0000_0000_0000_0000
    ensures Fits(r, size) <==> r.start + size >= 0 || r.start + size + 0x1_0000_0000_0000_0000 <= r.end
  {
    assert Widened(size) == WORD + size;
    SumOf(r.start, size);
  }

  /** A wrapping input: ten bytes asked of the last five of the address space. The request is
      served with an empty result, and the list afterwards claims nearly every byte. */
  lemma TopOfMemoryWraps()
    ensures var c := Carve([Region(0xFFFF_FFFF_FFFF_FFFA, 0xFFFF_FFFF_FFFF_FFFF)], 10);
            !c.Failed() && c.got == Region(0xFFFF_FFFF_FFFF_FFFA, 4) && c.got.Empty()
            && c.free == [Region(4, 0xFFFF_FFFF_FFFF_FFFF)]
  {
    SumOf(WORD - 6, 10);
    FirstFitAt([Region(WORD - 6, WORD - 1)], 10, 0);
  }

  /** A failing input of the conservation law: size -1 on a region that starts at 1. Its sum
      wraps to 0, and the list afterwards claims byte 0. */
  lemma NegativeSizeClaimsAByte()
    ensures var before, c := [Region(1, 10)], Carve([Region(1, 10)], -1);
            !c.Failed() && c.got == Region(1, 0) && c.free == [Region(0, 10)]
            && Cover(before, 0) == 0 && Cover(c.free, 0) + Cover([c.got], 0) == 1
  {
    assert Widened(-1) == WORD - 1;
    SumOf(1, -1);
    FirstFitAt([Region(1, 10)], -1, 0);
  }

  function NonEmpty(rs: seq<Region>): seq<Region> {
    if rs == [] then [] else (if rs[0].Empty() then [] else [rs[0]]) + NonEmpty(rs[1..])
  }

  lemma {:induction false} NonEmptyAppend(xs: seq<Region>, ys: seq<Region>)
    ensures NonEmpty(xs + ys) == NonEmpty(xs) + NonEmpty(ys)
  {
    if xs == [] {
      assert xs + ys == ys;
    } else {
      assert (xs + ys)[1..] == xs[1..] + ys;
      NonEmptyAppend(xs[1..], ys);
    }
  }

  lemma NonEmptyAround(before: seq<Region>, r: Region, after: seq<Region>)
    ensures NonEmpty(before + [r] + after) == NonEmpty(before) + NonEmpty([r]) + NonEmpty(after)
    ensures r.Empty() ==> NonEmpty([r]) == []
  {
    NonEmptyAppend(before + [r], after);
    NonEmptyAppend(before, [r]);
  }

  lemma CarveShape(free: seq<Region>, size: int)
    requires FirstFit(free, size) < |free|
    ensures var i, c := FirstFit(free, size), Carve(free, size);
            var left, gone := Region(EndOf(free[i], size), free[i].end), Region(free[i].end, free[i].end);
            if !left.Empty() then c.free == free[..i] + [left] + free[i + 1..]
            else if free[i + 1..] == [] then c.free == free[..i] + [gone] + []
            else c.free == free[..i] + free[i + 1..]
  {
    hide FirstFit, EndOf;
    var c := Carve(free, size);
  }

  /** The chosen region shrinks to what is left of it in its place, and every other
      non-empty region stays, in order. This covers the cloned successor and the empty
      region left at the end of the list. */
  lemma CarveKeepsOrder(free: seq<Region>, size: int)
    requires FirstFit(free, size) < |free|
    ensures var i := FirstFit(free, size);
            NonEmpty(Carve(free, size).free) ==
            NonEmpty(free[..i]) + NonEmpty([Region(EndOf(free[i], size), free[i].end)]) + NonEmpty(free[i + 1..])
  {
    hide FirstFit, EndOf, NonEmpty, Carve;
    var i := FirstFit(free, size);
    var left, gone := Region(EndOf(free[i], size), free[i].end), Region(free[i].end, free[i].end);
    CarveShape(free, size);
    NonEmptyAround(free[..i], left, free[i + 1..]);
    NonEmptyAround(free[..i], gone, []);
    NonEmptyAppend(free[..i], free[i + 1..]);
  }
}
