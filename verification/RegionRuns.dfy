/** Allocation and release of named regions over whole runs: every byte stays in exactly
    one place. */
module RegionRuns {
  import opened Regions

  const SYMBOLS: nat := 30  // PAGING_MAX_SYMTBL_SZ

  const NO_REGION := Region(0, 0)

  /** The free list and the symbol table of live regions. */
  datatype State = State(free: seq<Region>, table: seq<Region>) {
    predicate Valid() { |table| == SYMBOLS }

    function All(): seq<Region> { free + table }
  }

  /** A 64-bit size passed as a C int. */
  function AsInt(size: nat): int {
    var low := size % 0x1_0000_0000;
    if low < 0x8000_0000 then low else low - 0x1_0000_0000
  }

  /** `__alloc` on the free-list path. When no region is found the source grows the area
      instead; that path is not part of this model and the state here stays as it is. */
  function Alloc(s: State, rgid: nat, size: nat): State
    requires s.Valid() && rgid < SYMBOLS
  {
    var c := Carve(s.free, AsInt(size));
    if c.Failed() then State(c.free, s.table) else State(c.free, s.table[rgid := c.got])
  }

  /** `__free`. Index 30 passes the range check but is past the end of the table. */
  function Free(s: State, rgid: int): State
    requires s.Valid() && rgid != SYMBOLS
  {
    if rgid < 0 || rgid > SYMBOLS || s.table[rgid] == NO_REGION then s
    else
      var r := s.table[rgid];
      State(if r.Empty() then s.free else [r] + s.free, s.table[rgid := NO_REGION])
  }

  datatype Op = Allocate(rgid: int, size: nat) | Release(rgid: int)

  /** The address sum of the region that is chosen, if one is, stays below 2^64. */
  predicate NoWrap(s: State, size: nat) {
    var i := FirstFit(s.free, AsInt(size));
    i < |s.free| ==> s.free[i].start + Widened(AsInt(size)) < WORD
  }

  /** An allocation names an empty slot of the table and its address sum does not wrap; a
      release does not name index 30. */
  predicate Legal(s: State, op: Op)
    requires s.Valid()
  {
    match op
    case Allocate(rgid, size) => 0 <= rgid < SYMBOLS && s.table[rgid].Empty() && NoWrap(s, size)
    case Release(rgid) => rgid != SYMBOLS
  }

  /** An allocation names a slot of the table; a release does not name index 30. */
  predicate InRange(op: Op) {
    match op
    case Allocate(rgid, _) => 0 <= rgid < SYMBOLS
    case Release(rgid) => rgid != SYMBOLS
  }

  function Step(s: State, op: Op): (t: State)
    requires s.Valid() && InRange(op)
    ensures t.Valid()
  {
    match op
    case Allocate(rgid, size) => Alloc(s, rgid, size)
    case Release(rgid) => Free(s, rgid)
  }

  predicate LegalRun(s: State, ops: seq<Op>)
    requires s.Valid()
    decreases |ops|
  {
    ops == [] || (Legal(s, ops[0]) && LegalRun(Step(s, ops[0]), ops[1..]))
  }

  function Run(s: State, ops: seq<Op>): (t: State)
    requires s.Valid() && LegalRun(s, ops)
    ensures t.Valid()
    decreases |ops|
  {
    if ops == [] then s else Run(Step(s, ops[0]), ops[1..])
  }

  /** No region reaches the last 2^31 bytes of the 64-bit space, where adding an int wraps. */
  ghost predicate Bounded(s: State) {
    forall r <- s.All() :: r.end + 0x8000_0000 <= WORD && r.start <= r.end
  }

  /** The int has the size's low 32 bits, and is the size itself exactly when it fits. */
  lemma AsIntRange(size: nat)
    ensures -0x8000_0000 <= AsInt(size) < 0x8000_0000
    ensures (size - AsInt(size)) % 0x1_0000_0000 == 0
    ensures AsInt(size) == size <==> size < 0x8000_0000
  {
    var low := size % 0x1_0000_0000;
    assert size - low == 0x1_0000_0000 * (size / 0x1_0000_0000);
  }

  ghost predicate WellFormed(free: seq<Region>) {
    forall r <- free :: r.start <= r.end < 0x1_0000_0000_0000_0000
  }

  /** What an allocation hands out: the first accepted region's first `size` bytes go into the
      named slot, no other slot changes, and when no region is accepted nothing does. */
  lemma AllocServes(s: State, rgid: nat, size: nat)
    requires s.Valid() && rgid < 30 && size < 0x8000_0000 && WellFormed(s.free)
    ensures var t, i := Alloc(s, rgid, size), FirstFit(s.free, size);
            && |t.table| == 30 && (forall j | 0 <= j < 30 && j != rgid :: t.table[j] == s.table[j])
            && ((forall r <- s.free :: !Accepts(r, size)) ==> t == s)
            && ((exists r <- s.free :: Accepts(r, size)) ==> i < |s.free|)
            && (i < |s.free| ==> Accepts(s.free[i], size) && forall k | 0 <= k < i :: !Accepts(s.free[k], size))
            && (i < |s.free| ==> var start, end := s.free[i].start, s.free[i].start + size;
                  t.table[rgid] == if start == 0xFFFF_FFFF_FFFF_FFFF then s.table[rgid]
                                   else if end < 0x1_0000_0000_0000_0000 then Region(start, end)
                                   else Region(start, end - 0x1_0000_0000_0000_0000))
  {
    AsIntRange(size);
    FirstFitIsExact(s.free, size);
    hide AsInt, Accepts, Carve, FirstFit;
  }

  /** What a release does: the slot is empty afterwards and no other slot changes, each byte of
      the region is covered by one more free region, and a second release changes nothing. */
  lemma FreeMovesRegion(s: State, rgid: nat, a: nat)
    requires s.Valid() && rgid < 30
    ensures var t, r := Free(s, rgid), s.table[rgid];
            && |t.table| == 30 && (forall j | 0 <= j < 30 && j != rgid :: t.table[j] == s.table[j])
            && t.table[rgid] == Region(0, 0)
            && Cover(t.free, a) == Cover(s.free, a) + (if r.start <= a < r.end then 1 else 0)
            && Free(t, rgid) == t
  {
    var r := s.table[rgid];
    CoverOne(r, a);
    if r != NO_REGION && !r.Empty() { CoverAppend([r], s.free, a); }
  }

  /** Round trip: allocating into an empty slot and releasing it gives back every byte, and
      leaves the table as it was up to that slot being cleared. */
  lemma AllocThenFree(s: State, rgid: nat, size: nat, a: nat)
    requires s.Valid() && rgid < 30 && Legal(s, Allocate(rgid, size))
    requires !Carve(s.free, AsInt(size)).Failed()
    ensures var t := Free(Alloc(s, rgid, size), rgid);
            Cover(t.free, a) == Cover(s.free, a) && t.table == s.table[rgid := Region(0, 0)]
  {
    hide Carve, AsInt;
    var c := Carve(s.free, AsInt(size));
    CarveConserves(s.free, AsInt(size), a);
    FreeMovesRegion(Alloc(s, rgid, size), rgid, a);
    CoverOne(c.got, a);
  }

  /** Isolation over runs: a slot keeps its region, whatever is allocated and released, until
      an operation names it. */
  lemma {:induction false} SlotKept(s: State, ops: seq<Op>, j: nat)
    requires s.Valid() && j < 30 && LegalRun(s, ops) && forall op <- ops :: op.rgid != j
    ensures Run(s, ops).table[j] == s.table[j]
    decreases |ops|
  {
    if ops == [] {
    } else {
      var op := ops[0];
      assert Step(s, op).table[j] == s.table[j] by { hide Carve, AsInt; }
      hide Step;
      SlotKept(Step(s, op), ops[1..], j);
    }
  }

  /** One allocation from the free list, whatever the size and whatever was in the slot: the
      bytes of the slot's old region are lost, all others stay, as long as the address sum
      does not wrap. */
  lemma AllocCover(s: State, rgid: nat, size: nat, a: nat)
    requires s.Valid() && rgid < SYMBOLS && NoWrap(s, size)
    ensures var t := Alloc(s, rgid, size);
            var lost := if Carve(s.free, AsInt(size)).Failed() then 0 else Cover([s.table[rgid]], a);
            Cover(t.All(), a) + lost == Cover(s.All(), a)
  {
    var c := Carve(s.free, AsInt(size));
    CarveConserves(s.free, AsInt(size), a);
    CoverAppend(s.free, s.table, a);
    CoverAppend(c.free, s.table, a);
    CoverAppend(c.free, s.table[rgid := c.got], a);
    CoverUpdate(s.table, rgid, c.got, a);
    assert c.Failed() ==> Cover([c.got], a) == 0 by {
      if c.Failed() { FailedIsEmpty(s.free, AsInt(size)); }
    }
  }

  lemma FailedIsEmpty(free: seq<Region>, size: int)
    requires var i := FirstFit(free, size); i < |free| ==> free[i].start + Widened(size) < WORD
    requires Carve(free, size).Failed()
    ensures Carve(free, size).got.Empty()
  {
  }

  lemma FreeCover(s: State, rgid: int, a: nat)
    requires s.Valid() && rgid != SYMBOLS
    ensures Cover(Free(s, rgid).All(), a) == Cover(s.All(), a)
  {
    if 0 <= rgid < SYMBOLS && s.table[rgid] != NO_REGION {
      var r := s.table[rgid];
      var t := s.table[rgid := NO_REGION];
      CoverUpdate(s.table, rgid, NO_REGION, a);
      CoverAppend(s.free, s.table, a);
      CoverAppend(s.free, t, a);
      CoverAppend([r] + s.free, t, a);
      CoverAppend([r], s.free, a);
    }
  }

  lemma StepConserves(s: State, op: Op, a: nat)
    requires s.Valid() && Legal(s, op)
    ensures Cover(Step(s, op).All(), a) == Cover(s.All(), a)
  {
    match op
    case Allocate(rgid, size) =>
      AllocCover(s, rgid, size, a);
      assert Cover([s.table[rgid]], a) == 0;
    case Release(rgid) =>
      FreeCover(s, rgid, a);
  }

  lemma CarveBounded(s: State, size: int, r: Region)
    requires Bounded(s) && 0 < size < 0x8000_0000
    requires var c := Carve(s.free, size); r in c.free || (r == c.got && !c.Failed()) || r in s.table
    ensures r.end + 0x8000_0000 <= WORD && r.start <= r.end
  {
    var i := FirstFit(s.free, size);
    forall q | q in s.free || q in s.table ensures q in s.All() {
    }
    if i < |s.free| {
      assert s.free[i] in s.free;
      WithoutWrap(s.free[i], size);
    }
  }

  /** What a caller can see before the call: an allocation asks for a positive size and names
      an empty slot. */
  predicate Asked(s: State, op: Op)
    requires s.Valid()
  {
    InRange(op) && (op.Allocate? ==> s.table[op.rgid].Empty() && AsInt(op.size) > 0)
  }

  predicate AskedRun(s: State, ops: seq<Op>)
    requires s.Valid()
    decreases |ops|
  {
    ops == [] || (Asked(s, ops[0]) && AskedRun(Step(s, ops[0]), ops[1..]))
  }

  /** Where the regions come from after a step. */
  lemma StepRegions(s: State, op: Op, r: Region)
    requires s.Valid() && InRange(op) && r in Step(s, op).All()
    ensures match op
            case Allocate(rgid, size) =>
              var c := Carve(s.free, AsInt(size));
              r in c.free || (r == c.got && !c.Failed()) || r in s.table
            case Release(_) => r == NO_REGION || r in s.All()
  {
    hide Carve, AsInt;
  }

  /** Where no region reaches the last 2^31 bytes of the address space, an allocation of a
      positive size never wraps, and this stays so. */
  lemma BoundedNeverWraps(s: State, op: Op)
    requires s.Valid() && Bounded(s) && Asked(s, op)
    ensures Legal(s, op) && Bounded(Step(s, op))
  {
    hide Carve, FirstFit, AsInt, Step, Widened;
    if op.Allocate? {
      AsIntRange(op.size);
      PositiveSize(AsInt(op.size));
      var i := FirstFit(s.free, AsInt(op.size));
      if i < |s.free| { assert s.free[i] == s.All()[i]; }
    }
    forall r <- Step(s, op).All() ensures r.end + 0x8000_0000 <= WORD && r.start <= r.end {
      StepRegions(s, op, r);
      match op
      case Allocate(rgid, size) => CarveBounded(s, AsInt(size), r);
      case Release(rgid) =>
    }
  }

  lemma PositiveSize(size: int)
    requires 0 < size < 0x8000_0000
    ensures Widened(size) == size
  {
  }

  /** Conservation over whole runs: every run of allocations and releases leaves every byte
      covered by exactly as many regions, free or live, as before it. */
  lemma {:induction false} RunConserves(s: State, ops: seq<Op>, a: nat)
    requires s.Valid() && LegalRun(s, ops)
    ensures Cover(Run(s, ops).All(), a) == Cover(s.All(), a)
    decreases |ops|
  {
    if ops == [] {
    } else {
      hide Step, Cover;
      StepConserves(s, ops[0], a);
      RunConserves(Step(s, ops[0]), ops[1..], a);
    }
  }

  /** So regions that are pairwise disjoint at the start are pairwise disjoint after every
      run, and together hold exactly the same bytes. */
  lemma RunKeepsDisjoint(s: State, ops: seq<Op>)
    requires s.Valid() && Disjoint(s.All()) && LegalRun(s, ops)
    ensures Disjoint(Run(s, ops).All())
    ensures forall a: nat :: Holds(Run(s, ops).All(), a) <==> Holds(s.All(), a)
  {
    forall a: nat ensures Cover(Run(s, ops).All(), a) == Cover(s.All(), a) {
      RunConserves(s, ops, a);
    }
    SameCoverSameBytes(s.All(), Run(s, ops).All());
  }

  lemma {:induction false} BoundedRunIsLegal(s: State, ops: seq<Op>)
    requires s.Valid() && Bounded(s) && AskedRun(s, ops)
    ensures LegalRun(s, ops) && Bounded(Run(s, ops))
    decreases |ops|
  {
    if ops == [] {
    } else {
      BoundedNeverWraps(s, ops[0]);
      hide Bounded, Step, Asked;
      BoundedRunIsLegal(Step(s, ops[0]), ops[1..]);
    }
  }

  /** From disjoint regions below the last 2^31 bytes of the address space, every sequence of
      positive sizes into empty slots and of releases keeps the regions disjoint and their
      bytes the same. */
  lemma BoundedRunKeepsDisjoint(s: State, ops: seq<Op>)
    requires s.Valid() && Bounded(s) && Disjoint(s.All()) && AskedRun(s, ops)
    ensures LegalRun(s, ops) && Bounded(Run(s, ops)) && Disjoint(Run(s, ops).All())
    ensures forall a: nat :: Holds(Run(s, ops).All(), a) <==> Holds(s.All(), a)
  {
    BoundedRunIsLegal(s, ops);
    RunKeepsDisjoint(s, ops);
  }

  /** An allocation into a slot that still names a region conserves the bytes only if that
      region is empty: the source does not release it. */
  lemma OverwrittenSlotLosesBytes(s: State, rgid: nat, size: nat)
    requires s.Valid() && rgid < SYMBOLS && NoWrap(s, size)
    requires !Carve(s.free, AsInt(size)).Failed()
    ensures (forall a: nat :: Cover(Alloc(s, rgid, size).All(), a) == Cover(s.All(), a)) <==> s.table[rgid].Empty()
  {
    var lost, after := s.table[rgid], Alloc(s, rgid, size).All();
    forall a: nat ensures Cover(after, a) == Cover(s.All(), a) - (if lost.Has(a) then 1 else 0) {
      AllocCover(s, rgid, size, a);
      assert Cover([lost], a) == if lost.Has(a) then 1 else 0;
    }
    if !lost.Empty() {
      assert Cover(after, lost.start) == Cover(s.All(), lost.start) - 1;
    }
  }

  const TEN_FREE := State([Region(0, 10)], seq(SYMBOLS, _ => NO_REGION))

  lemma FirstAllocation()
    ensures Alloc(TEN_FREE, 0, 4) == State([Region(4, 10)], TEN_FREE.table[0 := Region(0, 4)])
    ensures NoWrap(TEN_FREE, 4) && !Carve(TEN_FREE.free, AsInt(4)).Failed()
  {
    FirstFitAt(TEN_FREE.free, 4, 0);
  }

  lemma SecondAllocation(s: State)
    requires s.Valid() && s.free == [Region(4, 10)]
    ensures Alloc(s, 0, 3) == State([Region(7, 10)], s.table[0 := Region(4, 7)])
    ensures NoWrap(s, 3) && !Carve(s.free, AsInt(3)).Failed()
  {
    FirstFitAt(s.free, 3, 0);
  }

  /** A failing input: ten free bytes, four of them allocated to slot 0, then three to the
      same slot. The first four bytes are lost. */
  lemma SecondAllocationLosesBytes(a: nat)
    requires a < 4
    ensures var t := Alloc(Alloc(TEN_FREE, 0, 4), 0, 3);
            t.free == [Region(7, 10)] && t.table[0] == Region(4, 7)
            && Cover(TEN_FREE.All(), a) == 1 && Cover(t.All(), a) == 0
  {
    FirstAllocation();
    var s := Alloc(TEN_FREE, 0, 4);
    SecondAllocation(s);
    hide Alloc, Carve, NoWrap, AsInt;
    CoverAppend(TEN_FREE.free, TEN_FREE.table, a);
    NothingCovers(SYMBOLS, a);
    AllocCover(TEN_FREE, 0, 4, a);
    AllocCover(s, 0, 3, a);
    CoverOne(Region(0, 4), a);
    CoverOne(Region(0, 10), a);
    CoverOne(NO_REGION, a);
  }

  lemma {:induction false} NothingCovers(n: nat, a: nat)
    ensures Cover(seq(n, _ => NO_REGION), a) == 0
  {
    if n == 0 {
    } else {
      assert seq(n, _ => NO_REGION)[1..] == seq(n - 1, _ => NO_REGION);
      NothingCovers(n - 1, a);
    }
  }
}
