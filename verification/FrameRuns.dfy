/** Whole runs over the frame list: frames handed out and put back in any order. */
module FrameRuns {
  import opened Frames
  import opened Sequences

  /** The free list, and the frames handed out and not yet put back. */
  datatype State = State(free: seq<nat>, held: multiset<nat>) {
    function All(): multiset<nat> { multiset(free) + held }
  }

  datatype Op = Get | Alloc(n: int) | Put(fpn: nat)

  /** Only a frame that is held is put back. */
  predicate Legal(s: State, op: Op) {
    op.Put? ==> op.fpn in s.held
  }

  function Step(s: State, op: Op): State {
    match op
    case Get => if s.free == [] then s else State(s.free[1..], s.held + multiset{s.free[0]})
    case Alloc(n) => var r := AllocRange(s.free, n); State(r.free, s.held + multiset(r.taken))
    case Put(f) => State([f] + s.free, s.held - multiset{f})
  }

  function Run(s: State, ops: seq<Op>): State
    decreases |ops|
  {
    if ops == [] then s else Run(Step(s, ops[0]), ops[1..])
  }

  predicate LegalRun(s: State, ops: seq<Op>)
    decreases |ops|
  {
    ops == [] || (Legal(s, ops[0]) && LegalRun(Step(s, ops[0]), ops[1..]))
  }

  /** All or nothing: a request succeeds exactly when enough frames are free, and then takes
      the first ones in order; one of zero or less succeeds with nothing. A failed request
      returns (addr_t)-1 and every frame, in reverse order. */
  lemma AllOrNothing(free: seq<nat>, n: int)
    ensures var r := AllocRange(free, n);
            && (r.rc == 0 <==> n <= |free|)
            && (r.rc == 0 ==> |r.taken| == (if n <= 0 then 0 else n) && r.taken + r.free == free)
            && (r.rc != 0 ==> r.rc == 0xFFFF_FFFF_FFFF_FFFF && r.taken == [])
            && (r.rc != 0 ==> |r.free| == |free| && multiset(r.free) == multiset(free))
            && (r.rc != 0 ==> forall k :: 0 <= k < |free| ==> r.free[k] == free[|free| - 1 - k])
  {
    ReversePermutes(free);
    forall k | 0 <= k < |free| ensures Reverse(free)[k] == free[|free| - 1 - k] {
      ReverseAt(free, k);
    }
  }

  /** Two failed requests in a row leave the free list exactly as it was. */
  lemma TwoFailuresRestore(free: seq<nat>, m: int, n: int)
    requires m > |free| && n > |free|
    ensures AllocRange(AllocRange(free, m).free, n) == Range(FAILED, [], free)
  {
    ReverseTwice(free);
  }

  lemma AllocRangeConserves(free: seq<nat>, n: int)
    ensures var r := AllocRange(free, n); multiset(r.taken) + multiset(r.free) == multiset(free)
  {
    var r := AllocRange(free, n);
    AllOrNothing(free, n);
    if r.rc == 0 { assert r.taken + r.free == free; }
  }

  lemma StepConserves(s: State, op: Op)
    requires Legal(s, op)
    ensures Step(s, op).All() == s.All()
  {
    hide AllocRange;
    match op
    case Get =>
      if s.free != [] { assert s.free == [s.free[0]] + s.free[1..]; }
    case Alloc(n) =>
      AllocRangeConserves(s.free, n);
    case Put(f) =>
  }

  lemma {:induction false} RunConserves(s: State, ops: seq<Op>)
    requires LegalRun(s, ops)
    ensures Run(s, ops).All() == s.All()
    decreases |ops|
  {
    if ops == [] {
    } else {
      StepConserves(s, ops[0]);
      RunConserves(Step(s, ops[0]), ops[1..]);
    }
  }

  lemma {:induction false} UpToCounts(k: nat, f: nat)
    ensures multiset(UpTo(k))[f] == if f < k then 1 else 0
  {
    if k == 0 {
    } else {
      UpToCounts(k - 1, f);
      assert UpTo(k) == UpTo(k - 1) + [k - 1];
    }
  }

  /** After formatting k frames, every run of gets, range allocations and put-backs of held
      frames keeps each frame 0..k-1 in exactly one place: free, or held once. */
  lemma NoFrameTwice(k: nat, ops: seq<Op>, f: nat)
    requires LegalRun(State(UpTo(k), multiset{}), ops)
    ensures var s := Run(State(UpTo(k), multiset{}), ops);
            multiset(s.free)[f] + s.held[f] == if f < k then 1 else 0
  {
    RunConserves(State(UpTo(k), multiset{}), ops);
    UpToCounts(k, f);
    assert State(UpTo(k), multiset{}).All()[f] == multiset(UpTo(k))[f];
  }

  /** Put back in turn. */
  function Puts(fpns: seq<nat>): (ops: seq<Op>)
    ensures |ops| == |fpns| && forall k | 0 <= k < |fpns| :: ops[k] == Put(fpns[k])
  {
    seq(|fpns|, k requires 0 <= k < |fpns| => Put(fpns[k]))
  }

  lemma RunFirst(s: State, ops: seq<Op>, t: State)
    requires ops != [] && Legal(s, ops[0]) && t == Step(s, ops[0]) && LegalRun(t, ops[1..])
    ensures LegalRun(s, ops) && Run(s, ops) == Run(t, ops[1..])
  {
  }

  lemma RunNone(s: State)
    ensures LegalRun(s, []) && Run(s, []) == s
  {
  }

  lemma PutStep(free: seq<nat>, held: multiset<nat>, f: nat)
    requires f in held
    ensures Legal(State(free, held), Put(f))
    ensures Step(State(free, held), Put(f)) == State([f] + free, held - multiset{f})
  {
  }

  lemma ReverseFirst(fpns: seq<nat>, free: seq<nat>)
    requires fpns != []
    ensures Reverse(fpns[1..]) + ([fpns[0]] + free) == Reverse(fpns) + free
  {
  }

  lemma HeldFirst(held: multiset<nat>, fpns: seq<nat>)
    requires fpns != [] && multiset(fpns) <= held
    ensures var less := held - multiset{fpns[0]};
            fpns[0] in held && multiset(fpns[1..]) <= less && less - multiset(fpns[1..]) == held - multiset(fpns)
  {
    assert fpns == [fpns[0]] + fpns[1..];
    assert multiset(fpns) == multiset{fpns[0]} + multiset(fpns[1..]);
  }

  lemma {:induction false} PutsPush(free: seq<nat>, held: multiset<nat>, fpns: seq<nat>)
    requires multiset(fpns) <= held
    ensures LegalRun(State(free, held), Puts(fpns))
    ensures Run(State(free, held), Puts(fpns)) == State(Reverse(fpns) + free, held - multiset(fpns))
    decreases |fpns|
  {
    hide Reverse, Run, LegalRun, Step, Legal;
    if fpns == [] {
      RunNone(State(free, held));
      ReverseEmpty();
    } else {
      var f, rest := fpns[0], fpns[1..];
      ReverseFirst(fpns, free);
      HeldFirst(held, fpns);
      PutStep(free, held, f);
      PutsPush([f] + free, held - multiset{f}, rest);
      assert Puts(fpns)[1..] == Puts(rest);
      RunFirst(State(free, held), Puts(fpns), State([f] + free, held - multiset{f}));
    }
  }

  lemma AllocStep(s: State, n: nat)
    requires n <= |s.free|
    ensures Legal(s, Alloc(n)) && Step(s, Alloc(n)) == State(s.free[n..], s.held + multiset(s.free[..n]))
  {
    AllOrNothing(s.free, n);
    var r := AllocRange(s.free, n);
    assert r.taken == (r.taken + r.free)[..n] && r.free == (r.taken + r.free)[n..];
  }

  /** A range that is allocated and put back last frame first leaves the free list exactly as
      it was. */
  lemma RangePutBackRestores(s: State, n: nat)
    requires n <= |s.free|
    ensures var ops := [Alloc(n)] + Puts(Reverse(s.free[..n])); LegalRun(s, ops) && Run(s, ops) == s
  {
    hide Reverse, Run, LegalRun, Step, Legal, Puts;
    var taken, rest := s.free[..n], s.free[n..];
    AllocStep(s, n);
    ReversePermutes(taken);
    ReverseTwice(taken);
    PutsPush(rest, s.held + multiset(taken), Reverse(taken));
    var ops := [Alloc(n)] + Puts(Reverse(taken));
    assert ops[1..] == Puts(Reverse(taken));
    RunFirst(s, ops, State(rest, s.held + multiset(taken)));
    assert taken + rest == s.free && s.held + multiset(taken) - multiset(taken) == s.held;
  }

  /** ... and so does a single frame. */
  lemma PutBackRestores(s: State)
    requires s.free != []
    ensures var ops := [Get, Put(s.free[0])]; LegalRun(s, ops) && Run(s, ops) == s
  {
    var f, rest := s.free[0], s.free[1..];
    assert Step(s, Get) == State(rest, s.held + multiset{f});
    hide Reverse, Run, LegalRun, Step;
    PutStep(rest, s.held + multiset{f}, f);
    RunNone(s);
    assert [f] + rest == s.free && s.held + multiset{f} - multiset{f} == s.held;
    RunFirst(State(rest, s.held + multiset{f}), [Put(f)], s);
    assert [Get, Put(f)][1..] == [Put(f)];
    RunFirst(s, [Get, Put(f)], State(rest, s.held + multiset{f}));
  }

  lemma ReverseTwice(s: seq<nat>)
    ensures Reverse(Reverse(s)) == s
  {
    forall k | 0 <= k < |s| ensures Reverse(Reverse(s))[k] == s[k] {
      ReverseAt(Reverse(s), k);
      ReverseAt(s, |s| - 1 - k);
    }
  }

  /** What legality is for: putting a frame back keeps a duplicate-free list duplicate-free
      exactly when the frame is not already on it. */
  lemma PutBackTwice(free: seq<nat>, f: nat)
    requires forall g :: multiset(free)[g] <= 1
    ensures (forall g :: multiset([f] + free)[g] <= 1) <==> f !in free
  {
    assert multiset([f] + free) == multiset{f} + multiset(free);
    if f in free {
      assert multiset(free)[f] == 1;
      assert multiset([f] + free)[f] == 2;
    }
  }

  /** One operation on the linked list; `held` are the frames handed out. */
  method Do(device: Device, op: Op, ghost held: multiset<nat>) returns (ghost held': multiset<nat>)
    requires device.Valid() && Legal(State(device.free, held), op)
    modifies device`freeFpList, device`nodes, device`free
    ensures device.Valid() && State(device.free, held') == Step(State(old(device.free), held), op)
  {
    hide AllocRange, Device.Valid;
    match op
    case Get =>
      var fpn := device.GetFreeFp();
      held' := if fpn.Some? then held + multiset{fpn.value} else held;
    case Alloc(n) =>
      ghost var r := AllocRange(device.free, n);
      ghost var nodes;
      var rc, frames;
      rc, frames, nodes := device.AllocPagesRange(n);
      held' := held + multiset(r.taken);
    case Put(f) =>
      device.PutFreeFp(f);
      held' := held - multiset{f};
  }

  /** Any legal sequence of operations on the linked list is the run on values. */
  method Perform(device: Device, ops: seq<Op>, ghost held: multiset<nat>) returns (ghost held': multiset<nat>)
    requires device.Valid() && LegalRun(State(device.free, held), ops)
    modifies device`freeFpList, device`nodes, device`free
    ensures device.Valid() && State(device.free, held') == Run(State(old(device.free), held), ops)
  {
    hide Step, Legal, Device.Valid;
    ghost var s := State(device.free, held);
    held' := held;
    assert ops[0..] == ops;
    for i := 0 to |ops|
      invariant device.Valid() && LegalRun(State(device.free, held'), ops[i..])
      invariant Run(State(device.free, held'), ops[i..]) == Run(s, ops)
    {
      assert ops[i..][0] == ops[i] && ops[i..][1..] == ops[i + 1..];
      held' := Do(device, ops[i], held');
    }
  }
}
