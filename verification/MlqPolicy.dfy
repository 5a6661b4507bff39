/** The multilevel-queue policy of `get_mlq_proc` (src/sched.c) on values: 140 queues, the
    level being served and how much of that level's budget is used. */
module MlqPolicy {
  import opened Bits
  import opened ReadyQueue
  import opened Wrappers

  datatype State = State(queues: seq<seq<Process>>, current: nat, used: int) {
    predicate Valid() {
      |queues| == MAX_PRIO && current < MAX_PRIO && 0 <= used <= Budget(current)
    }
  }

  /** `slot[prio]`. */
  function Budget(prio: nat): int { MAX_PRIO - prio }

  const START := State(seq(MAX_PRIO, _ => []), 0, 0)

  /** The most urgent non-empty level, MAX_PRIO if there is none. */
  function MostUrgent(queues: seq<seq<Process>>): (h: nat)
    ensures h <= |queues|
    ensures h < |queues| ==> queues[h] != []
    ensures forall i | 0 <= i < h :: queues[i] == []
  {
    if queues == [] || queues[0] != [] then 0 else 1 + MostUrgent(queues[1..])
  }

  /** The level `Cyclic(current, i)`. */
  function Cyclic(current: nat, i: nat): (l: nat)
    ensures l < MAX_PRIO
    ensures current + i < MAX_PRIO ==> l == current + i
    ensures MAX_PRIO <= current + i < 2 * MAX_PRIO ==> l == current + i - MAX_PRIO
  {
    (current + i) % MAX_PRIO
  }

  /** The search `for (i = 1; i < MAX_PRIO + 1; i++)`: the first distance, from i on, at which
      a non-empty level is found, MAX_PRIO + 1 if none is. */
  function NextFrom(queues: seq<seq<Process>>, current: nat, i: nat): (d: nat)
    requires |queues| == MAX_PRIO && i <= MAX_PRIO + 1
    ensures i <= d <= MAX_PRIO + 1
    ensures d <= MAX_PRIO ==> queues[Cyclic(current, d)] != []
    ensures forall k | i <= k < d :: queues[Cyclic(current, k)] == []
    decreases MAX_PRIO + 1 - i
  {
    if i == MAX_PRIO + 1 || queues[Cyclic(current, i)] != [] then i else NextFrom(queues, current, i + 1)
  }

  datatype Outcome = Outcome(proc: Option<Process>, state: State)

  function Take(s: State, level: nat, used: int): (r: Outcome)
    requires level < |s.queues| && s.queues[level] != []
  {
    Outcome(Some(s.queues[level][0]), State(s.queues[level := s.queues[level][1..]], level, used))
  }

  /** The second half of `get_mlq_proc`: serve the current level while its budget lasts,
      otherwise the next non-empty level. */
  function Serve(s: State): Outcome
    requires s.Valid()
  {
    if s.used < Budget(s.current) && s.queues[s.current] != [] then Take(s, s.current, s.used + 1)
    else
      var d := NextFrom(s.queues, s.current, 1);
      if d == MAX_PRIO + 1 then Outcome(None, State(s.queues, s.current, 0))
      else Take(s, Cyclic(s.current, d), 1)
  }

  /** `get_mlq_proc`: a more urgent level, or an empty current one, first moves the service
      to the most urgent level. */
  function Get(s: State): Outcome
    requires s.Valid()
  {
    var h := MostUrgent(s.queues);
    if h == MAX_PRIO then Outcome(None, s)
    else if s.queues[s.current] == [] || h < s.current then Serve(State(s.queues, h, 0))
    else Serve(s)
  }

  /** `put_mlq_proc` and `add_mlq_proc`: the process joins its own level. */
  function Put(s: State, p: Process): State
    requires s.Valid() && p.prio < MAX_PRIO
  {
    s.(queues := s.queues[p.prio := Enqueued(s.queues[p.prio], p)])
  }

  // ---- Which level is served ----

  predicate AllEmpty(queues: seq<seq<Process>>) {
    forall i | 0 <= i < |queues| :: queues[i] == []
  }

  /** p is the most urgent non-empty level. */
  predicate Top(queues: seq<seq<Process>>, p: nat) {
    p < |queues| && queues[p] != [] && forall i | 0 <= i < p :: queues[i] == []
  }

  /** p and q are the two most urgent non-empty levels. */
  predicate TopTwo(queues: seq<seq<Process>>, p: nat, q: nat) {
    Top(queues, p) && p < q < |queues| && queues[q] != [] && forall i | p < i < q :: queues[i] == []
  }

  /** How much of level p's budget is gone when p is the most urgent level: a level that was
      not being served starts afresh. */
  function UsedAt(s: State, p: nat): int {
    if s.current == p then s.used else 0
  }

  /** The dispatch takes the head of level l and leaves every other level alone. */
  ghost predicate Serves(s: State, l: nat) {
    s.Valid() && l < MAX_PRIO && s.queues[l] != [] &&
    Get(s).proc == Some(s.queues[l][0]) && Get(s).state.queues == s.queues[l := s.queues[l][1..]]
    && Get(s).state.current == l
  }

  lemma TopIsMostUrgent(queues: seq<seq<Process>>, p: nat)
    requires Top(queues, p)
    ensures MostUrgent(queues) == p
  {
    var h := MostUrgent(queues);
    assert !(h < p) && !(h > p);
  }

  lemma NextIs(queues: seq<seq<Process>>, current: nat, d: nat)
    requires |queues| == MAX_PRIO && 1 <= d <= MAX_PRIO && queues[Cyclic(current, d)] != []
    requires forall i | 1 <= i < d :: queues[Cyclic(current, i)] == []
    ensures NextFrom(queues, current, 1) == d
  {
    var e := NextFrom(queues, current, 1);
    assert !(e < d) && !(d < e);
  }

  /** Level p may be served 140 - p times in a row. With some of that left, the most urgent
      level is served and one unit is used. */
  lemma ServesTop(s: State, p: nat)
    requires s.Valid() && Top(s.queues, p) && UsedAt(s, p) < 140 - p
    ensures Serves(s, p) && Get(s).state.used == UsedAt(s, p) + 1
  {
    hide MostUrgent, NextFrom, Cyclic;
    TopIsMostUrgent(s.queues, p);
  }

  /** With the budget used up, one dispatch goes to the next level and its count restarts. */
  lemma ServesSecond(s: State, p: nat, q: nat)
    requires s.Valid() && TopTwo(s.queues, p, q) && UsedAt(s, p) == 140 - p
    ensures Serves(s, q) && Get(s).state.used == 1
  {
    hide MostUrgent, NextFrom, Cyclic;
    TopIsMostUrgent(s.queues, p);
    NextIs(s.queues, p, q - p);
  }

  /** With the budget used up and no other level waiting, the search comes round to the same
      level. */
  lemma ServesAlone(s: State, p: nat)
    requires s.Valid() && Top(s.queues, p) && UsedAt(s, p) == 140 - p
    requires forall i | p < i < 140 :: s.queues[i] == []
    ensures Serves(s, p) && Get(s).state.used == 1
  {
    hide MostUrgent, NextFrom, Cyclic;
    TopIsMostUrgent(s.queues, p);
    NextIs(s.queues, p, MAX_PRIO);
  }

  /** The most urgent level after p, MAX_PRIO if there is none. */
  function Second(queues: seq<seq<Process>>, p: nat): (q: nat)
    requires p < |queues|
    ensures p < q <= |queues| && (q < |queues| ==> queues[q] != [])
    ensures forall i | p < i < q :: queues[i] == []
  {
    p + 1 + MostUrgent(queues[p + 1..])
  }

  /** The served level: nothing is dispatched exactly when every queue is empty. Otherwise
      the head of the most urgent level leaves, unless that level's budget is used up and a
      second level waits: then that one is served once. No lower level is ever served, and
      the budget stays within its bounds. */
  lemma ServedLevel(s: State)
    requires s.Valid()
    ensures Get(s).state.Valid()
    ensures Get(s).proc == None <==> AllEmpty(s.queues)
    ensures AllEmpty(s.queues) ==> Get(s).state == s
    ensures !AllEmpty(s.queues) ==>
              var p := MostUrgent(s.queues);
              p < 140 && Top(s.queues, p) && var q := Second(s.queues, p);
              if UsedAt(s, p) < 140 - p || q == 140 then Serves(s, p) else Serves(s, q)
  {
    var p := MostUrgent(s.queues);
    if p < MAX_PRIO {
      assert Top(s.queues, p);
      var q := Second(s.queues, p);
      if UsedAt(s, p) < Budget(p) {
        ServesTop(s, p);
      } else if q < MAX_PRIO {
        ServesSecond(s, p, q);
      } else {
        ServesAlone(s, p);
      }
    }
  }

  // ---- Fair share ----

  /** The levels served by successive dispatches. Between dispatches the queues change in
      any way; `configs` holds their contents at each call. */
  function Levels(current: nat, used: int, configs: seq<seq<seq<Process>>>): (levels: seq<nat>)
    requires current < MAX_PRIO && 0 <= used <= Budget(current)
    requires forall c <- configs :: |c| == MAX_PRIO
    ensures |levels| == |configs|
    decreases |configs|
  {
    if configs == [] then []
    else
      var s := State(configs[0], current, used);
      ServedLevel(s);
      var t := Get(s).state;
      [t.current] + Levels(t.current, t.used, configs[1..])
  }

  /** A count that runs 0, 1, ..., b, 0, 1, ...: its value k steps on from phase. */
  function PhaseAt(phase: nat, k: nat, b: nat): (r: nat)
    requires phase <= b
    ensures r <= b
    decreases k
  {
    if k == 0 then phase else PhaseAt(if phase == b then 0 else phase + 1, k - 1, b)
  }

  lemma {:induction false} PhaseIsModular(phase: nat, k: nat, b: nat)
    requires phase <= b
    ensures PhaseAt(phase, k, b) == (phase + k) % (b + 1)
    decreases k
  {
    if k == 0 {
      DivModUnique(phase, b + 1, 0, phase);
    } else if phase < b {
      PhaseIsModular(phase + 1, k - 1, b);
    } else {
      PhaseIsModular(0, k - 1, b);
      var d := (k - 1) / (b + 1);
      assert k - 1 == (b + 1) * d + (k - 1) % (b + 1);
      DivModUnique(phase + k, b + 1, d + 1, (k - 1) % (b + 1));
    }
  }

  lemma {:induction false} PhaseAdds(phase: nat, j: nat, k: nat, b: nat)
    requires phase <= b
    ensures PhaseAt(PhaseAt(phase, j, b), k, b) == PhaseAt(phase, j + k, b)
    decreases j
  {
    if j == 0 {
    } else {
      PhaseAdds(if phase == b then 0 else phase + 1, j - 1, k, b);
    }
  }

  /** One dispatch while p and q are the two most urgent levels: whose turn it is, and how
      much of p's budget is used afterwards. */
  lemma OneDispatch(s: State, p: nat, q: nat)
    requires s.Valid() && p < MAX_PRIO && TopTwo(s.queues, p, q)
    ensures var t := Get(s).state;
            && t.Valid() && t.current == (if UsedAt(s, p) == Budget(p) then q else p)
            && UsedAt(t, p) == if UsedAt(s, p) == Budget(p) then 0 else UsedAt(s, p) + 1
  {
    hide Get, TopTwo;
    TopTwoTop(s.queues, p, q);
    ServedLevel(s);
    if UsedAt(s, p) < Budget(p) {
      ServesTop(s, p);
    } else {
      ServesSecond(s, p, q);
    }
  }

  lemma PhaseStep(phase: nat, k: nat, b: nat)
    requires phase <= b
    ensures PhaseAt(phase, 0, b) == phase
    ensures k > 0 ==> PhaseAt(phase, k, b) == PhaseAt(if phase == b then 0 else phase + 1, k - 1, b)
  {
  }

  lemma LevelsNext(current: nat, used: int, configs: seq<seq<seq<Process>>>)
    requires current < MAX_PRIO && 0 <= used <= Budget(current)
    requires configs != [] && forall c <- configs :: |c| == MAX_PRIO
    ensures var t := Get(State(configs[0], current, used)).state;
            t.Valid() && Levels(current, used, configs) == [t.current] + Levels(t.current, t.used, configs[1..])
  {
    hide Get;
    ServedLevel(State(configs[0], current, used));
  }

  lemma {:induction false} Schedule(current: nat, used: int, configs: seq<seq<seq<Process>>>, p: nat, q: nat, k: nat)
    requires current < MAX_PRIO && 0 <= used <= Budget(current)
    requires p < MAX_PRIO && forall c <- configs :: |c| == MAX_PRIO && TopTwo(c, p, q)
    requires k < |configs|
    ensures var phase := if current == p then used else 0;
            Levels(current, used, configs)[k] == if PhaseAt(phase, k, Budget(p)) == Budget(p) then q else p
    decreases k
  {
    hide Get, TopTwo, Levels, PhaseAt, Top;
    var s := State(configs[0], current, used);
    LevelsNext(current, used, configs);
    OneDispatch(s, p, q);
    var t, b := Get(s).state, Budget(p);
    PhaseStep(UsedAt(s, p), k, b);
    if k == 0 {
      assert Levels(current, used, configs)[0] == t.current;
    } else {
      Schedule(t.current, t.used, configs[1..], p, q, k - 1);
      assert Levels(current, used, configs)[k] == Levels(t.current, t.used, configs[1..])[k - 1];
    }
  }

  lemma TopTwoTop(queues: seq<seq<Process>>, p: nat, q: nat)
    requires TopTwo(queues, p, q)
    ensures Top(queues, p) && p < q
  {
  }

  /** While p and q stay the two most urgent levels, dispatch k goes to q exactly when the
      used budget, counted on from the start modulo 141 - p, stands at 140 - p. */
  lemma ExactSchedule(current: nat, used: int, configs: seq<seq<seq<Process>>>, p: nat, q: nat, k: nat)
    requires current < 140 && 0 <= used <= 140 - current
    requires p < 140 && forall c <- configs :: |c| == 140 && TopTwo(c, p, q)
    requires k < |configs|
    ensures var phase := if current == p then used else 0;
            Levels(current, used, configs)[k] == if (phase + k) % (141 - p) == 140 - p then q else p
  {
    hide Levels, TopTwo;
    Schedule(current, used, configs, p, q, k);
    PhaseIsModular(if current == p then used else 0, k, Budget(p));
  }

  function Count(levels: seq<nat>, l: nat): nat {
    if levels == [] then 0 else (if levels[0] == l then 1 else 0) + Count(levels[1..], l)
  }

  lemma {:induction false} CountPeriod(levels: seq<nat>, p: nat, q: nat, phase: nat, b: nat)
    requires p != q && phase <= b && |levels| <= b + 1
    requires forall k | 0 <= k < |levels| :: levels[k] == if PhaseAt(phase, k, b) == b then q else p
    ensures Count(levels, q) == if phase + |levels| > b then 1 else 0
    ensures Count(levels, p) == |levels| - Count(levels, q)
    decreases |levels|
  {
    if levels == [] {
    } else {
      var next := if phase == b then 0 else phase + 1;
      forall k | 0 <= k < |levels| - 1 ensures levels[1..][k] == if PhaseAt(next, k, b) == b then q else p {
        assert PhaseAt(phase, k + 1, b) == PhaseAt(next, k, b);
      }
      CountPeriod(levels[1..], p, q, next, b);
      assert PhaseAt(phase, 0, b) == phase;
    }
  }

  lemma WindowSchedule(current: nat, used: int, configs: seq<seq<seq<Process>>>, p: nat, q: nat, from: nat, n: nat)
    requires current < MAX_PRIO && 0 <= used <= Budget(current)
    requires p < MAX_PRIO && forall c <- configs :: |c| == MAX_PRIO && TopTwo(c, p, q)
    requires from + n <= |configs|
    ensures var phase := PhaseAt(if current == p then used else 0, from, Budget(p));
            forall k | 0 <= k < n ::
              Levels(current, used, configs)[from..from + n][k] ==
                if PhaseAt(phase, k, Budget(p)) == Budget(p) then q else p
  {
    hide Levels, TopTwo, PhaseAt;
    var phase := PhaseAt(if current == p then used else 0, from, Budget(p));
    forall k | 0 <= k < n
      ensures Levels(current, used, configs)[from..from + n][k] ==
              if PhaseAt(phase, k, Budget(p)) == Budget(p) then q else p
    {
      Schedule(current, used, configs, p, q, from + k);
      PhaseAdds(if current == p then used else 0, from, k, Budget(p));
    }
  }

  /** Exact fair share: from any valid scheduler state, and whatever happens to the queues
      between calls, while p and q are the two most urgent non-empty levels every window of
      141 - p consecutive dispatches serves q exactly once and p exactly 140 - p times. */
  lemma FairShare(current: nat, used: int, configs: seq<seq<seq<Process>>>, p: nat, q: nat, from: nat)
    requires current < 140 && 0 <= used <= 140 - current
    requires forall c <- configs :: |c| == 140 && TopTwo(c, p, q)
    requires p < 140 && from + (141 - p) <= |configs|
    ensures var window := Levels(current, used, configs)[from..from + (141 - p)];
            Count(window, q) == 1 && Count(window, p) == 140 - p
  {
    hide Levels, TopTwo, Top, Count, PhaseAt;
    TopTwoTop(configs[from], p, q);
    var n: nat := Budget(p) + 1;
    WindowSchedule(current, used, configs, p, q, from, n);
    var phase := PhaseAt(if current == p then used else 0, from, Budget(p));
    CountPeriod(Levels(current, used, configs)[from..from + n], p, q, phase, Budget(p));
  }

  // ---- First in, first out within a level ----

  datatype Op = Join(proc: Process) | Dispatch

  predicate Legal(op: Op) {
    op.Join? ==> op.proc.prio < MAX_PRIO
  }

  function Step(s: State, op: Op): (t: State)
    requires s.Valid() && Legal(op)
    ensures t.Valid()
  {
    ServedLevel(s);
    match op
    case Join(p) => Put(s, p)
    case Dispatch => Get(s).state
  }

  function Run(s: State, ops: seq<Op>): (t: State)
    requires s.Valid() && forall op <- ops :: Legal(op)
    ensures t.Valid()
    decreases |ops|
  {
    if ops == [] then s else Run(Step(s, ops[0]), ops[1..])
  }

  /** What level l accepts at a step: a process that finds fewer than 50 in its queue. */
  function AcceptedBy(s: State, op: Op, l: nat): seq<Process>
    requires s.Valid() && l < MAX_PRIO
  {
    if op.Join? && op.proc.prio == l && |s.queues[l]| < 50 then [op.proc] else []
  }

  /** What is dispatched from level l at a step. */
  function DispatchedBy(s: State, op: Op, l: nat): seq<Process>
    requires s.Valid()
  {
    if op.Dispatch? && Get(s).proc.Some? && Get(s).state.current == l then [Get(s).proc.value] else []
  }

  function Accepted(s: State, ops: seq<Op>, l: nat): seq<Process>
    requires s.Valid() && l < MAX_PRIO && forall op <- ops :: Legal(op)
    decreases |ops|
  {
    if ops == [] then [] else AcceptedBy(s, ops[0], l) + Accepted(Step(s, ops[0]), ops[1..], l)
  }

  function Dispatched(s: State, ops: seq<Op>, l: nat): seq<Process>
    requires s.Valid() && l < MAX_PRIO && forall op <- ops :: Legal(op)
    decreases |ops|
  {
    if ops == [] then [] else DispatchedBy(s, ops[0], l) + Dispatched(Step(s, ops[0]), ops[1..], l)
  }

  lemma StepFifo(s: State, op: Op, l: nat)
    requires s.Valid() && l < MAX_PRIO && Legal(op)
    ensures s.queues[l] + AcceptedBy(s, op, l) == DispatchedBy(s, op, l) + Step(s, op).queues[l]
    ensures op.Join? ==> Step(s, op).current == s.current && Step(s, op).used == s.used
  {
    hide Get, Second, MostUrgent;
    ServedLevel(s);
    match op
    case Join(p) =>
    case Dispatch =>
      if Get(s).proc.Some? && Get(s).state.current == l {
        assert s.queues[l] == [s.queues[l][0]] + s.queues[l][1..];
      }
  }

  lemma Regroup<T>(q: seq<T>, a: seq<T>, d: seq<T>, q': seq<T>, a': seq<T>, d': seq<T>, q'': seq<T>)
    requires q + a == d + q' && q' + a' == d' + q''
    ensures q + (a + a') == (d + d') + q''
  {
    assert q + (a + a') == (q + a) + a' == d + (q' + a');
    assert (d + d') + q'' == d + (d' + q'');
  }

  /** Per-level FIFO over any run: what a level held at the start followed by what it accepted
      is what was dispatched from it followed by what it still holds, in the same order. */
  lemma {:induction false} LevelIsFifo(s: State, ops: seq<Op>, l: nat)
    requires s.Valid() && l < MAX_PRIO && forall op <- ops :: Legal(op)
    ensures s.queues[l] + Accepted(s, ops, l) == Dispatched(s, ops, l) + Run(s, ops).queues[l]
    decreases |ops|
  {
    if ops == [] {
    } else {
      hide Step, Get, AcceptedBy, DispatchedBy;
      var t := Step(s, ops[0]);
      StepFifo(s, ops[0], l);
      LevelIsFifo(t, ops[1..], l);
      Regroup(s.queues[l], AcceptedBy(s, ops[0], l), DispatchedBy(s, ops[0], l), t.queues[l],
              Accepted(t, ops[1..], l), Dispatched(t, ops[1..], l), Run(t, ops[1..]).queues[l]);
    }
  }
}
