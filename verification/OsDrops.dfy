/** When a ready queue drops a process: exactly the lists of processes that give one priority
    to more than 50 of them can lose one, and with enough work the CPUs cannot help it. */
module OsDrops {
  import opened OsProgress
  import opened OsSlots
  import opened OsSystem
  import opened OsTimetable
  import opened ReadyQueue
  import opened Wrappers
  import B = Barrier
  import P = MlqPolicy
  import Places = OsPlaces
  import Quantum = OsQuantum

  // ---- How much the CPUs can have run ----

  /** The CPUs that can still take a step of their own in this slot. */
  ghost function Movers(s: State, k: nat): (r: nat)
    requires k <= |s.cpus| < |s.bar.devs|
    ensures r <= k
  {
    if k == 0 then 0 else Movers(s, k - 1) + if Share(s, k - 1) > 0 then 1 else 0
  }

  lemma {:induction false} MoversDiffer(s: State, t: State, c: int, k: nat)
    requires k <= |s.cpus| == |t.cpus| && |s.cpus| < |s.bar.devs| && |t.cpus| < |t.bar.devs|
    requires forall d | 0 <= d < k && d != c :: Share(t, d) == Share(s, d)
    requires 0 <= c < k ==> Share(t, c) == 0 || Share(s, c) > 0
    ensures Movers(t, k) <= Movers(s, k) - if 0 <= c < k && Share(s, c) > 0 && Share(t, c) == 0 then 1 else 0
  {
    hide Share;
    if k == 0 {
    } else {
      MoversDiffer(s, t, c, k - 1);
    }
  }

  lemma {:induction false} NoMovers(s: State, k: nat)
    requires k <= |s.cpus| < |s.bar.devs|
    requires forall c | 0 <= c < |s.cpus| :: Share(s, c) == 0
    ensures Movers(s, k) == 0
  {
    hide Share;
    if k == 0 {
    } else {
      NoMovers(s, k - 1);
    }
  }

  /** One run for each CPU in each slot so far. */
  function Capacity(cpus: nat, time: nat): nat { cpus * (time + 1) }

  lemma CapacityNext(cpus: nat, time: nat)
    ensures Capacity(cpus, time + 1) == Capacity(cpus, time) + cpus
  {
  }

  ghost predicate WithinCapacity(s: State) {
    |s.cpus| < |s.bar.devs| && Runs(s) + Movers(s, |s.cpus|) <= Capacity(|s.cpus|, s.bar.time)
  }

  /** A CPU step other than `run` changes no count of runs, and that one adds one. */
  lemma CpuRuns(s: State, c: nat)
    requires Quantum.Inv(s) && CpuEnabled(s, c)
    ensures c < |s.cpus| && Runs(CpuMove(s, c)) == Runs(s) + if s.cpus[c].pc == Exec then 1 else 0
  {
    EnabledInRange(s, c);
    HeldFacts(s, c);
    if s.cpus[c].pc.Fetch? && P.Get(s.sched).proc.Some? { Quantum.FetchedRests(s); }
    hide Quantum.Inv, P.Get, P.Put, P.State.Valid, Config.Valid, B.Enabled, B.Next, RunsOf;
    var t := CpuMove(s, c);
    if t.recs != s.recs {
      var j := if s.cpus[c].pc.Fetch? then P.Get(s.sched).proc.value.pid else s.cpus[c].proc.value.pid;
      RunsUpdate(s.recs, j, t.recs[j], |s.recs|);
    }
  }

  lemma LoaderRuns(s: State)
    requires LdEnabled(s)
    ensures Runs(LdMove(s)) == Runs(s)
  {
    hide P.Put, P.State.Valid, Config.Valid, B.Enabled, B.Next, RunsOf;
    if LdMove(s).recs != s.recs {
      RunsUpdate(s.recs, s.loaded, LdMove(s).recs[s.loaded], |s.recs|);
    }
  }

  /** Where a CPU that runs its process goes; and a CPU with nothing left gains nothing. */
  lemma MoverStep(s: State, c: nat)
    requires OsTimetable.Inv(s) && Enabled(s, CpuStep(c))
    ensures var t := Next(s, CpuStep(c));
            && c < |s.cpus| == |t.cpus| && |s.cpus| < |s.bar.devs| && |t.cpus| < |t.bar.devs|
            && (forall d | 0 <= d < |s.cpus| && d != c :: Share(t, d) == Share(s, d))
            && (Share(t, c) == 0 || Share(s, c) > 0)
            && (s.cpus[c].pc == Exec ==> Share(s, c) > 0 && Share(t, c) == 0)
  {
    SharesKept(s, CpuStep(c));
    hide OsTimetable.Inv, B.Left, B.Enabled, B.Next;
    if CpuBarrier(s.cpus[c].pc, DeviceOf(s, c)) == None {
      LocalCpuLeft(s, c);
      hide CpuEnabled, State.Shaped;
    }
  }

  lemma CapacityKept(s: State, e: Event)
    requires Base(s) && WithinCapacity(s) && Enabled(s, e)
    ensures WithinCapacity(Next(s, e))
  {
    hide OsTimetable.Inv, Quantum.Inv, LeftOk, Share, Runs, Movers, Capacity, Enabled, Next, State.Shaped;
    TimeOfStep(s, e);
    if e == Timer(B.Tick) {
      TickFacts(s);
      NoMovers(s, |s.cpus|);
      CapacityNext(|s.cpus|, s.bar.time);
      SameRuns(s, Next(s, e));
    } else {
      SharesKept(s, e);
      match e {
        case Timer(b) =>
          TimerRecs(s, b);
          SameRuns(s, Next(s, e));
          MoversDiffer(s, Next(s, e), -1, |s.cpus|);
        case LdStep =>
          IsLdMove(s);
          LoaderRuns(s);
          MoversDiffer(s, Next(s, e), -1, |s.cpus|);
        case CpuStep(c) =>
          IsCpuMove(s, c);
          MoverStep(s, c);
          CpuRuns(s, c);
          MoversDiffer(s, Next(s, e), c, |s.cpus|);
      }
    }
  }

  lemma SameRuns(s: State, t: State)
    requires t.recs == s.recs
    ensures Runs(t) == Runs(s)
  {
  }

  lemma TimerRecs(s: State, b: B.Event)
    requires Enabled(s, Timer(b))
    ensures Next(s, Timer(b)).recs == s.recs
  {
  }

  // ---- Counting a level ----

  ghost function LoadedOf(s: State, l: nat): set<nat>
    requires s.Shaped()
  {
    set j | j in Places.OfLevel(s.config.jobs, l) && j < s.loaded
  }

  ghost function DroppedOf(s: State, l: nat): set<nat>
    requires s.Shaped()
  {
    set j | j in Places.OfLevel(s.config.jobs, l) && s.recs[j].place == Dropped
  }

  ghost function FinishedOf(s: State, l: nat): set<nat>
    requires s.Shaped()
  {
    set j | j in Places.OfLevel(s.config.jobs, l) && s.recs[j].place == Finished
  }

  function HeldIds(cpus: seq<Cpu>): (ids: set<nat>)
    ensures |ids| <= |cpus|
    ensures forall c | 0 <= c < |cpus| && cpus[c].proc.Some? :: cpus[c].proc.value.pid in ids
  {
    if cpus == [] then {}
    else HeldIds(cpus[1..]) + if cpus[0].proc.Some? then {cpus[0].proc.value.pid} else {}
  }

  lemma UnionSize(a: set<nat>, b: set<nat>)
    ensures |a + b| <= |a| + |b|
  {
  }

  /** Of the loaded processes of a level at most 50 wait in its queue and one is on each CPU:
      all others have finished or were dropped. */
  lemma DroppedAtLeast(s: State, l: nat)
    requires Places.Inv(s) && l < MAX_PRIO
    ensures |LoadedOf(s, l)| <= 50 + |s.cpus| + |FinishedOf(s, l)| + |DroppedOf(s, l)|
  {
    var waiting, held := Places.Ids(s.sched.queues[l]), HeldIds(s.cpus);
    Places.QueueIds(s.config, s.sched.queues, s.recs, l);
    forall j | j in LoadedOf(s, l) ensures j in waiting + held + FinishedOf(s, l) + DroppedOf(s, l) {
      WhereItIs(s, l, j);
    }
    Places.SubsetSize(LoadedOf(s, l), waiting + held + FinishedOf(s, l) + DroppedOf(s, l));
    UnionSize(waiting, held);
    UnionSize(waiting + held, FinishedOf(s, l));
    UnionSize(waiting + held + FinishedOf(s, l), DroppedOf(s, l));
  }

  lemma WhereItIs(s: State, l: nat, j: nat)
    requires Places.Inv(s) && l < MAX_PRIO && j in LoadedOf(s, l)
    ensures j in Places.Ids(s.sched.queues[l]) || j in HeldIds(s.cpus) || j in FinishedOf(s, l) || j in DroppedOf(s, l)
  {
    if s.recs[j].place == Ready {
      assert s.config.ProcessOf(j) in s.sched.queues[l];
      IdIn(s.sched.queues[l], s.config.ProcessOf(j));
    }
  }

  lemma {:induction false} IdIn(q: seq<Process>, p: Process)
    requires p in q
    ensures p.pid in Places.Ids(q)
  {
    if p == q[0] {
    } else {
      IdIn(q[1..], p);
    }
  }

  // ---- When a drop is certain ----

  ghost predicate StaysDropped(recs: seq<Record>, recs': seq<Record>) {
    |recs'| == |recs| && forall j | 0 <= j < |recs| && recs[j].place == Dropped :: recs'[j].place == Dropped
  }

  lemma CpuDrops(s: State, c: nat)
    requires Quantum.Inv(s) && CpuEnabled(s, c)
    ensures StaysDropped(s.recs, CpuMove(s, c).recs)
  {
    EnabledInRange(s, c);
    HeldFacts(s, c);
    if s.cpus[c].pc.Fetch? && P.Get(s.sched).proc.Some? { Quantum.FetchedRests(s); }
    hide Quantum.Inv, P.Get, P.Put, P.State.Valid, Config.Valid, B.Enabled, B.Next;
  }

  lemma LoaderDrops(s: State)
    requires Places.Inv(s) && LdEnabled(s)
    ensures StaysDropped(s.recs, LdMove(s).recs)
  {
    assert s.ldPc == Spin ==> s.recs[s.loaded].place == NotLoaded;
    hide Places.Inv, P.Put, P.State.Valid, Config.Valid, B.Enabled, B.Next;
  }

  /** A dropped process never comes back. */
  lemma DroppedStays(s: State, e: Event)
    requires Quantum.Inv(s) && Enabled(s, e)
    ensures StaysDropped(s.recs, Next(s, e).recs) && Next(s, e).config == s.config
  {
    assert Places.Inv(s);
    hide Quantum.Inv, Places.Inv, CpuMove, LdMove, State.Shaped, StaysDropped;
    match e
    case Timer(b) => NoDrops(s.recs);
    case LdStep =>
      IsLdMove(s);
      LoaderDrops(s);
      LoaderAddsConfig(s);
    case CpuStep(c) =>
      IsCpuMove(s, c);
      CpuDrops(s, c);
      CpuKeepsLoaded(s, c);
  }

  lemma NoDrops(recs: seq<Record>)
    ensures StaysDropped(recs, recs)
  {
  }

  lemma LoaderAddsConfig(s: State)
    requires LdEnabled(s)
    ensures LdMove(s).config == s.config
  {
  }

  /** More processes of level l than its queue and the CPUs hold, each with more work than the
      CPUs can do before the last process is loaded. */
  ghost predicate Overloads(config: Config, l: nat) {
    && config.Valid() && config.jobs != [] && l < MAX_PRIO
    && |Places.OfLevel(config.jobs, l)| > 50 + config.cpus
    && forall j <- Places.OfLevel(config.jobs, l) ::
         Quantum.Work(config.jobs[j].size) > Capacity(config.cpus, Slot(config.jobs, |config.jobs| - 1))
  }

  /** The processes that queue and CPUs cannot hold are dropped once all are loaded. */
  ghost predicate DropsFollow(s: State, l: nat)
    requires s.Shaped()
  {
    s.config.jobs != [] && s.bar.time > Slot(s.config.jobs, |s.config.jobs| - 1) ==>
      |Places.OfLevel(s.config.jobs, l)| <= 50 + |s.cpus| + |DroppedOf(s, l)|
  }

  ghost predicate DropInv(s: State, l: nat) {
    Base(s) && WithinCapacity(s) && s.Shaped() && Overloads(s.config, l) && DropsFollow(s, l)
  }

  lemma {:induction false} RunsAtMost(recs: seq<Record>, j: nat, k: nat)
    requires j < k <= |recs|
    ensures recs[j].runs <= RunsOf(recs, k)
  {
    if j == k - 1 {
    } else {
      RunsAtMost(recs, j, k - 1);
    }
  }

  /** While the CPUs have not had the time, no process of an overloaded level has finished. */
  lemma NoneFinished(s: State, l: nat)
    requires Quantum.Inv(s) && s.Shaped() && Overloads(s.config, l)
    requires Runs(s) <= Capacity(s.config.cpus, Slot(s.config.jobs, |s.config.jobs| - 1))
    ensures FinishedOf(s, l) == {}
  {
    forall j | j in FinishedOf(s, l) ensures false {
      assert Quantum.RecordOk(s.recs[j], s.config.jobs[j].size, s.config.quantum, s.cpus);
      RunsAtMost(s.recs, j, |s.recs|);
    }
  }

  lemma FirstDrops(s: State, l: nat)
    requires Base(s) && WithinCapacity(s) && s.Shaped() && Overloads(s.config, l) && Enabled(s, Timer(B.Tick))
    requires s.bar.time == Slot(s.config.jobs, |s.config.jobs| - 1)
    ensures var t := Next(s, Timer(B.Tick)); t.Shaped() && t.config == s.config && DropsFollow(t, l)
  {
    hide OsTimetable.Inv, Quantum.Inv, LeftOk, Overloads, Slot, Runs, Movers, Capacity, Share;
    var t := Next(s, Timer(B.Tick));
    BaseNext(s, Timer(B.Tick));
    TimeOfStep(s, Timer(B.Tick));
    TimerRecs(s, B.Tick);
    SameRuns(s, t);
    InvFacts(t);
    NotEmpty(s.config, l);
    TimerConfig(s);
    AllLoadedAt(t);
    PlacesInv(t);
    CpusShape(s);
    assert Runs(t) <= Capacity(s.config.cpus, s.bar.time);
    NoneFinished(t, l);
    assert LoadedOf(t, l) == Places.OfLevel(t.config.jobs, l);
    NotEmptyLevel(s.config, l);
    DroppedAtLeast(t, l);
  }

  lemma NotEmpty(config: Config, l: nat)
    requires Overloads(config, l)
    ensures config.jobs != []
  {
  }

  lemma NotEmptyLevel(config: Config, l: nat)
    requires Overloads(config, l)
    ensures l < MAX_PRIO
  {
  }

  lemma TimerConfig(s: State)
    requires Enabled(s, Timer(B.Tick))
    ensures Next(s, Timer(B.Tick)).config == s.config && Next(s, Timer(B.Tick)).cpus == s.cpus
  {
  }

  lemma CpusShape(s: State)
    requires s.Shaped()
    ensures |s.cpus| == s.config.cpus
  {
  }

  lemma PlacesInv(s: State)
    requires Quantum.Inv(s)
    ensures Places.Inv(s)
  {
  }

  lemma StillDropped(s: State, t: State, l: nat)
    requires s.Shaped() && t.Shaped() && t.config == s.config && StaysDropped(s.recs, t.recs) && DropsFollow(s, l)
    requires s.config.jobs != [] && s.bar.time > Slot(s.config.jobs, |s.config.jobs| - 1)
    ensures DropsFollow(t, l)
  {
    hide Slot;
    assert DroppedOf(s, l) <= DroppedOf(t, l);
    Places.SubsetSize(DroppedOf(s, l), DroppedOf(t, l));
  }

  lemma DropNext(s: State, l: nat, e: Event)
    requires DropInv(s, l) && Enabled(s, e)
    ensures DropInv(Next(s, e), l)
  {
    hide OsTimetable.Inv, Quantum.Inv, LeftOk, Overloads, Slot, StaysDropped;
    hide DropsFollow, WithinCapacity, Enabled, Next, State.Shaped;
    var t := Next(s, e);
    BaseNext(s, e);
    CapacityKept(s, e);
    DroppedStays(s, e);
    TimeOfStep(s, e);
    InvFacts(t);
    NotEmpty(s.config, l);
    if s.bar.time > Slot(s.config.jobs, |s.config.jobs| - 1) {
      StillDropped(s, t, l);
    } else if e == Timer(B.Tick) && s.bar.time == Slot(s.config.jobs, |s.config.jobs| - 1) {
      FirstDrops(s, l);
    } else {
      NotYet(t, l);
    }
  }

  lemma NotYet(s: State, l: nat)
    requires s.Shaped() && s.config.jobs != [] && s.bar.time <= Slot(s.config.jobs, |s.config.jobs| - 1)
    ensures DropsFollow(s, l)
  {
  }

  lemma {:induction false} DropRun(s: State, l: nat, events: seq<Event>)
    requires DropInv(s, l) && LegalRun(s, events)
    ensures DropInv(Run(s, events), l)
    decreases |events|, s.config
  {
    if events == [] {
    } else {
      hide DropInv, Next, Enabled;
      DropNext(s, l, events[0]);
      DropRun(Next(s, events[0]), l, events[1..]);
    }
  }

  lemma DropInit(config: Config, l: nat)
    requires Overloads(config, l)
    ensures DropInv(Init(config), l)
  {
    BaseInit(config);
    NoRuns(Init(config), |config.jobs|);
    MoversAtMost(Init(config));
    hide Base, Overloads, Slot, Movers, RunsOf;
  }

  lemma {:induction false} NoRuns(s: State, k: nat)
    requires k <= |s.recs| && forall j | 0 <= j < |s.recs| :: s.recs[j].runs == 0
    ensures RunsOf(s.recs, k) == 0
  {
    if k == 0 {
    } else {
      NoRuns(s, k - 1);
    }
  }

  lemma MoversAtMost(s: State)
    requires s.bar.time == 0 && |s.cpus| < |s.bar.devs|
    ensures Movers(s, |s.cpus|) <= Capacity(|s.cpus|, s.bar.time)
  {
  }

  /** With any number of CPUs: if more processes of one level than its queue and the CPUs hold
      have more work than the CPUs can do before the last one is loaded, then in every run that
      has passed the last loading slot all the others were dropped. */
  lemma EveryRunDrops(config: Config, l: nat, events: seq<Event>)
    requires Overloads(config, l) && LegalRun(Init(config), events)
    requires Run(Init(config), events).bar.time > Slot(config.jobs, |config.jobs| - 1)
    ensures var s := Run(Init(config), events);
            s.Shaped() && s.config == config
            && |DroppedOf(s, l)| >= |Places.OfLevel(config.jobs, l)| - 50 - config.cpus
  {
    hide Overloads, Base, WithinCapacity, Init, LegalRun, OsSystem.Run, Slot, State.Shaped;
    DropInit(config, l);
    DropRun(Init(config), l, events);
    Places.ConfigKept(Init(config), events);
    InitConfig(config);
    var s := Run(Init(config), events);
    CpusShape(s);
    NotEmpty(config, l);
  }

  // ---- Runs that go on ----

  /** A run can be continued until it has any length, or the timer has exited. */
  lemma {:induction false} GoOn(s: State, m: nat) returns (events: seq<Event>)
    requires OsTimetable.Inv(s)
    ensures LegalRun(s, events) && |events| <= m
    ensures |events| == m || Run(s, events).bar.pc == B.Exited
    decreases m
  {
    if m == 0 || s.bar.pc == B.Exited {
      events := [];
    } else {
      SomeoneCanStep(s);
      var e :| Enabled(s, e);
      OsTimetable.NextInv(s, e);
      hide OsTimetable.Inv, Enabled, Next;
      var rest := GoOn(Next(s, e), m - 1);
      events := [e] + rest;
      assert events[1..] == rest;
    }
  }

  /** Every configuration has a run past its last loading slot. */
  lemma RunPastLoading(config: Config) returns (events: seq<Event>)
    requires config.Valid() && config.jobs != []
    ensures LegalRun(Init(config), events)
    ensures Run(Init(config), events).bar.time > Slot(config.jobs, |config.jobs| - 1)
  {
    hide OsTimetable.Inv, Quantum.Inv, LeftOk, Init, LegalRun, OsSystem.Run, Slot;
    BaseInit(config);
    var last := Slot(config.jobs, |config.jobs| - 1);
    events := GoOn(Init(config), (last + 1) * (8 * config.cpus + 10));
    RunReachesSlot(config, events, last);
    BaseRun(Init(config), events);
    Places.ConfigKept(Init(config), events);
    InitConfig(config);
    if Run(Init(config), events).bar.pc == B.Exited {
      ExitedLate(Run(Init(config), events));
    }
  }

  // ---- Exactly which lists of processes can lose one ----

  ghost predicate Drops(config: Config, events: seq<Event>, j: nat) {
    LegalRun(Init(config), events) && j < |Run(Init(config), events).recs|
    && Run(Init(config), events).recs[j].place == Dropped
  }

  ghost predicate LevelDrops(config: Config, events: seq<Event>, l: nat, j: nat) {
    j < |config.jobs| && config.jobs[j].prio == l && Drops(config, events, j)
  }

  /** With no CPU at all, a level with more than 50 processes overloads its queue. */
  lemma FullLevelOverloads(config: Config, l: nat)
    requires config.Valid() && config.cpus == 0 && l < MAX_PRIO && !Places.Roomy(config.jobs, l)
    ensures Overloads(config, l)
  {
    EmptyLevel(config.jobs, l);
    hide Slot, Places.OfLevel;
  }

  lemma EmptyLevel(jobs: seq<Job>, l: nat)
    ensures jobs == [] ==> Places.OfLevel(jobs, l) == {}
  {
  }

  lemma FullLevelDrops(config: Config, l: nat) returns (events: seq<Event>, j: nat)
    requires config.Valid() && config.cpus == 0 && l < MAX_PRIO && !Places.Roomy(config.jobs, l)
    ensures LevelDrops(config, events, l, j)
  {
    FullLevelOverloads(config, l);
    NotEmpty(config, l);
    events := RunPastLoading(config);
    EveryRunDrops(config, l, events);
    var s := Run(Init(config), events);
    hide Overloads, Init, LegalRun, OsSystem.Run, Slot;
    assert DroppedOf(s, l) != {};
    j :| j in DroppedOf(s, l);
  }

  /** The exact condition, level by level: some number of CPUs, some run and some process of
      that level that is dropped exist if and only if more than 50 processes have the level. */
  lemma DropsExactly(jobs: seq<Job>, quantum: int, l: nat)
    requires Config(jobs, quantum, 0).Valid() && l < MAX_PRIO
    ensures (exists cpus, events, j :: LevelDrops(Config(jobs, quantum, cpus), events, l, j))
            <==> |Places.OfLevel(jobs, l)| > 50
  {
    if !Places.Roomy(jobs, l) {
      var events, j := FullLevelDrops(Config(jobs, quantum, 0), l);
      assert LevelDrops(Config(jobs, quantum, 0), events, l, j);
    } else {
      forall cpus, events, j ensures !LevelDrops(Config(jobs, quantum, cpus), events, l, j) {
        NeverDrops(Config(jobs, quantum, cpus), events, l, j);
      }
    }
  }

  lemma NeverDrops(config: Config, events: seq<Event>, l: nat, j: nat)
    requires config.Valid() && Places.Roomy(config.jobs, l)
    ensures !LevelDrops(config, events, l, j)
  {
    if LevelDrops(config, events, l, j) {
      hide Init, LegalRun, OsSystem.Run, Places.Roomy;
      Places.ProcessConservation(config, events, j);
      assert false;
    }
  }

  // ---- Inputs ----

  lemma {:induction false} UpTo(n: nat) returns (ids: set<nat>)
    ensures |ids| == n && forall j: nat :: j in ids <==> j < n
  {
    if n == 0 {
      ids := {};
    } else {
      var rest := UpTo(n - 1);
      ids := rest + {n - 1};
    }
  }

  function Same(n: nat, size: nat): (jobs: seq<Job>)
    ensures |jobs| == n && forall j | 0 <= j < n :: jobs[j] == Job(0, 0, size)
  {
    seq(n, _ => Job(0, 0, size))
  }

  lemma SameLevel(n: nat, size: nat)
    ensures |Places.OfLevel(Same(n, size), 0)| == n
  {
    var ids := UpTo(n);
    assert Places.OfLevel(Same(n, size), 0) == ids;
  }

  lemma {:induction false} SameSlots(n: nat, size: nat, i: nat)
    requires i < n
    ensures Slot(Same(n, size), i) == i
  {
    if i == 0 {
    } else {
      SameSlots(n, size, i - 1);
    }
  }

  /** The smallest input: 51 processes of priority 0, and no CPU to take one. */
  lemma FiftyOneDrop(size: nat, quantum: int) returns (events: seq<Event>, j: nat)
    ensures LevelDrops(Config(Same(51, size), quantum, 0), events, 0, j)
  {
    SameLevel(51, size);
    hide Same, Places.OfLevel;
    events, j := FullLevelDrops(Config(Same(51, size), quantum, 0), 0);
  }

  /** With a CPU: 52 processes of priority 0 and 53 instructions each. Every run that has
      passed slot 51 has dropped one. */
  lemma OneCpuDrops(quantum: int, events: seq<Event>)
    requires LegalRun(Init(Config(Same(52, 53), quantum, 1)), events)
    requires Run(Init(Config(Same(52, 53), quantum, 1)), events).bar.time > 51
    ensures exists j :: Drops(Config(Same(52, 53), quantum, 1), events, j)
  {
    var config := Config(Same(52, 53), quantum, 1);
    SameLevel(52, 53);
    SameSlots(52, 53, 51);
    assert Overloads(config, 0);
    var s := Run(Init(config), events);
    hide Overloads, Init, LegalRun, OsSystem.Run, Slot, Same;
    EveryRunDrops(config, 0, events);
    assert DroppedOf(s, 0) != {};
    var j :| j in DroppedOf(s, 0);
    assert Drops(config, events, j);
  }
}
