/** Work gets done: once a process is loaded, every slot in which some process is not yet
    finished runs at least one instruction, so every process finishes by a bounded slot. */
module OsProgress {
  import opened OsSlots
  import opened OsSystem
  import opened OsTimetable
  import opened Wrappers
  import B = Barrier
  import P = MlqPolicy
  import Places = OsPlaces
  import Quantum = OsQuantum

  // ---- When the loader and the CPUs may leave ----

  ghost predicate LeftOk(s: State) {
    && (s.done <==> s.ldPc == LdLeaving || s.ldPc == LdEnded)
    && (s.done ==> s.loaded == |s.config.jobs| && s.bar.time >= Earliest(s.config.jobs, |s.config.jobs|))
    && (forall c | 0 <= c < |s.cpus| && (s.cpus[c].pc == Leaving || s.cpus[c].pc == Ended) :: s.done)
  }

  ghost predicate Base(s: State) {
    OsTimetable.Inv(s) && Quantum.Inv(s) && LeftOk(s)
  }

  lemma BaseInit(config: Config)
    requires config.Valid()
    ensures Base(Init(config))
  {
    OsTimetable.InitInv(config);
    Quantum.InitInv(config);
    hide OsTimetable.Inv, Quantum.Inv;
  }

  lemma CpuLeaves(s: State, c: nat)
    requires s.Shaped() && LeftOk(s) && CpuEnabled(s, c)
    ensures LeftOk(CpuMove(s, c))
  {
    if CpuBarrier(s.cpus[c].pc, DeviceOf(s, c)).Some? {
      B.SameDevices(s.bar, CpuBarrier(s.cpus[c].pc, DeviceOf(s, c)).value);
    }
    hide P.Get, P.Put, P.State.Valid, Config.Valid, B.Enabled, B.Next;
  }

  lemma LoaderLeaves(s: State)
    requires OsTimetable.Inv(s) && LeftOk(s) && LdEnabled(s)
    ensures LeftOk(LdMove(s))
  {
    if LdBarrier(s.ldPc).Some? {
      B.SameDevices(s.bar, LdBarrier(s.ldPc).value);
    } else {
      LoaderSeesItsClock(s);
      assert OnTime(s.config.jobs, s.loaded, s.ldPc, s.bar.time);
    }
    hide OsTimetable.Inv, P.Put, P.State.Valid, Config.Valid, B.Enabled, B.Next;
  }

  lemma BaseNext(s: State, e: Event)
    requires Base(s) && Enabled(s, e)
    ensures Base(Next(s, e))
  {
    InvFacts(s);
    hide OsTimetable.Inv, Quantum.Inv, CpuMove, LdMove, CpuEnabled, LdEnabled, State.Shaped, B.Enabled, B.Next;
    OsTimetable.NextInv(s, e);
    Quantum.NextInv(s, e);
    match e
    case Timer(b) => B.SameDevices(s.bar, b);
    case LdStep => LoaderLeaves(s);
    case CpuStep(c) => CpuLeaves(s, c);
  }

  /** While a process is still to be loaded, its slot has not passed. */
  lemma LoadedInTime(s: State)
    requires OsTimetable.Inv(s) && s.loaded < |s.config.jobs|
    ensures s.bar.time <= Slot(s.config.jobs, s.loaded)
  {
    InvFacts(s);
    hide Places.Inv, State.Shaped;
    assert s.bar.devs[LD_DEVICE].mode == LdMode(s.ldPc);
  }

  /** A process is not loaded before its slot. */
  lemma NotLoadedEarly(s: State, k: nat)
    requires Base(s) && k < s.loaded <= |s.config.jobs|
    ensures s.bar.time >= Slot(s.config.jobs, k)
  {
    hide OsTimetable.Inv, Quantum.Inv, LeftOk, Slot;
    LoaderClock(s);
    if k < s.loaded - 1 { SlotsIncrease(s.config.jobs, k, s.loaded - 1); }
  }

  lemma LoaderClock(s: State)
    requires Base(s) && 1 <= s.loaded <= |s.config.jobs|
    ensures s.bar.time >= Slot(s.config.jobs, s.loaded - 1)
  {
    InvFacts(s);
    hide Places.Inv, Quantum.Inv, State.Shaped, Slot;
    assert Earliest(s.config.jobs, s.loaded) == Slot(s.config.jobs, s.loaded - 1) + 1;
    assert s.bar.devs[LD_DEVICE].mode == LdMode(s.ldPc);
  }

  // ---- Runs in all ----

  function RunsOf(recs: seq<Record>, k: nat): nat
    requires k <= |recs|
  {
    if k == 0 then 0 else RunsOf(recs, k - 1) + recs[k - 1].runs
  }

  function Runs(s: State): nat {
    RunsOf(s.recs, |s.recs|)
  }

  lemma {:induction false} RunsUpdate(recs: seq<Record>, j: nat, r: Record, k: nat)
    requires j < |recs| && k <= |recs|
    ensures RunsOf(recs[j := r], k) == RunsOf(recs, k) + if j < k then r.runs - recs[j].runs else 0
  {
    if k == 0 {
    } else {
      RunsUpdate(recs, j, r, k - 1);
    }
  }

  /** The runs that the first k processes need. */
  function WorkOf(jobs: seq<Job>, k: nat): nat
    requires k <= |jobs|
  {
    if k == 0 then 0 else WorkOf(jobs, k - 1) + Quantum.Work(jobs[k - 1].size)
  }

  lemma RunsOfOne(s: State, j: nat)
    requires Quantum.Inv(s) && j < |s.recs| == |s.config.jobs|
    ensures s.recs[j].runs <= if j < s.loaded then Quantum.Work(s.config.jobs[j].size) else 0
  {
    hide Places.Inv;
    assert Quantum.RecordOk(s.recs[j], s.config.jobs[j].size, s.config.quantum, s.cpus);
    assert s.recs[j].place == NotLoaded <==> j >= s.loaded by { LoadedPlaces(s); }
  }

  lemma LoadedPlaces(s: State)
    requires Quantum.Inv(s)
    ensures s.loaded <= |s.recs| == |s.config.jobs|
    ensures forall j | 0 <= j < |s.recs| :: s.recs[j].place == NotLoaded <==> j >= s.loaded
  {
    hide Quantum.RecordOk;
  }

  /** No process is run more often than it needs, and none before it is loaded. */
  lemma {:induction false} RunsSuffice(s: State, k: nat)
    requires Quantum.Inv(s) && s.loaded <= |s.recs| == |s.config.jobs| && k <= |s.recs|
    ensures RunsOf(s.recs, k) <= WorkOf(s.config.jobs, if k <= s.loaded then k else s.loaded)
  {
    hide Quantum.Inv, Quantum.Work;
    if k == 0 {
    } else {
      RunsOfOne(s, k - 1);
      RunsSuffice(s, k - 1);
    }
  }

  lemma {:induction false} RunsExact(s: State, k: nat)
    requires Quantum.Inv(s) && |s.recs| == |s.config.jobs| && k <= |s.recs|
    requires forall j | 0 <= j < k :: s.recs[j].place == Finished
    ensures RunsOf(s.recs, k) == WorkOf(s.config.jobs, k)
  {
    if k == 0 {
    } else {
      assert Quantum.RecordOk(s.recs[k - 1], s.config.jobs[k - 1].size, s.config.quantum, s.cpus);
      hide Quantum.Inv, Quantum.Work;
      RunsExact(s, k - 1);
    }
  }

  // ---- Which CPUs still move in this slot ----

  /** Between two time advances a step changes only its own CPU, and nobody else's share. */
  lemma SharesKept(s: State, e: Event)
    requires OsTimetable.Inv(s) && Enabled(s, e) && e != Timer(B.Tick)
    ensures var t := Next(s, e);
            && |t.cpus| == |s.cpus| && |t.cpus| < |t.bar.devs| && |s.cpus| < |s.bar.devs|
            && (forall d | 0 <= d < |s.cpus| && e != CpuStep(d) :: t.cpus[d] == s.cpus[d] && Share(t, d) == Share(s, d))
            && (e.CpuStep? ==> e.c < |s.cpus|)
            && (e.CpuStep? && CpuBarrier(s.cpus[e.c].pc, DeviceOf(s, e.c)).Some? ==> Share(t, e.c) == Share(s, e.c))
  {
    hide OsTimetable.Inv, CpuMove, LdMove, CpuEnabled, LdEnabled;
    hide CpuBarrier, LdBarrier, CpuLeft, LoaderLeft, State.Shaped;
    hide B.Left, B.StepsLeft, B.Inv, B.Enabled, B.Next, B.Mover;
    InvFacts(s);
    match e
    case Timer(b) =>
      TimerMoves(b);
      EnabledTimer(s, b);
      BarrierShares(s.bar, b);
    case LdStep =>
      LoaderStepLeft(s);
      if LdBarrier(s.ldPc).Some? { BarrierShares(s.bar, LdBarrier(s.ldPc).value); }
    case CpuStep(c) =>
      EnabledInRange(s, c);
      if CpuBarrier(s.cpus[c].pc, DeviceOf(s, c)).Some? {
        CpuBarrierShare(s, c);
        BarrierShares(s.bar, CpuBarrier(s.cpus[c].pc, DeviceOf(s, c)).value);
      } else {
        LocalCpuLeft(s, c);
      }
  }

  lemma TimerMoves(b: B.Event)
    ensures TimerEvent(b) ==> B.Mover(b) == -1
  {
  }

  lemma EnabledTimer(s: State, b: B.Event)
    requires Enabled(s, Timer(b))
    ensures TimerEvent(b) && B.Enabled(s.bar, b)
  {
  }

  /** A CPU that will fetch or run in this slot. */
  ghost predicate Pending(s: State, c: nat)
    requires |s.cpus| < |s.bar.devs|
  {
    c < |s.cpus| && Share(s, c) > 0 && !(s.cpus[c].pc == Check && s.cpus[c].proc == None)
  }

  /** A CPU that will come round to fetch again, in this slot or the next. */
  ghost predicate Awake(cpu: Cpu) {
    cpu.pc != Leaving && cpu.pc != Ended && !(cpu.pc == Check && cpu.proc == None)
  }

  ghost predicate Settled(r: Record) {
    r.place == Finished || r.place == Dropped
  }

  ghost predicate AllSettled(recs: seq<Record>, k: nat) {
    forall j | 0 <= j < |recs| && j < k :: Settled(recs[j])
  }

  ghost predicate SomePending(s: State)
    requires |s.cpus| < |s.bar.devs|
  {
    exists c :: Pending(s, c)
  }

  ghost predicate SomeAwake(s: State) {
    exists c :: 0 <= c < |s.cpus| && Awake(s.cpus[c])
  }

  ghost predicate SomeReady(recs: seq<Record>) {
    exists j :: 0 <= j < |recs| && recs[j].place == Ready
  }

  /** A CPU that has run its process in this slot. */
  ghost predicate HasRun(s: State, c: nat)
    requires c < |s.cpus| < |s.bar.devs|
  {
    s.cpus[c].proc.Some? && (s.cpus[c].pc == Sync || (s.cpus[c].pc == Blocked && Share(s, c) == 0))
  }

  /** `need` slots have begun since the last process was loaded, the present one included: as
      long as a process is unsettled each slot before had a run, and this one has one or will. */
  ghost predicate ProgressAt(s: State, need: int)
    requires |s.cpus| < |s.bar.devs|
  {
    && (AllSettled(s.recs, s.loaded) || Runs(s) >= need - 1)
    && (AllSettled(s.recs, s.loaded) || Runs(s) >= need || SomePending(s))
    && (forall c | 0 <= c < |s.cpus| && HasRun(s, c) :: Runs(s) >= need)
    && (SomeReady(s.recs) ==> SomeAwake(s))
  }

  ghost predicate Progress(s: State)
    requires |s.cpus| < |s.bar.devs| && s.loaded <= |s.config.jobs|
  {
    s.loaded >= 1 && s.bar.time > Slot(s.config.jobs, s.loaded - 1) ==>
      ProgressAt(s, s.bar.time - Slot(s.config.jobs, s.loaded - 1))
  }

  /** What a CPU step does outside its own variables: nothing, or it changes the record of a
      loaded process that is not settled. */
  ghost predicate Touches(s: State, t: State, c: nat, j: nat) {
    && c < |s.cpus| == |t.cpus| && t.cpus == s.cpus[c := t.cpus[c]]
    && t.loaded == s.loaded && |t.recs| == |s.recs|
    && (if j < |s.recs| then
          && t.recs == s.recs[j := t.recs[j]] && j < s.loaded && !Settled(s.recs[j])
          && t.recs[j].runs >= s.recs[j].runs
          && (t.recs[j].place == Ready ==> s.recs[j].place == Ready || Awake(t.cpus[c]))
        else t.recs == s.recs)
  }

  lemma TouchedRuns(s: State, t: State, c: nat, j: nat)
    requires Touches(s, t, c, j)
    ensures Runs(t) == Runs(s) + if j < |s.recs| then t.recs[j].runs - s.recs[j].runs else 0
    ensures AllSettled(s.recs, s.loaded) ==> AllSettled(t.recs, t.loaded) && t.recs == s.recs
    ensures SomeReady(t.recs) ==> SomeReady(s.recs) || Awake(t.cpus[c])
  {
    if j < |s.recs| { RunsUpdate(s.recs, j, t.recs[j], |s.recs|); }
  }

  /** A CPU step that leaves the CPU no less pending and awake than it was. */
  lemma ProgressKept(s: State, t: State, c: nat, j: nat, need: int)
    requires Touches(s, t, c, j) && |s.cpus| < |s.bar.devs| && |t.cpus| < |t.bar.devs|
    requires forall d | 0 <= d < |s.cpus| && d != c :: Share(t, d) == Share(s, d)
    requires ProgressAt(s, need)
    requires Pending(s, c) && !AllSettled(t.recs, t.loaded) && Runs(t) < need ==> Pending(t, c)
    requires HasRun(t, c) ==> Runs(t) >= need
    requires Awake(s.cpus[c]) && SomeReady(t.recs) ==> Awake(t.cpus[c])
    ensures ProgressAt(t, need)
  {
    TouchedRuns(s, t, c, j);
    hide Share, Awake, AllSettled, SomeReady, Runs, Touches;
    assert |t.cpus| == |s.cpus| && forall d | 0 <= d < |s.cpus| && d != c :: t.cpus[d] == s.cpus[d] by {
      OtherCpus(s, t, c, j);
    }
    if SomePending(s) {
      var d :| Pending(s, d);
      assert d != c ==> Pending(t, d);
    }
    if SomeReady(t.recs) {
      if SomeReady(s.recs) {
        var d :| 0 <= d < |s.cpus| && Awake(s.cpus[d]);
        assert d != c ==> Awake(t.cpus[d]);
      }
    }
    forall d | 0 <= d < |t.cpus| && HasRun(t, d) ensures Runs(t) >= need {
      if d != c { assert HasRun(s, d); }
    }
  }

  lemma OtherCpus(s: State, t: State, c: nat, j: nat)
    requires Touches(s, t, c, j)
    ensures |t.cpus| == |s.cpus| && forall d | 0 <= d < |s.cpus| && d != c :: t.cpus[d] == s.cpus[d]
  {
  }

  // ---- CPU steps ----

  /** A process that a CPU holds is loaded and not settled. */
  lemma HeldFacts(s: State, c: nat)
    requires Quantum.Inv(s) && c < |s.cpus|
    ensures s.Shaped() && s.loaded <= |s.recs| && (s.cpus[c].pc == Exec ==> s.cpus[c].proc.Some?)
    ensures s.cpus[c].pc == Leaving || s.cpus[c].pc == Ended || s.cpus[c].pc.Fetch? ==> s.cpus[c].proc == None
    ensures s.cpus[c].proc.Some? ==>
              var j := s.cpus[c].proc.value.pid;
              j < |s.recs| && j < s.loaded && s.recs[j].place == On(c)
  {
    Quantum.CpuFacts(s, c);
    assert Places.PcMatch(s.cpus[c]);
    hide Quantum.RecordOk;
  }

  lemma TopProgress(s: State, c: nat, need: int)
    requires Quantum.Inv(s) && |s.cpus| < |s.bar.devs| && c < |s.cpus| && s.cpus[c].pc == Top && ProgressAt(s, need)
    requires s.Shaped()
    ensures ProgressAt(CpuTop(s, c), need)
  {
    hide Quantum.Inv, ProgressAt, Runs, P.Put, P.State.Valid, Config.Valid, B.Left;
    HeldFacts(s, c);
    var j := if s.cpus[c].proc.Some? then s.cpus[c].proc.value.pid else |s.recs|;
    ProgressKept(s, CpuTop(s, c), c, j, need);
  }

  lemma CheckProgress(s: State, c: nat, need: int)
    requires Quantum.Inv(s) && |s.cpus| < |s.bar.devs| && c < |s.cpus| && s.cpus[c].pc == Check && ProgressAt(s, need)
    requires s.Shaped()
    ensures ProgressAt(CpuCheck(s, c), need)
  {
    hide Quantum.Inv, ProgressAt, Runs, P.State.Valid, Config.Valid, B.Left;
    HeldFacts(s, c);
    var j := if s.cpus[c].proc.Some? then s.cpus[c].proc.value.pid else |s.recs|;
    ProgressKept(s, CpuCheck(s, c), c, j, need);
  }

  lemma ExecProgress(s: State, c: nat, need: int)
    requires Quantum.Inv(s) && |s.cpus| < |s.bar.devs| && c < |s.cpus| && s.cpus[c].pc == Exec && ProgressAt(s, need)
    requires s.Shaped() && s.cpus[c].proc.Some?
    ensures ProgressAt(CpuExec(s, c), need)
  {
    HeldFacts(s, c);
    var t, j := CpuExec(s, c), s.cpus[c].proc.value.pid;
    assert !AllSettled(s.recs, s.loaded) by { assert !Settled(s.recs[j]); }
    assert Runs(s) >= need - 1;
    hide Quantum.Inv, ProgressAt, AllSettled, Runs, P.State.Valid, Config.Valid, B.Left;
    TouchedRuns(s, t, c, j);
    ProgressKept(s, t, c, j, need);
  }

  /** With every queue empty, a CPU that finds nothing leaves the work to the others: each
      unsettled process is on some CPU, which has run it in this slot or will. */
  lemma NothingFetched(s: State, c: nat, need: int)
    requires Quantum.Inv(s) && |s.cpus| < |s.bar.devs| && c < |s.cpus| && s.cpus[c].pc.Fetch? && ProgressAt(s, need)
    requires s.Shaped() && P.Get(s.sched).proc == None
    ensures ProgressAt(CpuFetch(s, c), need)
  {
    hide Quantum.Inv, Share, Runs, AllSettled, SomeReady;
    HeldFacts(s, c);
    NoneReady(s);
    var t := CpuFetch(s, c);
    EmptyFetch(s, c);
    hide CpuFetch, State.Shaped, P.Get;
    if !AllSettled(s.recs, s.loaded) && Runs(s) < need {
      var j := Unsettled(s);
      OnSomeCpu(s, j);
      var d := s.recs[j].place.cpu;
      assert !HasRun(s, d) && d != c;
      BusyShare(s, d);
      assert Pending(t, d);
    }
    assert !HasRun(t, c);
    forall d | 0 <= d < |t.cpus| && HasRun(t, d) ensures Runs(t) >= need {
      assert HasRun(s, d);
    }
  }

  lemma Unsettled(s: State) returns (j: nat)
    requires !AllSettled(s.recs, s.loaded) && !SomeReady(s.recs)
    ensures j < |s.recs| && j < s.loaded && !Settled(s.recs[j]) && s.recs[j].place != Ready
  {
    j :| 0 <= j < |s.recs| && j < s.loaded && !Settled(s.recs[j]);
  }

  lemma EmptyFetch(s: State, c: nat)
    requires s.Shaped() && c < |s.cpus| < |s.bar.devs| && s.cpus[c].pc.Fetch? && P.Get(s.sched).proc == None
    ensures var t := CpuFetch(s, c);
            && t.recs == s.recs && t.loaded == s.loaded && Runs(t) == Runs(s) && |t.cpus| == |s.cpus|
            && |t.bar.devs| == |s.bar.devs| && t.cpus[c].proc == None
            && forall d | 0 <= d < |s.cpus| && d != c :: t.cpus[d] == s.cpus[d] && Share(t, d) == Share(s, d)
  {
    hide P.Get, P.State.Valid, Config.Valid, B.Left;
  }

  lemma NoneReady(s: State)
    requires Quantum.Inv(s) && s.Shaped() && P.Get(s.sched).proc == None
    ensures !SomeReady(s.recs)
  {
    P.ServedLevel(s.sched);
    hide P.Get, Quantum.RecordOk;
  }

  /** A loaded process that is neither settled nor ready is on a CPU. */
  lemma OnSomeCpu(s: State, j: nat)
    requires Quantum.Inv(s) && s.Shaped() && j < |s.recs| && j < s.loaded
    requires !Settled(s.recs[j]) && s.recs[j].place != Ready
    ensures s.recs[j].place.On? && s.recs[j].place.cpu < |s.cpus| && s.cpus[s.recs[j].place.cpu].proc.Some?
  {
    hide Quantum.RecordOk;
  }

  /** A CPU that holds a process and has not run it in this slot will. */
  lemma BusyShare(s: State, d: nat)
    requires Quantum.Inv(s) && d < |s.cpus| < |s.bar.devs| && s.cpus[d].proc.Some? && !HasRun(s, d)
    ensures Pending(s, d)
  {
    HeldFacts(s, d);
    hide Quantum.Inv, B.Left;
  }

  lemma FetchProgress(s: State, c: nat, need: int)
    requires Quantum.Inv(s) && |s.cpus| < |s.bar.devs| && c < |s.cpus| && s.cpus[c].pc.Fetch? && ProgressAt(s, need)
    requires s.Shaped()
    ensures ProgressAt(CpuFetch(s, c), need)
  {
    hide Quantum.Inv, ProgressAt, Runs, P.Get, P.State.Valid, Config.Valid, B.Left;
    HeldFacts(s, c);
    if P.Get(s.sched).proc == None {
      NothingFetched(s, c, need);
    } else {
      Quantum.FetchedRests(s);
      var j := P.Get(s.sched).proc.value.pid;
      ReadyLoaded(s, j);
      ProgressKept(s, CpuFetch(s, c), c, j, need);
    }
  }

  lemma ReadyLoaded(s: State, j: nat)
    requires Quantum.Inv(s) && j < |s.recs| && s.recs[j].place == Ready
    ensures j < s.loaded
  {
    hide Quantum.RecordOk;
  }

  lemma BarrierTouches(s: State, c: nat)
    requires CpuEnabled(s, c) && CpuBarrier(s.cpus[c].pc, DeviceOf(s, c)).Some?
    ensures var t := CpuMove(s, c);
            && Next(s, CpuStep(c)) == t && Touches(s, t, c, |s.recs|) && t.recs == s.recs
            && t.cpus[c].proc == s.cpus[c].proc
            && t.cpus[c].pc == match s.cpus[c].pc
                               case Sync => Blocked
                               case Blocked => Top
                               case _ => Ended
  {
    hide P.State.Valid, Config.Valid, B.Enabled, B.Next;
  }

  lemma BarrierProgress(s: State, c: nat, need: int)
    requires OsTimetable.Inv(s) && Quantum.Inv(s) && CpuEnabled(s, c) && |s.cpus| < |s.bar.devs| && ProgressAt(s, need)
    requires CpuBarrier(s.cpus[c].pc, DeviceOf(s, c)).Some? && |CpuMove(s, c).cpus| < |CpuMove(s, c).bar.devs|
    ensures ProgressAt(CpuMove(s, c), need)
  {
    EnabledInRange(s, c);
    assert HasRun(s, c) ==> Runs(s) >= need;
    hide OsTimetable.Inv, Quantum.Inv, ProgressAt, Runs, CpuMove, CpuEnabled, State.Shaped, B.Enabled, B.Next, B.Left;
    var t := CpuMove(s, c);
    SharesKept(s, CpuStep(c));
    HeldFacts(s, c);
    BarrierTouches(s, c);
    ProgressKept(s, t, c, |s.recs|, need);
  }

  // ---- The other steps ----

  lemma QuietProgress(s: State, t: State, need: int)
    requires |t.cpus| == |s.cpus| && |s.cpus| < |s.bar.devs| && |t.cpus| < |t.bar.devs| && ProgressAt(s, need)
    requires t.recs == s.recs && t.loaded == s.loaded
    requires forall c | 0 <= c < |s.cpus| :: t.cpus[c] == s.cpus[c] && Share(t, c) == Share(s, c)
    ensures ProgressAt(t, need)
  {
    hide Share, Awake, AllSettled, SomeReady;
    if SomePending(s) {
      var c :| Pending(s, c);
      assert Pending(t, c);
    }
    if SomeAwake(s) {
      var c :| 0 <= c < |s.cpus| && Awake(s.cpus[c]);
      assert Awake(t.cpus[c]);
    }
    forall c | 0 <= c < |t.cpus| && HasRun(t, c) ensures Runs(t) >= need {
      assert HasRun(s, c);
    }
  }

  /** The loader adds a process at exactly its slot, so no slot has passed since. */
  lemma LoaderAdds(s: State)
    requires OsTimetable.Inv(s) && LdEnabled(s)
    ensures var t := LdMove(s);
            && (t.loaded == s.loaded ==> t.recs == s.recs)
            && (t.loaded != s.loaded ==>
                  t.loaded == s.loaded + 1 && s.loaded < |s.config.jobs| && s.bar.time == Slot(s.config.jobs, s.loaded))
            && t.config == s.config
  {
    InvFacts(s);
    if s.ldPc == Spin {
      LoaderSeesItsClock(s);
      assert OnTime(s.config.jobs, s.loaded, s.ldPc, s.bar.time);
    }
    hide OsTimetable.Inv, P.Put, P.State.Valid, Config.Valid, B.Enabled, B.Next;
  }

  /** When the time advances every CPU waits in `next_slot` or has ended, and those that wait
      are then let go. */
  lemma TickFacts(s: State)
    requires OsTimetable.Inv(s) && Enabled(s, Timer(B.Tick))
    ensures var t := Next(s, Timer(B.Tick));
            && |s.cpus| < |s.bar.devs| && |t.cpus| < |t.bar.devs| && t.cpus == s.cpus && t.recs == s.recs
            && t.loaded == s.loaded && t.config == s.config && t.bar.time == s.bar.time + 1
            && (forall c | 0 <= c < |s.cpus| :: s.cpus[c].pc == Blocked || s.cpus[c].pc == Ended)
            && (forall c | 0 <= c < |s.cpus| :: Share(s, c) == 0)
            && (forall c | 0 <= c < |s.cpus| && s.cpus[c].pc == Blocked :: Share(t, c) > 0)
  {
    InvFacts(s);
    hide Places.Inv, OnTime, AddedOk, State.Shaped;
    forall c | 0 <= c < |s.cpus| ensures (s.cpus[c].pc == Blocked || s.cpus[c].pc == Ended) && Share(s, c) == 0 {
      assert s.bar.devs[|s.cpus| - c].mode == CpuMode(s.cpus[c].pc) && B.DeviceOk(s.bar.devs[DeviceOf(s, c)]);
    }
  }

  lemma AfterTick(s: State, t: State, need: int)
    requires Quantum.Inv(s) && s.Shaped() && |t.cpus| < |t.bar.devs|
    requires t.cpus == s.cpus && t.recs == s.recs && t.loaded == s.loaded
    requires forall c | 0 <= c < |s.cpus| :: s.cpus[c].pc == Blocked || s.cpus[c].pc == Ended
    requires forall c | 0 <= c < |s.cpus| && s.cpus[c].pc == Blocked :: Share(t, c) > 0
    requires AllSettled(s.recs, s.loaded) || Runs(s) >= need - 1
    requires SomeReady(s.recs) ==> exists c :: 0 <= c < |s.cpus| && s.cpus[c].pc != Ended
    ensures ProgressAt(t, need)
  {
    hide Quantum.Inv, State.Shaped, Share;
    assert Runs(t) == Runs(s);
    if SomeReady(s.recs) {
      var c :| 0 <= c < |s.cpus| && s.cpus[c].pc != Ended;
      assert Pending(t, c) && Awake(t.cpus[c]);
    } else if !AllSettled(s.recs, s.loaded) {
      var j := Unsettled(s);
      OnSomeCpu(s, j);
      HeldFacts(s, s.recs[j].place.cpu);
      assert Pending(t, s.recs[j].place.cpu);
    }
  }

  /** At the first time advance after a process is loaded no CPU has left yet. */
  lemma NoneLeftYet(s: State)
    requires LeftOk(s) && 1 <= s.loaded <= |s.config.jobs| && s.bar.time <= Slot(s.config.jobs, s.loaded - 1)
    ensures forall c | 0 <= c < |s.cpus| :: s.cpus[c].pc != Ended
  {
    hide Slot;
    assert Earliest(s.config.jobs, s.loaded) == Slot(s.config.jobs, s.loaded - 1) + 1;
  }

  /** With every CPU waiting or ended, this slot has had its run. */
  lemma SlotDone(s: State, need: int)
    requires |s.cpus| < |s.bar.devs| && ProgressAt(s, need)
    requires forall c | 0 <= c < |s.cpus| :: (s.cpus[c].pc == Blocked || s.cpus[c].pc == Ended) && Share(s, c) == 0
    ensures AllSettled(s.recs, s.loaded) || Runs(s) >= need
    ensures SomeReady(s.recs) ==> exists c :: 0 <= c < |s.cpus| && s.cpus[c].pc != Ended
  {
    hide Runs, AllSettled, SomeReady, Share;
    if SomeReady(s.recs) {
      var c :| 0 <= c < |s.cpus| && Awake(s.cpus[c]);
      assert s.cpus[c].pc != Ended;
    }
  }

  lemma TickProgress(s: State)
    requires Base(s) && Enabled(s, Timer(B.Tick)) && |s.cpus| >= 1
    requires |s.cpus| < |s.bar.devs| && s.loaded <= |s.config.jobs| && Progress(s)
    ensures var t := Next(s, Timer(B.Tick)); |t.cpus| < |t.bar.devs| && t.loaded <= |t.config.jobs| && Progress(t)
  {
    hide OsTimetable.Inv, Quantum.Inv, LeftOk, ProgressAt, Enabled, Next;
    hide Share, Runs, AllSettled, SomeReady, State.Shaped, Slot;
    InvFacts(s);
    TickFacts(s);
    var t := Next(s, Timer(B.Tick));
    if s.loaded >= 1 && t.bar.time > Slot(s.config.jobs, s.loaded - 1) {
      var need := t.bar.time - Slot(s.config.jobs, s.loaded - 1);
      if need == 1 {
        NoneLeftYet(s);
        assert s.cpus[0].pc != Ended;
      } else {
        SlotDone(s, need - 1);
      }
      AfterTick(s, t, need);
    }
  }

  lemma CpuProgress(s: State, c: nat, need: int)
    requires OsTimetable.Inv(s) && Quantum.Inv(s) && CpuEnabled(s, c) && |s.cpus| < |s.bar.devs| && ProgressAt(s, need)
    requires |CpuMove(s, c).cpus| < |CpuMove(s, c).bar.devs|
    ensures ProgressAt(CpuMove(s, c), need)
  {
    EnabledInRange(s, c);
    HeldFacts(s, c);
    hide OsTimetable.Inv, Quantum.Inv, ProgressAt, CpuTop, CpuFetch, CpuCheck, CpuExec, State.Shaped, B.Enabled, B.Next;
    match s.cpus[c].pc {
      case Top => TopProgress(s, c, need);
      case Fetch(_) => FetchProgress(s, c, need);
      case Check => CheckProgress(s, c, need);
      case Exec => ExecProgress(s, c, need);
      case Sync => BarrierProgress(s, c, need);
      case Blocked => BarrierProgress(s, c, need);
      case Leaving => BarrierProgress(s, c, need);
    }
  }

  // ---- Whole runs ----

  ghost predicate Inv(s: State) {
    && Base(s) && |s.cpus| >= 1
    && |s.cpus| < |s.bar.devs| && s.loaded <= |s.config.jobs| && Progress(s)
  }

  lemma InitInv(config: Config)
    requires config.Valid() && config.cpus >= 1
    ensures Inv(Init(config))
  {
    BaseInit(config);
    hide Base;
  }

  lemma LoaderProgress(s: State)
    requires Base(s) && Enabled(s, LdStep) && |s.cpus| < |s.bar.devs| && s.loaded <= |s.config.jobs| && Progress(s)
    ensures var t := Next(s, LdStep); |t.cpus| < |t.bar.devs| && t.loaded <= |t.config.jobs| && Progress(t)
  {
    hide OsTimetable.Inv, Quantum.Inv, LeftOk, ProgressAt, Enabled, LdEnabled, LdMove, Share, State.Shaped, Slot;
    SharesKept(s, LdStep);
    TimeOfStep(s, LdStep);
    IsLdMove(s);
    LoaderAdds(s);
    var t := Next(s, LdStep);
    if t.loaded == s.loaded && s.loaded >= 1 && s.bar.time > Slot(s.config.jobs, s.loaded - 1) {
      QuietProgress(s, t, s.bar.time - Slot(s.config.jobs, s.loaded - 1));
    }
  }

  lemma IsLdMove(s: State)
    requires Enabled(s, LdStep)
    ensures LdEnabled(s) && Next(s, LdStep) == LdMove(s)
  {
  }

  lemma IsCpuMove(s: State, c: nat)
    requires Enabled(s, CpuStep(c))
    ensures CpuEnabled(s, c) && Next(s, CpuStep(c)) == CpuMove(s, c)
  {
  }

  lemma TimerProgress(s: State, b: B.Event)
    requires Base(s) && Enabled(s, Timer(b)) && b != B.Tick
    requires |s.cpus| < |s.bar.devs| && s.loaded <= |s.config.jobs| && Progress(s)
    ensures var t := Next(s, Timer(b)); |t.cpus| < |t.bar.devs| && t.loaded <= |t.config.jobs| && Progress(t)
  {
    hide OsTimetable.Inv, Quantum.Inv, LeftOk, ProgressAt, Enabled, Share, State.Shaped, Slot, B.Enabled, B.Next;
    SharesKept(s, Timer(b));
    TimeOfStep(s, Timer(b));
    if s.loaded >= 1 && s.bar.time > Slot(s.config.jobs, s.loaded - 1) {
      QuietProgress(s, Next(s, Timer(b)), s.bar.time - Slot(s.config.jobs, s.loaded - 1));
    }
  }

  lemma CpuStepProgress(s: State, c: nat)
    requires Base(s) && Enabled(s, CpuStep(c))
    requires |s.cpus| < |s.bar.devs| && s.loaded <= |s.config.jobs| && Progress(s)
    ensures var t := Next(s, CpuStep(c)); |t.cpus| < |t.bar.devs| && t.loaded <= |t.config.jobs| && Progress(t)
  {
    hide OsTimetable.Inv, Quantum.Inv, LeftOk, ProgressAt, CpuEnabled;
    hide CpuMove, Share, State.Shaped, Slot, B.Enabled, B.Next;
    SharesKept(s, CpuStep(c));
    TimeOfStep(s, CpuStep(c));
    CpuKeepsLoaded(s, c);
    if s.loaded >= 1 && s.bar.time > Slot(s.config.jobs, s.loaded - 1) {
      CpuProgress(s, c, s.bar.time - Slot(s.config.jobs, s.loaded - 1));
    }
  }

  lemma CpuKeepsLoaded(s: State, c: nat)
    requires CpuEnabled(s, c)
    ensures CpuMove(s, c).loaded == s.loaded && CpuMove(s, c).config == s.config
  {
  }

  lemma NextInv(s: State, e: Event)
    requires Inv(s) && Enabled(s, e)
    ensures Inv(Next(s, e))
  {
    hide Base, Progress, Enabled, Next;
    BaseNext(s, e);
    TimeOfStep(s, e);
    if e == Timer(B.Tick) {
      TickProgress(s);
    } else {
      match e
      case Timer(b) => TimerProgress(s, b);
      case LdStep => LoaderProgress(s);
      case CpuStep(c) => CpuStepProgress(s, c);
    }
  }

  lemma {:induction false} RunInv(s: State, events: seq<Event>)
    requires Inv(s) && LegalRun(s, events)
    ensures Inv(Run(s, events))
    decreases |events|, s.config
  {
    if events == [] {
    } else {
      hide Inv, Next, Enabled;
      NextInv(s, events[0]);
      RunInv(Next(s, events[0]), events[1..]);
    }
  }

  lemma InvSettles(s: State)
    requires Inv(s) && s.loaded >= 1
    requires s.bar.time > Slot(s.config.jobs, s.loaded - 1) + WorkOf(s.config.jobs, s.loaded) + 1
    ensures |s.recs| == |s.config.jobs| && AllSettled(s.recs, s.loaded)
  {
    hide OsTimetable.Inv, Quantum.Inv, LeftOk, SomePending, SomeReady;
    hide SomeAwake, HasRun, AllSettled, Slot, WorkOf, RunsOf;
    InvFacts(s);
    RecsShape(s);
    RunsSuffice(s, |s.recs|);
  }

  /** Work gets done, in every interleaving: with at least one CPU, once the slots since the
      last loading are more than the runs that the loaded processes need, each of them has
      finished or was dropped by a full queue; one of a roomy level has finished. */
  lemma SettledBySlot(config: Config, events: seq<Event>)
    requires config.Valid() && config.cpus >= 1 && LegalRun(Init(config), events)
    ensures var s := Run(Init(config), events);
            && s.loaded <= |config.jobs| == |s.recs|
            && (s.loaded >= 1 && s.bar.time > Slot(config.jobs, s.loaded - 1) + WorkOf(config.jobs, s.loaded) + 1 ==>
                  forall j | 0 <= j < s.loaded ::
                    && (s.recs[j].place == Finished || s.recs[j].place == Dropped)
                    && (|Places.OfLevel(config.jobs, config.jobs[j].prio)| <= 50 ==> s.recs[j].place == Finished))
  {
    hide Inv, Places.Inv, Places.OfLevel, Init, LegalRun, OsSystem.Run, Slot, WorkOf;
    var s := Run(Init(config), events);
    InitInv(config);
    RunInv(Init(config), events);
    Places.ConfigKept(Init(config), events);
    InitConfig(config);
    RecsShape(s);
    RoomyKept(s);
    if s.loaded >= 1 && s.bar.time > Slot(config.jobs, s.loaded - 1) + WorkOf(config.jobs, s.loaded) + 1 {
      InvSettles(s);
    }
  }

  lemma RecsShape(s: State)
    requires Inv(s)
    ensures s.loaded <= |s.config.jobs| == |s.recs|
  {
  }

  /** No process of a roomy level is dropped. */
  lemma RoomyKept(s: State)
    requires Inv(s)
    ensures |s.recs| == |s.config.jobs|
    ensures forall j | 0 <= j < |s.recs| && |Places.OfLevel(s.config.jobs, s.config.jobs[j].prio)| <= 50 ::
              s.recs[j].place != Dropped
  {
    hide Places.OfLevel, LeftOk, Progress;
  }

  /** Every run long enough finishes all work: no thread need be scheduled fairly, since no run
      can be long without time, and with it work, going on. */
  lemma LongRunsFinish(config: Config, events: seq<Event>)
    requires config.Valid() && config.cpus >= 1 && config.jobs != [] && LegalRun(Init(config), events)
    requires forall j | 0 <= j < |config.jobs| :: |Places.OfLevel(config.jobs, config.jobs[j].prio)| <= 50
    requires var n := |config.jobs|;
             |events| >= (Slot(config.jobs, n - 1) + WorkOf(config.jobs, n) + 2) * (8 * config.cpus + 10)
    ensures var s := Run(Init(config), events);
            |s.recs| == |config.jobs| && forall j | 0 <= j < |config.jobs| :: s.recs[j].place == Finished
  {
    var n, s := |config.jobs|, Run(Init(config), events);
    RunReachesSlot(config, events, Slot(config.jobs, n - 1) + WorkOf(config.jobs, n) + 1);
    SettledBySlot(config, events);
    AllLoaded(config, events);
    hide OsSystem.Run, LegalRun, Slot, WorkOf, Places.OfLevel;
  }

  /** Once the last loading slot has passed every process is loaded. */
  lemma AllLoadedAt(s: State)
    requires OsTimetable.Inv(s) && s.config.jobs != [] && s.loaded <= |s.config.jobs|
    requires s.bar.time > Slot(s.config.jobs, |s.config.jobs| - 1)
    ensures s.loaded == |s.config.jobs|
  {
    hide OsTimetable.Inv, Slot;
    if s.loaded < |s.config.jobs| {
      LoadedInTime(s);
      if s.loaded < |s.config.jobs| - 1 {
        SlotsIncrease(s.config.jobs, s.loaded, |s.config.jobs| - 1);
      }
    }
  }

  lemma AllLoaded(config: Config, events: seq<Event>)
    requires config.Valid() && config.jobs != [] && LegalRun(Init(config), events)
    requires Run(Init(config), events).bar.time > Slot(config.jobs, |config.jobs| - 1)
    ensures Run(Init(config), events).loaded == |config.jobs|
  {
    hide OsTimetable.Inv, Init, LegalRun, OsSystem.Run, Slot;
    var s := Run(Init(config), events);
    OsTimetable.InitInv(config);
    OsTimetable.RunInv(Init(config), events);
    Places.ConfigKept(Init(config), events);
    InitConfig(config);
    InvFacts(s);
    AllLoadedAt(s);
  }

  lemma {:induction false} BaseRun(s: State, events: seq<Event>)
    requires Base(s) && LegalRun(s, events)
    ensures Base(Run(s, events))
    decreases |events|, s.config
  {
    if events == [] {
    } else {
      hide Base, Next, Enabled;
      BaseNext(s, events[0]);
      BaseRun(Next(s, events[0]), events[1..]);
    }
  }

  /** The timetable as the other threads see it: at any time a process is loaded if its slot has
      passed, and not loaded if its slot is still to come. */
  lemma LoadedOnTime(config: Config, events: seq<Event>, j: nat)
    requires config.Valid() && LegalRun(Init(config), events) && j < |config.jobs|
    ensures var s := Run(Init(config), events);
            && |s.recs| == |config.jobs|
            && (s.recs[j].place == NotLoaded ==> s.bar.time <= Slot(config.jobs, j))
            && (s.recs[j].place != NotLoaded ==> s.bar.time >= Slot(config.jobs, j))
  {
    hide OsTimetable.Inv, Quantum.Inv, LeftOk, Init, LegalRun, OsSystem.Run, Slot;
    BaseInit(config);
    BaseRun(Init(config), events);
    Places.ConfigKept(Init(config), events);
    InitConfig(config);
    var s := Run(Init(config), events);
    LoadedPlaces(s);
    if j < s.loaded {
      NotLoadedEarly(s, j);
    } else {
      LoadedInTime(s);
      if s.loaded < j { SlotsIncrease(config.jobs, s.loaded, j); }
    }
  }

  /** The work of the processes is what is done for them: in every run that has finished the
      first k of them, their instructions were run exactly `WorkOf` times in all. */
  lemma RunsTotal(config: Config, events: seq<Event>, k: nat)
    requires config.Valid() && LegalRun(Init(config), events) && k <= |config.jobs|
    requires forall j | 0 <= j < k && j < |Run(Init(config), events).recs| ::
               Run(Init(config), events).recs[j].place == Finished
    ensures var s := Run(Init(config), events); k <= |s.recs| && RunsOf(s.recs, k) == WorkOf(config.jobs, k)
  {
    hide Quantum.Inv, Init, LegalRun, OsSystem.Run, WorkOf, RunsOf;
    Quantum.InitInv(config);
    Quantum.RunInv(Init(config), events);
    Places.ConfigKept(Init(config), events);
    InitConfig(config);
    var s := Run(Init(config), events);
    LoadedPlaces(s);
    RunsExact(s, k);
  }

  lemma ExitedLate(s: State)
    requires Base(s) && s.bar.pc == B.Exited && s.config.jobs != []
    ensures s.bar.time > Slot(s.config.jobs, |s.config.jobs| - 1)
  {
    ExitedWhenEnded(s);
    hide OsTimetable.Inv, Quantum.Inv, Slot;
    assert Earliest(s.config.jobs, |s.config.jobs|) == Slot(s.config.jobs, |s.config.jobs| - 1) + 1;
  }

  lemma ExitSettles(s: State)
    requires Inv(s) && s.bar.pc == B.Exited
    ensures |s.recs| == |s.config.jobs| && AllSettled(s.recs, |s.recs|)
  {
    hide OsTimetable.Inv, Quantum.Inv, LeftOk, AllSettled, SomePending, HasRun, Runs, Slot;
    InvFacts(s);
    RecsShape(s);
    ExitedWhenEnded(s);
    if s.config.jobs == [] {
      NothingToSettle(s.recs);
    } else {
      ExitedLate(s);
      AllLoadedAt(s);
      assert !SomeReady(s.recs);
      if !AllSettled(s.recs, s.loaded) {
        var j := Unsettled(s);
        OnSomeCpu(s, j);
        HeldFacts(s, s.recs[j].place.cpu);
      }
    }
  }

  lemma NothingToSettle(recs: seq<Record>)
    ensures recs == [] ==> AllSettled(recs, 0)
  {
  }

  /** The timer never exits before the work is done: when it has, every process has finished or
      was dropped, and one of a roomy level has finished. */
  lemma ExitMeansDone(config: Config, events: seq<Event>)
    requires config.Valid() && config.cpus >= 1 && LegalRun(Init(config), events)
    requires Run(Init(config), events).bar.pc == B.Exited
    ensures var s := Run(Init(config), events);
            |s.recs| == |config.jobs| && forall j | 0 <= j < |config.jobs| ::
              && (s.recs[j].place == Finished || s.recs[j].place == Dropped)
              && (|Places.OfLevel(config.jobs, config.jobs[j].prio)| <= 50 ==> s.recs[j].place == Finished)
  {
    hide Inv, Places.OfLevel, Init, LegalRun, OsSystem.Run;
    var s := Run(Init(config), events);
    InitInv(config);
    RunInv(Init(config), events);
    Places.ConfigKept(Init(config), events);
    InitConfig(config);
    ExitSettles(s);
    RoomyKept(s);
  }
}
