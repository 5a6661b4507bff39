/** When a CPU stops. An idle CPU does not look at `done`, so it may go round its loop for
    ever: which CPUs can still stop once all work is over, and a bound on how many ever do. */
module OsStopping {
  import opened OsSystem
  import opened Wrappers
  import B = Barrier
  import Bits
  import P = MlqPolicy
  import Places = OsPlaces
  import Quantum = OsQuantum
  import Timetable = OsTimetable

  /** All work is done or can never come: queues empty, everything loaded, no CPU holds a
      process, and a CPU is idle at the top of its loop or on its way round it. */
  predicate Looping(pc: CpuPc) {
    pc == Top || pc == Fetch(NoProcess) || pc == Sync || pc == Blocked
  }

  ghost predicate Idle(s: State, c: nat) {
    && s.Shaped() && c < |s.cpus| && P.AllEmpty(s.sched.queues) && s.loaded == |s.config.jobs|
    && (forall d | 0 <= d < |s.cpus| :: s.cpus[d].proc == None)
    && s.ldPc != Spin && (s.ldPc.LdSync? || s.ldPc.LdBlocked? ==> s.ldPc.next == Head)
    && Looping(s.cpus[c].pc)
  }

  /** Where a CPU that holds and finds no process goes next. */
  function NextPc(pc: CpuPc, done: bool): CpuPc {
    match pc
    case Top => Fetch(NoProcess)
    case Fetch(why) => if why == NoProcess then Sync else Check
    case Check => if done then Leaving else Sync
    case Exec => Sync
    case Sync => Blocked
    case Blocked => Top
    case Leaving => Ended
    case Ended => Ended
  }

  /** With every queue empty, a step of one CPU touches only its own variables and the barrier. */
  lemma EmptyStep(s: State, c: nat)
    requires s.Shaped() && P.AllEmpty(s.sched.queues) && CpuEnabled(s, c) && s.cpus[c].proc == None
    ensures var t := CpuMove(s, c);
            && t.Shaped() && t.cpus == s.cpus[c := t.cpus[c]] && t.cpus[c].proc == None
            && t.sched == s.sched && t.config == s.config && t.loaded == s.loaded && t.ldPc == s.ldPc
            && t.done == s.done
            && t.cpus[c].pc == NextPc(s.cpus[c].pc, s.done)
  {
    P.ServedLevel(s.sched);
    assert P.Get(s.sched).proc == None && P.Get(s.sched).state == s.sched;
    if CpuBarrier(s.cpus[c].pc, DeviceOf(s, c)).Some? {
      B.SameDevices(s.bar, CpuBarrier(s.cpus[c].pc, DeviceOf(s, c)).value);
    }
    hide P.Get, P.AllEmpty, P.State.Valid, B.Enabled, B.Next;
  }

  lemma IdleStep(s: State, c: nat, e: Event)
    requires Idle(s, c) && Enabled(s, e)
    ensures Idle(Next(s, e), c)
  {
    hide P.AllEmpty, P.State.Valid, P.Put;
    match e
    case Timer(b) =>
      B.SameDevices(s.bar, b);
      hide B.Enabled, B.Next;
    case LdStep =>
    case CpuStep(d) =>
      EmptyStep(s, d);
      hide CpuMove;
  }

  /** What the source does not promise: a CPU that finds no process at the top of its loop
      goes straight to the next slot without looking at `done`. Once all work is over, such a
      CPU never stops, in any run. */
  lemma {:induction false} IdleCpuNeverStops(s: State, c: nat, events: seq<Event>)
    requires Idle(s, c) && LegalRun(s, events)
    ensures Idle(Run(s, events), c) && Run(s, events).cpus[c].pc != Ended
    decreases |events|
  {
    if events == [] {
    } else {
      IdleStep(s, c, events[0]);
      hide Idle, Enabled, Next;
      IdleCpuNeverStops(Next(s, events[0]), c, events[1..]);
    }
  }

  /** The smallest input: with nothing to load, no CPU ever stops. */
  lemma NothingToLoad(config: Config, c: nat, events: seq<Event>)
    requires config.jobs == [] && c < config.cpus && LegalRun(Init(config), events)
    ensures c < |Run(Init(config), events).cpus| && Run(Init(config), events).cpus[c].pc != Ended
  {
    assert Idle(Init(config), c);
    IdleCpuNeverStops(Init(config), c, events);
    hide Enabled, Next;
  }

  // ---- Exactly which CPUs can still stop ----

  /** All work is over and the loader has said so. */
  ghost predicate Settled(s: State) {
    && Timetable.Inv(s) && P.AllEmpty(s.sched.queues) && s.loaded == |s.config.jobs| && s.done
    && forall d | 0 <= d < |s.cpus| :: s.cpus[d].proc == None
  }

  lemma SettledIdle(s: State, c: nat)
    requires Settled(s) && c < |s.cpus| && Looping(s.cpus[c].pc)
    ensures Idle(s, c)
  {
  }

  /** A CPU on its way out can always take its next step. */
  lemma SettledStep(s: State, c: nat)
    requires Settled(s) && c < |s.cpus| && !Looping(s.cpus[c].pc) && s.cpus[c].pc != Ended
    ensures Enabled(s, CpuStep(c)) && Settled(Next(s, CpuStep(c))) && |Next(s, CpuStep(c)).cpus| == |s.cpus|
    ensures Next(s, CpuStep(c)).cpus[c].pc == NextPc(s.cpus[c].pc, true)
    ensures s.cpus[c].pc.Fetch? || s.cpus[c].pc == Check || s.cpus[c].pc == Leaving
  {
    assert Places.PcMatch(s.cpus[c]) && s.Shaped();
    Timetable.ThreadsEnabled(s);
    assert s.bar.devs[|s.cpus| - c].mode == B.Working && B.DeviceOk(s.bar.devs[|s.cpus| - c]);
    Timetable.NextInv(s, CpuStep(c));
    EmptyStep(s, c);
    hide Timetable.Inv, CpuMove, CpuEnabled, P.AllEmpty;
  }

  lemma {:induction false} WayOut(s: State, c: nat) returns (events: seq<Event>)
    requires Settled(s) && c < |s.cpus| && !Looping(s.cpus[c].pc)
    ensures LegalRun(s, events) && c < |Run(s, events).cpus| && Run(s, events).cpus[c].pc == Ended
    decreases match s.cpus[c].pc
              case Fetch(_) => 3
              case Check => 2
              case Leaving => 1
              case _ => 0
  {
    if s.cpus[c].pc == Ended {
      events := [];
    } else {
      SettledStep(s, c);
      hide Settled, Enabled, Next;
      var t := Next(s, CpuStep(c));
      var rest := WayOut(t, c);
      events := [CpuStep(c)] + rest;
      assert events[1..] == rest;
    }
  }

  predicate CanEnd(s: State, c: nat, events: seq<Event>) {
    LegalRun(s, events) && c < |Run(s, events).cpus| && Run(s, events).cpus[c].pc == Ended
  }

  /** The exact condition. Once all work is over, a CPU can still stop if and only if it is
      past the branch that finds no process at the top of the loop: it is fetching after a
      process it held, or on its way out. */
  lemma StopsExactly(s: State, c: nat)
    requires Settled(s) && c < |s.cpus|
    ensures (exists events :: CanEnd(s, c, events)) <==> !Looping(s.cpus[c].pc)
  {
    hide Settled, Idle, LegalRun, OsSystem.Run;
    if Looping(s.cpus[c].pc) {
      SettledIdle(s, c);
      forall events ensures !CanEnd(s, c, events) {
        if LegalRun(s, events) { IdleCpuNeverStops(s, c, events); }
      }
    } else {
      var events := WayOut(s, c);
      assert CanEnd(s, c, events);
    }
  }

  // ---- How many CPUs can ever stop ----

  /** A CPU that has been given a process since it was last idle. Only such a CPU can stop. */
  predicate Served(cpu: Cpu) {
    match cpu.pc
    case Fetch(why) => why != NoProcess
    case Check => cpu.proc == None || cpu.timeLeft != 0
    case Exec => true
    case Leaving => true
    case Ended => true
    case _ => cpu.proc.Some?
  }

  function CountServed(cpus: seq<Cpu>): nat {
    if cpus == [] then 0 else (if Served(cpus[0]) then 1 else 0) + CountServed(cpus[1..])
  }

  function Dispatches(recs: seq<Record>): nat {
    if recs == [] then 0 else recs[0].dispatches + Dispatches(recs[1..])
  }

  lemma {:induction false} CountServedUpdate(cpus: seq<Cpu>, c: nat, cpu: Cpu)
    requires c < |cpus|
    ensures CountServed(cpus[c := cpu]) ==
            CountServed(cpus) - (if Served(cpus[c]) then 1 else 0) + (if Served(cpu) then 1 else 0)
  {
    if c == 0 {
      assert cpus[0 := cpu][1..] == cpus[1..];
    } else {
      assert cpus[c := cpu][1..] == cpus[1..][c - 1 := cpu];
      CountServedUpdate(cpus[1..], c - 1, cpu);
    }
  }

  lemma {:induction false} DispatchesUpdate(recs: seq<Record>, j: nat, r: Record)
    requires j < |recs|
    ensures Dispatches(recs[j := r]) == Dispatches(recs) - recs[j].dispatches + r.dispatches
  {
    if j == 0 {
      assert recs[0 := r][1..] == recs[1..];
    } else {
      assert recs[j := r][1..] == recs[1..][j - 1 := r];
      DispatchesUpdate(recs[1..], j - 1, r);
    }
  }

  /** A CPU step changes one CPU and at most record j, of a process that is ready or on that
      CPU, and whoever becomes served was dispatched. */
  ghost predicate ServedBy(s: State, t: State, c: nat, j: nat) {
    && c < |s.cpus| == |t.cpus| && t.cpus == s.cpus[c := t.cpus[c]] && |t.recs| == |s.recs|
    && (if j < |s.recs| then t.recs == s.recs[j := t.recs[j]] else t.recs == s.recs)
    && (j < |s.recs| ==>
          t.recs[j].dispatches >= s.recs[j].dispatches && (s.recs[j].place == Ready || s.recs[j].place == On(c)))
    && (Served(t.cpus[c]) && !Served(s.cpus[c]) ==>
          j < |s.recs| && t.recs[j].dispatches == s.recs[j].dispatches + 1)
  }

  lemma LocalServed(s: State, c: nat) returns (j: nat)
    requires Quantum.Inv(s) && c < |s.cpus| && s.Shaped()
    requires s.cpus[c].pc == Top || s.cpus[c].pc == Check || (s.cpus[c].pc == Exec && s.cpus[c].proc.Some?)
    ensures ServedBy(s, match s.cpus[c].pc
                        case Top => CpuTop(s, c)
                        case Check => CpuCheck(s, c)
                        case _ => CpuExec(s, c), c, j)
  {
    hide Quantum.Inv, Quantum.RecordOk, P.Put, P.State.Valid, Config.Valid;
    Quantum.CpuFacts(s, c);
    j := if s.cpus[c].proc.Some? then s.cpus[c].proc.value.pid else |s.recs|;
  }

  lemma FetchServed(s: State, c: nat) returns (j: nat)
    requires Quantum.Inv(s) && c < |s.cpus| && s.Shaped() && s.cpus[c].pc.Fetch? && s.cpus[c].proc == None
    ensures ServedBy(s, CpuFetch(s, c), c, j)
  {
    hide Quantum.Inv, Quantum.RecordOk, P.Get, P.State.Valid, Config.Valid;
    Quantum.CpuFacts(s, c);
    if P.Get(s.sched).proc.Some? { Quantum.FetchedRests(s); }
    j := if P.Get(s.sched).proc.Some? then P.Get(s.sched).proc.value.pid else |s.recs|;
  }

  lemma BarrierServed(s: State, c: nat)
    requires Quantum.Inv(s) && CpuEnabled(s, c) && CpuBarrier(s.cpus[c].pc, DeviceOf(s, c)).Some?
    ensures ServedBy(s, CpuMove(s, c), c, |s.recs|)
  {
    assert Places.PcMatch(s.cpus[c]);
    hide Quantum.Inv, P.State.Valid, Config.Valid, B.Enabled, B.Next;
  }

  lemma ServedStep(s: State, c: nat) returns (j: nat)
    requires Quantum.Inv(s) && CpuEnabled(s, c)
    ensures ServedBy(s, CpuMove(s, c), c, j)
  {
    assert Places.PcMatch(s.cpus[c]);
    hide Quantum.Inv, ServedBy, CpuTop, CpuFetch, CpuCheck, CpuExec, P.State.Valid, Config.Valid, B.Enabled;
    if CpuBarrier(s.cpus[c].pc, DeviceOf(s, c)).Some? {
      BarrierServed(s, c);
      j := |s.recs|;
    } else if s.cpus[c].pc.Fetch? {
      j := FetchServed(s, c);
    } else {
      j := LocalServed(s, c);
    }
  }

  ghost predicate ServedInv(s: State) {
    Quantum.Inv(s) && CountServed(s.cpus) <= Dispatches(s.recs)
  }

  lemma SameDispatches(recs: seq<Record>, recs': seq<Record>)
    requires |recs| == |recs'| && forall j | 0 <= j < |recs| :: recs'[j].dispatches == recs[j].dispatches
    ensures Dispatches(recs') == Dispatches(recs)
  {
  }

  lemma ServedCounts(s: State, t: State, c: nat, j: nat)
    requires ServedBy(s, t, c, j) && CountServed(s.cpus) <= Dispatches(s.recs)
    ensures CountServed(t.cpus) <= Dispatches(t.recs)
  {
    CountServedUpdate(s.cpus, c, t.cpus[c]);
    hide Served, CountServed, Dispatches;
    if j < |s.recs| { DispatchesUpdate(s.recs, j, t.recs[j]); }
  }

  lemma LoaderServed(s: State)
    requires LdEnabled(s)
    ensures LdMove(s).cpus == s.cpus && Dispatches(LdMove(s).recs) == Dispatches(s.recs)
  {
    hide P.Put, P.State.Valid, Config.Valid, B.Enabled, B.Next;
    SameDispatches(s.recs, LdMove(s).recs);
  }

  lemma ServedNext(s: State, e: Event)
    requires ServedInv(s) && Enabled(s, e)
    ensures ServedInv(Next(s, e))
  {
    Quantum.NextInv(s, e);
    hide Quantum.Inv, CpuMove, LdMove, CpuEnabled, LdEnabled, ServedBy, CountServed, Dispatches;
    match e
    case Timer(_) =>
    case LdStep => LoaderServed(s);
    case CpuStep(c) =>
      var j := ServedStep(s, c);
      ServedCounts(s, CpuMove(s, c), c, j);
  }

  lemma {:induction false} NoneServed(n: nat, cpu: Cpu)
    requires !Served(cpu)
    ensures CountServed(seq(n, _ => cpu)) == 0
  {
    if n == 0 {
    } else {
      assert seq(n, _ => cpu)[1..] == seq(n - 1, _ => cpu);
      NoneServed(n - 1, cpu);
    }
  }

  lemma ServedInit(config: Config)
    requires config.Valid()
    ensures ServedInv(Init(config))
  {
    Quantum.InitInv(config);
    NoneServed(config.cpus, Cpu(Top, None, 0));
  }

  lemma {:induction false} ServedRun(s: State, events: seq<Event>)
    requires ServedInv(s) && LegalRun(s, events)
    ensures ServedInv(Run(s, events))
    decreases |events|, s.config
  {
    if events == [] {
    } else {
      hide ServedInv, Next, Enabled;
      ServedNext(s, events[0]);
      ServedRun(Next(s, events[0]), events[1..]);
    }
  }

  /** How often a process is dispatched until it finishes. */
  function Need(size: nat, t: int): nat {
    if t >= 1 then Quantum.CeilDiv(Quantum.Work(size), t) else 1
  }

  function Needed(jobs: seq<Job>, t: int): nat {
    if jobs == [] then 0 else Need(jobs[0].size, t) + Needed(jobs[1..], t)
  }

  /** A process is never dispatched more often than it needs. */
  lemma DispatchesSuffice(r: Record, size: nat, t: int, cpus: seq<Cpu>)
    requires Quantum.RecordOk(r, size, t, cpus)
    ensures r.dispatches <= Need(size, t)
  {
    if t >= 1 {
      CeilDivAtLeast(Quantum.Work(size), t, r.dispatches);
    }
  }

  lemma CeilDivAtLeast(n: nat, t: nat, d: nat)
    requires t > 0 && t * d < n + t
    ensures d <= Quantum.CeilDiv(n, t)
  {
    var q := Quantum.CeilDiv(n, t);
    var rest := (n + t - 1) % t;
    assert n + t - 1 == t * q + rest;
    if d > q {
      Bits.MulAtLeast(t, d - q);
    }
  }

  lemma {:induction false} DispatchesNeeded(recs: seq<Record>, jobs: seq<Job>, t: int, cpus: seq<Cpu>)
    requires |recs| == |jobs| && forall j | 0 <= j < |jobs| :: Quantum.RecordOk(recs[j], jobs[j].size, t, cpus)
    ensures Dispatches(recs) <= Needed(jobs, t)
  {
    hide Quantum.RecordOk, Need;
    if jobs == [] {
    } else {
      DispatchesSuffice(recs[0], jobs[0].size, t, cpus);
      DispatchesNeeded(recs[1..], jobs[1..], t, cpus);
    }
  }

  lemma FinishedNeed(r: Record, size: nat, t: int, cpus: seq<Cpu>)
    requires Quantum.RecordOk(r, size, t, cpus) && r.place == Finished
    ensures r.dispatches == Need(size, t)
  {
    if t >= 1 { Quantum.CeilDivIs(Quantum.Work(size), t, r.dispatches); }
  }

  lemma {:induction false} FinishedNeeded(recs: seq<Record>, jobs: seq<Job>, t: int, cpus: seq<Cpu>)
    requires |recs| == |jobs| && forall j | 0 <= j < |jobs| ::
               Quantum.RecordOk(recs[j], jobs[j].size, t, cpus) && recs[j].place == Finished
    ensures Dispatches(recs) == Needed(jobs, t)
  {
    hide Quantum.RecordOk, Need;
    if jobs == [] {
    } else {
      FinishedNeed(recs[0], jobs[0].size, t, cpus);
      FinishedNeeded(recs[1..], jobs[1..], t, cpus);
    }
  }

  /** What the processes need is what they get: in every run that has finished them all, the
      number of dispatches is exactly `Needed`. */
  lemma DispatchesTotal(config: Config, events: seq<Event>)
    requires config.Valid() && LegalRun(Init(config), events)
    requires forall r <- Run(Init(config), events).recs :: r.place == Finished
    ensures Dispatches(Run(Init(config), events).recs) == Needed(config.jobs, config.quantum)
  {
    Quantum.InitInv(config);
    Quantum.RunInv(Init(config), events);
    Places.ConfigKept(Init(config), events);
    var s := Run(Init(config), events);
    assert |s.recs| == |s.config.jobs| && s.config == config;
    hide Quantum.RecordOk, Dispatches, Needed, Init, LegalRun, OsSystem.Run;
    FinishedNeeded(s.recs, config.jobs, config.quantum, s.cpus);
  }

  lemma {:induction false} AllEnded(cpus: seq<Cpu>)
    requires forall c | 0 <= c < |cpus| :: cpus[c].pc == Ended
    ensures CountServed(cpus) == |cpus|
  {
    if cpus == [] {
    } else {
      AllEnded(cpus[1..]);
    }
  }

  /** The smallest such inputs beyond the empty one: one process that finishes within its
      first quantum, and two CPUs. */
  lemma TwoCpusOneJob(start: nat, size: nat, t: int, events: seq<Event>)
    requires size <= t && LegalRun(Init(Config([Job(0, start, size)], t, 2)), events)
    ensures var s := Run(Init(Config([Job(0, start, size)], t, 2)), events);
            s.bar.pc != B.Exited && exists c :: 0 <= c < |s.cpus| && s.cpus[c].pc != Ended
  {
    var config := Config([Job(0, start, size)], t, 2);
    assert Needed(config.jobs[1..], t) == 0;
    if t >= 1 { Quantum.CeilDivIs(Quantum.Work(size), t, 1); }
    assert Needed(config.jobs, t) == 1;
    TooManyCpusNeverStop(config, events);
  }

  /** With more CPUs than dispatches that the processes need in all, some CPU never stops and
      the timer never exits, in any run: each CPU that stops was dispatched a process. */
  lemma TooManyCpusNeverStop(config: Config, events: seq<Event>)
    requires config.Valid() && config.cpus > Needed(config.jobs, config.quantum) && LegalRun(Init(config), events)
    ensures var s := Run(Init(config), events);
            s.bar.pc != B.Exited && exists c :: 0 <= c < |s.cpus| == config.cpus && s.cpus[c].pc != Ended
  {
    var s := Run(Init(config), events);
    ServedInit(config);
    ServedRun(Init(config), events);
    Places.ConfigKept(Init(config), events);
    assert s.Shaped() && CountServed(s.cpus) <= Dispatches(s.recs);
    DispatchesNeeded(s.recs, config.jobs, config.quantum, s.cpus);
    Timetable.ThreadsAreInStep(config, events);
    hide Quantum.Inv, CountServed, Dispatches, Needed;
    if forall c | 0 <= c < |s.cpus| :: s.cpus[c].pc == Ended {
      AllEnded(s.cpus);
      assert false;
    }
  }
}
