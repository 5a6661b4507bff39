/** Quantum accounting: how often a process is run and dispatched, whichever CPUs serve it. */
module OsQuantum {
  import opened OsSystem
  import opened Wrappers
  import B = Barrier
  import P = MlqPolicy
  import Bits
  import Places = OsPlaces

  /** A process without instructions is still passed to `run` once before its end is noticed. */
  function Work(size: nat): nat {
    if size == 0 then 1 else size
  }

  function Least(a: nat, b: nat): nat {
    if a <= b then a else b
  }

  /** Runs and dispatches of a process that no CPU holds; t is the configured time slot. With
      a time slot of zero or less a process that has started is never put back. */
  ghost predicate RestingOk(r: Record, size: nat, t: int) {
    match r.place
    case NotLoaded => r.runs == 0 && r.dispatches == 0
    case Finished => r.runs == Work(size) && if t >= 1 then 0 <= t * r.dispatches - r.runs < t else r.dispatches == 1
    case _ => if t >= 1 then r.runs == t * r.dispatches && r.runs < Work(size) else r.runs == 0 && r.dispatches == 0
  }

  /** ... and of a process that a CPU holds. */
  ghost predicate HeldOk(r: Record, size: nat, t: int, cpu: Cpu) {
    && (if t >= 1 then 0 <= cpu.timeLeft <= t && r.runs == t * r.dispatches - cpu.timeLeft
        else if cpu.pc == Check && cpu.timeLeft == 0 then r.runs == 0 && r.dispatches == 0
        else r.dispatches == 1 && cpu.timeLeft == t - r.runs)
    && match cpu.pc
       case Check => r.runs < Work(size)
       case Exec => r.runs < Work(size) && (t >= 1 ==> cpu.timeLeft > 0)
       case _ => 1 <= r.runs <= Work(size) && (t >= 1 ==> cpu.timeLeft < t)
  }

  ghost predicate RecordOk(r: Record, size: nat, t: int, cpus: seq<Cpu>) {
    && r.pc == Least(r.runs, size)
    && if r.place.On? then r.place.cpu < |cpus| && HeldOk(r, size, t, cpus[r.place.cpu]) else RestingOk(r, size, t)
  }

  /** A CPU without a process has no time left, except on its way from a finished process to
      the next one. */
  ghost predicate CpuOk(cpu: Cpu) {
    cpu.proc == None && cpu.pc != Fetch(HasFinished) ==> cpu.timeLeft == 0
  }

  ghost predicate Inv(s: State) {
    && Places.Inv(s)
    && (forall j | 0 <= j < |s.recs| :: RecordOk(s.recs[j], s.config.jobs[j].size, s.config.quantum, s.cpus))
    && (forall c | 0 <= c < |s.cpus| :: CpuOk(s.cpus[c]))
  }

  lemma InitInv(config: Config)
    requires config.Valid()
    ensures Inv(Init(config))
  {
    Places.InitInv(config);
  }

  /** The other processes are not affected by what one CPU and its process do. */
  lemma OthersOk(s: State, t: State, c: nat, j: nat)
    requires Inv(s) && Places.Inv(t) && t.config == s.config && c < |s.cpus| == |t.cpus|
    requires t.cpus == s.cpus[c := t.cpus[c]]
    requires |s.recs| == |t.recs| && forall i | 0 <= i < |s.recs| && i != j :: t.recs[i] == s.recs[i]
    requires CpuOk(t.cpus[c])
    requires forall i | 0 <= i < |s.recs| && i != j :: s.recs[i].place != On(c)
    requires j < |s.recs| ==> RecordOk(t.recs[j], s.config.jobs[j].size, s.config.quantum, t.cpus)
    ensures Inv(t)
  {
    forall i | 0 <= i < |t.recs| ensures RecordOk(t.recs[i], t.config.jobs[i].size, t.config.quantum, t.cpus) {
      if i != j { assert RecordOk(s.recs[i], s.config.jobs[i].size, s.config.quantum, s.cpus); }
    }
  }

  /** What the invariant says of one CPU: only the process it holds is placed on it, and that
      process's record agrees with the time left. */
  lemma CpuFacts(s: State, c: nat)
    requires Inv(s) && c < |s.cpus|
    ensures s.Shaped() && CpuOk(s.cpus[c])
    ensures s.cpus[c].pc == Exec ==> s.cpus[c].proc.Some?
    ensures forall i | 0 <= i < |s.recs| && s.recs[i].place == On(c) ::
              s.cpus[c].proc.Some? && i == s.cpus[c].proc.value.pid
    ensures s.cpus[c].proc.Some? ==>
              var j := s.cpus[c].proc.value.pid;
              j < |s.recs| && s.recs[j].place == On(c)
              && RecordOk(s.recs[j], s.config.jobs[j].size, s.config.quantum, s.cpus)
  {
    hide RecordOk, CpuOk;
    assert Places.PcMatch(s.cpus[c]);
  }

  lemma TopInv(s: State, c: nat)
    requires Inv(s) && c < |s.cpus| && s.cpus[c].pc == Top && Places.Inv(CpuTop(s, c))
    ensures Inv(CpuTop(s, c))
  {
    hide Inv, Places.Inv, P.Put, P.State.Valid, Config.Valid;
    CpuFacts(s, c);
    OthersOk(s, CpuTop(s, c), c, if s.cpus[c].proc == None then |s.recs| else s.cpus[c].proc.value.pid);
  }

  /** A process that is fetched was resting. */
  lemma FetchedRests(s: State)
    requires Inv(s) && P.Get(s.sched).proc.Some?
    ensures var j := P.Get(s.sched).proc.value.pid;
            j < |s.recs| && s.recs[j].place == Ready
            && RecordOk(s.recs[j], s.config.jobs[j].size, s.config.quantum, s.cpus)
  {
    hide RecordOk, P.Get;
    Places.GetCases(s.sched);
    assert Places.Own(s.config, s.recs, P.Get(s.sched).proc.value, P.Get(s.sched).state.current);
  }

  lemma FetchInv(s: State, c: nat)
    requires Inv(s) && c < |s.cpus| && s.cpus[c].pc.Fetch? && s.cpus[c].proc == None && Places.Inv(CpuFetch(s, c))
    ensures Inv(CpuFetch(s, c))
  {
    hide Inv, Places.Inv, P.Get, P.State.Valid, Config.Valid;
    CpuFacts(s, c);
    if P.Get(s.sched).proc == None {
      OthersOk(s, CpuFetch(s, c), c, |s.recs|);
    } else {
      FetchedRests(s);
      OthersOk(s, CpuFetch(s, c), c, P.Get(s.sched).proc.value.pid);
    }
  }

  /** A dispatch starts a quantum; a process that goes on keeps what is left of its own. */
  lemma CheckedOk(r: Record, size: nat, t: int, timeLeft: int)
    requires HeldOk(r, size, t, Cpu(Check, None, timeLeft))
    ensures timeLeft == 0 ==> HeldOk(r.(dispatches := r.dispatches + 1), size, t, Cpu(Exec, None, t))
    ensures timeLeft != 0 ==> HeldOk(r, size, t, Cpu(Exec, None, timeLeft))
  {
    assert t * (r.dispatches + 1) == t * r.dispatches + t;
  }

  lemma SameHeld(r: Record, size: nat, t: int, a: Cpu, b: Cpu)
    requires a.pc == b.pc && a.timeLeft == b.timeLeft
    ensures HeldOk(r, size, t, a) == HeldOk(r, size, t, b)
  {
  }

  lemma CheckInv(s: State, c: nat)
    requires Inv(s) && c < |s.cpus| && s.cpus[c].pc == Check && Places.Inv(CpuCheck(s, c))
    ensures Inv(CpuCheck(s, c))
  {
    hide Inv, Places.Inv, P.State.Valid, Config.Valid;
    CpuFacts(s, c);
    if s.cpus[c].proc == None {
      OthersOk(s, CpuCheck(s, c), c, |s.recs|);
    } else {
      var t, cpu, j := s.config.quantum, s.cpus[c], s.cpus[c].proc.value.pid;
      var n := s.config.jobs[j].size;
      SameHeld(s.recs[j], n, t, cpu, Cpu(Check, None, cpu.timeLeft));
      CheckedOk(s.recs[j], n, t, cpu.timeLeft);
      var after := CpuCheck(s, c);
      SameHeld(after.recs[j], n, t, after.cpus[c], Cpu(Exec, None, after.cpus[c].timeLeft));
      hide HeldOk;
      OthersOk(s, after, c, j);
    }
  }

  lemma ExecInv(s: State, c: nat)
    requires Inv(s) && c < |s.cpus| && s.cpus[c].pc == Exec && s.cpus[c].proc.Some? && Places.Inv(CpuExec(s, c))
    ensures Inv(CpuExec(s, c))
  {
    hide Inv, Places.Inv, P.State.Valid, Config.Valid;
    CpuFacts(s, c);
    OthersOk(s, CpuExec(s, c), c, s.cpus[c].proc.value.pid);
  }

  /** A barrier step moves the CPU on and changes no record. */
  lemma BarrierMoveInv(s: State, c: nat)
    requires Inv(s) && CpuEnabled(s, c) && CpuBarrier(s.cpus[c].pc, DeviceOf(s, c)).Some? && Places.Inv(CpuMove(s, c))
    ensures Inv(CpuMove(s, c))
  {
    hide Inv, Places.Inv, B.Enabled, B.Next, P.State.Valid, Config.Valid;
    CpuFacts(s, c);
    OthersOk(s, CpuMove(s, c), c, if s.cpus[c].proc == None then |s.recs| else s.cpus[c].proc.value.pid);
  }

  /** A loader or timer step leaves the CPUs alone and at most loads one process. */
  lemma NoCpuInv(s: State, t: State)
    requires Inv(s) && Places.Inv(t) && t.config == s.config && t.cpus == s.cpus && |t.recs| == |s.recs|
    requires forall j | 0 <= j < |s.recs| ::
               || t.recs[j] == s.recs[j]
               || (s.recs[j].place == NotLoaded
                   && (t.recs[j] == s.recs[j].(place := Ready) || t.recs[j] == s.recs[j].(place := Dropped)))
    ensures Inv(t)
  {
    assert |s.recs| == |s.config.jobs|;
    hide Places.Inv;
    forall j | 0 <= j < |t.recs| ensures RecordOk(t.recs[j], t.config.jobs[j].size, t.config.quantum, t.cpus) {
      assert RecordOk(s.recs[j], s.config.jobs[j].size, s.config.quantum, s.cpus);
    }
  }

  lemma LoaderInv(s: State)
    requires Inv(s) && LdEnabled(s) && Places.Inv(LdMove(s))
    ensures Inv(LdMove(s))
  {
    assert s.ldPc == Spin ==> s.recs[s.loaded].place == NotLoaded;
    hide Inv, Places.Inv, P.Put, P.State.Valid, Config.Valid, B.Enabled, B.Next;
    NoCpuInv(s, LdMove(s));
  }

  lemma NextInv(s: State, e: Event)
    requires Inv(s) && Enabled(s, e)
    ensures Inv(Next(s, e))
  {
    Places.NextInv(s, e);
    match e
    case Timer(b) =>
      hide Inv, Places.Inv;
      NoCpuInv(s, Next(s, e));
    case LdStep =>
      hide Inv, Places.Inv, LdEnabled, LdMove;
      LoaderInv(s);
    case CpuStep(c) =>
      assert Places.PcMatch(s.cpus[c]);
      hide Inv, Places.Inv, CpuTop, CpuFetch, CpuCheck, CpuExec;
      match s.cpus[c].pc {
        case Top => TopInv(s, c);
        case Fetch(_) => FetchInv(s, c);
        case Check => CheckInv(s, c);
        case Exec => ExecInv(s, c);
        case Sync => BarrierMoveInv(s, c);
        case Blocked => BarrierMoveInv(s, c);
        case Leaving => BarrierMoveInv(s, c);
      }
  }

  lemma {:induction false} RunInv(s: State, events: seq<Event>)
    requires Inv(s) && LegalRun(s, events)
    ensures Inv(Run(s, events))
    decreases |events|
  {
    if events == [] {
    } else {
      hide Inv, Next, Enabled;
      NextInv(s, events[0]);
      RunInv(Next(s, events[0]), events[1..]);
    }
  }

  /** n / t rounded up. */
  function CeilDiv(n: nat, t: nat): nat
    requires t > 0
  {
    (n + t - 1) / t
  }

  lemma CeilDivIs(n: nat, t: nat, d: nat)
    requires t > 0 && 0 <= t * d - n < t
    ensures d == CeilDiv(n, t)
  {
    Bits.DivModUnique(n + t - 1, t, d, n + t - 1 - t * d);
  }

  /** Quantum accounting: a finished process of n >= 1 instructions was run exactly n times
      and dispatched exactly n/T times rounded up. A process waiting in a ready queue has run
      a whole quantum for each of its dispatches, so every dispatch but the last runs exactly
      T instructions. With T zero or less, each process is dispatched exactly once and never
      put back. A CPU holding no process has no time left. */
  lemma QuantumAccounting(config: Config, events: seq<Event>, j: nat)
    requires config.Valid() && LegalRun(Init(config), events) && j < |config.jobs|
    ensures var s, n, t := Run(Init(config), events), config.jobs[j].size, config.quantum;
            && s.Shaped() && s.config == config
            && s.recs[j].pc <= n
            && (s.recs[j].place == Finished ==> s.recs[j].pc == n && s.recs[j].runs == if n == 0 then 1 else n)
            && (s.recs[j].place == Finished ==>
                  s.recs[j].dispatches == if t >= 1 then (s.recs[j].runs + t - 1) / t else 1)
            && (s.recs[j].place == Ready ==> s.recs[j].runs == if t >= 1 then t * s.recs[j].dispatches else 0)
            && (forall c | 0 <= c < |s.cpus| && s.cpus[c].proc == None && s.cpus[c].pc != Fetch(HasFinished) ::
                  s.cpus[c].timeLeft == 0)
  {
    hide Inv, Init, LegalRun, OsSystem.Run, HeldOk;
    InitInv(config);
    RunInv(Init(config), events);
    Places.ConfigKept(Init(config), events);
    InitConfig(config);
    var s := Run(Init(config), events);
    RecordFacts(s, j);
    if s.recs[j].place == Finished && config.quantum >= 1 {
      CeilDivIs(Work(config.jobs[j].size), config.quantum, s.recs[j].dispatches);
    }
  }

  lemma RecordFacts(s: State, j: nat)
    requires Inv(s) && j < |s.config.jobs|
    ensures s.Shaped() && RecordOk(s.recs[j], s.config.jobs[j].size, s.config.quantum, s.cpus)
    ensures forall c | 0 <= c < |s.cpus| :: CpuOk(s.cpus[c])
  {
    hide RecordOk, CpuOk;
  }
}
