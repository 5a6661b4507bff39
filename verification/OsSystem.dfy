/** The running system of src/os.c as a transition system: CPU threads and the loader
    thread, over the scheduler (src/sched.c) and the time-slot barrier (src/timer.c).
    A step of a thread is one section between two points where others can interfere. */
module OsSystem {
  import opened ReadyQueue
  import opened Wrappers
  import B = Barrier
  import P = MlqPolicy

  /** A line of the configuration: priority, start slot and number of instructions. */
  datatype Job = Job(prio: nat, start: nat, size: nat)

  /** Which branch of `cpu_routine` asks the scheduler for a process. */
  datatype Why = NoProcess | HasFinished | QuantumOver

  datatype CpuPc = Top | Fetch(why: Why) | Check | Exec | Sync | Blocked | Leaving | Ended

  datatype Cpu = Cpu(pc: CpuPc, proc: Option<Process>, timeLeft: int)

  /** `next` says where `ld_routine` goes on after `next_slot`. */
  datatype LdPc = Head | Spin | LdSync(next: LdPc) | LdBlocked(next: LdPc) | LdLeaving | LdEnded

  /** Where a process is: auxiliary, nothing in the system reads it. A process that a full
      ready queue refuses is dropped: nothing refers to it any more. */
  datatype Place = NotLoaded | Ready | On(cpu: nat) | Finished | Dropped

  /** Auxiliary record of one process: program counter (which the CPU does read), how often
      it was passed to `run`, how often dispatched. */
  datatype Record = Record(pc: nat, runs: nat, dispatches: nat, place: Place)

  datatype Config = Config(jobs: seq<Job>, quantum: int, cpus: nat) {
    /** Every priority has a ready queue. */
    predicate Valid() {
      forall j | 0 <= j < |jobs| :: jobs[j].prio < MAX_PRIO
    }

    function ProcessOf(j: nat): Process
      requires j < |jobs|
    {
      Process(j, jobs[j].prio)
    }
  }

  datatype State = State(
    config: Config,
    bar: B.State,
    sched: P.State,
    cpus: seq<Cpu>,
    ldPc: LdPc,
    loaded: nat,
    done: bool,
    addedAt: seq<nat>,
    recs: seq<Record>)
  {
    /** Every index that a step uses is in range. */
    predicate Shaped() {
      && config.Valid() && sched.Valid() && |cpus| == config.cpus && |bar.devs| == |cpus| + 1
      && |recs| == |config.jobs| && loaded <= |config.jobs|
      && (forall c | 0 <= c < |cpus| && cpus[c].proc.Some? ::
            cpus[c].proc.value.pid < |recs| && cpus[c].proc.value == config.ProcessOf(cpus[c].proc.value.pid))
    }
  }

  function Init(config: Config): State {
    State(config, B.Init(config.cpus + 1), P.START, seq(config.cpus, _ => Cpu(Top, None, 0)), Head, 0, false, [],
          seq(|config.jobs|, _ => Record(0, 0, 0, NotLoaded)))
  }

  lemma InitConfig(config: Config)
    ensures Init(config).config == config && |Init(config).cpus| == config.cpus && Init(config).bar.time == 0
  {
  }

  /** Where a process is once it has been put. */
  function PutPlace(sched: P.State, p: Process): Place
    requires sched.Valid() && p.prio < MAX_PRIO
  {
    if |sched.queues[p.prio]| < MAX_QUEUE_SIZE then Ready else Dropped
  }

  // ---- One CPU ----

  function WithCpu(s: State, c: nat, cpu: Cpu): State
    requires c < |s.cpus|
  {
    s.(cpus := s.cpus[c := cpu])
  }

  function Placed(s: State, j: nat, place: Place): seq<Record>
    requires j < |s.recs|
  {
    s.recs[j := s.recs[j].(place := place)]
  }

  /** Check the status of the current process: none, finished, quantum over, or go on. */
  function CpuTop(s: State, c: nat): State
    requires s.Shaped() && c < |s.cpus|
  {
    var cpu := s.cpus[c];
    match cpu.proc
    case None => WithCpu(s, c, cpu.(pc := Fetch(NoProcess)))
    case Some(p) =>
      if s.recs[p.pid].pc == s.config.jobs[p.pid].size then
        WithCpu(s, c, Cpu(Fetch(HasFinished), None, cpu.timeLeft)).(recs := Placed(s, p.pid, Finished))
      else if cpu.timeLeft == 0 then
        WithCpu(s, c, Cpu(Fetch(QuantumOver), None, 0)).(
          sched := P.Put(s.sched, p), recs := Placed(s, p.pid, PutPlace(s.sched, p)))
      else
        WithCpu(s, c, cpu.(pc := Check))
  }

  /** `proc = get_proc()`. */
  function CpuFetch(s: State, c: nat): State
    requires s.Shaped() && c < |s.cpus| && s.cpus[c].pc.Fetch?
  {
    var cpu, got := s.cpus[c], P.Get(s.sched);
    var pc := if cpu.pc.why == NoProcess && got.proc == None then Sync else Check;
    var timeLeft := if cpu.pc.why == HasFinished then 0 else cpu.timeLeft;
    WithCpu(s, c, Cpu(pc, got.proc, timeLeft)).(
      sched := got.state,
      recs := if got.proc.Some? && got.proc.value.pid < |s.recs| then Placed(s, got.proc.value.pid, On(c)) else s.recs)
  }

  /** Recheck after loading: stop, skip this slot, or dispatch. */
  function CpuCheck(s: State, c: nat): State
    requires s.Shaped() && c < |s.cpus|
  {
    var cpu := s.cpus[c];
    match cpu.proc
    case None => WithCpu(s, c, cpu.(pc := if s.done then Leaving else Sync))
    case Some(p) =>
      if cpu.timeLeft == 0 then
        WithCpu(s, c, cpu.(pc := Exec, timeLeft := s.config.quantum)).(
          recs := s.recs[p.pid := s.recs[p.pid].(dispatches := s.recs[p.pid].dispatches + 1)])
      else
        WithCpu(s, c, cpu.(pc := Exec))
  }

  /** `run(proc); time_left--`. The program counter stops at the end of the code. */
  function CpuExec(s: State, c: nat): State
    requires s.Shaped() && c < |s.cpus| && s.cpus[c].proc.Some?
  {
    var cpu, j := s.cpus[c], s.cpus[c].proc.value.pid;
    var r := s.recs[j];
    WithCpu(s, c, cpu.(pc := Sync, timeLeft := cpu.timeLeft - 1)).(
      recs := s.recs[j := r.(pc := if r.pc >= s.config.jobs[j].size then r.pc else r.pc + 1, runs := r.runs + 1)])
  }

  /** The barrier step a CPU takes at a point of its loop, if any, with its device d. */
  function CpuBarrier(pc: CpuPc, d: nat): Option<B.Event> {
    match pc
    case Sync => Some(B.Arrive(d))
    case Blocked => Some(B.Resume(d))
    case Leaving => Some(B.Detach(d))
    case _ => None
  }

  /** `attach_event` puts every new device in front, so the loader, which attaches last,
      has the first one, and CPU c the c-th from the end. */
  const LD_DEVICE: nat := 0

  function DeviceOf(s: State, c: nat): nat
    requires c < |s.cpus|
  {
    |s.cpus| - c
  }

  predicate CpuEnabled(s: State, c: nat) {
    && s.Shaped() && c < |s.cpus| && s.cpus[c].pc != Ended
    && (s.cpus[c].pc == Exec ==> s.cpus[c].proc.Some?)
    && var e := CpuBarrier(s.cpus[c].pc, DeviceOf(s, c)); e.Some? ==> B.Enabled(s.bar, e.value)
  }

  function CpuMove(s: State, c: nat): State
    requires CpuEnabled(s, c)
  {
    var cpu := s.cpus[c];
    match cpu.pc
    case Top => CpuTop(s, c)
    case Fetch(_) => CpuFetch(s, c)
    case Check => CpuCheck(s, c)
    case Exec => CpuExec(s, c)
    case Sync => WithCpu(s, c, cpu.(pc := Blocked)).(bar := B.Next(s.bar, B.Arrive(DeviceOf(s, c))))
    case Blocked => WithCpu(s, c, cpu.(pc := Top)).(bar := B.Next(s.bar, B.Resume(DeviceOf(s, c))))
    case Leaving => WithCpu(s, c, cpu.(pc := Ended)).(bar := B.Next(s.bar, B.Detach(DeviceOf(s, c))))
  }

  // ---- The loader ----

  function LdBarrier(pc: LdPc): Option<B.Event> {
    match pc
    case LdSync(_) => Some(B.Arrive(LD_DEVICE))
    case LdBlocked(_) => Some(B.Resume(LD_DEVICE))
    case LdLeaving => Some(B.Detach(LD_DEVICE))
    case _ => None
  }

  predicate LdEnabled(s: State) {
    && s.Shaped() && s.ldPc != LdEnded
    && (s.ldPc == Spin ==> s.loaded < |s.config.jobs|)
    && var e := LdBarrier(s.ldPc); e.Some? ==> B.Enabled(s.bar, e.value)
  }

  /** `ld_routine`: wait for the start slot, add the process, wait for the next slot. */
  function LdMove(s: State): State
    requires LdEnabled(s)
  {
    var i := s.loaded;
    match s.ldPc
    case Head => if i < |s.config.jobs| then s.(ldPc := Spin) else s.(ldPc := LdLeaving, done := true)
    case Spin =>
      if s.bar.time < s.config.jobs[i].start then s.(ldPc := LdSync(Spin))
      else
        s.(ldPc := LdSync(Head), loaded := i + 1, addedAt := s.addedAt + [s.bar.time],
           sched := P.Put(s.sched, s.config.ProcessOf(i)),
           recs := Placed(s, i, PutPlace(s.sched, s.config.ProcessOf(i))))
    case LdSync(next) => s.(ldPc := LdBlocked(next), bar := B.Next(s.bar, B.Arrive(LD_DEVICE)))
    case LdBlocked(next) => s.(ldPc := next, bar := B.Next(s.bar, B.Resume(LD_DEVICE)))
    case LdLeaving => s.(ldPc := LdEnded, bar := B.Next(s.bar, B.Detach(LD_DEVICE)))
  }

  // ---- The system ----

  datatype Event = Timer(e: B.Event) | CpuStep(c: nat) | LdStep

  predicate TimerEvent(e: B.Event) {
    e.ScanOne? || e.Tick? || e.ReleaseOne? || e.NextRound? || e.RequestStop?
  }

  predicate Enabled(s: State, e: Event) {
    match e
    case Timer(b) => s.Shaped() && TimerEvent(b) && B.Enabled(s.bar, b)
    case CpuStep(c) => CpuEnabled(s, c)
    case LdStep => LdEnabled(s)
  }

  function Next(s: State, e: Event): State
    requires Enabled(s, e)
  {
    match e
    case Timer(b) => s.(bar := B.Next(s.bar, b))
    case CpuStep(c) => CpuMove(s, c)
    case LdStep => LdMove(s)
  }

  predicate LegalRun(s: State, events: seq<Event>)
    decreases |events|
  {
    events == [] || (Enabled(s, events[0]) && LegalRun(Next(s, events[0]), events[1..]))
  }

  function Run(s: State, events: seq<Event>): State
    requires LegalRun(s, events)
    decreases |events|
  {
    if events == [] then s else Run(Next(s, events[0]), events[1..])
  }

  lemma {:induction false} RunSnoc(s: State, events: seq<Event>, e: Event)
    requires LegalRun(s, events) && Enabled(Run(s, events), e)
    ensures LegalRun(s, events + [e]) && Run(s, events + [e]) == Next(Run(s, events), e)
    decreases |events|
  {
    hide Enabled, Next;
    if events == [] {
      assert LegalRun(Next(s, e), []);
    } else {
      assert (events + [e])[1..] == events[1..] + [e];
      RunSnoc(Next(s, events[0]), events[1..], e);
    }
  }
}
