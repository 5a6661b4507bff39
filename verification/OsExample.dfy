/** A run of two CPUs, one of which gets the only process and can stop, while the other one
    goes round its loop for ever. */
module OsExample {
  import opened OsSystem
  import opened OsStopping
  import opened ReadyQueue
  import opened Wrappers
  import B = Barrier
  import P = MlqPolicy
  import Timetable = OsTimetable

  const CONFIG := Config([Job(0, 0, 1)], 1, 2)
  const PROC := Process(0, 0)

  ghost predicate Reachable(s: State) {
    exists events :: LegalRun(Init(CONFIG), events) && OsSystem.Run(Init(CONFIG), events) == s
  }

  lemma ReachStart()
    ensures Reachable(Init(CONFIG))
  {
    assert LegalRun(Init(CONFIG), []) && OsSystem.Run(Init(CONFIG), []) == Init(CONFIG);
  }

  lemma ReachNext(s: State, e: Event)
    requires Reachable(s) && Enabled(s, e)
    ensures Reachable(Next(s, e))
  {
    hide Enabled, Next, Init;
    var events :| LegalRun(Init(CONFIG), events) && OsSystem.Run(Init(CONFIG), events) == s;
    RunSnoc(Init(CONFIG), events, e);
  }

  /** Positions of the loader and the two CPUs, with CPU 0's process and time left. */
  function At(bar: B.State, sched: P.State, cpu0: Cpu, pc1: CpuPc, ldPc: LdPc, done: bool, r: Record): State {
    State(CONFIG, bar, sched, [cpu0, Cpu(pc1, None, 0)], ldPc, 1, done, [0], [r])
  }

  function Queued(): P.State {
    P.State([[PROC]] + seq(MAX_PRIO - 1, _ => []), 0, 0)
  }

  function Taken(): P.State {
    P.Get(Queued()).state
  }

  lemma QueuedShape()
    ensures Queued().Valid() && P.Top(Queued().queues, 0) && P.UsedAt(Queued(), 0) == 0
    ensures Queued().queues[0] == [PROC] && forall i | 1 <= i < MAX_PRIO :: Queued().queues[i] == []
  {
  }

  lemma TakenEmpty(s: P.State)
    requires s.Valid() && P.Serves(s, 0) && |s.queues[0]| == 1
    requires forall i | 1 <= i < MAX_PRIO :: s.queues[i] == []
    ensures P.AllEmpty(P.Get(s).state.queues)
  {
    hide P.Get;
  }

  lemma TheDispatch()
    ensures Queued().Valid() && P.Get(Queued()).proc == Some(PROC) && Taken().Valid()
    ensures P.AllEmpty(Taken().queues) && P.Get(Taken()) == P.Outcome(None, Taken())
  {
    QueuedShape();
    hide Queued, P.Get;
    P.ServesTop(Queued(), 0);
    P.ServedLevel(Queued());
    TakenEmpty(Queued());
    P.ServedLevel(Taken());
  }

  const WAITS := B.Device(true, false, B.Waiting, 1, 0)
  const FREED := B.Device(false, false, B.Waiting, 1, 0)
  const BACK := B.Device(false, false, B.Working, 1, 1)

  function Bar(loader: B.Device, cpu1: B.Device, cpu0: B.Device, time: nat): B.State {
    B.State([loader, cpu1, cpu0], time, B.Scan(0), 0, 0, false)
  }

  function StartBar(): B.State {
    Bar(B.IDLE, B.IDLE, B.IDLE, 0)
  }

  /** The loader adds the process. */
  function AfterLoading(): State {
    At(StartBar(), Queued(), Cpu(Top, None, 0), Top, LdSync(Head), false, Record(0, 0, 0, Ready))
  }

  lemma Loading()
    ensures Reachable(AfterLoading())
  {
    ReachStart();
    var s := Init(CONFIG);
    assert s.cpus == [Cpu(Top, None, 0), Cpu(Top, None, 0)] && s.recs == [Record(0, 0, 0, NotLoaded)];
    assert s.bar == StartBar();
    ReachNext(s, LdStep);
    ReachNext(Next(s, LdStep), LdStep);
    var t := Next(Next(s, LdStep), LdStep);
    assert s.sched.queues[0] == [] && [] + [PROC] == [PROC];
    assert t.sched.queues == Queued().queues;
    assert t.recs == [Record(0, 0, 0, Ready)];
    assert t == AfterLoading();
  }

  /** CPU 0 fetches the process and runs its one instruction. */
  function AfterRunning(): State {
    At(StartBar(), Taken(), Cpu(Sync, Some(PROC), 0), Top, LdSync(Head), false, Record(1, 1, 1, On(0)))
  }

  lemma Running()
    ensures Reachable(AfterRunning())
  {
    Loading();
    TheDispatch();
    hide Reachable, Init, P.Get, Queued, P.State.Valid;
    var s := AfterLoading();
    assert s.Shaped();
    ReachNext(s, CpuStep(0));
    var s1 := At(s.bar, Queued(), Cpu(Fetch(NoProcess), None, 0), Top, s.ldPc, false, s.recs[0]);
    assert Next(s, CpuStep(0)) == s1;
    ReachNext(s1, CpuStep(0));
    var s2 := At(s.bar, Taken(), Cpu(Check, Some(PROC), 0), Top, s.ldPc, false, Record(0, 0, 0, On(0)));
    assert Next(s1, CpuStep(0)) == s2;
    ReachNext(s2, CpuStep(0));
    var s3 := At(s.bar, Taken(), Cpu(Exec, Some(PROC), 1), Top, s.ldPc, false, Record(0, 0, 1, On(0)));
    assert Next(s2, CpuStep(0)) == s3;
    ReachNext(s3, CpuStep(0));
    assert Next(s3, CpuStep(0)) == AfterRunning();
  }

  /** CPU 1 finds nothing. */
  function AfterFinding(): State {
    At(StartBar(), Taken(), Cpu(Sync, Some(PROC), 0), Sync, LdSync(Head), false, Record(1, 1, 1, On(0)))
  }

  lemma Finding()
    ensures Reachable(AfterFinding())
  {
    Running();
    TheDispatch();
    hide Reachable, Init, P.Get, Queued, Taken, P.State.Valid;
    var s := AfterRunning();
    assert s.Shaped();
    ReachNext(s, CpuStep(1));
    var s1 := At(s.bar, s.sched, s.cpus[0], Fetch(NoProcess), s.ldPc, false, s.recs[0]);
    assert Next(s, CpuStep(1)) == s1;
    ReachNext(s1, CpuStep(1));
    assert Next(s1, CpuStep(1)) == AfterFinding();
  }

  /** All three threads call `next_slot`. */
  function AfterArriving(bar: B.State): State {
    At(bar, Taken(), Cpu(Blocked, Some(PROC), 0), Blocked, LdBlocked(Head), false,
       Record(1, 1, 1, On(0)))
  }

  function OneArrived(): State {
    At(Bar(WAITS, B.IDLE, B.IDLE, 0), Taken(), Cpu(Sync, Some(PROC), 0), Sync, LdBlocked(Head), false,
       Record(1, 1, 1, On(0)))
  }

  function TwoArrived(): State {
    At(Bar(WAITS, WAITS, B.IDLE, 0), Taken(), Cpu(Sync, Some(PROC), 0), Blocked, LdBlocked(Head), false,
       Record(1, 1, 1, On(0)))
  }

  lemma OneArrives()
    ensures Reachable(OneArrived())
  {
    Finding();
    TheDispatch();
    hide Reachable, Init, P.Get, Queued, Taken, P.State.Valid;
    assert AfterFinding().Shaped();
    ReachNext(AfterFinding(), LdStep);
    assert Next(AfterFinding(), LdStep) == OneArrived();
  }

  lemma TwoArrive()
    ensures Reachable(TwoArrived())
  {
    OneArrives();
    TheDispatch();
    hide Reachable, Init, P.Get, Queued, Taken, P.State.Valid;
    assert OneArrived().Shaped();
    ReachNext(OneArrived(), CpuStep(1));
    assert Next(OneArrived(), CpuStep(1)) == TwoArrived();
  }

  lemma Arriving()
    ensures Reachable(AfterArriving(Bar(WAITS, WAITS, WAITS, 0)))
  {
    TwoArrive();
    TheDispatch();
    hide Reachable, Init, P.Get, Queued, Taken, P.State.Valid;
    assert TwoArrived().Shaped();
    ReachNext(TwoArrived(), CpuStep(0));
    assert Next(TwoArrived(), CpuStep(0)) == AfterArriving(Bar(WAITS, WAITS, WAITS, 0));
  }

  lemma TimerReaches(b: B.State, e: B.Event)
    requires Reachable(AfterArriving(b)) && |b.devs| == 3 && TimerEvent(e) && B.Enabled(b, e)
    ensures Reachable(AfterArriving(B.Next(b, e)))
  {
    TheDispatch();
    hide Reachable, Init, P.Get, Queued, Taken, P.State.Valid, B.Next, B.Enabled;
    assert AfterArriving(b).Shaped();
    ReachNext(AfterArriving(b), Timer(e));
  }

  /** The timer passes all three, advances the time and lets them go. */
  lemma TimerSlot()
    ensures Reachable(AfterArriving(Bar(FREED, FREED, FREED, 1)))
  {
    Arriving();
    hide Reachable, AfterArriving;
    var w, f := [WAITS, WAITS, WAITS], FREED;
    TimerReaches(B.State(w, 0, B.Scan(0), 0, 0, false), B.ScanOne);
    TimerReaches(B.State(w, 0, B.Scan(1), 0, 1, false), B.ScanOne);
    TimerReaches(B.State(w, 0, B.Scan(2), 0, 2, false), B.ScanOne);
    TimerReaches(B.State(w, 0, B.Scan(3), 0, 3, false), B.Tick);
    TimerReaches(B.State(w, 1, B.Release(0), 0, 3, false), B.ReleaseOne);
    assert w[0 := f] == [f, WAITS, WAITS];
    TimerReaches(B.State([f, WAITS, WAITS], 1, B.Release(1), 0, 3, false), B.ReleaseOne);
    assert [f, WAITS, WAITS][1 := f] == [f, f, WAITS];
    TimerReaches(B.State([f, f, WAITS], 1, B.Release(2), 0, 3, false), B.ReleaseOne);
    assert [f, f, WAITS][2 := f] == [f, f, f];
    TimerReaches(B.State([f, f, f], 1, B.Release(3), 0, 3, false), B.NextRound);
  }

  /** The loader has nothing more to load; CPU 0's process has finished. */
  function AtTheEnd(): State {
    At(Bar(BACK, FREED, BACK, 1), Taken(), Cpu(Fetch(HasFinished), None, 0), Blocked, LdLeaving, true,
       Record(1, 1, 1, Finished))
  }

  lemma TheLoaderLeaves()
    ensures Reachable(At(Bar(BACK, FREED, FREED, 1), Taken(), Cpu(Blocked, Some(PROC), 0), Blocked, LdLeaving, true,
                         Record(1, 1, 1, On(0))))
  {
    TimerSlot();
    TheDispatch();
    hide Reachable, Init, P.Get, Queued, Taken, P.State.Valid;
    var s := AfterArriving(Bar(FREED, FREED, FREED, 1));
    assert s.Shaped();
    ReachNext(s, LdStep);
    var s1 := At(Bar(BACK, FREED, FREED, 1), s.sched, s.cpus[0], Blocked, Head, false, s.recs[0]);
    assert Next(s, LdStep) == s1;
    ReachNext(s1, LdStep);
  }

  lemma TheProcessEnds()
    ensures Reachable(AtTheEnd())
  {
    TheLoaderLeaves();
    TheDispatch();
    hide Reachable, Init, P.Get, Queued, Taken, P.State.Valid;
    var s := At(Bar(BACK, FREED, FREED, 1), Taken(), Cpu(Blocked, Some(PROC), 0), Blocked, LdLeaving, true,
                Record(1, 1, 1, On(0)));
    assert s.Shaped();
    ReachNext(s, CpuStep(0));
    var s1 := At(Bar(BACK, FREED, BACK, 1), s.sched, Cpu(Top, Some(PROC), 0), Blocked, LdLeaving, true, s.recs[0]);
    assert Next(s, CpuStep(0)) == s1;
    ReachNext(s1, CpuStep(0));
    assert Next(s1, CpuStep(0)) == AtTheEnd();
  }

  lemma EndShape()
    ensures |AtTheEnd().cpus| == 2 && !Looping(AtTheEnd().cpus[0].pc) && Looping(AtTheEnd().cpus[1].pc)
  {
  }

  lemma EndSettled()
    requires Reachable(AtTheEnd()) && P.AllEmpty(Taken().queues)
    ensures Settled(AtTheEnd())
  {
    var events :| LegalRun(Init(CONFIG), events) && OsSystem.Run(Init(CONFIG), events) == AtTheEnd();
    Timetable.InitInv(CONFIG);
    hide Timetable.Inv, Init, LegalRun, OsSystem.Run, Taken, P.AllEmpty;
    Timetable.RunInv(Init(CONFIG), events);
  }

  /** Both halves of the exact condition, in one reachable state: all work is over, CPU 0 can
      still stop and CPU 1 never will. */
  lemma OneStopsOneNever()
    ensures Reachable(AtTheEnd()) && Settled(AtTheEnd())
    ensures exists events :: CanEnd(AtTheEnd(), 0, events)
    ensures forall events :: !CanEnd(AtTheEnd(), 1, events)
  {
    EndShape();
    hide AtTheEnd, Settled, Reachable, CanEnd, Taken, Queued, Looping;
    TheProcessEnds();
    TheDispatch();
    EndSettled();
    StopsExactly(AtTheEnd(), 0);
    StopsExactly(AtTheEnd(), 1);
  }
}
