/** The threads of src/os.c over the scheduler and timer objects. Each method is one section
    of `cpu_routine`, `ld_routine` or `timer_routine`; any interleaving of them is a run of
    the transition system. */
module OsThreads {
  import opened OsSystem
  import opened ReadyQueue
  import opened Wrappers
  import B = Barrier
  import P = MlqPolicy
  import Scheduler
  import TimerDevices
  import Quantum = OsQuantum
  import Timetable = OsTimetable

  /** A thread whose next section waits for the barrier leaves everything as it is. */
  function After(s: State, e: Event): State {
    if Enabled(s, e) then Next(s, e) else s
  }

  lemma AfterInv(s: State, e: Event)
    requires Timetable.Inv(s) && Quantum.Inv(s)
    ensures Timetable.Inv(After(s, e)) && Quantum.Inv(After(s, e)) && After(s, e).config == s.config
  {
    hide Timetable.Inv, Quantum.Inv;
    if Enabled(s, e) {
      Timetable.NextInv(s, e);
      Quantum.NextInv(s, e);
      assert Next(s, e).config == s.config;
    }
  }

  lemma InvShaped(s: State)
    requires Timetable.Inv(s)
    ensures s.Shaped() && s.sched.Valid() && s.config.Valid()
    ensures forall c | 0 <= c < |s.cpus| && s.cpus[c].pc == Exec :: s.cpus[c].proc.Some?
  {
  }

  lemma ProcInRange(s: State, c: nat)
    requires s.Shaped() && c < |s.cpus| && s.cpus[c].proc.Some?
    ensures s.cpus[c].proc.value.pid < |s.recs| == |s.config.jobs|
  {
  }

  lemma LocalAfter(s: State, c: nat)
    requires Timetable.Inv(s) && c < |s.cpus| && s.cpus[c].pc != Ended
      && CpuBarrier(s.cpus[c].pc, DeviceOf(s, c)) == None
    ensures CpuEnabled(s, c) && After(s, CpuStep(c)) == CpuMove(s, c)
  {
    InvShaped(s);
  }

  /** A thread at a barrier step is where its device says, so only the wait can hold it up. */
  lemma CpuAtBarrier(s: State, c: nat)
    requires Timetable.Inv(s) && c < |s.cpus|
    requires s.cpus[c].pc == Sync || s.cpus[c].pc == Blocked || s.cpus[c].pc == Leaving
    ensures var d, e := DeviceOf(s, c), CpuBarrier(s.cpus[c].pc, DeviceOf(s, c)).value;
            && d < |s.bar.devs| && s.bar.devs[d].mode == (if s.cpus[c].pc == Blocked then B.Waiting else B.Working)
            && (s.cpus[c].pc != Blocked ==> B.Enabled(s.bar, e))
            && After(s, CpuStep(c)) == if B.Enabled(s.bar, e) then CpuMove(s, c) else s
  {
    InvShaped(s);
  }

  lemma LoaderAfter(s: State)
    requires Timetable.Inv(s) && (s.ldPc == Head || s.ldPc == Spin)
    ensures LdEnabled(s) && After(s, LdStep) == LdMove(s)
    ensures s.ldPc == Spin ==> s.loaded < |s.config.jobs| == |s.recs| && s.config.jobs[s.loaded].prio < MAX_PRIO
  {
    InvShaped(s);
  }

  lemma LoaderAtBarrier(s: State)
    requires Timetable.Inv(s) && LdBarrier(s.ldPc).Some?
    ensures var e := LdBarrier(s.ldPc).value;
            && |s.bar.devs| > 0 && s.bar.devs[LD_DEVICE].mode == (if s.ldPc.LdBlocked? then B.Waiting else B.Working)
            && (!s.ldPc.LdBlocked? ==> B.Enabled(s.bar, e))
            && After(s, LdStep) == if B.Enabled(s.bar, e) then LdMove(s) else s
  {
    InvShaped(s);
  }

  lemma TimerAfter(s: State)
    requires Timetable.Inv(s)
    ensures s.bar.pc == B.Exited ==> !B.Enabled(s.bar, B.TimerTurn(s.bar))
    ensures s.bar.pc != B.Exited ==> s.bar.pc.i <= |s.bar.devs|
    ensures s.bar.pc != B.Exited && B.TimerTurn(s.bar) != B.ScanOne ==> B.Enabled(s.bar, B.TimerTurn(s.bar))
    ensures var e := B.TimerTurn(s.bar);
            After(s, Timer(e)) == if B.Enabled(s.bar, e) then s.(bar := B.Next(s.bar, e)) else s
  {
    InvShaped(s);
    B.InvPc(s.bar);
  }

  /** `main` has joined every CPU thread and the loader exactly when every device is gone. */
  lemma StopAfter(s: State)
    requires Timetable.Inv(s)
    ensures After(s, Timer(B.RequestStop)) ==
              if !s.bar.stop && s.ldPc == LdEnded && forall c | 0 <= c < |s.cpus| :: s.cpus[c].pc == Ended
              then s.(bar := s.bar.(stop := true)) else s
    ensures !s.bar.stop && s.ldPc == LdEnded && (forall c | 0 <= c < |s.cpus| :: s.cpus[c].pc == Ended) ==>
              B.Enabled(s.bar, B.RequestStop)
  {
    InvShaped(s);
    var b := s.bar;
    if s.ldPc == LdEnded && forall c | 0 <= c < |s.cpus| :: s.cpus[c].pc == Ended {
      forall d | 0 <= d < |b.devs| ensures b.devs[d].mode == B.Gone {
        if d != LD_DEVICE {
          var c := |s.cpus| - d;
          assert b.devs[|s.cpus| - c].mode == Timetable.CpuMode(s.cpus[c].pc);
        }
      }
    }
  }

  /** Whose turn it is. */
  datatype Turn = CpuTurn(c: nat) | LoaderTurn | TimerThread | MainTurn

  function EventOf(turn: Turn, s: State): Event {
    match turn
    case CpuTurn(c) => CpuStep(c)
    case LoaderTurn => LdStep
    case TimerThread => Timer(B.TimerTurn(s.bar))
    case MainTurn => Timer(B.RequestStop)
  }

  /** The steps that a sequence of turns makes: each thread whose turn comes takes its next step
      unless it has ended or the barrier holds it. */
  function StepsOf(s: State, turns: seq<Turn>): seq<Event>
    decreases |turns|
  {
    if turns == [] then []
    else
      var e := EventOf(turns[0], s);
      if Enabled(s, e) then [e] + StepsOf(Next(s, e), turns[1..]) else StepsOf(s, turns[1..])
  }

  lemma StepsNone(s: State)
    ensures StepsOf(s, []) == []
  {
  }

  lemma EndedStays(s: State)
    ensures forall c | 0 <= c < |s.cpus| && s.cpus[c].pc == Ended :: !Enabled(s, CpuStep(c))
    ensures s.ldPc == LdEnded ==> !Enabled(s, LdStep)
  {
  }

  lemma StepsNext(s: State, turns: seq<Turn>, i: nat, done: seq<Event>, all: seq<Event>)
    requires i < |turns| && all == done + StepsOf(s, turns[i..])
    ensures var e := EventOf(turns[i], s);
            all == (if Enabled(s, e) then done + [e] else done) + StepsOf(After(s, e), turns[i + 1..])
  {
    hide Enabled, Next;
    assert turns[i..][0] == turns[i] && turns[i..][1..] == turns[i + 1..];
  }

  /** Attaching one more idle device. */
  lemma OneMore(n: nat)
    ensures B.Init(n + 1) == B.Init(n).(devs := [B.IDLE] + B.Init(n).devs)
  {
    assert B.Init(n + 1).devs == [B.IDLE] + B.Init(n).devs;
  }

  /** Attach n devices, then start the timer. */
  method AttachedTimer(n: nat) returns (t: TimerDevices.Timer)
    ensures fresh(t) && fresh(t.devList) && t.started && t.Valid() && t.Contents() == B.Init(n)
  {
    hide B.Init, TimerDevices.Timer.Contents;
    t := new TimerDevices.Timer();
    for i := 0 to n
      invariant t.Valid() && !t.started && fresh(t) && fresh(t.devList) && t.Contents() == B.Init(i)
    {
      var id := t.AttachEvent();
      OneMore(i);
    }
    t.StartTimer();
  }

  class Simulation {
    const config: Config
    const timer: TimerDevices.Timer
    const sched: Scheduler.Mlq
    // The local variables of the CPU threads, and those of the loader.
    const cpus: array<Cpu>
    var ldPc: LdPc
    var loaded: nat
    var done: bool
    var recs: seq<Record>
    ghost var addedAt: seq<nat>

    /** The scheduler and the timer share nothing. */
    ghost predicate Separate()
      reads timer
    {
      forall d <- timer.devList :: d !in sched.Footprint()
    }

    ghost predicate WellFormed()
      reads this, timer, timer.devList, sched, sched.slot, sched.Footprint(), cpus
    {
      timer.Valid() && sched.Valid() && Separate() && cpus !in sched.Footprint()
    }

    ghost function Contents(): (s: State)
      requires WellFormed()
      reads this, timer, timer.devList, sched, sched.slot, sched.Footprint(), cpus
      ensures s.config == config && s.cpus == cpus[..] && s.recs == recs && s.ldPc == ldPc && s.loaded == loaded
        && s.addedAt == addedAt
      ensures s.done == done && s.bar.time == timer.time && s.bar.pc == timer.pc && s.bar.stop == timer.stopping
        && |s.bar.devs| == |timer.devList|
    {
      State(config, timer.Contents(), sched.Contents(), cpus[..], ldPc, loaded, done, addedAt, recs)
    }

    ghost predicate Valid()
      reads this, timer, timer.devList, sched, sched.slot, sched.Footprint(), cpus
    {
      WellFormed() && Contents().config == config && Timetable.Inv(Contents()) && Quantum.Inv(Contents())
    }

    constructor (config: Config, timer: TimerDevices.Timer, sched: Scheduler.Mlq, cpus: array<Cpu>)
      requires timer.Valid() && sched.Valid() && cpus !in sched.Footprint()
      requires forall d <- timer.devList :: d !in sched.Footprint()
      ensures this.timer == timer && this.sched == sched && this.cpus == cpus && WellFormed()
      ensures Contents() == State(config, timer.Contents(), sched.Contents(), cpus[..], Head, 0, false, [],
                                  Init(config).recs)
    {
      this.config, this.timer, this.sched, this.cpus := config, timer, sched, cpus;
      ldPc, loaded, done, addedAt := Head, 0, false, [];
      recs := seq(|config.jobs|, _ => Record(0, 0, 0, NotLoaded));
    }

    // ---- One change at a time ----

    method SetCpu(c: nat, cpu: Cpu)
      requires WellFormed() && c < cpus.Length
      modifies cpus
      ensures WellFormed() && Contents() == WithCpu(old(Contents()), c, cpu)
    {
      cpus[c] := cpu;
      assert cpus[..] == old(cpus[..])[c := cpu];
    }

    method SetRecord(j: nat, r: Record)
      requires WellFormed() && j < |recs|
      modifies this`recs
      ensures WellFormed() && Contents() == old(Contents()).(recs := old(recs)[j := r])
    {
      recs := recs[j := r];
    }

    method SetLoader(pc: LdPc, count: nat, ghost added: seq<nat>)
      requires WellFormed()
      modifies this`ldPc, this`loaded, this`addedAt
      ensures WellFormed() && Contents() == old(Contents()).(ldPc := pc, loaded := count, addedAt := added)
    {
      ldPc, loaded, addedAt := pc, count, added;
    }

    method SetDone()
      requires WellFormed()
      modifies this`done
      ensures WellFormed() && Contents() == old(Contents()).(done := true)
    {
      done := true;
    }

    method SetStopping()
      requires WellFormed() && B.Enabled(Contents().bar, B.RequestStop)
      modifies timer`stopping
      ensures WellFormed() && Contents() == old(Contents()).(bar := old(Contents()).bar.(stop := true))
    {
      timer.StopTimer();
    }

    /** `put_proc` and `add_proc`; `place` says whether the queue took the process. */
    method PutProc(p: Process) returns (place: Place)
      requires WellFormed() && p.prio < MAX_PRIO
      modifies sched.Footprint()
      ensures place == PutPlace(old(Contents()).sched, p)
      ensures WellFormed() && Contents().sched.Valid()
      ensures Contents() == old(Contents()).(sched := P.Put(old(Contents()).sched, p))
    {
      hide P.Put, Scheduler.Mlq.Valid, Scheduler.Mlq.Ready, Scheduler.Mlq.Queues, Scheduler.Mlq.Contents;
      place := if sched.HasRoom(p.prio) then Ready else Dropped;
      sched.PutMlqProc(p);
    }

    /** `get_proc`. */
    method GetProc() returns (proc: Option<Process>)
      requires WellFormed()
      modifies sched, sched.Footprint()
      ensures WellFormed() && proc == P.Get(old(Contents()).sched).proc
      ensures Contents() == old(Contents()).(sched := P.Get(old(Contents()).sched).state)
    {
      hide P.Get;
      proc := sched.GetMlqProc();
    }

    /** `next_slot`, first section, of the thread with device d. */
    method ArriveAt(d: nat)
      requires WellFormed() && B.Enabled(Contents().bar, B.Arrive(d))
      modifies timer.devList[d]
      ensures WellFormed() && Contents() == old(Contents()).(bar := B.Next(old(Contents()).bar, B.Arrive(d)))
    {
      timer.Arrive(d);
    }

    /** `next_slot`, second section. */
    method ResumeAt(d: nat) returns (over: bool)
      requires WellFormed() && d < |timer.devList| && Contents().bar.devs[d].mode == B.Waiting
      modifies timer.devList[d]
      ensures WellFormed() && over == B.Enabled(old(Contents()).bar, B.Resume(d))
      ensures Contents() ==
              if over then old(Contents()).(bar := B.Next(old(Contents()).bar, B.Resume(d))) else old(Contents())
    {
      over := timer.Resume(d);
    }

    /** `detach_event`. */
    method DetachAt(d: nat)
      requires WellFormed() && B.Enabled(Contents().bar, B.Detach(d))
      modifies timer.devList[d]
      ensures WellFormed() && Contents() == old(Contents()).(bar := B.Next(old(Contents()).bar, B.Detach(d)))
    {
      timer.DetachEvent(d);
    }

    method TimerMove()
      requires WellFormed() && (timer.pc == B.Exited || timer.pc.i <= |timer.devList|)
      modifies timer`time, timer`pc, timer`fsh, timer`event, timer.devList
      ensures WellFormed()
      ensures var b, e := old(Contents()).bar, B.TimerTurn(old(Contents()).bar);
              Contents() == if B.Enabled(b, e) then old(Contents()).(bar := B.Next(b, e)) else old(Contents())
    {
      hide B.Enabled, B.Next, B.TimerTurn;
      timer.Step();
    }

    // ---- cpu_routine ----

    /** Check the status of the current process. */
    method CheckStatus(c: nat)
      requires Valid() && c < cpus.Length && cpus[c].pc == Top
      modifies this`recs, cpus, sched.Footprint()
      ensures Valid() && Contents() == After(old(Contents()), CpuStep(c))
    {
      hide WellFormed, Contents, Timetable.Inv, Quantum.Inv, After, P.Put, Enabled, CpuEnabled;
      ghost var s := Contents();
      InvShaped(s);
      LocalAfter(s, c);
      AfterInv(s, CpuStep(c));
      var cpu := cpus[c];
      if cpu.proc == None {
        SetCpu(c, cpu.(pc := Fetch(NoProcess)));
      } else {
        var p := cpu.proc.value;
        if recs[p.pid].pc == config.jobs[p.pid].size {
          SetRecord(p.pid, recs[p.pid].(place := Finished));
          SetCpu(c, Cpu(Fetch(HasFinished), None, cpu.timeLeft));
        } else if cpu.timeLeft == 0 {
          var place := PutProc(p);
          SetRecord(p.pid, recs[p.pid].(place := place));
          SetCpu(c, Cpu(Fetch(QuantumOver), None, 0));
        } else {
          SetCpu(c, cpu.(pc := Check));
        }
      }
    }

    /** Load a process from the ready queues. */
    method LoadProcess(c: nat)
      requires Valid() && c < cpus.Length && cpus[c].pc.Fetch?
      modifies this`recs, cpus, sched, sched.Footprint()
      ensures Valid() && Contents() == After(old(Contents()), CpuStep(c))
    {
      hide WellFormed, Contents, Timetable.Inv, Quantum.Inv, After, P.Get, Enabled, CpuEnabled;
      ghost var s := Contents();
      InvShaped(s);
      LocalAfter(s, c);
      AfterInv(s, CpuStep(c));
      var why, timeLeft := cpus[c].pc.why, cpus[c].timeLeft;
      var proc := GetProc();
      if proc.Some? && proc.value.pid < |recs| {
        SetRecord(proc.value.pid, recs[proc.value.pid].(place := On(c)));
      }
      if why == HasFinished {
        timeLeft := 0;
      }
      if why == NoProcess && proc == None {
        SetCpu(c, Cpu(Sync, None, timeLeft));
      } else {
        SetCpu(c, Cpu(Check, proc, timeLeft));
      }
    }

    /** Recheck the status after loading. */
    method Recheck(c: nat)
      requires Valid() && c < cpus.Length && cpus[c].pc == Check
      modifies this`recs, cpus
      ensures Valid() && Contents() == After(old(Contents()), CpuStep(c))
    {
      hide WellFormed, Contents, Timetable.Inv, Quantum.Inv, After, Enabled, CpuEnabled, State.Shaped;
      ghost var s := Contents();
      InvShaped(s);
      LocalAfter(s, c);
      AfterInv(s, CpuStep(c));
      if cpus[c].proc.Some? { ProcInRange(s, c); }
      var cpu := cpus[c];
      if cpu.proc == None && done {
        SetCpu(c, cpu.(pc := Leaving));
      } else if cpu.proc == None {
        SetCpu(c, cpu.(pc := Sync));
      } else {
        var j := cpu.proc.value.pid;
        if cpu.timeLeft == 0 {
          SetRecord(j, recs[j].(dispatches := recs[j].dispatches + 1));
          SetCpu(c, cpu.(pc := Exec, timeLeft := config.quantum));
        } else {
          SetCpu(c, cpu.(pc := Exec));
        }
      }
    }

    /** Run the current process for one instruction. */
    method RunProcess(c: nat)
      requires Valid() && c < cpus.Length && cpus[c].pc == Exec
      modifies this`recs, cpus
      ensures Valid() && Contents() == After(old(Contents()), CpuStep(c))
    {
      hide WellFormed, Contents, Timetable.Inv, Quantum.Inv, After, Enabled, CpuEnabled, State.Shaped;
      ghost var s := Contents();
      InvShaped(s);
      LocalAfter(s, c);
      AfterInv(s, CpuStep(c));
      if cpus[c].proc.Some? { ProcInRange(s, c); }
      var cpu := cpus[c];
      var j := cpu.proc.value.pid;
      var pc := recs[j].pc;
      if pc < config.jobs[j].size {
        pc := pc + 1;
      }
      SetRecord(j, recs[j].(pc := pc, runs := recs[j].runs + 1));
      SetCpu(c, cpu.(pc := Sync, timeLeft := cpu.timeLeft - 1));
    }

    /** Tell the timer that this slot's job is done. */
    method EnterSlotWait(c: nat)
      requires Valid() && c < cpus.Length && cpus[c].pc == Sync
      modifies cpus, timer.devList
      ensures Valid() && Contents() == After(old(Contents()), CpuStep(c))
    {
      hide WellFormed, Contents, Timetable.Inv, Quantum.Inv, After, Enabled, CpuEnabled, State.Shaped,
        B.Enabled, B.Next;
      ghost var s := Contents();
      CpuAtBarrier(s, c);
      AfterInv(s, CpuStep(c));
      ArriveAt(cpus.Length - c);
      SetCpu(c, cpus[c].(pc := Blocked));
    }

    /** Leave `next_slot` once the wait is over. */
    method LeaveSlotWait(c: nat)
      requires Valid() && c < cpus.Length && cpus[c].pc == Blocked
      modifies cpus, timer.devList
      ensures Valid() && Contents() == After(old(Contents()), CpuStep(c))
    {
      hide WellFormed, Contents, Timetable.Inv, Quantum.Inv, After, Enabled, CpuEnabled, State.Shaped,
        B.Enabled, B.Next;
      ghost var s := Contents();
      CpuAtBarrier(s, c);
      AfterInv(s, CpuStep(c));
      var over := ResumeAt(cpus.Length - c);
      if over {
        SetCpu(c, cpus[c].(pc := Top));
      }
    }

    /** Detach and end. */
    method EndCpu(c: nat)
      requires Valid() && c < cpus.Length && cpus[c].pc == Leaving
      modifies cpus, timer.devList
      ensures Valid() && Contents() == After(old(Contents()), CpuStep(c))
    {
      hide WellFormed, Contents, Timetable.Inv, Quantum.Inv, After, Enabled, CpuEnabled, State.Shaped,
        B.Enabled, B.Next;
      ghost var s := Contents();
      CpuAtBarrier(s, c);
      AfterInv(s, CpuStep(c));
      DetachAt(cpus.Length - c);
      SetCpu(c, cpus[c].(pc := Ended));
    }

    // ---- ld_routine ----

    /** Go on to the next process of the list, or finish: everything is loaded. */
    method NextJob()
      requires Valid() && ldPc == Head
      modifies this`ldPc, this`loaded, this`addedAt, this`done
      ensures Valid() && Contents() == After(old(Contents()), LdStep)
    {
      hide WellFormed, Contents, Timetable.Inv, Quantum.Inv, After, Enabled, LdEnabled, State.Shaped, P.Put;
      ghost var s := Contents();
      LoaderAfter(s);
      AfterInv(s, LdStep);
      if loaded < |config.jobs| {
        SetLoader(Spin, loaded, addedAt);
      } else {
        SetDone();
        SetLoader(LdLeaving, loaded, addedAt);
      }
    }

    method AddLoaded(p: Process)
      requires WellFormed() && loaded < |recs| && p.prio < MAX_PRIO
      modifies this`ldPc, this`loaded, this`addedAt, this`recs, sched.Footprint()
      ensures WellFormed() && var s := old(Contents());
              Contents() == s.(ldPc := LdSync(Head), loaded := s.loaded + 1, addedAt := s.addedAt + [s.bar.time],
                               sched := P.Put(s.sched, p),
                               recs := Placed(s, s.loaded, PutPlace(s.sched, p)))
    {
      hide WellFormed, Contents, P.Put;
      var place := PutProc(p);
      SetRecord(loaded, recs[loaded].(place := place));
      SetLoader(LdSync(Head), loaded + 1, addedAt + [timer.time]);
    }

    /** Wait for the start slot of the process, or add it. */
    method AddJob()
      requires Valid() && ldPc == Spin
      modifies this`ldPc, this`loaded, this`addedAt, this`recs, sched.Footprint()
      ensures Valid() && Contents() == After(old(Contents()), LdStep)
    {
      hide WellFormed, Contents, Timetable.Inv, Quantum.Inv, After, Enabled, LdEnabled, State.Shaped,
        Config.Valid, B.Enabled, B.Next, P.Put;
      ghost var s := Contents();
      LoaderAfter(s);
      AfterInv(s, LdStep);
      if timer.time < config.jobs[loaded].start {
        SetLoader(LdSync(Spin), loaded, addedAt);
      } else {
        AddLoaded(config.ProcessOf(loaded));
      }
    }

    /** `next_slot` and `detach_event`, called by the loader. */
    method LoaderBarrier()
      requires Valid() && LdBarrier(ldPc).Some?
      modifies this`ldPc, this`loaded, this`addedAt, timer.devList
      ensures Valid() && Contents() == After(old(Contents()), LdStep)
    {
      hide WellFormed, Contents, Timetable.Inv, Quantum.Inv, After, Enabled, LdEnabled, State.Shaped,
        B.Enabled, B.Next, P.Put;
      ghost var s := Contents();
      LoaderAtBarrier(s);
      AfterInv(s, LdStep);
      match ldPc
      case LdSync(next) =>
        ArriveAt(LD_DEVICE);
        SetLoader(LdBlocked(next), loaded, addedAt);
      case LdBlocked(next) =>
        var over := ResumeAt(LD_DEVICE);
        if over {
          SetLoader(next, loaded, addedAt);
        }
      case LdLeaving =>
        DetachAt(LD_DEVICE);
        SetLoader(LdEnded, loaded, addedAt);
    }

    // ---- timer_routine ----

    /** One section of the timer thread. */
    method TimerStep()
      requires Valid()
      modifies timer`time, timer`pc, timer`fsh, timer`event, timer.devList
      ensures Valid() && Contents() == After(old(Contents()), Timer(B.TimerTurn(old(Contents()).bar)))
    {
      hide WellFormed, Contents, Timetable.Inv, Quantum.Inv, After, Enabled, State.Shaped,
        B.Enabled, B.Next, B.TimerTurn;
      TimerAfter(Contents());
      AfterInv(Contents(), Timer(B.TimerTurn(Contents().bar)));
      TimerMove();
    }

    /** `main`: stop the timer once every other thread has ended. */
    method StopTimer()
      requires Valid()
      modifies timer`stopping
      ensures Valid() && Contents() == After(old(Contents()), Timer(B.RequestStop))
    {
      hide WellFormed, Contents, Timetable.Inv, Quantum.Inv, After, Enabled, State.Shaped,
        B.Enabled, B.Next;
      ghost var s := Contents();
      StopAfter(s);
      AfterInv(s, Timer(B.RequestStop));
      for c := 0 to cpus.Length
        invariant forall k | 0 <= k < c :: cpus[k].pc == Ended
      {
        if cpus[c].pc != Ended {
          return;
        }
      }
      if ldPc == LdEnded && !timer.stopping {
        SetStopping();
      }
    }

    // ---- Interleaving ----

    /** One section of CPU thread c, wherever it is. */
    method StepCpu(c: nat)
      requires Valid() && c < cpus.Length && cpus[c].pc != Ended
      modifies this`recs, cpus, sched, sched.Footprint(), timer.devList
      ensures Valid() && Contents() == After(old(Contents()), CpuStep(c))
    {
      hide WellFormed, Contents, Valid, After;
      match cpus[c].pc
      case Top => CheckStatus(c);
      case Fetch(_) => LoadProcess(c);
      case Check => Recheck(c);
      case Exec => RunProcess(c);
      case Sync => EnterSlotWait(c);
      case Blocked => LeaveSlotWait(c);
      case Leaving => EndCpu(c);
    }

    /** One section of the loader thread. */
    method StepLoader()
      requires Valid() && ldPc != LdEnded
      modifies this`ldPc, this`loaded, this`addedAt, this`done, this`recs, sched.Footprint(), timer.devList
      ensures Valid() && Contents() == After(old(Contents()), LdStep)
    {
      hide WellFormed, Contents, Valid, After;
      if ldPc == Head {
        NextJob();
      } else if ldPc == Spin {
        AddJob();
      } else {
        LoaderBarrier();
      }
    }

    /** Let the threads take turns in any order. Whatever the order, what happens is the run of
        the transition system in which each thread steps whenever its turn comes and it can. */
    method Interleave(turns: seq<Turn>) returns (ghost events: seq<Event>)
      requires Valid() && forall t <- turns :: t.CpuTurn? ==> t.c < cpus.Length
      modifies this`ldPc, this`loaded, this`addedAt, this`done, this`recs, cpus, sched, sched.Footprint()
      modifies timer`time, timer`pc, timer`fsh, timer`event, timer`stopping, timer.devList
      ensures Valid() && LegalRun(old(Contents()), events) && Contents() == OsSystem.Run(old(Contents()), events)
      ensures events == StepsOf(old(Contents()), turns)
    {
      hide WellFormed, Contents, Timetable.Inv, Quantum.Inv, Enabled, Next, StepsOf;
      events := [];
      ghost var s := Contents();
      assert turns[0..] == turns;
      for i := 0 to |turns|
        invariant Valid() && timer.devList == old(timer.devList)
        invariant LegalRun(s, events) && Contents() == OsSystem.Run(s, events)
        invariant events + StepsOf(Contents(), turns[i..]) == StepsOf(s, turns)
      {
        ghost var t, e := Contents(), EventOf(turns[i], Contents());
        StepsNext(t, turns, i, events, StepsOf(s, turns));
        EndedStays(t);
        match turns[i] {
          case CpuTurn(c) => if cpus[c].pc != Ended { StepCpu(c); }
          case LoaderTurn => if ldPc != LdEnded { StepLoader(); }
          case TimerThread => TimerStep();
          case MainTurn => StopTimer();
        }
        if Enabled(t, e) {
          RunSnoc(s, events, e);
          events := events + [e];
        }
      }
      StepsNone(Contents());
      assert turns[|turns|..] == [];
    }
  }

  method NewScheduler() returns (sched: Scheduler.Mlq)
    ensures fresh(sched) && fresh(sched.slot) && fresh(sched.Footprint()) && sched.Valid()
      && sched.Contents() == P.START
  {
    sched := new Scheduler.Mlq();
  }

  /** `main`, from attaching the devices to creating the threads. */
  method Boot(config: Config) returns (simulation: Simulation)
    requires config.Valid()
    ensures fresh(simulation) && simulation.Valid() && simulation.Contents() == Init(config)
  {
    hide B.Init, Timetable.Inv, Quantum.Inv, P.State.Valid;
    hide Simulation.WellFormed, Simulation.Contents, Scheduler.Mlq.Footprint;
    var timer := AttachedTimer(config.cpus + 1);
    var cpus := new Cpu[config.cpus](_ => Cpu(Top, None, 0));
    assert cpus[..] == Init(config).cpus;
    var sched := NewScheduler();
    simulation := new Simulation(config, timer, sched, cpus);
    assert simulation.Contents() == Init(config);
    hide Init;
    Timetable.InitInv(config);
    Quantum.InitInv(config);
    assert simulation.Contents().config == simulation.config;
  }
}
