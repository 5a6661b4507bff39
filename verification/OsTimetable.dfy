/** The system on top of the barrier: threads and devices agree, processes are loaded at
    exactly the slots the configuration asks for, and no thread gets stuck. */
module OsTimetable {
  import opened OsSystem
  import opened Wrappers
  import B = Barrier
  import P = MlqPolicy
  import Places = OsPlaces

  function CpuMode(pc: CpuPc): B.Mode {
    match pc
    case Blocked => B.Waiting
    case Ended => B.Gone
    case _ => B.Working
  }

  function LdMode(pc: LdPc): B.Mode {
    match pc
    case LdBlocked(_) => B.Waiting
    case LdEnded => B.Gone
    case _ => B.Working
  }

  /** The slot at which process i is loaded: its start slot, or the slot after the process
      before it if that is later. */
  function Slot(jobs: seq<Job>, i: nat): nat
    requires i < |jobs|
    decreases i, 1
  {
    if jobs[i].start >= Earliest(jobs, i) then jobs[i].start else Earliest(jobs, i)
  }

  function Earliest(jobs: seq<Job>, i: nat): nat
    requires i <= |jobs|
    decreases i, 0
  {
    if i == 0 then 0 else Slot(jobs, i - 1) + 1
  }

  /** The loader's own clock, its number of `next_slot` calls, against the timetable. */
  ghost predicate OnTime(jobs: seq<Job>, i: nat, ldPc: LdPc, clock: nat)
    requires i <= |jobs|
  {
    match ldPc
    case Head => clock == Earliest(jobs, i)
    case Spin => i < |jobs| && Earliest(jobs, i) <= clock <= Slot(jobs, i)
    case LdSync(next) =>
      || (next == Spin && i < |jobs| && Earliest(jobs, i) <= clock < Slot(jobs, i))
      || (next == Head && clock + 1 == Earliest(jobs, i))
    case LdBlocked(next) =>
      || (next == Spin && i < |jobs| && Earliest(jobs, i) <= clock <= Slot(jobs, i))
      || (next == Head && clock == Earliest(jobs, i))
    case LdLeaving => i == |jobs|
    case LdEnded => i == |jobs|
  }

  ghost predicate AddedOk(jobs: seq<Job>, i: nat, addedAt: seq<nat>)
    requires i <= |jobs|
  {
    |addedAt| == i && forall k | 0 <= k < i :: addedAt[k] == Slot(jobs, k)
  }

  /** Every thread is where its barrier device says. */
  ghost predicate Modes(devs: seq<B.Device>, cpus: seq<Cpu>, ldPc: LdPc)
    requires |devs| == |cpus| + 1
  {
    && (forall c | 0 <= c < |cpus| :: devs[|cpus| - c].mode == CpuMode(cpus[c].pc))
    && devs[LD_DEVICE].mode == LdMode(ldPc)
  }

  ghost predicate Inv(s: State) {
    && Places.Inv(s) && B.Inv(s.bar) && Modes(s.bar.devs, s.cpus, s.ldPc)
    && OnTime(s.config.jobs, s.loaded, s.ldPc, s.bar.devs[LD_DEVICE].calls)
    && AddedOk(s.config.jobs, s.loaded, s.addedAt)
  }

  lemma InitInv(config: Config)
    requires config.Valid()
    ensures Inv(Init(config))
  {
    Places.InitInv(config);
    B.InitInv(config.cpus + 1);
  }

  /** The timer's steps change neither a device's thread nor its count of calls. */
  lemma TimerKeepsDevices(b: B.State, e: B.Event)
    requires TimerEvent(e) && B.Enabled(b, e)
    ensures var t := B.Next(b, e);
            && |t.devs| == |b.devs|
            && forall d | 0 <= d < |b.devs| :: t.devs[d].mode == b.devs[d].mode && t.devs[d].calls == b.devs[d].calls
  {
  }

  lemma TimerInv(s: State, b: B.Event)
    requires Inv(s) && Enabled(s, Timer(b))
    ensures Inv(Next(s, Timer(b)))
  {
    Places.NextInv(s, Timer(b));
    B.NextInv(s.bar, b);
    TimerKeepsDevices(s.bar, b);
    hide B.Inv, B.Enabled, B.Next, Places.Inv, OnTime, AddedOk;
  }

  /** A CPU step outside `next_slot` leaves the barrier and the loader alone. */
  lemma CpuLocal(s: State, c: nat)
    requires CpuEnabled(s, c) && CpuBarrier(s.cpus[c].pc, DeviceOf(s, c)) == None
    ensures var t := CpuMove(s, c);
            && |t.cpus| == |s.cpus| && CpuMode(t.cpus[c].pc) == B.Working
            && (forall d | 0 <= d < |s.cpus| && d != c :: t.cpus[d] == s.cpus[d])
            && t.bar == s.bar && t.loaded == s.loaded && t.config == s.config && t.addedAt == s.addedAt
              && t.ldPc == s.ldPc
  {
    hide P.Get, P.Put, P.State.Valid;
  }

  lemma Shapes(s: State)
    requires Places.Inv(s)
    ensures s.Shaped() && |s.bar.devs| == |s.cpus| + 1 && s.loaded <= |s.config.jobs|
  {
  }

  lemma CpuInRange(s: State, c: nat)
    requires CpuEnabled(s, c)
    ensures c < |s.cpus| && s.cpus[c].pc != Ended
  {
  }

  lemma CpuLocalInv(s: State, c: nat)
    requires Inv(s) && Enabled(s, CpuStep(c)) && CpuBarrier(s.cpus[c].pc, DeviceOf(s, c)) == None
    ensures Inv(Next(s, CpuStep(c)))
  {
    hide B.Inv, Places.Inv, OnTime, AddedOk, State.Shaped, CpuMove, CpuEnabled;
    CpuInRange(s, c);
    Places.NextInv(s, CpuStep(c));
    CpuLocal(s, c);
    Shapes(s);
    Shapes(Next(s, CpuStep(c)));
  }

  /** A thread's barrier step changes its own device only. */
  lemma OneDevice(b: B.State, e: B.Event, d: nat)
    requires e == B.Arrive(d) || e == B.Resume(d) || e == B.Detach(d)
    requires B.Enabled(b, e)
    ensures var t := B.Next(b, e);
            && |t.devs| == |b.devs| && (forall k | 0 <= k < |b.devs| && k != d :: t.devs[k] == b.devs[k])
            && t.devs[d].mode == (if e.Arrive? then B.Waiting else if e.Resume? then B.Working else B.Gone)
            && t.devs[d].calls == b.devs[d].calls + if e.Arrive? then 1 else 0
  {
  }

  lemma CpuBarrierInv(s: State, c: nat)
    requires Inv(s) && Enabled(s, CpuStep(c)) && CpuBarrier(s.cpus[c].pc, DeviceOf(s, c)).Some?
    ensures Inv(Next(s, CpuStep(c)))
  {
    hide B.Inv, B.Next, B.Enabled, Places.Inv, OnTime, AddedOk, State.Shaped, CpuMove, CpuEnabled;
    CpuInRange(s, c);
    var e := CpuBarrier(s.cpus[c].pc, DeviceOf(s, c)).value;
    Places.NextInv(s, CpuStep(c));
    CpuAtBarrier(s, c);
    B.NextInv(s.bar, e);
    OneDevice(s.bar, e, DeviceOf(s, c));
    Shapes(s);
    Shapes(Next(s, CpuStep(c)));
  }

  lemma CpuAtBarrier(s: State, c: nat)
    requires CpuEnabled(s, c) && CpuBarrier(s.cpus[c].pc, DeviceOf(s, c)).Some?
    ensures var t, e := CpuMove(s, c), CpuBarrier(s.cpus[c].pc, DeviceOf(s, c)).value;
            && (e == B.Arrive(DeviceOf(s, c)) || e == B.Resume(DeviceOf(s, c)) || e == B.Detach(DeviceOf(s, c)))
              && B.Enabled(s.bar, e)
            && |t.cpus| == |s.cpus| && (forall d | 0 <= d < |s.cpus| && d != c :: t.cpus[d] == s.cpus[d])
            && CpuMode(t.cpus[c].pc) == (if e.Arrive? then B.Waiting else if e.Resume? then B.Working else B.Gone)
            && t.cpus[c].pc == (if e.Arrive? then Blocked else if e.Resume? then Top else Ended)
            && t.bar == B.Next(s.bar, e) && t.loaded == s.loaded && t.config == s.config
            && t.addedAt == s.addedAt && t.ldPc == s.ldPc
  {
    hide B.Enabled, B.Next, P.State.Valid;
  }

  /** Between two calls of `next_slot` the loader sees its own call count as the time. */
  lemma LoaderSeesItsClock(s: State)
    requires Inv(s) && LdMode(s.ldPc) == B.Working
    ensures s.bar.time == s.bar.devs[LD_DEVICE].calls
  {
  }

  lemma LoaderBarrierInv(s: State)
    requires Inv(s) && Enabled(s, LdStep) && LdBarrier(s.ldPc).Some?
    ensures Inv(Next(s, LdStep))
  {
    var e := LdBarrier(s.ldPc).value;
    Places.NextInv(s, LdStep);
    B.NextInv(s.bar, e);
    OneDevice(s.bar, e, LD_DEVICE);
    LoaderAtBarrier(s, s.bar.devs[LD_DEVICE].calls);
    assert s.Shaped() && Next(s, LdStep).Shaped();
    hide B.Inv, B.Next, B.Enabled, Places.Inv, OnTime, AddedOk, State.Shaped, LdMove, LdEnabled;
  }

  lemma LoaderAtBarrier(s: State, clock: nat)
    requires LdEnabled(s) && LdBarrier(s.ldPc).Some? && OnTime(s.config.jobs, s.loaded, s.ldPc, clock)
    ensures var t, e := LdMove(s), LdBarrier(s.ldPc).value;
            && (e == B.Arrive(LD_DEVICE) || e == B.Resume(LD_DEVICE) || e == B.Detach(LD_DEVICE)) && B.Enabled(s.bar, e)
            && LdMode(t.ldPc) == (if e.Arrive? then B.Waiting else if e.Resume? then B.Working else B.Gone)
            && t.cpus == s.cpus && t.bar == B.Next(s.bar, e) && t.loaded == s.loaded && t.config == s.config
            && t.addedAt == s.addedAt
            && OnTime(s.config.jobs, s.loaded, t.ldPc, clock + if e.Arrive? then 1 else 0)
  {
    hide B.Enabled, B.Next, P.State.Valid;
  }

  /** Whether it skips a slot or adds its process, the loader keeps to the timetable. */
  lemma LoaderLocal(s: State)
    requires LdEnabled(s) && LdBarrier(s.ldPc) == None
    requires OnTime(s.config.jobs, s.loaded, s.ldPc, s.bar.time) && AddedOk(s.config.jobs, s.loaded, s.addedAt)
    ensures var t := LdMove(s);
            && t.bar == s.bar && t.cpus == s.cpus && t.config == s.config && t.loaded <= |s.config.jobs|
            && LdMode(t.ldPc) == B.Working
            && OnTime(s.config.jobs, t.loaded, t.ldPc, s.bar.time)
            && AddedOk(s.config.jobs, t.loaded, t.addedAt)
  {
    hide P.Put, P.State.Valid, B.Enabled;
  }

  lemma LoaderInStep(s: State)
    requires Inv(s) && LdEnabled(s) && LdBarrier(s.ldPc) == None
    ensures |s.bar.devs| > 0 && s.bar.devs[LD_DEVICE].calls == s.bar.time && LdMode(s.ldPc) == B.Working
  {
    assert s.ldPc != LdEnded;
    LoaderSeesItsClock(s);
  }

  lemma LoaderLocalInv(s: State)
    requires Inv(s) && Enabled(s, LdStep) && LdBarrier(s.ldPc) == None
    ensures Inv(Next(s, LdStep))
  {
    hide B.Inv, Places.Inv, OnTime, AddedOk, State.Shaped, LdMove, LdEnabled;
    Places.NextInv(s, LdStep);
    Shapes(s);
    Shapes(Next(s, LdStep));
    LoaderInStep(s);
    LoaderLocal(s);
  }

  lemma NextInv(s: State, e: Event)
    requires Inv(s) && Enabled(s, e)
    ensures Inv(Next(s, e))
  {
    hide Inv, Next;
    match e
    case Timer(b) => TimerInv(s, b);
    case LdStep =>
      if LdBarrier(s.ldPc) == None {
        LoaderLocalInv(s);
      } else {
        LoaderBarrierInv(s);
      }
    case CpuStep(c) =>
      if CpuBarrier(s.cpus[c].pc, DeviceOf(s, c)) == None {
        CpuLocalInv(s, c);
      } else {
        CpuBarrierInv(s, c);
      }
  }

  lemma {:induction false} RunInv(s: State, events: seq<Event>)
    requires Inv(s) && LegalRun(s, events)
    ensures Inv(Run(s, events))
    decreases |events|
  {
    if events == [] {
    } else {
      hide Inv, Next, Enabled;
      NextInv(s, events[0]);
      RunInv(Next(s, events[0]), events[1..]);
    }
  }

  lemma {:induction false} SlotsIncrease(jobs: seq<Job>, i: nat, k: nat)
    requires i < k < |jobs|
    ensures Slot(jobs, i) < Slot(jobs, k)
  {
    if i == k - 1 {
    } else {
      SlotsIncrease(jobs, i, k - 1);
    }
  }

  lemma LoadingTimes(jobs: seq<Job>, n: nat, addedAt: seq<nat>)
    requires n <= |jobs| && AddedOk(jobs, n, addedAt)
    ensures n > 0 ==> addedAt[0] == jobs[0].start
    ensures forall i | 1 <= i < n ::
              addedAt[i] == if jobs[i].start > addedAt[i - 1] then jobs[i].start else addedAt[i - 1] + 1
    ensures forall i, k | 0 <= i < k < n :: addedAt[i] < addedAt[k]
  {
    forall i | 1 <= i < n
      ensures addedAt[i] == if jobs[i].start > addedAt[i - 1] then jobs[i].start else addedAt[i - 1] + 1
    {
      assert addedAt[i] == Slot(jobs, i) && addedAt[i - 1] == Slot(jobs, i - 1);
      assert Earliest(jobs, i) == Slot(jobs, i - 1) + 1;
    }
    forall i, k | 0 <= i < k < n ensures addedAt[i] < addedAt[k] {
      SlotsIncrease(jobs, i, k);
    }
  }

  /** Loader timetable: in every run process i is added at exactly its slot, which is its start
      slot or the one after the process before it if that is later; so processes are added in
      file order and at strictly increasing slots. */
  lemma Timetable(config: Config, events: seq<Event>)
    requires config.Valid() && LegalRun(Init(config), events)
    ensures var s := Run(Init(config), events);
            && s.config == config && |s.addedAt| == s.loaded <= |config.jobs|
            && (forall i | 0 <= i < s.loaded :: s.addedAt[i] == Slot(config.jobs, i))
            && (s.loaded > 0 ==> s.addedAt[0] == config.jobs[0].start)
            && (forall i | 1 <= i < s.loaded ::
                  s.addedAt[i] == if config.jobs[i].start > s.addedAt[i - 1] then config.jobs[i].start
                                  else s.addedAt[i - 1] + 1)
            && (forall i, k | 0 <= i < k < s.loaded :: s.addedAt[i] < s.addedAt[k])
  {
    InitInv(config);
    RunInv(Init(config), events);
    Places.ConfigKept(Init(config), events);
    var s := Run(Init(config), events);
    hide Places.Inv, B.Inv, Slot, Init, LegalRun, OsSystem.Run;
    Shapes(s);
    LoadingTimes(config.jobs, s.loaded, s.addedAt);
  }

  lemma CpuInStep(s: State, c: nat)
    requires Inv(s) && c < |s.cpus| && s.cpus[c].pc != Blocked && s.cpus[c].pc != Ended
    ensures |s.bar.devs| == |s.cpus| + 1 && s.bar.devs[DeviceOf(s, c)].resumes == s.bar.time
    ensures !B.Enabled(s.bar, B.Tick)
  {
    hide Places.Inv, OnTime, AddedOk, State.Shaped;
    Shapes(s);
    assert s.bar.devs[|s.cpus| - c].mode == CpuMode(s.cpus[c].pc);
    assert B.DeviceOk(s.bar.devs[DeviceOf(s, c)]);
  }

  lemma ExitedWhenEnded(s: State)
    requires Inv(s) && s.bar.pc == B.Exited
    ensures s.ldPc == LdEnded && forall c | 0 <= c < |s.cpus| :: s.cpus[c].pc == Ended
  {
    hide Places.Inv, OnTime, AddedOk, State.Shaped;
    Shapes(s);
    assert s.bar.devs[LD_DEVICE].mode == LdMode(s.ldPc);
    forall c | 0 <= c < |s.cpus| ensures s.cpus[c].pc == Ended {
      assert s.bar.devs[|s.cpus| - c].mode == CpuMode(s.cpus[c].pc);
    }
  }

  /** Composition: a thread that is not inside `next_slot` sees as the time the number of its
      returns from `next_slot`, and the clock does not move until it calls again. */
  lemma ThreadsAreInStep(config: Config, events: seq<Event>)
    requires config.Valid() && LegalRun(Init(config), events)
    ensures var s := Run(Init(config), events);
            && |s.bar.devs| == |s.cpus| + 1
            && (forall c | 0 <= c < |s.cpus| && s.cpus[c].pc != Blocked && s.cpus[c].pc != Ended ::
                  s.bar.devs[DeviceOf(s, c)].resumes == s.bar.time && !B.Enabled(s.bar, B.Tick))
            && (s.bar.pc == B.Exited ==> s.ldPc == LdEnded && forall c | 0 <= c < |s.cpus| :: s.cpus[c].pc == Ended)
  {
    InitInv(config);
    RunInv(Init(config), events);
    var s := Run(Init(config), events);
    hide B.Inv, Places.Inv, OnTime, AddedOk, State.Shaped, B.Enabled;
    Shapes(s);
    forall c | 0 <= c < |s.cpus| && s.cpus[c].pc != Blocked && s.cpus[c].pc != Ended
      ensures s.bar.devs[DeviceOf(s, c)].resumes == s.bar.time && !B.Enabled(s.bar, B.Tick)
    {
      CpuInStep(s, c);
    }
    if s.bar.pc == B.Exited { ExitedWhenEnded(s); }
  }

  /** A thread that has not ended can step unless it waits in `next_slot`, and there it can
      step as soon as the timer has released it. */
  lemma ThreadsEnabled(s: State)
    requires Inv(s)
    ensures forall c | 0 <= c < |s.cpus| && s.cpus[c].pc != Ended ::
              Enabled(s, CpuStep(c)) <==> !s.bar.devs[DeviceOf(s, c)].done
    ensures s.ldPc != LdEnded ==> (Enabled(s, LdStep) <==> !s.bar.devs[LD_DEVICE].done)
  {
  }

  /** No thread ever gets stuck: in every reachable state each thread that is neither ended
      nor held by the barrier can step, and until the timer exits the timer or some thread
      can step. */
  lemma NobodyStuck(config: Config, events: seq<Event>)
    requires config.Valid() && LegalRun(Init(config), events)
    ensures var s := Run(Init(config), events);
            && |s.bar.devs| == |s.cpus| + 1
            && (forall c | 0 <= c < |s.cpus| && s.cpus[c].pc != Ended && !s.bar.devs[DeviceOf(s, c)].done
              :: Enabled(s, CpuStep(c)))
            && (s.ldPc != LdEnded && !s.bar.devs[LD_DEVICE].done ==> Enabled(s, LdStep))
            && (s.bar.pc != B.Exited ==> exists e :: Enabled(s, e))
  {
    InitInv(config);
    RunInv(Init(config), events);
    var s := Run(Init(config), events);
    ThreadsEnabled(s);
    if s.bar.pc != B.Exited { SomeoneCanStep(s); }
  }

  lemma SomeoneCanStep(s: State)
    requires Inv(s) && s.bar.pc != B.Exited
    ensures exists e :: Enabled(s, e)
  {
    ThreadsEnabled(s);
    hide LdEnabled, CpuEnabled;
    match s.bar.pc {
      case Release(i) =>
        assert Enabled(s, Timer(B.ReleaseOne)) || Enabled(s, Timer(B.NextRound));
      case Scan(i) =>
        if i == |s.bar.devs| {
          assert Enabled(s, Timer(B.Tick));
        } else if s.bar.devs[i].done || s.bar.devs[i].fsh {
          assert Enabled(s, Timer(B.ScanOne));
        } else if i == LD_DEVICE {
          assert Enabled(s, LdStep);
        } else {
          var c := |s.cpus| - i;
          assert DeviceOf(s, c) == i && s.bar.devs[i].mode == CpuMode(s.cpus[c].pc);
          assert Enabled(s, CpuStep(c));
        }
    }
  }
}
