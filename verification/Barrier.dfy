/** The time-slot barrier of src/timer.c as a transition system. A timer thread and N
    devices take turns; each step is one section that runs under a device's lock, and a
    condition wait is a guard. */
module Barrier {

  /** Where a device's thread is: between calls of `next_slot`, inside the wait of
      `next_slot`, or past `detach_event`. */
  datatype Mode = Working | Waiting | Gone

  /** `timer_id_t`, with counts of how often the device set `done` and returned from the wait. */
  datatype Device = Device(done: bool, fsh: bool, mode: Mode, calls: nat, resumes: nat)

  /** The timer thread: scanning device i, releasing device i, or exited. After the last
      device, Scan(N) is about to advance the time and Release(N) to start over. */
  datatype Pc = Scan(i: nat) | Release(i: nat) | Exited

  datatype State = State(devs: seq<Device>, time: nat, pc: Pc, fsh: nat, event: nat, stop: bool)

  datatype Event =
    | Arrive(d: nat)      // next_slot: set done
    | Resume(d: nat)      // next_slot: the wait ends
    | Detach(d: nat)      // detach_event
    | ScanOne             // timer: one device has done its job or has detached
    | Tick                // timer: _time++
    | ReleaseOne          // timer: clear one device's done
    | NextRound           // timer: leave the loop or scan again
    | RequestStop         // stop_timer, once every other thread has ended

  const IDLE := Device(false, false, Working, 0, 0)

  function Init(n: nat): State {
    State(seq(n, _ => IDLE), 0, Scan(0), 0, 0, false)
  }

  predicate Enabled(s: State, e: Event) {
    match e
    case Arrive(d) => d < |s.devs| && s.devs[d].mode == Working
    case Resume(d) => d < |s.devs| && s.devs[d].mode == Waiting && !s.devs[d].done
    case Detach(d) => d < |s.devs| && s.devs[d].mode == Working
    case ScanOne => s.pc.Scan? && s.pc.i < |s.devs| && (s.devs[s.pc.i].done || s.devs[s.pc.i].fsh)
    case Tick => s.pc == Scan(|s.devs|)
    case ReleaseOne => s.pc.Release? && s.pc.i < |s.devs|
    case NextRound => s.pc == Release(|s.devs|)
    case RequestStop => !s.stop && forall d | 0 <= d < |s.devs| :: s.devs[d].mode == Gone
  }

  function Next(s: State, e: Event): State
    requires Enabled(s, e)
  {
    match e
    case Arrive(d) =>
      var v := s.devs[d];
      s.(devs := s.devs[d := v.(done := true, mode := Waiting, calls := v.calls + 1)])
    case Resume(d) =>
      var v := s.devs[d];
      s.(devs := s.devs[d := v.(mode := Working, resumes := v.resumes + 1)])
    case Detach(d) =>
      s.(devs := s.devs[d := s.devs[d].(fsh := true, mode := Gone)])
    case ScanOne =>
      s.(pc := Scan(s.pc.i + 1), fsh := s.fsh + (if s.devs[s.pc.i].fsh then 1 else 0), event := s.event + 1)
    case Tick =>
      s.(time := s.time + 1, pc := Release(0))
    case ReleaseOne =>
      s.(devs := s.devs[s.pc.i := s.devs[s.pc.i].(done := false)], pc := Release(s.pc.i + 1))
    case NextRound =>
      if s.fsh == s.event || s.stop then s.(pc := Exited) else s.(pc := Scan(0), fsh := 0, event := 0)
    case RequestStop =>
      s.(stop := true)
  }

  lemma SameDevices(s: State, e: Event)
    requires Enabled(s, e)
    ensures |Next(s, e).devs| == |s.devs| && Next(s, e).time == s.time + if e == Tick then 1 else 0
  {
  }

  /** The next section of `timer_routine`; an exited timer takes none. */
  function TimerTurn(s: State): Event {
    match s.pc
    case Scan(i) => if i < |s.devs| then ScanOne else Tick
    case Release(i) => if i < |s.devs| then ReleaseOne else NextRound
    case Exited => Tick
  }

  /** The timer thread never has a choice, and never passes up a step: whichever of its steps
      is enabled is its next section. */
  lemma TimerNeverIdles(s: State, e: Event)
    requires Enabled(s, e) && (e == ScanOne || e == Tick || e == ReleaseOne || e == NextRound)
    ensures TimerTurn(s) == e
  {
  }

  predicate LegalRun(s: State, events: seq<Event>)
    decreases |events|
  {
    events == [] || (Enabled(s, events[0]) && LegalRun(Next(s, events[0]), events[1..]))
  }

  function Run(s: State, events: seq<Event>): State
    requires LegalRun(s, events)
    decreases |events|
  {
    if events == [] then s else Run(Next(s, events[0]), events[1..])
  }

  // ---- Invariant ----

  /** What holds of one device, wherever the timer is. */
  predicate DeviceOk(v: Device) {
    && (v.fsh <==> v.mode == Gone)
    && (v.done ==> v.mode == Waiting)
    && v.calls == v.resumes + (if v.mode == Waiting then 1 else 0)
  }

  /** A device's calls in a slot: one more than the time once it is done. */
  predicate InStep(v: Device, time: nat) {
    v.mode != Gone ==> v.calls == time + (if v.done then 1 else 0)
  }

  /** A device the timer still has to release: done, for the slot that just ended. */
  predicate Held(v: Device, time: nat) {
    v.mode != Gone ==> v.done && v.calls == time
  }

  ghost predicate Inv(s: State) {
    && (forall d | 0 <= d < |s.devs| :: DeviceOk(s.devs[d]))
    && (s.stop ==> forall d | 0 <= d < |s.devs| :: s.devs[d].mode == Gone)
    && match s.pc
       case Scan(i) =>
         && i <= |s.devs| && s.event == i && s.fsh <= i
         && (forall d | 0 <= d < |s.devs| :: InStep(s.devs[d], s.time))
         && (forall d | 0 <= d < i :: s.devs[d].done || s.devs[d].fsh)
         && (s.fsh == i <==> forall d | 0 <= d < i :: s.devs[d].fsh)
       case Release(i) =>
         && i <= |s.devs| && s.event == |s.devs| && s.fsh <= s.event
         && (forall d | 0 <= d < i :: InStep(s.devs[d], s.time))
         && (forall d | i <= d < |s.devs| :: Held(s.devs[d], s.time))
         && (s.fsh == s.event ==> forall d | 0 <= d < |s.devs| :: s.devs[d].fsh)
       case Exited =>
         forall d | 0 <= d < |s.devs| :: s.devs[d].fsh
  }

  lemma InitInv(n: nat)
    ensures Inv(Init(n))
  {
  }

  /** A device's own step, and the timer's steps. */
  lemma DeviceInv(s: State, e: Event)
    requires Inv(s) && Enabled(s, e) && (e.Arrive? || e.Resume? || e.Detach?)
    ensures Inv(Next(s, e))
  {
    var t := Next(s, e);
    if s.pc.Scan? && s.fsh != s.pc.i {
      var d :| 0 <= d < s.pc.i && !s.devs[d].fsh;
      assert t.devs[d] == s.devs[d];
    }
  }

  lemma TimerInv(s: State, e: Event)
    requires Inv(s) && Enabled(s, e) && !(e.Arrive? || e.Resume? || e.Detach?)
    ensures Inv(Next(s, e))
  {
    var t := Next(s, e);
    if s.pc.Scan? && s.fsh != s.pc.i {
      var d :| 0 <= d < s.pc.i && !s.devs[d].fsh;
      assert t.devs[d] == s.devs[d];
    }
  }

  lemma NextInv(s: State, e: Event)
    requires Inv(s) && Enabled(s, e)
    ensures Inv(Next(s, e))
  {
    hide Inv, Next;
    if e.Arrive? || e.Resume? || e.Detach? {
      DeviceInv(s, e);
    } else {
      TimerInv(s, e);
    }
  }

  lemma {:induction false} RunInv(s: State, events: seq<Event>)
    requires Inv(s) && LegalRun(s, events)
    ensures Inv(Run(s, events))
    decreases |events|
  {
    if events == [] {
    } else {
      hide Inv, Next, Enabled;
      NextInv(s, events[0]);
      RunInv(Next(s, events[0]), events[1..]);
    }
  }

  // ---- Lock-step ----

  ghost predicate Reachable(n: nat, events: seq<Event>) {
    LegalRun(Init(n), events)
  }

  /** Lock-step, in every interleaving. During the scan at time t a live device has set
      `done` t or t + 1 times, and `done` is set exactly in the second case. While devices
      are released no two live ones are more than one call apart. A device between its k-th
      return from `next_slot` and its next call sees time k. The timer only ever clears the
      `done` of a device that waits for it. */
  lemma LockStep(n: nat, events: seq<Event>)
    requires Reachable(n, events)
    ensures var s := Run(Init(n), events);
            && (forall d | 0 <= d < |s.devs| && s.devs[d].mode == Working
              :: s.devs[d].resumes == s.devs[d].calls == s.time)
            && (s.pc.Scan? ==> forall d | 0 <= d < |s.devs| && s.devs[d].mode != Gone ::
                  s.devs[d].calls == s.time + (if s.devs[d].done then 1 else 0))
            && (s.pc.Release? ==> forall d | 0 <= d < |s.devs| && s.devs[d].mode != Gone ::
                  s.time <= s.devs[d].calls <= s.time + 1)
            && (Enabled(s, ReleaseOne) && s.devs[s.pc.i].mode != Gone ==>
                  s.devs[s.pc.i].done && s.devs[s.pc.i].mode == Waiting)
  {
    InitInv(n);
    RunInv(Init(n), events);
  }

  // ---- Progress ----

  /** No deadlock: until the timer exits, either the timer can step, or the one device it
      waits for can. */
  lemma NoDeadlock(n: nat, events: seq<Event>)
    requires Reachable(n, events)
    ensures var s := Run(Init(n), events);
            match s.pc
            case Exited => true
            case Release(i) => Enabled(s, ReleaseOne) || Enabled(s, NextRound)
            case Scan(i) =>
              || Enabled(s, Tick)
              || Enabled(s, ScanOne)
              || (i < |s.devs| && Enabled(s, Arrive(i)) && Enabled(s, Detach(i)))
              || (i < |s.devs| && Enabled(s, Resume(i)))
  {
    InitInv(n);
    RunInv(Init(n), events);
  }

  /** The timer leaves its loop only when every device has detached, so nobody is left
      waiting; and if every device had detached when the time advanced, it does leave. */
  lemma ExitOnlyWhenAllGone(n: nat, events: seq<Event>)
    requires Reachable(n, events)
    ensures var s := Run(Init(n), events);
            && (s.pc == Exited ==> forall d | 0 <= d < |s.devs| :: s.devs[d].mode == Gone)
            && (Enabled(s, Tick) ==> (s.fsh == s.event <==> forall d | 0 <= d < |s.devs| :: s.devs[d].mode == Gone))
  {
    InitInv(n);
    RunInv(Init(n), events);
  }

  /** How many steps a device can still take before the time next advances. */
  function Left(s: State, d: nat): nat
    requires d < |s.devs|
  {
    match s.devs[d].mode
    case Working => 1
    case Waiting => if s.devs[d].done && !(s.pc.Release? && d >= s.pc.i) then 0 else 2
    case Gone => 0
  }

  function LeftUpTo(s: State, k: nat): (r: nat)
    requires k <= |s.devs|
    ensures r <= 2 * k
  {
    if k == 0 then 0 else LeftUpTo(s, k - 1) + Left(s, k - 1)
  }

  function TimerLeft(s: State): nat
    requires Inv(s)
  {
    match s.pc
    case Scan(i) => |s.devs| - i + 1
    case Release(i) => 2 * |s.devs| - i + 2
    case Exited => 0
  }

  function StepsLeft(s: State): nat
    requires Inv(s)
  {
    TimerLeft(s) + LeftUpTo(s, |s.devs|) + if s.stop then 0 else 1
  }

  lemma {:induction false} LeftDiffers(s: State, t: State, j: int, delta: int, k: nat)
    requires |s.devs| == |t.devs| && k <= |s.devs|
    requires forall d | 0 <= d < k && d != j :: Left(t, d) == Left(s, d)
    requires 0 <= j < k ==> Left(t, j) == Left(s, j) + delta
    ensures LeftUpTo(t, k) == LeftUpTo(s, k) + if 0 <= j < k then delta else 0
  {
    if k == 0 {
    } else {
      LeftDiffers(s, t, j, delta, k - 1);
    }
  }

  lemma TimerLeftFalls(s: State, e: Event)
    requires Inv(s) && Enabled(s, e) && Inv(Next(s, e)) && e != Tick
    ensures if e.ScanOne? || e.ReleaseOne? || e.NextRound? then TimerLeft(Next(s, e)) < TimerLeft(s)
            else TimerLeft(Next(s, e)) == TimerLeft(s)
  {
    hide Inv;
    InvPc(s);
    InvPc(Next(s, e));
  }

  lemma InvPc(s: State)
    requires Inv(s)
    ensures s.pc != Exited ==> s.pc.i <= |s.devs|
  {
  }

  /** The device that takes the step, if the timer does not. */
  function Mover(e: Event): int {
    match e
    case Arrive(d) => d
    case Resume(d) => d
    case Detach(d) => d
    case _ => -1
  }

  lemma DeviceLeft(s: State, e: Event, d: nat)
    requires Inv(s) && Enabled(s, e) && e != Tick && d < |s.devs|
    ensures |Next(s, e).devs| == |s.devs|
    ensures Left(Next(s, e), d) == Left(s, d) - if d == Mover(e) then 1 else 0
  {
  }

  lemma LeftFalls(s: State, e: Event)
    requires Inv(s) && Enabled(s, e) && e != Tick
    ensures LeftUpTo(Next(s, e), |s.devs|) ==
            LeftUpTo(s, |s.devs|) - if e.Arrive? || e.Resume? || e.Detach? then 1 else 0
  {
    assert Mover(e) < |s.devs| && (Mover(e) >= 0 <==> e.Arrive? || e.Resume? || e.Detach?);
    hide Inv, Enabled, Next, Left, Mover;
    forall d: nat | d < |s.devs|
      ensures |Next(s, e).devs| == |s.devs| && Left(Next(s, e), d) == Left(s, d) - if d == Mover(e) then 1 else 0
    {
      DeviceLeft(s, e, d);
    }
    if s.devs != [] {
      LeftDiffers(s, Next(s, e), Mover(e), -1, |s.devs|);
    }
  }

  /** Every step other than the time advance uses up at least one of the steps left. */
  lemma StepUsesOne(s: State, e: Event)
    requires Inv(s) && Enabled(s, e) && e != Tick
    ensures Inv(Next(s, e)) && StepsLeft(Next(s, e)) < StepsLeft(s)
  {
    NextInv(s, e);
    TimerLeftFalls(s, e);
    LeftFalls(s, e);
    hide Inv, TimerLeft, LeftUpTo;
  }

  /** Time always advances: without a time advance no run of N devices is longer than
      4N + 3 steps, in any interleaving. With `NoDeadlock`, a system whose devices keep
      calling `next_slot` or detach reaches every later slot, or the timer's exit. */
  lemma {:induction false} SlotIsBounded(s: State, events: seq<Event>)
    requires Inv(s) && LegalRun(s, events) && Tick !in events
    ensures |events| <= StepsLeft(s) <= 4 * |s.devs| + 3
    decreases |events|
  {
    if events == [] {
    } else {
      StepUsesOne(s, events[0]);
      SlotIsBounded(Next(s, events[0]), events[1..]);
    }
  }
}
