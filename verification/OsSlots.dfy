/** Time in the composed system: between two time advances only so many steps can happen, so
    every long run has advanced far. */
module OsSlots {
  import opened OsSystem
  import opened Wrappers
  import B = Barrier
  import P = MlqPolicy
  import Places = OsPlaces
  import Timetable = OsTimetable

  /** How many steps outside the barrier a CPU can still take before it needs the next slot.
      A CPU in `next_slot` goes on in this slot only if its device can still be released. */
  function CpuLeft(pc: CpuPc, waiting: bool): nat {
    match pc
    case Top => 4
    case Fetch(_) => 3
    case Check => 2
    case Exec => 1
    case Blocked => if waiting then 0 else 4
    case _ => 0
  }

  function LoaderLeft(pc: LdPc, waiting: bool): nat {
    match pc
    case Head => 2
    case Spin => 1
    case LdBlocked(next) => if waiting then 0 else if next == Spin then 1 else 2
    case _ => 0
  }

  /** What one CPU adds to the steps left. */
  ghost function Share(s: State, c: nat): nat
    requires c < |s.cpus| < |s.bar.devs|
  {
    CpuLeft(s.cpus[c].pc, B.Left(s.bar, DeviceOf(s, c)) == 0)
  }

  ghost function CpusLeft(s: State, k: nat): (r: nat)
    requires k <= |s.cpus| < |s.bar.devs|
    ensures r <= 4 * k
  {
    if k == 0 then 0
    else CpusLeft(s, k - 1) + Share(s, k - 1)
  }

  /** What the loader adds to the steps left. */
  ghost function LoaderShare(s: State): nat
    requires |s.bar.devs| > 0
  {
    LoaderLeft(s.ldPc, B.Left(s.bar, LD_DEVICE) == 0)
  }

  ghost function StepsLeft(s: State): nat
    requires |s.bar.devs| == |s.cpus| + 1 && B.Inv(s.bar)
  {
    B.StepsLeft(s.bar) + CpusLeft(s, |s.cpus|) + LoaderShare(s)
  }

  lemma {:induction false} SharesDiffer(s: State, t: State, c: int, delta: int, k: nat)
    requires k <= |s.cpus| == |t.cpus| && |s.cpus| < |s.bar.devs| && |t.cpus| < |t.bar.devs|
    requires forall d | 0 <= d < k && d != c :: Share(t, d) == Share(s, d)
    requires 0 <= c < k ==> Share(t, c) == Share(s, c) + delta
    ensures CpusLeft(t, k) == CpusLeft(s, k) + if 0 <= c < k then delta else 0
  {
    if k == 0 {
    } else {
      SharesDiffer(s, t, c, delta, k - 1);
    }
  }

  /** A step of the barrier changes what the devices have left only for the one that moves. */
  lemma BarrierShares(b: B.State, e: B.Event)
    requires B.Inv(b) && B.Enabled(b, e) && e != B.Tick
    ensures |B.Next(b, e).devs| == |b.devs| && B.Inv(B.Next(b, e)) && B.StepsLeft(B.Next(b, e)) < B.StepsLeft(b)
    ensures forall d: nat | d < |b.devs| && d != B.Mover(e) :: B.Left(B.Next(b, e), d) == B.Left(b, d)
    ensures 0 <= B.Mover(e) < |b.devs| ==> B.Left(B.Next(b, e), B.Mover(e)) == B.Left(b, B.Mover(e)) - 1
  {
    B.SameDevices(b, e);
    B.StepUsesOne(b, e);
    hide B.Inv, B.Enabled, B.Next, B.Left, B.StepsLeft, B.Mover;
    forall d: nat | d < |b.devs| && d != B.Mover(e) ensures B.Left(B.Next(b, e), d) == B.Left(b, d) {
      B.DeviceLeft(b, e, d);
    }
    if 0 <= B.Mover(e) < |b.devs| {
      B.DeviceLeft(b, e, B.Mover(e));
    }
  }

  lemma InvFacts(s: State)
    requires Timetable.Inv(s)
    ensures s.Shaped() && |s.bar.devs| == |s.cpus| + 1 && B.Inv(s.bar)
  {
  }

  lemma EnabledInRange(s: State, c: nat)
    requires CpuEnabled(s, c)
    ensures c < |s.cpus|
  {
  }

  /** A CPU step outside the barrier uses up one of its own steps. */
  lemma LocalCpuLeft(s: State, c: nat)
    requires CpuEnabled(s, c) && CpuBarrier(s.cpus[c].pc, DeviceOf(s, c)) == None
    ensures var t := CpuMove(s, c);
            && t.bar == s.bar && t.ldPc == s.ldPc && |t.cpus| == |s.cpus|
            && (forall d | 0 <= d < |s.cpus| && d != c :: t.cpus[d] == s.cpus[d])
            && CpuLeft(t.cpus[c].pc, false) < CpuLeft(s.cpus[c].pc, false)
            && t.cpus[c].pc != Blocked && s.cpus[c].pc != Blocked
  {
    hide P.Get, P.Put, P.State.Valid, Config.Valid;
  }

  lemma LocalCpuUses(s: State, c: nat)
    requires Timetable.Inv(s) && CpuEnabled(s, c) && CpuBarrier(s.cpus[c].pc, DeviceOf(s, c)) == None
    requires Timetable.Inv(CpuMove(s, c))
    ensures StepsLeft(CpuMove(s, c)) < StepsLeft(s)
  {
    hide Timetable.Inv, CpuMove, CpuEnabled, State.Shaped, B.Left, B.StepsLeft, B.Inv;
    EnabledInRange(s, c);
    var t := CpuMove(s, c);
    InvFacts(s);
    LocalCpuLeft(s, c);
    hide CpuLeft;
    SharesDiffer(s, t, c, Share(t, c) - Share(s, c), |s.cpus|);
  }

  /** A thread's barrier step leaves its own share as it is. */
  lemma CpuBarrierShare(s: State, c: nat)
    requires Timetable.Inv(s) && CpuEnabled(s, c) && CpuBarrier(s.cpus[c].pc, DeviceOf(s, c)).Some?
    ensures var t, e := CpuMove(s, c), CpuBarrier(s.cpus[c].pc, DeviceOf(s, c)).value;
            && B.Enabled(s.bar, e) && e != B.Tick && B.Mover(e) == DeviceOf(s, c)
            && t.bar == B.Next(s.bar, e) && t.ldPc == s.ldPc && |t.cpus| == |s.cpus| && |t.bar.devs| == |s.bar.devs|
            && (forall d | 0 <= d < |s.cpus| && d != c :: t.cpus[d] == s.cpus[d])
            && Share(t, c) == Share(s, c)
  {
    hide Timetable.Inv, CpuMove, CpuEnabled, State.Shaped, B.Inv, B.Left, B.Enabled, B.Next, B.StepsLeft;
    CpuDeviceLeft(s, c);
    InvFacts(s);
    Timetable.CpuAtBarrier(s, c);
    BarrierShares(s.bar, CpuBarrier(s.cpus[c].pc, DeviceOf(s, c)).value);
  }

  /** How many barrier steps a CPU at a barrier step has left. */
  lemma CpuDeviceLeft(s: State, c: nat)
    requires Timetable.Inv(s) && CpuEnabled(s, c)
    ensures c < |s.cpus| < |s.bar.devs|
    ensures s.cpus[c].pc == Sync || s.cpus[c].pc == Leaving ==> B.Left(s.bar, DeviceOf(s, c)) == 1
    ensures s.cpus[c].pc == Blocked ==> B.Left(s.bar, DeviceOf(s, c)) == 2
  {
    hide Places.Inv, Timetable.OnTime, Timetable.AddedOk, B.Inv;
    assert s.bar.devs[|s.cpus| - c].mode == Timetable.CpuMode(s.cpus[c].pc);
  }

  lemma CpuBarrierUses(s: State, c: nat)
    requires Timetable.Inv(s) && CpuEnabled(s, c) && CpuBarrier(s.cpus[c].pc, DeviceOf(s, c)).Some?
    requires Timetable.Inv(CpuMove(s, c))
    ensures StepsLeft(CpuMove(s, c)) < StepsLeft(s)
  {
    hide Timetable.Inv, CpuMove, CpuEnabled, CpuBarrier, CpuLeft, LoaderLeft, State.Shaped;
    hide B.Left, B.StepsLeft, B.Inv, B.Enabled, B.Next, B.Mover;
    EnabledInRange(s, c);
    var t, e := CpuMove(s, c), CpuBarrier(s.cpus[c].pc, DeviceOf(s, c)).value;
    InvFacts(s);
    CpuBarrierShare(s, c);
    BarrierShares(s.bar, e);
    SharesDiffer(s, t, c, 0, |s.cpus|);
  }

  lemma LoaderStepLeft(s: State)
    requires Timetable.Inv(s) && LdEnabled(s)
    ensures var t := LdMove(s);
            && t.cpus == s.cpus
            && match LdBarrier(s.ldPc)
               case None =>
                 t.bar == s.bar && LoaderShare(t) < LoaderShare(s)
               case Some(e) =>
                 && B.Enabled(s.bar, e) && e != B.Tick && B.Mover(e) == LD_DEVICE && t.bar == B.Next(s.bar, e)
                 && |t.bar.devs| == |s.bar.devs|
                 && LoaderShare(t) == LoaderShare(s)
  {
    assert B.Inv(s.bar) && s.bar.devs[LD_DEVICE].mode == Timetable.LdMode(s.ldPc);
    assert Timetable.LdMode(s.ldPc) == B.Working ==> B.Left(s.bar, LD_DEVICE) == 1;
    if LdBarrier(s.ldPc).Some? {
      BarrierShares(s.bar, LdBarrier(s.ldPc).value);
      assert s.ldPc.LdBlocked? ==> B.Left(s.bar, LD_DEVICE) == 2;
      assert s.ldPc.LdSync? || s.ldPc.LdBlocked? ==> s.ldPc.next == Head || s.ldPc.next == Spin;
    }
    hide Timetable.Inv, B.Inv, B.Left, B.Next, B.StepsLeft, P.Put, P.State.Valid, Config.Valid;
  }

  lemma LoaderUses(s: State)
    requires Timetable.Inv(s) && LdEnabled(s) && Timetable.Inv(LdMove(s))
    ensures StepsLeft(LdMove(s)) < StepsLeft(s)
  {
    hide Timetable.Inv, LdMove, LdEnabled, CpuLeft, LoaderLeft, State.Shaped;
    hide B.Left, B.StepsLeft, B.Inv, B.Enabled, B.Next, B.Mover;
    var t := LdMove(s);
    InvFacts(s);
    LoaderStepLeft(s);
    if LdBarrier(s.ldPc).Some? {
      BarrierShares(s.bar, LdBarrier(s.ldPc).value);
    }
    SharesDiffer(s, t, -1, 0, |s.cpus|);
  }

  lemma TimerUses(s: State, e: B.Event)
    requires Timetable.Inv(s) && Enabled(s, Timer(e)) && e != B.Tick && Timetable.Inv(Next(s, Timer(e)))
    ensures StepsLeft(Next(s, Timer(e))) < StepsLeft(s)
  {
    hide Timetable.Inv, CpuLeft, LoaderLeft, State.Shaped, B.Left, B.StepsLeft, B.Inv, B.Enabled, B.Next;
    InvFacts(s);
    BarrierShares(s.bar, e);
    SharesDiffer(s, Next(s, Timer(e)), -1, 0, |s.cpus|);
  }

  /** Every step other than the time advance uses up at least one of the steps left. */
  lemma StepUsesOne(s: State, e: Event)
    requires Timetable.Inv(s) && Enabled(s, e) && e != Timer(B.Tick)
    ensures Timetable.Inv(Next(s, e)) && StepsLeft(Next(s, e)) < StepsLeft(s)
  {
    hide Timetable.Inv, StepsLeft, CpuMove, LdMove, CpuEnabled, LdEnabled, B.Enabled, B.Next;
    Timetable.NextInv(s, e);
    match e
    case Timer(b) => TimerUses(s, b);
    case LdStep => LoaderUses(s);
    case CpuStep(c) =>
      EnabledInRange(s, c);
      if CpuBarrier(s.cpus[c].pc, DeviceOf(s, c)) == None {
        LocalCpuUses(s, c);
      } else {
        CpuBarrierUses(s, c);
      }
  }

  /** The most steps between two time advances: a few for each CPU and device. */
  function SlotLength(cpus: nat): nat { 8 * cpus + 9 }

  lemma {:induction false} BarrierLeftBound(b: B.State)
    requires B.Inv(b)
    ensures B.StepsLeft(b) <= 4 * |b.devs| + 3
  {
    B.InvPc(b);
  }

  lemma StepsLeftBound(s: State)
    requires Timetable.Inv(s)
    ensures StepsLeft(s) <= SlotLength(|s.cpus|)
  {
    BarrierLeftBound(s.bar);
    assert |s.bar.devs| == |s.cpus| + 1;
    hide Timetable.Inv, B.Inv, B.StepsLeft, B.Left;
  }

  lemma TimeOfStep(s: State, e: Event)
    requires Enabled(s, e)
    ensures Next(s, e).bar.time == s.bar.time + if e == Timer(B.Tick) then 1 else 0
    ensures |Next(s, e).cpus| == |s.cpus|
  {
    hide P.Get, P.Put, P.State.Valid, Config.Valid, B.Enabled, B.Next;
    match e
    case Timer(b) => B.SameDevices(s.bar, b);
    case LdStep =>
      if LdBarrier(s.ldPc).Some? { B.SameDevices(s.bar, LdBarrier(s.ldPc).value); }
    case CpuStep(c) =>
      if CpuBarrier(s.cpus[c].pc, DeviceOf(s, c)).Some? {
        B.SameDevices(s.bar, CpuBarrier(s.cpus[c].pc, DeviceOf(s, c)).value);
      }
  }

  /** The steps that a number of time advances allows, each with the slot before it. */
  function Allowed(advances: nat, cpus: nat): nat {
    advances * (SlotLength(cpus) + 1)
  }

  lemma AllowedNext(advances: nat, cpus: nat)
    ensures Allowed(advances + 1, cpus) == Allowed(advances, cpus) + SlotLength(cpus) + 1
  {
  }

  lemma {:induction false} AllowedGrows(a: nat, b: nat, cpus: nat)
    requires a <= b
    ensures Allowed(a, cpus) <= Allowed(b, cpus)
  {
    hide Allowed, SlotLength;
    if a == b {
    } else {
      AllowedGrows(a, b - 1, cpus);
      AllowedNext(b - 1, cpus);
    }
  }

  lemma AllowedIs(advances: nat, cpus: nat)
    ensures SlotLength(cpus) == 8 * cpus + 9 && Allowed(advances, cpus) == advances * (8 * cpus + 10)
  {
  }

  lemma {:induction false} TimeAllows(s: State, events: seq<Event>)
    requires Timetable.Inv(s) && LegalRun(s, events)
    ensures var t := Run(s, events);
            && Timetable.Inv(t) && t.bar.time >= s.bar.time
            && |events| + StepsLeft(t) <= Allowed(t.bar.time - s.bar.time, |s.cpus|) + StepsLeft(s)
    decreases |events|, s.config
  {
    hide Timetable.Inv, Next, Enabled, StepsLeft, SlotLength, Allowed;
    if events == [] {
    } else {
      var next := Next(s, events[0]);
      TimeOfStep(s, events[0]);
      Timetable.NextInv(s, events[0]);
      TimeAllows(next, events[1..]);
      if events[0] == Timer(B.Tick) {
        StepsLeftBound(next);
        AllowedNext(Run(next, events[1..]).bar.time - next.bar.time, |s.cpus|);
      } else {
        StepUsesOne(s, events[0]);
      }
    }
  }

  /** Time always advances: in every interleaving of the whole system with c CPUs, a run that
      advances the time k times takes at most k(8c + 10) steps and the at most 8c + 9 steps
      left in its first slot. */
  lemma TimeAdvances(s: State, events: seq<Event>)
    requires Timetable.Inv(s) && LegalRun(s, events)
    ensures var t := Run(s, events);
            && Timetable.Inv(t) && t.bar.time >= s.bar.time && StepsLeft(s) <= 8 * |s.cpus| + 9
            && |events| + StepsLeft(t) <= (t.bar.time - s.bar.time) * (8 * |s.cpus| + 10) + StepsLeft(s)
  {
    hide Timetable.Inv, StepsLeft, SlotLength, Allowed, LegalRun, OsSystem.Run;
    TimeAllows(s, events);
    StepsLeftBound(s);
    AllowedIs(Run(s, events).bar.time - s.bar.time, |s.cpus|);
  }

  /** From the start of the system, with c CPUs: a run without a time advance has at most
      8c + 9 steps, and a run of (k + 1)(8c + 10) steps has passed slot k. */
  lemma RunReachesSlot(config: Config, events: seq<Event>, k: nat)
    requires config.Valid() && LegalRun(Init(config), events)
    ensures Timer(B.Tick) !in events ==> |events| <= 8 * config.cpus + 9
    ensures |events| >= (k + 1) * (8 * config.cpus + 10) ==> Run(Init(config), events).bar.time > k
  {
    Timetable.InitInv(config);
    var s := Init(config);
    assert s.bar.time == 0 && |s.cpus| == config.cpus;
    hide Timetable.Inv, StepsLeft, SlotLength, Allowed, Init, LegalRun, OsSystem.Run;
    TimeAllows(s, events);
    StepsLeftBound(s);
    AllowedIs(k + 1, config.cpus);
    if Timer(B.Tick) !in events {
      NoTick(s, events);
      assert Allowed(0, config.cpus) == 0 by { AllowedNone(config.cpus); }
    }
    var t := Run(s, events).bar.time;
    if t <= k {
      AllowedGrows(t, k, config.cpus);
      AllowedNext(k, config.cpus);
    }
  }

  lemma AllowedNone(cpus: nat)
    ensures Allowed(0, cpus) == 0
  {
  }

  lemma {:induction false} NoTick(s: State, events: seq<Event>)
    requires LegalRun(s, events) && Timer(B.Tick) !in events
    ensures Run(s, events).bar.time == s.bar.time
    decreases |events|, s.config
  {
    if events == [] {
    } else {
      TimeOfStep(s, events[0]);
      hide Next, Enabled;
      NoTick(Next(s, events[0]), events[1..]);
    }
  }
}
