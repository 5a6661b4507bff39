/** A lull: a stretch of slots in which all processes loaded so far have finished and the next
    one is still to come. Every CPU goes idle in it, so what came before it lets no CPU stop. */
module OsLulls {
  import opened OsProgress
  import opened OsSlots
  import opened OsStopping
  import opened OsSystem
  import opened OsTimetable
  import B = Barrier
  import P = MlqPolicy
  import Places = OsPlaces
  import Quantum = OsQuantum

  /** The slot by whose end the first k processes are done. */
  function Calm(jobs: seq<Job>, k: nat): nat
    requires 1 <= k <= |jobs|
  {
    Slot(jobs, k - 1) + WorkOf(jobs, k) + 2
  }

  /** The first k processes are done before the next one is loaded. */
  predicate Lull(jobs: seq<Job>, k: nat) {
    1 <= k < |jobs| && Calm(jobs, k) < Slot(jobs, k)
  }

  // ---- What comes after the lull ----

  /** The processes before the lull are settled, and each CPU that was served since it has used
      up a dispatch of a later process. */
  ghost predicate Restart(s: State, k: nat) {
    && k <= |s.recs| && AllSettled(s.recs, k)
    && CountServed(s.cpus) <= Dispatches(s.recs[k..])
  }

  ghost predicate LullInv(s: State, k: nat) {
    && OsProgress.Inv(s) && Lull(s.config.jobs, k)
    && (s.bar.time > Calm(s.config.jobs, k) ==> Restart(s, k))
  }

  lemma DispatchesAfter(recs: seq<Record>, j: nat, r: Record, k: nat)
    requires k <= j < |recs|
    ensures Dispatches(recs[j := r][k..]) == Dispatches(recs[k..]) - recs[j].dispatches + r.dispatches
  {
    hide Dispatches;
    assert recs[j := r][k..] == recs[k..][j - k := r];
    DispatchesUpdate(recs[k..], j - k, r);
  }

  /** A CPU step leaves the settled processes alone. */
  lemma CpuRestart(s: State, t: State, c: nat, j: nat, k: nat)
    requires ServedBy(s, t, c, j) && Restart(s, k)
    ensures Restart(t, k)
  {
    hide Served, CountServed, Dispatches;
    CountServedUpdate(s.cpus, c, t.cpus[c]);
    if j < |s.recs| {
      assert j >= k;
      DispatchesAfter(s.recs, j, t.recs[j], k);
    }
  }

  /** The loader's step settles and dispatches no process. */
  lemma LoaderPlaces(s: State)
    requires Quantum.Inv(s) && LdEnabled(s)
    ensures var t := LdMove(s);
            && |t.recs| == |s.recs| && t.cpus == s.cpus
            && forall j | 0 <= j < |s.recs| ::
                 && t.recs[j].dispatches == s.recs[j].dispatches
                 && (OsProgress.Settled(s.recs[j]) ==> t.recs[j] == s.recs[j])
  {
    hide Quantum.RecordOk, P.Put, P.State.Valid, Config.Valid, B.Enabled, B.Next;
  }

  lemma LoaderRestart(s: State, k: nat)
    requires Quantum.Inv(s) && LdEnabled(s) && Restart(s, k)
    ensures Restart(LdMove(s), k)
  {
    hide Quantum.Inv, State.Shaped, LdEnabled, LdMove, CountServed, Dispatches;
    LoaderPlaces(s);
    var t := LdMove(s);
    SameDispatches(s.recs[k..], t.recs[k..]);
  }

  lemma RestartNext(s: State, e: Event, k: nat)
    requires Quantum.Inv(s) && Enabled(s, e) && Restart(s, k)
    ensures Restart(Next(s, e), k)
  {
    hide Quantum.Inv, CpuMove, LdMove, CpuEnabled, LdEnabled, ServedBy, CountServed, Dispatches, Restart;
    match e
    case Timer(b) => SameRestart(s, Next(s, e), k);
    case LdStep =>
      IsLdMove(s);
      LoaderRestart(s, k);
    case CpuStep(c) =>
      IsCpuMove(s, c);
      var j := ServedStep(s, c);
      CpuRestart(s, CpuMove(s, c), c, j, k);
  }

  lemma SameRestart(s: State, t: State, k: nat)
    requires t.recs == s.recs && t.cpus == s.cpus && Restart(s, k)
    ensures Restart(t, k)
  {
  }

  lemma {:induction false} NobodyServed(cpus: seq<Cpu>)
    requires forall c | 0 <= c < |cpus| :: !Served(cpus[c])
    ensures CountServed(cpus) == 0
  {
    hide Served;
    if cpus == [] {
    } else {
      NobodyServed(cpus[1..]);
    }
  }

  /** At the slot that ends the work before the lull exactly the first k processes are loaded. */
  lemma LoadedAtCalm(s: State, k: nat)
    requires Base(s) && s.loaded <= |s.config.jobs| && Lull(s.config.jobs, k) && s.bar.time == Calm(s.config.jobs, k)
    ensures s.loaded == k
  {
    hide OsTimetable.Inv, Quantum.Inv, LeftOk, Slot;
    if s.loaded < k {
      LoadedInTime(s);
      if s.loaded < k - 1 { SlotsIncrease(s.config.jobs, s.loaded, k - 1); }
    } else if s.loaded > k {
      NotLoadedEarly(s, k);
    }
  }

  /** In the lull a CPU that waits for the next slot holds nothing. */
  lemma Unserved(s: State, c: nat)
    requires Quantum.Inv(s) && LeftOk(s) && s.loaded < |s.config.jobs| && AllSettled(s.recs, s.loaded)
    requires c < |s.cpus| && (s.cpus[c].pc == Blocked || s.cpus[c].pc == Ended)
    ensures !Served(s.cpus[c])
  {
    hide Quantum.Inv;
    HeldFacts(s, c);
  }

  lemma RestartFirst(s: State, k: nat)
    requires OsProgress.Inv(s) && Lull(s.config.jobs, k)
    requires s.bar.time == Calm(s.config.jobs, k) && Enabled(s, Timer(B.Tick))
    ensures Restart(Next(s, Timer(B.Tick)), k)
  {
    hide OsTimetable.Inv, Quantum.Inv, LeftOk, Progress, Slot, Enabled;
    hide Next, Share, Served, CountServed, Dispatches, AllSettled;
    LoadedAtCalm(s, k);
    InvSettles(s);
    TickFacts(s);
    forall c | 0 <= c < |s.cpus| ensures !Served(s.cpus[c]) {
      Unserved(s, c);
    }
    NobodyServed(s.cpus);
  }

  lemma LullNext(s: State, k: nat, e: Event)
    requires LullInv(s, k) && Enabled(s, e)
    ensures LullInv(Next(s, e), k)
  {
    hide Base, Progress, Restart, Enabled, Next, Slot, Calm;
    assert Quantum.Inv(s) by { QuantumInv(s); }
    OsProgress.NextInv(s, e);
    TimeOfStep(s, e);
    ConfigOfStep(s, e);
    if s.bar.time > Calm(s.config.jobs, k) {
      RestartNext(s, e, k);
    } else if Next(s, e).bar.time > Calm(s.config.jobs, k) {
      RestartFirst(s, k);
    }
  }

  lemma QuantumInv(s: State)
    requires Base(s)
    ensures Quantum.Inv(s)
  {
  }

  lemma ConfigOfStep(s: State, e: Event)
    requires Enabled(s, e)
    ensures Next(s, e).config == s.config
  {
  }

  lemma {:induction false} LullRun(s: State, k: nat, events: seq<Event>)
    requires LullInv(s, k) && LegalRun(s, events)
    ensures LullInv(Run(s, events), k)
    decreases |events|, s.config
  {
    if events == [] {
    } else {
      hide LullInv, Next, Enabled;
      LullNext(s, k, events[0]);
      LullRun(Next(s, events[0]), k, events[1..]);
    }
  }

  /** When some CPU has ended the lull is over. */
  lemma EndedAfterLull(s: State, k: nat)
    requires Base(s) && Lull(s.config.jobs, k) && 0 < |s.cpus| && s.cpus[0].pc == Ended
    ensures s.bar.time > Calm(s.config.jobs, k)
  {
    hide OsTimetable.Inv, Quantum.Inv, Slot;
    var n := |s.config.jobs|;
    assert Earliest(s.config.jobs, n) == Slot(s.config.jobs, n - 1) + 1;
    if k < n - 1 { SlotsIncrease(s.config.jobs, k, n - 1); }
  }

  /** The dispatches that the processes from the k-th on can have had. */
  lemma DispatchesFrom(s: State, k: nat)
    requires Quantum.Inv(s) && k <= |s.recs| == |s.config.jobs|
    ensures Dispatches(s.recs[k..]) <= Needed(s.config.jobs[k..], s.config.quantum)
  {
    assert forall j | 0 <= j < |s.recs| ::
        Quantum.RecordOk(s.recs[j], s.config.jobs[j].size, s.config.quantum, s.cpus);
    hide Quantum.Inv, Quantum.RecordOk, Dispatches, Needed;
    DispatchesNeeded(s.recs[k..], s.config.jobs[k..], s.config.quantum, s.cpus);
  }

  lemma SomeCpuLeft(s: State, k: nat)
    requires LullInv(s, k) && |s.cpus| > Needed(s.config.jobs[k..], s.config.quantum)
    ensures exists c :: 0 <= c < |s.cpus| && s.cpus[c].pc != Ended
  {
    if forall c | 0 <= c < |s.cpus| :: s.cpus[c].pc == Ended {
      hide OsTimetable.Inv, Quantum.Inv, LeftOk, Progress, CountServed, Dispatches, Needed, Slot, Calm;
      EndedAfterLull(s, k);
      AllEnded(s.cpus);
      RecsShape(s);
      DispatchesFrom(s, k);
      assert false;
    }
  }

  /** A lull sends every CPU back to the idle branch: with more CPUs than dispatches that the
      processes after it need, some CPU never stops and the timer never exits, in any run. */
  lemma LullKeepsCpus(config: Config, k: nat, events: seq<Event>)
    requires config.Valid() && Lull(config.jobs, k) && config.cpus > Needed(config.jobs[k..], config.quantum)
    requires LegalRun(Init(config), events)
    ensures var s := Run(Init(config), events);
            s.bar.pc != B.Exited && exists c :: 0 <= c < |s.cpus| == config.cpus && s.cpus[c].pc != Ended
  {
    hide Progress, Base, Restart, Needed, Slot, Calm, LegalRun, OsSystem.Run, Init;
    var s := Run(Init(config), events);
    InitConfig(config);
    OsProgress.InitInv(config);
    LullRun(Init(config), k, events);
    Places.ConfigKept(Init(config), events);
    CpusOf(s);
    SomeCpuLeft(s, k);
    ThreadsAreInStep(config, events);
  }

  lemma CpusOf(s: State)
    requires OsProgress.Inv(s)
    ensures |s.cpus| == s.config.cpus
  {
    hide LeftOk, Progress, Quantum.Inv;
  }

  /** An input with no more CPUs than dispatches in all: two CPUs, a process that is done before
      slot 4, and one that comes then. */
  lemma TwoCpusOneLull(events: seq<Event>)
    requires LegalRun(Init(Config([Job(0, 0, 1), Job(0, 4, 1)], 1, 2)), events)
    ensures Needed([Job(0, 0, 1), Job(0, 4, 1)], 1) == 2
    ensures var s := Run(Init(Config([Job(0, 0, 1), Job(0, 4, 1)], 1, 2)), events);
            s.bar.pc != B.Exited && exists c :: 0 <= c < |s.cpus| == 2 && s.cpus[c].pc != Ended
  {
    var config := Config([Job(0, 0, 1), Job(0, 4, 1)], 1, 2);
    assert config.jobs[1..] == [Job(0, 4, 1)];
    assert Needed(config.jobs[1..], 1) == 1 + Needed(config.jobs[1..][1..], 1);
    assert Slot(config.jobs, 0) == 0 && Slot(config.jobs, 1) == 4 && WorkOf(config.jobs, 0) == 0;
    assert WorkOf(config.jobs, 1) == 1;
    LullKeepsCpus(config, 1, events);
  }
}
