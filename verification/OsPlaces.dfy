/** Process conservation: in every state of every run of the system, each loaded process is in
    exactly one place, and a level with no more than 50 of them never loses one. */
module OsPlaces {
  import opened OsSystem
  import opened ReadyQueue
  import opened Wrappers
  import B = Barrier
  import P = MlqPolicy

  /** The ready queues hold exactly the processes whose place is Ready, each once and in its
      own level. */
  ghost predicate QueuesMatch(config: Config, queues: seq<seq<Process>>, recs: seq<Record>)
    requires config.Valid() && |queues| == MAX_PRIO && |recs| == |config.jobs|
  {
    && (forall l, k | 0 <= l < MAX_PRIO && 0 <= k < |queues[l]| :: Own(config, recs, queues[l][k], l))
    && (forall j | 0 <= j < |recs| && recs[j].place == Ready ::
          config.ProcessOf(j) in queues[config.jobs[j].prio])
    && (forall l | 0 <= l < MAX_PRIO :: NoTwice(queues[l]) && |queues[l]| <= MAX_QUEUE_SIZE)
  }

  ghost predicate Own(config: Config, recs: seq<Record>, p: Process, l: nat)
    requires |recs| == |config.jobs|
  {
    p.pid < |recs| && p == config.ProcessOf(p.pid) && p.prio == l && recs[p.pid].place == Ready
  }

  ghost predicate NoTwice(q: seq<Process>) {
    forall a, b | 0 <= a < b < |q| :: q[a] != q[b]
  }

  /** The CPUs hold exactly the processes whose place is On(c). */
  ghost predicate CpusMatch(config: Config, cpus: seq<Cpu>, recs: seq<Record>)
    requires |recs| == |config.jobs|
  {
    && (forall c | 0 <= c < |cpus| && cpus[c].proc.Some? ::
          cpus[c].proc.value.pid < |recs| && recs[cpus[c].proc.value.pid].place == On(c))
    && (forall j | 0 <= j < |recs| && recs[j].place.On? ::
          recs[j].place.cpu < |cpus| && cpus[recs[j].place.cpu].proc == Some(config.ProcessOf(j)))
  }

  /** The loader has loaded the first processes of the list. */
  ghost predicate LoadedMatch(loaded: nat, recs: seq<Record>) {
    forall j | 0 <= j < |recs| :: recs[j].place == NotLoaded <==> j >= loaded
  }

  /** A process is in hand exactly while a CPU is past fetching it. */
  ghost predicate PcMatch(cpu: Cpu) {
    && (cpu.proc.Some? ==> cpu.pc == Top || cpu.pc == Check || cpu.pc == Exec || cpu.pc == Sync || cpu.pc == Blocked)
    && (cpu.pc == Exec ==> cpu.proc.Some?)
  }

  /** The processes that are given a priority. */
  function OfLevel(jobs: seq<Job>, l: nat): set<nat> {
    set j: nat | j < |jobs| && jobs[j].prio == l
  }

  /** A level whose processes all fit into its queue. */
  predicate Roomy(jobs: seq<Job>, l: nat) {
    |OfLevel(jobs, l)| <= 50
  }

  /** Only a full queue drops a process, so a roomy level loses none. */
  ghost predicate NoneDropped(config: Config, recs: seq<Record>)
    requires |recs| == |config.jobs|
  {
    forall j | 0 <= j < |recs| && Roomy(config.jobs, config.jobs[j].prio) :: recs[j].place != Dropped
  }

  ghost predicate Inv(s: State) {
    && s.Shaped()
    && NoneDropped(s.config, s.recs)
    && QueuesMatch(s.config, s.sched.queues, s.recs)
    && CpusMatch(s.config, s.cpus, s.recs)
    && LoadedMatch(s.loaded, s.recs)
    && (forall c | 0 <= c < |s.cpus| :: PcMatch(s.cpus[c]))
  }

  lemma InitInv(config: Config)
    requires config.Valid()
    ensures Inv(Init(config))
  {
  }

  // ---- Queue steps ----

  function Ids(q: seq<Process>): (s: set<nat>)
    ensures forall x <- s :: exists k :: 0 <= k < |q| && q[k].pid == x
  {
    if q == [] then {} else Ids(q[1..]) + {q[0].pid}
  }

  lemma {:induction false} DistinctIds(q: seq<Process>)
    requires forall a, b | 0 <= a < b < |q| :: q[a].pid != q[b].pid
    ensures |Ids(q)| == |q|
  {
    if q == [] {
    } else {
      DistinctIds(q[1..]);
      assert q[0].pid !in Ids(q[1..]);
    }
  }

  lemma {:induction false} SubsetSize(a: set<nat>, b: set<nat>)
    requires a <= b
    ensures |a| <= |b|
  {
    if a == {} {
    } else {
      var x :| x in a;
      SubsetSize(a - {x}, b - {x});
    }
  }

  /** A level's queue holds fewer processes than have that level, while one of them is not
      ready. */
  lemma NeverFull(config: Config, queues: seq<seq<Process>>, recs: seq<Record>, j: nat)
    requires config.Valid() && |queues| == MAX_PRIO && |recs| == |config.jobs|
    requires QueuesMatch(config, queues, recs) && j < |recs| && recs[j].place != Ready
    ensures |queues[config.jobs[j].prio]| < |OfLevel(config.jobs, config.jobs[j].prio)|
  {
    var l := config.jobs[j].prio;
    var q := queues[l];
    forall k | 0 <= k < |q| ensures q[k].pid in OfLevel(config.jobs, l) && q[k].pid != j {
      assert Own(config, recs, q[k], l);
    }
    QueueIds(config, queues, recs, l);
    assert j in OfLevel(config.jobs, l);
    SubsetSize(Ids(q), OfLevel(config.jobs, l) - {j});
  }

  /** A queue holds as many processes as it has entries. */
  lemma QueueIds(config: Config, queues: seq<seq<Process>>, recs: seq<Record>, l: nat)
    requires config.Valid() && |queues| == MAX_PRIO && |recs| == |config.jobs|
    requires QueuesMatch(config, queues, recs) && l < MAX_PRIO
    ensures |Ids(queues[l])| == |queues[l]| <= MAX_QUEUE_SIZE
  {
    var q := queues[l];
    forall a, b | 0 <= a < b < |q| ensures q[a].pid != q[b].pid {
      assert Own(config, recs, q[a], l) && Own(config, recs, q[b], l) && q[a] != q[b];
    }
    DistinctIds(q);
  }

  /** A process that joins its queue becomes Ready; a refused one leaves the queue as it was. */
  lemma QueuePut(config: Config, queues: seq<seq<Process>>, recs: seq<Record>, j: nat, recs': seq<Record>)
    requires config.Valid() && |queues| == MAX_PRIO && |recs| == |config.jobs|
    requires QueuesMatch(config, queues, recs) && j < |recs| && recs[j].place != Ready
    requires |queues[config.jobs[j].prio]| < MAX_QUEUE_SIZE && recs' == recs[j := recs[j].(place := Ready)]
    ensures var p := config.ProcessOf(j);
            QueuesMatch(config, queues[p.prio := queues[p.prio] + [p]], recs')
  {
    var p := config.ProcessOf(j);
    var q := queues[p.prio];
    var queues' := queues[p.prio := q + [p]];
    forall l, k | 0 <= l < MAX_PRIO && 0 <= k < |queues'[l]| ensures Own(config, recs', queues'[l][k], l) {
      if l != p.prio || k < |q| { assert Own(config, recs, queues[l][k], l); }
    }
    forall l | 0 <= l < MAX_PRIO ensures NoTwice(queues'[l]) && |queues'[l]| <= MAX_QUEUE_SIZE {
      assert NoTwice(queues[l]);
      if l == p.prio {
        forall k | 0 <= k < |q| ensures q[k] != p {
          assert Own(config, recs, q[k], l);
        }
      }
    }
  }

  /** Putting a process, whether its queue has room or not. */
  lemma PutMatch(config: Config, sched: P.State, recs: seq<Record>, j: nat, recs': seq<Record>)
    requires config.Valid() && sched.Valid() && |recs| == |config.jobs|
    requires QueuesMatch(config, sched.queues, recs) && j < |recs| && recs[j].place != Ready
    requires recs' == recs[j := recs[j].(place := PutPlace(sched, config.ProcessOf(j)))]
    ensures QueuesMatch(config, P.Put(sched, config.ProcessOf(j)).queues, recs')
    ensures NoneDropped(config, recs) ==> NoneDropped(config, recs')
  {
    var p := config.ProcessOf(j);
    NeverFull(config, sched.queues, recs, j);
    if |sched.queues[p.prio]| < MAX_QUEUE_SIZE {
      QueuePut(config, sched.queues, recs, j, recs');
    } else {
      QueuesUnchanged(config, sched.queues, recs, recs');
      assert P.Put(sched, p).queues == sched.queues;
    }
  }

  /** The head of a queue that is taken by CPU c. */
  lemma QueueTake(config: Config, queues: seq<seq<Process>>, recs: seq<Record>, l: nat, c: nat, recs': seq<Record>)
    requires config.Valid() && |queues| == MAX_PRIO && |recs| == |config.jobs|
    requires QueuesMatch(config, queues, recs) && l < MAX_PRIO && queues[l] != []
    requires var p := queues[l][0]; p.pid < |recs| ==> recs' == recs[p.pid := recs[p.pid].(place := On(c))]
    ensures Own(config, recs, queues[l][0], l)
    ensures QueuesMatch(config, queues[l := queues[l][1..]], recs')
  {
    var p := queues[l][0];
    assert Own(config, recs, p, l) && NoTwice(queues[l]);
    var queues' := queues[l := queues[l][1..]];
    forall m, k | 0 <= m < MAX_PRIO && 0 <= k < |queues'[m]| ensures Own(config, recs', queues'[m][k], m) {
      var x := if m == l then k + 1 else k;
      assert Own(config, recs, queues[m][x], m) && queues[m][x] != p;
    }
    forall j | 0 <= j < |recs'| && recs'[j].place == Ready ensures config.ProcessOf(j) in queues'[config.jobs[j].prio] {
      assert config.ProcessOf(j) in queues[config.jobs[j].prio] && config.ProcessOf(j) != p;
      assert queues[l] == [p] + queues[l][1..];
    }
    forall m | 0 <= m < MAX_PRIO ensures NoTwice(queues'[m]) && |queues'[m]| <= MAX_QUEUE_SIZE {
      assert NoTwice(queues[m]);
    }
  }

  lemma GetCases(s: P.State)
    requires s.Valid()
    ensures P.Get(s).state.Valid()
    ensures P.Get(s).proc == None ==> P.Get(s).state == s
    ensures P.Get(s).proc.Some? ==> P.Serves(s, P.Get(s).state.current)
  {
    P.ServedLevel(s);
  }

  // ---- System steps ----

  /** A CPU that changes only its own position and its process's counters keeps every place. */
  lemma CountersInv(s: State, t: State, c: nat)
    requires Inv(s) && t.Shaped() && c < |s.cpus|
    requires t.config == s.config && t.sched == s.sched && t.loaded == s.loaded
    requires |t.cpus| == |s.cpus| && t.cpus[c].proc == s.cpus[c].proc && PcMatch(t.cpus[c])
    requires forall d | 0 <= d < |s.cpus| && d != c :: t.cpus[d] == s.cpus[d]
    requires |t.recs| == |s.recs| && forall j | 0 <= j < |s.recs| :: t.recs[j].place == s.recs[j].place
    ensures Inv(t)
  {
    QueuesUnchanged(s.config, s.sched.queues, s.recs, t.recs);
    hide QueuesMatch, State.Shaped;
  }

  /** CPU c gives up its process, which goes to a queue, is dropped or has finished. */
  lemma GiveUpInv(s: State, t: State, c: nat, j: nat, place: Place)
    requires Inv(s) && t.Shaped() && c < |s.cpus| && j < |s.recs| && s.cpus[c].proc == Some(s.config.ProcessOf(j))
    requires t.config == s.config && t.loaded == s.loaded
    requires |t.cpus| == |s.cpus| && t.cpus[c].proc == None && PcMatch(t.cpus[c])
    requires forall d | 0 <= d < |s.cpus| && d != c :: t.cpus[d] == s.cpus[d]
    requires !place.NotLoaded? && !place.On? && t.recs == s.recs[j := s.recs[j].(place := place)]
    requires QueuesMatch(s.config, t.sched.queues, t.recs) && NoneDropped(s.config, t.recs)
    ensures Inv(t)
  {
    assert |s.recs| == |s.config.jobs|;
    hide QueuesMatch, NoneDropped, State.Shaped;
  }

  lemma TopInv(s: State, c: nat)
    requires Inv(s) && c < |s.cpus| && s.cpus[c].pc == Top
    ensures Inv(CpuTop(s, c))
  {
    var t, cpu := CpuTop(s, c), s.cpus[c];
    assert PcMatch(cpu) && s.Shaped();
    if cpu.proc == None {
      hide QueuesMatch, CpusMatch, LoadedMatch, NoneDropped, P.State.Valid, Config.Valid;
      CountersInv(s, t, c);
    } else {
      var j := cpu.proc.value.pid;
      assert s.recs[j].place == On(c);
      hide QueuesMatch, CpusMatch, LoadedMatch, P.State.Valid, Config.Valid;
      if s.recs[j].pc == s.config.jobs[j].size {
        QueuesUnchanged(s.config, s.sched.queues, s.recs, t.recs);
        GiveUpInv(s, t, c, j, Finished);
      } else if cpu.timeLeft == 0 {
        PutMatch(s.config, s.sched, s.recs, j, t.recs);
        hide NoneDropped;
        GiveUpInv(s, t, c, j, PutPlace(s.sched, cpu.proc.value));
      } else {
        CountersInv(s, t, c);
      }
    }
  }

  /** Records may change as long as no process becomes or stops being Ready. */
  lemma QueuesUnchanged(config: Config, queues: seq<seq<Process>>, recs: seq<Record>, recs': seq<Record>)
    requires config.Valid() && |queues| == MAX_PRIO && |recs| == |recs'| == |config.jobs|
    requires QueuesMatch(config, queues, recs)
    requires forall j | 0 <= j < |recs| :: recs'[j].place == Ready <==> recs[j].place == Ready
    ensures QueuesMatch(config, queues, recs')
  {
    forall l, k | 0 <= l < MAX_PRIO && 0 <= k < |queues[l]| ensures Own(config, recs', queues[l][k], l) {
      assert Own(config, recs, queues[l][k], l);
    }
  }

  lemma FetchInv(s: State, c: nat)
    requires Inv(s) && c < |s.cpus| && s.cpus[c].pc.Fetch?
    ensures Inv(CpuFetch(s, c))
  {
    hide P.Get;
    GetCases(s.sched);
    var t := CpuFetch(s, c);
    var got := P.Get(s.sched);
    if got.proc.Some? {
      QueueTake(s.config, s.sched.queues, s.recs, got.state.current, c, t.recs);
    }
  }

  lemma CheckInv(s: State, c: nat)
    requires Inv(s) && c < |s.cpus| && s.cpus[c].pc == Check
    ensures Inv(CpuCheck(s, c))
  {
    hide QueuesMatch, CpusMatch, LoadedMatch, NoneDropped, P.State.Valid, Config.Valid;
    assert PcMatch(s.cpus[c]);
    CountersInv(s, CpuCheck(s, c), c);
  }

  lemma ExecInv(s: State, c: nat)
    requires Inv(s) && c < |s.cpus| && s.cpus[c].pc == Exec && s.cpus[c].proc.Some?
    ensures Inv(CpuExec(s, c))
  {
    hide QueuesMatch, CpusMatch, LoadedMatch, NoneDropped, P.State.Valid, Config.Valid;
    CountersInv(s, CpuExec(s, c), c);
  }

  /** Process j is loaded: it goes to a queue or is dropped. */
  lemma LoadInv(s: State, t: State, place: Place)
    requires Inv(s) && t.Shaped() && s.loaded < |s.recs| && t.loaded == s.loaded + 1
    requires t.config == s.config && t.cpus == s.cpus
    requires !place.NotLoaded? && !place.On? && t.recs == s.recs[s.loaded := s.recs[s.loaded].(place := place)]
    requires QueuesMatch(s.config, t.sched.queues, t.recs) && NoneDropped(s.config, t.recs)
    ensures Inv(t)
  {
    assert |s.recs| == |s.config.jobs|;
    hide QueuesMatch, NoneDropped, State.Shaped;
  }

  lemma LoaderInv(s: State)
    requires Inv(s) && LdEnabled(s)
    ensures Inv(LdMove(s))
  {
    var t := LdMove(s);
    if s.ldPc == Spin {
      assert s.recs[s.loaded].place == NotLoaded;
      hide QueuesMatch, CpusMatch, LoadedMatch, P.State.Valid, Config.Valid;
      if t.loaded == s.loaded + 1 {
        PutMatch(s.config, s.sched, s.recs, s.loaded, t.recs);
        hide NoneDropped;
        LoadInv(s, t, PutPlace(s.sched, s.config.ProcessOf(s.loaded)));
      }
    } else {
      hide QueuesMatch, CpusMatch, LoadedMatch, NoneDropped, P.State.Valid, Config.Valid, B.Enabled, B.Next;
    }
  }

  /** A CPU's barrier steps touch only its own position and the barrier. */
  lemma BarrierMoveInv(s: State, c: nat)
    requires Inv(s) && CpuEnabled(s, c) && CpuBarrier(s.cpus[c].pc, DeviceOf(s, c)).Some?
    ensures Inv(CpuMove(s, c))
  {
    B.SameDevices(s.bar, CpuBarrier(s.cpus[c].pc, DeviceOf(s, c)).value);
    assert PcMatch(s.cpus[c]);
    hide QueuesMatch, CpusMatch, LoadedMatch, NoneDropped, B.Enabled, B.Next, P.State.Valid, Config.Valid;
    CountersInv(s, CpuMove(s, c), c);
  }

  lemma NextInv(s: State, e: Event)
    requires Inv(s) && Enabled(s, e)
    ensures Inv(Next(s, e))
  {
    match e
    case Timer(b) =>
      hide QueuesMatch, CpusMatch, LoadedMatch, P.State.Valid;
    case LdStep =>
      hide Inv, LdEnabled, LdMove;
      LoaderInv(s);
    case CpuStep(c) =>
      hide Inv, CpuTop, CpuFetch, CpuCheck, CpuExec;
      match s.cpus[c].pc {
        case Top => TopInv(s, c);
        case Fetch(_) => FetchInv(s, c);
        case Check => CheckInv(s, c);
        case Exec => ExecInv(s, c);
        case Sync => BarrierMoveInv(s, c);
        case Blocked => BarrierMoveInv(s, c);
        case Leaving => BarrierMoveInv(s, c);
      }
  }

  lemma {:induction false} RunInv(s: State, events: seq<Event>)
    requires Inv(s) && LegalRun(s, events)
    ensures Inv(Run(s, events))
    decreases |events|
  {
    if events == [] {
    } else {
      hide Inv, Next, Enabled;
      NextInv(s, events[0]);
      RunInv(Next(s, events[0]), events[1..]);
    }
  }

  /** How often a process is in its level's ready queue. */
  function InQueue(s: State, j: nat): nat
    requires s.Shaped() && j < |s.recs|
  {
    multiset(s.sched.queues[s.config.jobs[j].prio])[s.config.ProcessOf(j)]
  }

  /** The CPUs that hold a process. */
  function Holders(s: State, j: nat): set<nat>
    requires s.Shaped() && j < |s.recs|
  {
    set c | 0 <= c < |s.cpus| && s.cpus[c].proc == Some(s.config.ProcessOf(j))
  }

  lemma {:induction false} OnceIn(q: seq<Process>, p: Process)
    requires NoTwice(q)
    ensures multiset(q)[p] == if p in q then 1 else 0
  {
    if q == [] {
    } else {
      assert q == [q[0]] + q[1..];
      OnceIn(q[1..], p);
    }
  }

  /** The number of places a process is in: how often in its own level's ready queue, on how
      many CPUs, finished, dropped. */
  function Places(s: State, j: nat): nat
    requires s.Shaped() && j < |s.recs|
  {
    InQueue(s, j) + |Holders(s, j)| +
    (if s.recs[j].place == Finished then 1 else 0) + (if s.recs[j].place == Dropped then 1 else 0)
  }

  lemma OnePlace(s: State, j: nat)
    requires Inv(s) && j < |s.recs|
    ensures Places(s, j) == if j < s.loaded then 1 else 0
  {
    var p := s.config.ProcessOf(j);
    assert p.prio < MAX_PRIO && NoTwice(s.sched.queues[p.prio]);
    OnceIn(s.sched.queues[p.prio], p);
    if p in s.sched.queues[p.prio] {
      var k :| 0 <= k < |s.sched.queues[p.prio]| && s.sched.queues[p.prio][k] == p;
      assert Own(s.config, s.recs, s.sched.queues[p.prio][k], p.prio);
    }
    if s.recs[j].place.On? {
      assert Holders(s, j) == {s.recs[j].place.cpu};
    } else {
      assert Holders(s, j) == {};
    }
  }

  /** Process conservation: in every reachable state a process that is not yet loaded is
      nowhere, and a loaded one is in exactly one place: once in its own level's ready queue,
      on exactly one CPU, finished, or dropped by a full queue; a process of a level that at
      most 50 processes have is never dropped. Every queue holds only loaded processes of its
      level. */
  lemma ProcessConservation(config: Config, events: seq<Event>, j: nat)
    requires config.Valid() && LegalRun(Init(config), events) && j < |config.jobs|
    ensures var s := Run(Init(config), events);
            && s.Shaped() && s.config == config
            && Places(s, j) == (if j < s.loaded then 1 else 0)
            && (|OfLevel(config.jobs, config.jobs[j].prio)| <= 50 ==> s.recs[j].place != Dropped)
            && forall l, k | 0 <= l < 140 && 0 <= k < |s.sched.queues[l]| ::
                 s.sched.queues[l][k].prio == l && s.sched.queues[l][k].pid < s.loaded
  {
    InitInv(config);
    RunInv(Init(config), events);
    ConfigKept(Init(config), events);
    var s := Run(Init(config), events);
    forall l, k | 0 <= l < MAX_PRIO && 0 <= k < |s.sched.queues[l]|
      ensures s.sched.queues[l][k].prio == l && s.sched.queues[l][k].pid < s.loaded
    {
      assert Own(config, s.recs, s.sched.queues[l][k], l);
    }
    OnePlace(s, j);
  }

  lemma {:induction false} ConfigKept(s: State, events: seq<Event>)
    requires LegalRun(s, events)
    ensures Run(s, events).config == s.config
    decreases |events|
  {
    if events == [] {
    } else {
      ConfigKept(Next(s, events[0]), events[1..]);
    }
  }

  /** At a level that at most 50 processes have no enqueue is ever refused: whenever a CPU or
      the loader is about to put one of them, the queue has room. */
  lemma NoEnqueueRefused(config: Config, events: seq<Event>, e: Event)
    requires config.Valid() && LegalRun(Init(config), events) && Enabled(Run(Init(config), events), e)
    ensures var s := Run(Init(config), events);
            && s.Shaped()
            && (e.CpuStep? && s.cpus[e.c].pc == Top && s.cpus[e.c].proc.Some? ==>
                  var l := s.cpus[e.c].proc.value.prio;
                  |OfLevel(config.jobs, l)| <= 50 ==> |s.sched.queues[l]| < 50)
            && (e.LdStep? && s.ldPc == Spin ==>
                  var l := s.config.jobs[s.loaded].prio;
                  |OfLevel(config.jobs, l)| <= 50 ==> |s.sched.queues[l]| < 50)
  {
    InitInv(config);
    RunInv(Init(config), events);
    ConfigKept(Init(config), events);
    var s := Run(Init(config), events);
    hide QueuesMatch, OfLevel;
    match e
    case Timer(_) =>
    case CpuStep(c) =>
      if s.cpus[c].proc.Some? {
        NeverFull(s.config, s.sched.queues, s.recs, s.cpus[c].proc.value.pid);
      }
    case LdStep =>
      if s.ldPc == Spin { NeverFull(s.config, s.sched.queues, s.recs, s.loaded); }
  }
}
