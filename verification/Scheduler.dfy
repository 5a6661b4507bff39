/** src/sched.c: the scheduler's static data, updated in place. */
module Scheduler {
  import opened MlqPolicy
  import opened ReadyQueue
  import opened Wrappers

  class Mlq {
    const mlqReadyQueue: seq<Queue>
    const slot: array<int>
    var currentPrio: nat
    var usedSlot: int

    ghost function Footprint(): set<object> {
      (set q <- mlqReadyQueue :: q as object) + (set q <- mlqReadyQueue :: q.proc as object)
    }

    /** Every level has a queue of its own. */
    ghost predicate Separate() {
      |mlqReadyQueue| == MAX_PRIO && forall i, j | 0 <= i < j < MAX_PRIO ::
        mlqReadyQueue[i] != mlqReadyQueue[j] && mlqReadyQueue[i].proc != mlqReadyQueue[j].proc
    }

    ghost predicate Ready()
      reads Footprint()
    {
      Separate() && forall i | 0 <= i < MAX_PRIO ::
        mlqReadyQueue[i] in mlqReadyQueue && mlqReadyQueue[i].Valid()
    }

    ghost predicate Valid()
      reads this, slot, Footprint()
    {
      && Ready()
      && slot.Length == MAX_PRIO && (forall i | 0 <= i < MAX_PRIO :: slot[i] == Budget(i))
      && currentPrio < MAX_PRIO && 0 <= usedSlot <= Budget(currentPrio)
    }

    ghost function Queues(): (qs: seq<seq<Process>>)
      requires Ready()
      reads Footprint()
      ensures |qs| == MAX_PRIO && forall i | 0 <= i < MAX_PRIO :: qs[i] == mlqReadyQueue[i].Contents()
    {
      seq(MAX_PRIO, i requires 0 <= i < MAX_PRIO && Ready() reads Footprint() => mlqReadyQueue[i].Contents())
    }

    ghost function Contents(): (s: State)
      requires Valid()
      reads this, slot, Footprint()
      ensures s.Valid()
    {
      State(Queues(), currentPrio, usedSlot)
    }

    /** `init_scheduler`. */
    constructor ()
      ensures Valid() && Contents() == START && fresh(slot) && fresh(Footprint())
      ensures slot.Length == |mlqReadyQueue| == 140 && forall i | 0 <= i < 140 ::
                slot[i] == 140 - i && mlqReadyQueue[i].Valid() && mlqReadyQueue[i].Contents() == []
      ensures currentPrio == 0 && usedSlot == 0
    {
      var queues: seq<Queue> := [];
      var budgets := new int[MAX_PRIO];
      for i := 0 to MAX_PRIO
        invariant |queues| == i
        invariant forall j | 0 <= j < i ::
                    fresh(queues[j]) && fresh(queues[j].proc) && queues[j].Valid() && queues[j].Contents() == []
        invariant forall j, k | 0 <= j < k < i :: queues[j] != queues[k] && queues[j].proc != queues[k].proc
        invariant forall j | 0 <= j < i :: budgets[j] == Budget(j)
      {
        var q := new Queue();
        queues := queues + [q];
        budgets[i] := MAX_PRIO - i;
      }
      mlqReadyQueue, slot := queues, budgets;
      currentPrio, usedSlot := 0, 0;
    }

    /** `!empty(&mlq_ready_queue[level])`. */
    predicate HasWaiting(level: nat)
      requires Ready() && level < MAX_PRIO
      reads Footprint()
      ensures HasWaiting(level) <==> Queues()[level] != []
    {
      mlqReadyQueue[level].size != 0
    }

    /** Whether a level's queue would take one more process. */
    predicate HasRoom(level: nat)
      requires Valid() && level < MAX_PRIO
      reads this, slot, Footprint()
      ensures HasRoom(level) <==> |Contents().queues[level]| < MAX_QUEUE_SIZE
    {
      mlqReadyQueue[level].size < MAX_QUEUE_SIZE
    }

    /** A non-empty level's head leaves its queue; the other levels are untouched. */
    method TakeHead(level: nat) returns (proc: Option<Process>)
      requires Ready() && level < MAX_PRIO && Queues()[level] != []
      modifies Footprint()
      ensures Ready() && proc == Some(old(Queues()[level][0]))
      ensures Queues() == old(Queues())[level := old(Queues()[level])[1..]]
    {
      assert mlqReadyQueue[level] in mlqReadyQueue;
      proc := mlqReadyQueue[level].Dequeue();
      assert forall i | 0 <= i < MAX_PRIO && i != level ::
               unchanged(mlqReadyQueue[i]) && unchanged(mlqReadyQueue[i].proc);
    }

    /** The first search of `get_mlq_proc`: the most urgent non-empty level, or -1. */
    method HighestPrio() returns (highestPrio: int)
      requires Valid()
      ensures highestPrio == if MostUrgent(Queues()) == MAX_PRIO then -1 else MostUrgent(Queues())
    {
      for i := 0 to MAX_PRIO
        invariant forall j | 0 <= j < i :: Queues()[j] == []
      {
        if HasWaiting(i) {
          assert Top(Queues(), i);
          TopIsMostUrgent(Queues(), i);
          return i;
        }
      }
      return -1;
    }

    /** The second search: the distance to the next non-empty level in cyclic order, or
        MAX_PRIO + 1. */
    method NextDistance() returns (d: nat)
      requires Valid()
      ensures d == NextFrom(Queues(), currentPrio, 1)
    {
      for i := 1 to MAX_PRIO + 1
        invariant forall k | 1 <= k < i :: Queues()[Cyclic(currentPrio, k)] == []
      {
        if HasWaiting(Cyclic(currentPrio, i)) {
          NextIs(Queues(), currentPrio, i);
          return i;
        }
      }
      assert !(NextFrom(Queues(), currentPrio, 1) <= MAX_PRIO);
      return MAX_PRIO + 1;
    }

    /** Dequeue from a level, which is now the one being served. */
    method ServeLevel(level: nat, used: int) returns (proc: Option<Process>)
      requires Valid() && level < MAX_PRIO && Queues()[level] != [] && 0 <= used <= Budget(level)
      modifies this, Footprint()
      ensures Valid() && Contents() == Take(old(Contents()), level, used).state
      ensures proc == Take(old(Contents()), level, used).proc
    {
      hide Ready;
      proc := TakeHead(level);
      currentPrio, usedSlot := level, used;
    }

    /** The cyclic search from the current level, and the dequeue if it finds one. */
    method ServeNext() returns (proc: Option<Process>)
      requires Valid()
      modifies this, Footprint()
      ensures Valid() && var s := old(Contents());
              var d := NextFrom(s.queues, s.current, 1);
              Outcome(proc, Contents()) ==
              if d == MAX_PRIO + 1 then Outcome(None, State(s.queues, s.current, 0))
              else Take(s, Cyclic(s.current, d), 1)
    {
      hide NextFrom, Cyclic, Ready;
      usedSlot := 0;
      var d := NextDistance();
      if d == MAX_PRIO + 1 {
        return None;
      }
      proc := ServeLevel(Cyclic(currentPrio, d), 1);
    }

    /** The second half of `get_mlq_proc`. */
    method ServeCurrent() returns (proc: Option<Process>)
      requires Valid()
      modifies this, Footprint()
      ensures Valid() && Contents() == Serve(old(Contents())).state && proc == Serve(old(Contents())).proc
    {
      hide NextFrom, Cyclic, Ready;
      if usedSlot < slot[currentPrio] && HasWaiting(currentPrio) {
        proc := ServeLevel(currentPrio, usedSlot + 1);
      } else {
        proc := ServeNext();
      }
    }

    /** `get_mlq_proc`. */
    method GetMlqProc() returns (proc: Option<Process>)
      requires Valid()
      modifies this, Footprint()
      ensures Valid() && Contents() == Get(old(Contents())).state && proc == Get(old(Contents())).proc
    {
      hide MostUrgent, Serve, Ready;
      var highestPrio := HighestPrio();
      if highestPrio == -1 {
        return None;
      }
      if !HasWaiting(currentPrio) || highestPrio < currentPrio {
        currentPrio := highestPrio;
        usedSlot := 0;
      }
      proc := ServeCurrent();
    }

    /** `put_mlq_proc`, and `add_mlq_proc` which does the same. */
    method PutMlqProc(proc: Process)
      requires Valid() && proc.prio < MAX_PRIO
      modifies Footprint()
      ensures Valid() && Contents() == Put(old(Contents()), proc)
    {
      var level := proc.prio;
      assert mlqReadyQueue[level] in mlqReadyQueue;
      mlqReadyQueue[level].Enqueue(Some(proc));
      assert forall i | 0 <= i < MAX_PRIO && i != level ::
               unchanged(mlqReadyQueue[i]) && unchanged(mlqReadyQueue[i].proc);
    }
  }

  /** Any sequence of puts and gets on the queue array is the run of the policy. */
  method Perform(mlq: Mlq, ops: seq<Op>)
    requires mlq.Valid() && forall op <- ops :: Legal(op)
    modifies mlq, mlq.Footprint()
    ensures mlq.Valid() && mlq.Contents() == Run(old(mlq.Contents()), ops)
  {
    hide Mlq.Valid, Mlq.Ready, Mlq.Footprint, Mlq.Contents, Get, Put;
    ghost var s := mlq.Contents();
    assert ops[0..] == ops;
    for i := 0 to |ops|
      invariant mlq.Valid() && Run(mlq.Contents(), ops[i..]) == Run(s, ops)
    {
      assert ops[i..][0] == ops[i] && ops[i..][1..] == ops[i + 1..] && ops[i] in ops;
      match ops[i] {
        case Join(p) => mlq.PutMlqProc(p);
        case Dispatch => var proc := mlq.GetMlqProc();
      }
    }
  }
}
