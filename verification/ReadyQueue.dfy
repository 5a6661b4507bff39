/** The bounded process queue of src/queue.c: a fixed array filled from the front, whose
    dequeue shifts every element down. */
module ReadyQueue {
  import opened Wrappers

  const MAX_QUEUE_SIZE: nat := 50
  const MAX_PRIO: nat := 140

  /** `pcb_t` as far as scheduling sees it. */
  datatype Process = Process(pid: nat, prio: nat)

  /** A full queue silently refuses. */
  function Enqueued(q: seq<Process>, p: Process): seq<Process> {
    if |q| >= MAX_QUEUE_SIZE then q else q + [p]
  }

  class Queue {
    const proc: array<Option<Process>>
    var size: nat

    ghost predicate Valid()
      reads this, proc
    {
      proc.Length == MAX_QUEUE_SIZE && size <= MAX_QUEUE_SIZE && forall i | 0 <= i < size :: proc[i].Some?
    }

    ghost function Contents(): (q: seq<Process>)
      requires Valid()
      reads this, proc
      ensures |q| == size && forall i | 0 <= i < size :: proc[i] == Some(q[i])
    {
      seq(size, i requires 0 <= i < size && Valid() reads this, proc => proc[i].value)
    }

    constructor ()
      ensures Valid() && Contents() == [] && fresh(proc)
    {
      proc := new Option<Process>[MAX_QUEUE_SIZE](_ => None);
      size := 0;
    }

    /** `enqueue`: a queue of fewer than 50 accepts the process at its end, a queue of 50
        refuses it; a NULL process is ignored. */
    method Enqueue(p: Option<Process>)
      requires Valid()
      modifies this`size, proc
      ensures Valid() && |old(Contents())| <= 50
      ensures p.Some? && |old(Contents())| < 50 ==> Contents() == old(Contents()) + [p.value]
      ensures p == None || |old(Contents())| == 50 ==> Contents() == old(Contents())
    {
      if p == None || size >= MAX_QUEUE_SIZE {
        return;
      }
      proc[size] := p;
      size := size + 1;
      assert forall i | 0 <= i < size - 1 :: proc[i] == old(proc[i]);
    }

    /** `dequeue`: the front process leaves and the others move up one place. */
    method Dequeue() returns (p: Option<Process>)
      requires Valid()
      modifies this`size, proc
      ensures Valid()
      ensures old(Contents()) == [] ==> p == None && Contents() == []
      ensures old(Contents()) != [] ==> p == Some(old(Contents())[0]) && Contents() == old(Contents())[1..]
    {
      if size == 0 {
        return None;
      }
      p := proc[0];
      for i := 1 to size
        invariant size == old(size)
        invariant forall j | 0 <= j < i - 1 :: proc[j] == old(proc[j + 1])
        invariant forall j | i - 1 <= j < proc.Length :: proc[j] == old(proc[j])
      {
        proc[i - 1] := proc[i];
      }
      size := size - 1;
      proc[size] := None;
    }
  }
}
