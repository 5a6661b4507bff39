/** The list of mapped pages (`mm->fifo_pgn`): `enlist_pgn_node` of src/mm64.c pushes at the
    head, `find_victim_page` of src/libmem.c takes the tail. */
module PageFifo {
  import opened Sequences
  import opened Wrappers

  class PageNode {
    var pgn: nat
    var next: PageNode?
  }

  class PageList {
    var head: PageNode?
    ghost var nodes: seq<PageNode>
    ghost var pages: seq<nat>

    ghost function At(i: nat): PageNode?
      reads this
    {
      if i < |nodes| then nodes[i] else null
    }

    /** Node i holds page i and links to node i + 1. */
    ghost predicate Linked(i: nat)
      requires i < |nodes| == |pages|
      reads this, nodes
    {
      nodes[i].pgn == pages[i] && nodes[i].next == At(i + 1)
    }

    ghost predicate Valid()
      reads this, nodes
    {
      && |nodes| == |pages| && head == At(0)
      && (forall i, j | 0 <= i < j < |nodes| :: nodes[i] != nodes[j])
      && (forall i | 0 <= i < |nodes| :: Linked(i))
    }

    constructor ()
      ensures Valid() && pages == []
    {
      head := null;
      nodes, pages := [], [];
    }

    /** `enlist_pgn_node`. */
    method Enlist(pgn: nat)
      requires Valid()
      modifies this
      ensures Valid() && pages == [pgn] + old(pages)
      ensures nodes != [] && fresh(nodes[0]) && nodes[1..] == old(nodes)
    {
      var pnode := new PageNode;
      pnode.pgn := pgn;
      pnode.next := head;
      head := pnode;
      ghost var n0 := nodes;
      nodes, pages := [pnode] + nodes, [pgn] + pages;
      forall i | 0 <= i < |nodes| ensures Linked(i) {
        if i > 0 { assert nodes[i] == n0[i - 1] && old(Linked(i - 1)); }
      }
    }

    /** The last node leaves: its predecessor becomes the last one. */
    method CutLast(prev: PageNode)
      requires Valid() && |nodes| >= 2 && prev == nodes[|nodes| - 2]
      modifies this`nodes, this`pages, prev
      ensures Valid() && pages == old(pages)[..|old(pages)| - 1] && nodes == old(nodes)[..|old(nodes)| - 1]
    {
      ghost var k := |nodes| - 1;
      prev.next := null;
      nodes, pages := nodes[..k], pages[..k];
      forall i | 0 <= i < |nodes| ensures Linked(i) {
        assert old(Linked(i)) && (i < k - 1 ==> nodes[i] != prev);
      }
    }

    /** `find_victim_page`: the oldest page leaves. With a single page the source
        dereferences a NULL predecessor. */
    method FindVictimPage() returns (victim: Option<nat>)
      requires Valid() && |pages| != 1
      modifies this, nodes
      ensures Valid() && nodes == if old(nodes) == [] then [] else old(nodes)[..|old(nodes)| - 1]
      ensures old(pages) == [] ==> victim == None && pages == []
      ensures old(pages) != [] ==>
                victim == Some(old(pages)[|old(pages)| - 1]) && pages == old(pages)[..|old(pages)| - 1]
    {
      var pg := head;
      if pg == null {
        return None;
      }
      var prev: PageNode? := null;
      ghost var k := 0;
      while pg.next != null
        invariant k < |nodes| && pg == nodes[k] && prev == if k == 0 then null else nodes[k - 1]
        decreases |nodes| - k
      {
        assert Linked(k);
        prev := pg;
        pg := pg.next;
        k := k + 1;
      }
      assert Linked(k);
      victim := Some(pg.pgn);
      CutLast(prev);
    }
  }

  // ---- Whole runs ----

  datatype Op = Push(pgn: nat) | Evict

  /** The list, newest page first, and the victims so far, oldest eviction first. */
  datatype State = State(pages: seq<nat>, victims: seq<nat>)

  /** Eviction is asked of a list of at least two pages. */
  predicate Legal(s: State, op: Op) {
    op.Evict? ==> |s.pages| >= 2
  }

  function Step(s: State, op: Op): State
    requires Legal(s, op)
  {
    match op
    case Push(p) => State([p] + s.pages, s.victims)
    case Evict => var n := |s.pages| - 1; State(s.pages[..n], s.victims + [s.pages[n]])
  }

  predicate LegalRun(s: State, ops: seq<Op>)
    decreases |ops|
  {
    ops == [] || (Legal(s, ops[0]) && LegalRun(Step(s, ops[0]), ops[1..]))
  }

  function Run(s: State, ops: seq<Op>): State
    requires LegalRun(s, ops)
    decreases |ops|
  {
    if ops == [] then s else Run(Step(s, ops[0]), ops[1..])
  }

  function Pushed(ops: seq<Op>): seq<nat> {
    if ops == [] then []
    else (if ops[0].Push? then [ops[0].pgn] else []) + Pushed(ops[1..])
  }

  function Evictions(ops: seq<Op>): nat {
    if ops == [] then 0 else (if ops[0].Evict? then 1 else 0) + Evictions(ops[1..])
  }

  lemma PushedFirst(ops: seq<Op>)
    requires ops != []
    ensures Pushed(ops) == Pushed([ops[0]]) + Pushed(ops[1..])
    ensures Evictions(ops) == Evictions([ops[0]]) + Evictions(ops[1..])
  {
  }

  lemma StepKeepsOrder(s: State, op: Op)
    requires Legal(s, op)
    ensures var t := Step(s, op);
            && t.victims + Reverse(t.pages) == s.victims + Reverse(s.pages) + Pushed([op])
            && |t.victims| == |s.victims| + Evictions([op])
  {
    var t := Step(s, op);
    match op
    case Push(p) =>
      assert t.pages[1..] == s.pages;
      assert Pushed([op]) == [p];
      assert s.victims + (Reverse(s.pages) + [p]) == s.victims + Reverse(s.pages) + [p];
    case Evict =>
      ReverseLast(s.pages);
      var v := s.pages[|s.pages| - 1];
      assert s.victims + ([v] + Reverse(t.pages)) == s.victims + [v] + Reverse(t.pages);
  }

  lemma Regroup(a: seq<nat>, b: seq<nat>, c: seq<nat>)
    ensures (a + b) + c == a + (b + c)
  {
  }

  /** First in, first out: the victims followed by the pages still listed, oldest first, are
      exactly the pages that were listed at the start and then pushed, in that order, and each
      eviction has one victim. */
  lemma {:induction false} VictimsLeaveInOrder(s: State, ops: seq<Op>)
    requires LegalRun(s, ops)
    ensures var t := Run(s, ops);
            && t.victims + Reverse(t.pages) == s.victims + Reverse(s.pages) + Pushed(ops)
            && |t.victims| == |s.victims| + Evictions(ops)
    decreases |ops|
  {
    if ops == [] {
    } else {
      hide Reverse, Step, Pushed, Evictions, Legal;
      StepKeepsOrder(s, ops[0]);
      PushedFirst(ops);
      VictimsLeaveInOrder(Step(s, ops[0]), ops[1..]);
      Regroup(s.victims + Reverse(s.pages), Pushed([ops[0]]), Pushed(ops[1..]));
    }
  }

  /** Any legal sequence of operations on the linked list is the run on values, with the
      victims in the order they were found. */
  method Perform(list: PageList, ops: seq<Op>) returns (victims: seq<nat>)
    requires list.Valid() && LegalRun(State(list.pages, []), ops)
    modifies list, list.nodes
    ensures list.Valid() && State(list.pages, victims) == Run(State(old(list.pages), []), ops)
  {
    hide PageList.Valid;
    ghost var s, n0 := State(list.pages, []), list.nodes;
    victims := [];
    assert ops[0..] == ops;
    for i := 0 to |ops|
      invariant list.Valid() && forall k | 0 <= k < |list.nodes| :: list.nodes[k] in n0 || fresh(list.nodes[k])
      invariant LegalRun(State(list.pages, victims), ops[i..])
      invariant Run(State(list.pages, victims), ops[i..]) == Run(s, ops)
    {
      assert ops[i..][0] == ops[i] && ops[i..][1..] == ops[i + 1..];
      match ops[i] {
        case Push(p) => list.Enlist(p);
        case Evict =>
          var victim := list.FindVictimPage();
          victims := victims + [victim.value];
      }
    }
  }
}
