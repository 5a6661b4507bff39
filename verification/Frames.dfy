/** The free-frame list of a memory device (src/mm-memphy.c) and all-or-nothing range
    allocation on it (`alloc_pages_range` of src/mm64.c). */
module Frames {
  import opened Bits
  import opened Sequences
  import opened Wrappers

  // ---- Specification: the free list is a sequence of frame numbers ----

  function UpTo(n: nat): (s: seq<nat>)
    ensures |s| == n && forall i :: 0 <= i < n ==> s[i] == i
  {
    seq(n, i => i)
  }

  const FAILED: nat := 0xFFFF_FFFF_FFFF_FFFF  // (addr_t)-1

  datatype Range = Range(rc: nat, taken: seq<nat>, free: seq<nat>)

  /** What a range allocation returns and leaves free. A request of zero or less "succeeds"
      with nothing. */
  function AllocRange(free: seq<nat>, n: int): Range {
    if n <= 0 then Range(0, [], free)
    else if n <= |free| then Range(0, free[..n], free[n..])
    else Range(FAILED, [], Reverse(free))
  }

  // ---- The device ----

  class FrameNode {
    var fpn: nat
    var next: FrameNode?
  }

  /** Node i of a chain, NULL past its end. */
  ghost function At(nodes: seq<FrameNode>, i: nat): FrameNode? {
    if i < |nodes| then nodes[i] else null
  }

  /** From `head`, the nodes of a chain in order and the frame numbers they hold. */
  ghost predicate Chain(head: FrameNode?, nodes: seq<FrameNode>, fpns: seq<nat>)
    reads nodes
  {
    && |nodes| == |fpns|
    && head == At(nodes, 0)
    && (forall i, j | 0 <= i < j < |nodes| :: nodes[i] != nodes[j])
    && (forall i | 0 <= i < |nodes| :: nodes[i].fpn == fpns[i])
    && (forall i | 0 <= i < |nodes| :: nodes[i].next == At(nodes, i + 1))
  }

  lemma ChainEmpty()
    ensures Chain(null, [], [])
  {
  }

  lemma ChainAt(head: FrameNode?, nodes: seq<FrameNode>, fpns: seq<nat>, k: nat)
    requires Chain(head, nodes, fpns)
    ensures |nodes| == |fpns| && head == At(nodes, 0)
    ensures k < |nodes| ==> nodes[k].fpn == fpns[k] && nodes[k].next == At(nodes, k + 1)
  {
  }

  lemma ChainTail(head: FrameNode?, nodes: seq<FrameNode>, fpns: seq<nat>)
    requires Chain(head, nodes, fpns) && head != null
    ensures nodes != [] && fpns[0] == head.fpn && Chain(head.next, nodes[1..], fpns[1..])
  {
    var rest := nodes[1..];
    assert forall i | 0 <= i < |rest| :: rest[i] == nodes[i + 1];
    forall i | 0 <= i < |rest| ensures rest[i].next == At(rest, i + 1) {
      assert nodes[i + 1].next == At(nodes, i + 2);
    }
    assert nodes[0].next == At(nodes, 1);
  }

  lemma ChainPush(node: FrameNode, nodes: seq<FrameNode>, fpns: seq<nat>)
    requires Chain(node.next, nodes, fpns) && node !in nodes
    ensures Chain(node, [node] + nodes, [node.fpn] + fpns)
  {
    var all := [node] + nodes;
    forall i | 0 <= i < |all| ensures all[i].next == At(all, i + 1) {
      if i > 0 {
        assert all[i] == nodes[i - 1];
        assert nodes[i - 1].next == At(nodes, i);
      }
    }
  }

  /** A chain whose last link does not matter. */
  ghost predicate Open(nodes: seq<FrameNode>, fpns: seq<nat>)
    reads nodes
  {
    && |nodes| == |fpns|
    && (forall i, j | 0 <= i < j < |nodes| :: nodes[i] != nodes[j])
    && (forall i | 0 <= i < |nodes| :: nodes[i].fpn == fpns[i])
    && (forall i | 0 <= i < |nodes| - 1 :: nodes[i].next == nodes[i + 1])
  }

  lemma OpenIsChain(head: FrameNode?, nodes: seq<FrameNode>, fpns: seq<nat>)
    ensures Chain(head, nodes, fpns) <==>
            Open(nodes, fpns) && head == At(nodes, 0) && (nodes != [] ==> nodes[|nodes| - 1].next == null)
  {
    if Open(nodes, fpns) && head == At(nodes, 0) && (nodes != [] ==> nodes[|nodes| - 1].next == null) {
      forall i | 0 <= i < |nodes| ensures nodes[i].next == At(nodes, i + 1) {
      }
    }
    if Chain(head, nodes, fpns) {
      forall i | 0 <= i < |nodes| - 1 ensures nodes[i].next == nodes[i + 1] {
        assert nodes[i].next == At(nodes, i + 1);
      }
    }
  }

  lemma OpenOne(node: FrameNode)
    ensures Open([node], [node.fpn])
  {
  }

  lemma OpenExtend(nodes: seq<FrameNode>, fpns: seq<nat>, node: FrameNode)
    requires Open(nodes, fpns) && node !in nodes && (nodes != [] ==> nodes[|nodes| - 1].next == node)
    ensures Open(nodes + [node], fpns + [node.fpn])
  {
  }

  lemma UpToNext(n: nat)
    ensures UpTo(n + 1) == UpTo(n) + [n]
  {
  }

  /** Linking a node behind the last one. */
  method Link(tail: FrameNode, node: FrameNode, ghost nodes: seq<FrameNode>, ghost fpns: seq<nat>)
    requires Open(nodes, fpns) && nodes != [] && tail == nodes[|nodes| - 1] && node !in nodes
    modifies tail
    ensures Open(nodes + [node], fpns + [node.fpn]) && tail.next == node && tail.fpn == old(tail.fpn)
  {
    tail.next := node;
    assert forall i | 0 <= i < |nodes| - 1 :: nodes[i] != tail;
    assert Open(nodes, fpns);
    OpenExtend(nodes, fpns, node);
  }

  /** A fresh last node. */
  method Grow(tail: FrameNode, ghost nodes: seq<FrameNode>, ghost fpns: seq<nat>, fpn: nat) returns (node: FrameNode)
    requires Open(nodes, fpns) && nodes != [] && tail == nodes[|nodes| - 1]
    modifies tail
    ensures fresh(node) && node.next == null && tail.fpn == old(tail.fpn) && Open(nodes + [node], fpns + [fpn])
  {
    hide Open;
    node := new FrameNode;
    node.fpn := fpn;
    node.next := null;
    Link(tail, node, nodes, fpns);
  }

  /** A fresh node at the end of a chain, which may be empty. */
  method Append(head: FrameNode?, tail: FrameNode?, ghost nodes: seq<FrameNode>, ghost fpns: seq<nat>, fpn: nat)
    returns (head': FrameNode, tail': FrameNode)
    requires Chain(head, nodes, fpns)
    requires tail == if nodes == [] then null else nodes[|nodes| - 1]
    modifies if tail == null then {} else {tail}
    ensures fresh(tail') && Chain(head', nodes + [tail'], fpns + [fpn])
  {
    OpenIsChain(head, nodes, fpns);
    ChainAt(head, nodes, fpns, 0);
    var node := new FrameNode;
    node.fpn := fpn;
    node.next := null;
    head', tail' := node, node;
    if head == null {
      OpenExtend([], [], node);
      assert nodes + [node] == [] + [node] && fpns + [fpn] == [] + [fpn];
    } else {
      hide Chain, Open;
      Link(tail, node, nodes, fpns);
      head' := head;
      assert (nodes + [node])[0] == head;
    }
    OpenIsChain(head', nodes + [node], fpns + [fpn]);
  }

  /** C's division of ints, which truncates toward zero. */
  function Quotient(a: int, b: int): int
    requires b != 0
  {
    var n, d := if a < 0 then -a else a, if b < 0 then -b else b;
    if (a < 0) == (b < 0) then n / d else -(n / d)
  }

  lemma WholePages(n: nat, d: nat)
    requires d > 0
    ensures (n / d) * d <= n < (n / d + 1) * d && (n / d == 0 <==> n < d)
  {
    var q := n / d;
    assert n == d * q + n % d;
    assert (q + 1) * d == q * d + d;
    if q > 0 { MulAtLeast(d, q); }
  }

  lemma NegatedProducts(q: int, d: int)
    ensures q * (-d) == -(q * d) && (q + 1) * (-d) == -((q + 1) * d)
  {
  }

  /** The quotient is the number of whole pages that fit, for either sign of the page size. */
  lemma QuotientFits(a: int, b: int)
    requires b != 0
    ensures var k := Quotient(a, b);
            if b > 0 then (k <= 0 <==> a < b) && (k > 0 ==> k * b <= a < (k + 1) * b)
            else (k <= 0 <==> a > b) && (k > 0 ==> k * b >= a > (k + 1) * b)
  {
    var n: nat, d: nat := if a < 0 then -a else a, if b < 0 then -b else b;
    var q := n / d;
    WholePages(n, d);
    NegatedProducts(q, d);
  }

  class Device {
    var maxsz: int
    var freeFpList: FrameNode?
    ghost var nodes: seq<FrameNode>
    ghost var free: seq<nat>

    ghost predicate Valid()
      reads this, nodes
    {
      Chain(freeFpList, nodes, free)
    }

    constructor (maxsz: int)
      ensures this.maxsz == maxsz
    {
      this.maxsz := maxsz;
    }

    /** `MEMPHY_format`: -1 exactly if not even one page fits; otherwise the frames 0, 1, ...
        as far as whole pages fit. With exactly one frame the first node's link is never
        written: the list is well formed exactly if that link happens to be NULL. */
    method Format(pagesz: int) returns (rc: int)
      requires pagesz != 0
      modifies this`freeFpList, this`nodes, this`free
      ensures rc == -1 || rc == 0
      ensures pagesz > 0 ==> (rc == -1 <==> maxsz < pagesz)
      ensures pagesz < 0 ==> (rc == -1 <==> maxsz > pagesz)
      ensures rc == -1 ==> freeFpList == old(freeFpList) && nodes == old(nodes) && free == old(free)
      ensures rc == 0 && pagesz > 0 ==> |free| * pagesz <= maxsz < (|free| + 1) * pagesz
      ensures rc == 0 && pagesz < 0 ==> |free| * pagesz >= maxsz > (|free| + 1) * pagesz
      ensures rc == 0 ==> forall f | 0 <= f < |free| :: free[f] == f
      ensures rc == 0 ==> |nodes| == |free| >= 1 && fresh(nodes) && freeFpList == nodes[0] && freeFpList.fpn == 0
      ensures rc == 0 && |free| >= 2 ==> Valid()
      ensures rc == 0 && |free| == 1 ==> (Valid() <==> freeFpList.next == null)
    {
      hide Quotient, Open, Chain;
      QuotientFits(maxsz, pagesz);
      var numfp := Quotient(maxsz, pagesz);
      if numfp <= 0 {
        return -1;
      }
      var fst := new FrameNode;
      fst.fpn := 0;
      freeFpList := fst;
      nodes, free := [fst], [0];
      OpenOne(fst);
      for iter := 1 to numfp
        invariant |nodes| == iter && free == UpTo(iter) && fresh(nodes) && Open(nodes, free)
        invariant freeFpList == nodes[0] && freeFpList.fpn == 0 && fst == nodes[iter - 1]
        invariant iter > 1 ==> fst.next == null
      {
        var newfst := Grow(fst, nodes, free, iter);
        UpToNext(iter);
        fst := newfst;
        nodes, free := nodes + [newfst], free + [iter];
      }
      OpenIsChain(freeFpList, nodes, free);
      return 0;
    }

    /** `MEMPHY_get_freefp`: the first free frame, if any. */
    method GetFreeFp() returns (r: Option<nat>)
      requires Valid()
      modifies this`freeFpList, this`nodes, this`free
      ensures Valid()
      ensures old(free) == [] ==> r == None && free == []
      ensures old(free) != [] ==> r == Some(old(free)[0]) && free == old(free)[1..]
      ensures forall x <- nodes :: x in old(nodes)
    {
      var fp := freeFpList;
      if fp == null {
        return None;
      }
      ChainTail(fp, nodes, free);
      r := Some(fp.fpn);
      freeFpList := fp.next;
      nodes, free := nodes[1..], free[1..];
    }

    /** `MEMPHY_put_freefp`. */
    method PutFreeFp(fpn: nat)
      requires Valid()
      modifies this`freeFpList, this`nodes, this`free
      ensures Valid() && free == [fpn] + old(free)
      ensures |nodes| > 0 && fresh(nodes[0]) && nodes[1..] == old(nodes)
    {
      var fp := freeFpList;
      var newnode := new FrameNode;
      newnode.fpn := fpn;
      newnode.next := fp;
      freeFpList := newnode;
      ChainPush(newnode, nodes, free);
      nodes, free := [newnode] + nodes, [fpn] + free;
    }

    /** `alloc_pages_range`. */
    method AllocPagesRange(reqPgnum: int) returns (rc: nat, frames: FrameNode?, ghost taken: seq<FrameNode>)
      requires Valid()
      modifies this`freeFpList, this`nodes, this`free
      ensures Valid() && fresh(taken)
      ensures Chain(frames, taken, AllocRange(old(free), reqPgnum).taken)
      ensures rc == AllocRange(old(free), reqPgnum).rc && free == AllocRange(old(free), reqPgnum).free
    {
      hide Reverse, Chain;
      ChainEmpty();
      if reqPgnum <= 0 {
        return 0, null, [];
      }
      var head: FrameNode?, tail: FrameNode? := null, null;
      taken := [];
      ghost var f0, n0 := free, nodes;
      for i := 0 to reqPgnum
        invariant i <= |f0| && |taken| == i && Valid()
        invariant free == f0[i..] && forall x <- nodes :: x in n0
        invariant Chain(head, taken, f0[..i]) && fresh(taken)
        invariant tail == if i == 0 then null else taken[i - 1]
      {
        var fpn := GetFreeFp();
        if fpn == None {
          assert f0[..i] == f0;
          PutBack(head, taken, f0);
          assert free == Reverse(f0);
          return FAILED, null, [];
        }
        assert tail != null ==> tail !in n0;
        head, tail := Append(head, tail, taken, f0[..i], fpn.value);
        taken := taken + [tail];
        assert f0[..i + 1] == f0[..i] + [fpn.value];
      }
      frames := head;
      rc := 0;
    }

    /** The roll-back loop of `alloc_pages_range`. */
    method PutBack(head: FrameNode?, ghost taken: seq<FrameNode>, ghost fpns: seq<nat>)
      requires Valid() && Chain(head, taken, fpns)
      modifies this`freeFpList, this`nodes, this`free
      ensures Valid() && free == Reverse(fpns) + old(free)
      ensures forall x <- nodes :: x in old(nodes) || fresh(x)
    {
      hide Chain, Reverse;
      ChainAt(head, taken, fpns, 0);
      ReverseEmpty();
      var cur := head;
      ghost var k := 0;
      while cur != null
        invariant k <= |taken| && Valid() && Chain(head, taken, fpns)
        invariant cur == At(taken, k)
        invariant free == Reverse(fpns[..k]) + old(free)
        invariant forall x <- nodes :: x in old(nodes) || fresh(x)
        decreases |taken| - k
      {
        ChainAt(head, taken, fpns, k);
        PutFreeFp(cur.fpn);
        assert fpns[..k + 1] == fpns[..k] + [fpns[k]];
        ReverseAppend(fpns[..k], fpns[k]);
        cur := cur.next;
        k := k + 1;
      }
      assert fpns[..k] == fpns;
    }
  }
}
