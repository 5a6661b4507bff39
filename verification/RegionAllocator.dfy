/** The region allocator of src/libmem.c on its linked free list. A node is deleted in place
    by taking over its successor's contents. */
module RegionAllocator {
  import opened Regions
  import opened RegionRuns
  import opened Sequences

  /** `vm_rg_struct` as a list node. */
  class RegionNode {
    var start: nat
    var end: nat
    var next: RegionNode?
  }

  class MemoryArea {
    var freeList: RegionNode?
    var symrgtbl: array<Region>
    ghost var nodes: seq<RegionNode>
    ghost var free: seq<Region>

    ghost function At(i: nat): RegionNode?
      reads this
    {
      if i < |nodes| then nodes[i] else null
    }

    /** Node i holds the bounds of region i and links to node i + 1. */
    ghost predicate Linked(i: nat)
      requires i < |nodes| == |free|
      reads this, nodes
    {
      nodes[i].start == free[i].start && nodes[i].end == free[i].end && nodes[i].next == At(i + 1)
    }

    ghost predicate Valid()
      reads this, nodes
    {
      && |nodes| == |free| && freeList == At(0) && symrgtbl.Length == SYMBOLS
      && (forall i, j | 0 <= i < j < |nodes| :: nodes[i] != nodes[j])
      && (forall i | 0 <= i < |nodes| :: Linked(i))
    }

    ghost function Contents(): (s: State)
      requires Valid()
      reads this, nodes, symrgtbl
      ensures s.Valid()
    {
      State(free, symrgtbl[..])
    }

    /** `init_mm`: one empty region on the free list, an empty table. */
    constructor InitMm()
      ensures Valid() && free == [Region(0, 0)]
      ensures symrgtbl.Length == 30 && forall j | 0 <= j < 30 :: symrgtbl[j] == Region(0, 0)
    {
      var first := new RegionNode;
      first.start, first.end, first.next := 0, 0, null;
      freeList := first;
      symrgtbl := new Region[SYMBOLS](_ => NO_REGION);
      nodes, free := [first], [Region(0, 0)];
      new;
      assert Linked(0);
    }

    /** Node k takes over its successor's bounds and link; the successor leaves the list. */
    method CloneSuccessor(rgit: RegionNode, nextrg: RegionNode, ghost k: nat)
      requires Valid() && k + 1 < |nodes| && nodes[k] == rgit && nodes[k + 1] == nextrg
      modifies this`nodes, this`free, rgit
      ensures Valid() && free == Without(old(free), k)
      ensures forall i | 0 <= i < |nodes| :: nodes[i] in old(nodes)
    {
      hide Without;
      ghost var n0 := nodes;
      assert Linked(k) && Linked(k + 1);
      rgit.start := nextrg.start;
      rgit.end := nextrg.end;
      rgit.next := nextrg.next;
      nodes, free := Without(nodes, k + 1), Without(free, k);
      forall i | 0 <= i < |nodes| ensures Linked(i) {
        if i < k {
          assert nodes[i] == n0[i] != rgit && old(Linked(i));
        } else if i > k {
          assert nodes[i] == n0[i + 1] != rgit && old(Linked(i + 1));
        }
      }
    }

    /** Deleting node k: it becomes a copy of its successor, which leaves the list; the last
        node stays behind with no bytes. */
    method RemoveInPlace(rgit: RegionNode, ghost k: nat)
      requires Valid() && k < |nodes| && nodes[k] == rgit
      modifies this`nodes, this`free, rgit
      ensures Valid()
      ensures free == if k + 1 < |old(free)| then Without(old(free), k)
                      else old(free)[k := Region(old(free)[k].end, old(free)[k].end)]
      ensures forall i | 0 <= i < |nodes| :: nodes[i] in old(nodes)
    {
      assert Linked(k);
      var nextrg := rgit.next;
      if nextrg != null {
        CloneSuccessor(rgit, nextrg, k);
      } else {
        rgit.start := rgit.end;
        rgit.next := null;
        free := free[k := Region(free[k].end, free[k].end)];
        forall i | 0 <= i < |nodes| ensures Linked(i) {
          if i != k { assert nodes[i] != rgit && old(Linked(i)); }
        }
      }
    }

    /** Taking `size` bytes from the front of node k, which has room for them. */
    method TakeFrom(rgit: RegionNode, size: int, ghost k: nat) returns (newrg: Region)
      requires Valid() && k < |nodes| && nodes[k] == rgit && FirstFit(free, size) == k
      modifies this`nodes, this`free, rgit
      ensures Valid()
      ensures newrg == Carve(old(free), size).got && free == Carve(old(free), size).free
      ensures forall i | 0 <= i < |nodes| :: nodes[i] in old(nodes)
    {
      hide FirstFit, Sum;
      assert Linked(k);
      newrg := Region(rgit.start, Sum(rgit.start, size));
      if Sum(rgit.start, size) < rgit.end {
        rgit.start := Sum(rgit.start, size);
        free := free[k := Region(rgit.start, rgit.end)];
        forall i | 0 <= i < |nodes| ensures Linked(i) {
          if i != k { assert nodes[i] != rgit && old(Linked(i)); }
        }
      } else {
        RemoveInPlace(rgit, k);
      }
    }

    /** `get_free_vmrg_area`. With an empty list nothing is written to the result. */
    method GetFreeVmrgArea(size: int) returns (rc: int, newrg: Region)
      requires Valid()
      modifies this`nodes, this`free, nodes
      ensures Valid() && free == Carve(old(free), size).free
      ensures rc == if Carve(old(free), size).Failed() then -1 else 0
      ensures !Carve(old(free), size).Failed() ==> newrg == Carve(old(free), size).got
      ensures forall i | 0 <= i < |nodes| :: nodes[i] in old(nodes)
    {
      hide FirstFit, Sum;
      newrg := NOT_FOUND;
      var rgit := freeList;
      if rgit == null {
        FirstFitAt(free, size, 0);
        return -1, newrg;
      }
      ghost var k := 0;
      while rgit != null
        invariant Valid() && free == old(free) && nodes == old(nodes) && k <= |nodes| && rgit == At(k)
        invariant forall i | 0 <= i < k :: !Fits(free[i], size)
        decreases |nodes| - k
      {
        assert Linked(k);
        if Sum(rgit.start, size) <= rgit.end {
          FirstFitAt(free, size, k);
          newrg := TakeFrom(rgit, size, k);
          return if newrg.start == WORD - 1 then -1 else 0, newrg;
        }
        rgit := rgit.next;
        k := k + 1;
      }
      FirstFitAt(free, size, k);
      rc := if newrg.start == WORD - 1 then -1 else 0;
    }

    /** `__alloc` as far as the free list serves it: the region that first fit takes goes into
        the named slot, its start is the address, and every other slot stays. `served` is
        false where the source goes on to grow the area. */
    method AllocFromFreeList(rgid: nat, size: nat) returns (served: bool, allocAddr: nat)
      requires Valid() && rgid < 30
      modifies this`nodes, this`free, nodes, symrgtbl
      ensures Valid() && Contents() == Alloc(old(Contents()), rgid, size)
      ensures served <==> !Carve(old(free), AsInt(size)).Failed()
      ensures served ==> symrgtbl[rgid] == Carve(old(free), AsInt(size)).got && allocAddr == symrgtbl[rgid].start
      ensures forall j | 0 <= j < 30 && (j != rgid || !served) :: symrgtbl[j] == old(symrgtbl[j])
      ensures free == Carve(old(free), AsInt(size)).free
      ensures forall i | 0 <= i < |nodes| :: nodes[i] in old(nodes)
    {
      hide Carve, AsInt;
      var rc, rgnode := GetFreeVmrgArea(AsInt(size));
      if rc == 0 {
        symrgtbl[rgid] := rgnode;
        assert symrgtbl[..] == old(symrgtbl[..])[rgid := rgnode];
        return true, rgnode.start;
      }
      return false, 0;
    }

    /** `__free`: -1 and no change for an index outside the table or a slot that holds (0, 0);
        otherwise the slot is cleared, every other slot stays, and the region comes first on
        the free list unless it is empty. */
    method FreeRegion(rgid: int) returns (rc: int)
      requires Valid() && rgid != 30
      modifies this`freeList, this`nodes, this`free, symrgtbl
      ensures Valid() && Contents() == Free(old(Contents()), rgid)
      ensures rc == if 0 <= rgid < 30 && old(symrgtbl[..])[rgid] != Region(0, 0) then 0 else -1
      ensures rc == -1 ==> free == old(free) && symrgtbl[..] == old(symrgtbl[..])
      ensures rc == 0 ==> symrgtbl[rgid] == Region(0, 0)
      ensures forall j | 0 <= j < 30 && j != rgid :: symrgtbl[j] == old(symrgtbl[j])
      ensures rc == 0 ==> var r := old(symrgtbl[..])[rgid];
                free == if r.start < r.end then [r] + old(free) else old(free)
      ensures forall i | 0 <= i < |nodes| :: nodes[i] in old(nodes) || fresh(nodes[i])
    {
      if rgid < 0 || rgid > SYMBOLS {
        return -1;
      }
      var rgnode := symrgtbl[rgid];
      if rgnode == NO_REGION {
        return -1;
      }
      symrgtbl[rgid] := NO_REGION;
      var node := new RegionNode;
      node.start := rgnode.start;
      node.end := rgnode.end;
      node.next := null;
      var enlisted := EnlistFreeRegion(node);
      return 0;
    }

    /** `enlist_vm_freerg_list`: an empty region is refused. */
    method EnlistFreeRegion(node: RegionNode) returns (rc: int)
      requires Valid() && node !in nodes && node.next == null
      modifies this`freeList, this`nodes, this`free, node
      ensures Valid()
      ensures free == if node.start >= node.end then old(free) else [Region(node.start, node.end)] + old(free)
      ensures node.start == old(node.start) && node.end == old(node.end)
      ensures rc == if node.start >= node.end then -1 else 0
      ensures forall i | 0 <= i < |nodes| :: nodes[i] in old(nodes) || nodes[i] == node
    {
      if node.start >= node.end {
        return -1;
      }
      if freeList != null {
        node.next := freeList;
      }
      freeList := node;
      ghost var n0 := nodes;
      nodes, free := [node] + nodes, [Region(node.start, node.end)] + free;
      forall i | 0 <= i < |nodes| ensures Linked(i) {
        if i > 0 { assert nodes[i] == n0[i - 1] && old(Linked(i - 1)); }
      }
      return 0;
    }
  }

  /** Any legal sequence of allocations and releases on the linked list is the run on values. */
  method Perform(area: MemoryArea, ops: seq<Op>)
    requires area.Valid() && LegalRun(area.Contents(), ops)
    modifies area`freeList, area`nodes, area`free, area.nodes, area.symrgtbl
    ensures area.Valid() && area.Contents() == Run(old(area.Contents()), ops)
  {
    hide MemoryArea.Valid, MemoryArea.Contents, Alloc, Free, NoWrap;
    ghost var s, n0 := area.Contents(), area.nodes;
    assert ops[0..] == ops;
    for i := 0 to |ops|
      invariant area.Valid() && area.symrgtbl == old(area.symrgtbl)
      invariant forall k | 0 <= k < |area.nodes| :: area.nodes[k] in n0 || fresh(area.nodes[k])
      invariant LegalRun(area.Contents(), ops[i..]) && Run(area.Contents(), ops[i..]) == Run(s, ops)
    {
      assert ops[i..][0] == ops[i] && ops[i..][1..] == ops[i + 1..];
      match ops[i] {
        case Allocate(rgid, size) => var served, allocAddr := area.AllocFromFreeList(rgid, size);
        case Release(rgid) => var rc := area.FreeRegion(rgid);
      }
    }
  }
}
