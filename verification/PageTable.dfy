/** The five-level page table of src/mm64.c: a tree of 512-word tables, allocated on the
    way down. A word holds a number, or the address of another table.
    `Entry` is the flat view: the entry stored under an index path, 0 where no table is. */
module PageTable {
  import opened PageEntry
  import opened PageIndex
  import Bits

  datatype Word = Num(n: nat) | Ptr(table: array<Word>)

  /** The page entries of an address space, by index path. */
  type Flat = imap<seq<nat>, nat>

  /** Every table of a tree, by the index path that leads to it. */
  type Tables = map<seq<nat>, array<Word>>

  /** One table per path, every table below its parent. */
  ghost predicate IsTree(root: array<Word>, t: Tables) {
    && [] in t && t[[]] == root
    && (forall p <- t :: |p| <= 4 && t[p].Length == TABLE_SIZE)
    && (forall p, q | p in t && q in t && t[p] == t[q] :: p == q)
    && (forall p <- t | p != [] :: p[..|p| - 1] in t)
  }

  /** A word of an inner table is the address of the table below it, or 0. */
  ghost predicate LinkedIn(t: Tables, p: seq<nat>, i: nat)
    requires p in t && t[p].Length == TABLE_SIZE && i < TABLE_SIZE
    reads t.Values
  {
    if |p| == 4 then t[p][i].Num?
    else t[p][i] == if p + [i] in t then Ptr(t[p + [i]]) else Num(0)
  }

  ghost predicate AllLinked(root: array<Word>, t: Tables)
    requires IsTree(root, t)
    reads t.Values
  {
    forall p, i | p in t && 0 <= i < TABLE_SIZE :: LinkedIn(t, p, i)
  }

  lemma TreeAdd(root: array<Word>, t: Tables, p: seq<nat>, i: nat, next: array<Word>)
    requires IsTree(root, t) && p in t && |p| < 4 && p + [i] !in t
    requires next.Length == TABLE_SIZE && next !in t.Values
    ensures IsTree(root, t[p + [i] := next])
  {
    assert (p + [i])[..|p|] == p;
  }

  lemma PathEnds(p: seq<nat>, i: nat, q: seq<nat>, j: nat)
    ensures p + [i] == q + [j] <==> p == q && i == j
  {
    assert (p + [i])[..|p|] == p && (p + [i])[|p|] == i;
    assert (q + [j])[..|q|] == q && (q + [j])[|q|] == j;
  }

  lemma PathSteps(path: seq<nat>)
    requires |path| == 5
    ensures [] + [path[0]] + [path[1]] == path[..2] && path[..2] + [path[2]] + [path[3]] == path[..4]
  {
  }

  lemma SamePath(q: seq<nat>, path: seq<nat>)
    requires ValidPath(q) && ValidPath(path)
    ensures |q| == |path| == 5 && (q == path <==> q[..4] == path[..4] && q[4] == path[4])
  {
    assert q == q[..4] + [q[4]] && path == path[..4] + [path[4]];
  }

  lemma LeafPath(path: seq<nat>)
    requires ValidPath(path)
    ensures |path| == 5 && |path[..4]| == 4 && path[4] < TABLE_SIZE
  {
  }

  /** Nothing is below a path that has no table. */
  lemma NothingBelow(root: array<Word>, t: Tables, p: seq<nat>, j: nat)
    requires IsTree(root, t) && p !in t
    ensures p + [j] !in t
  {
    assert (p + [j])[..|p|] == p;
  }

  /** One word of an inner table now leads to a new zeroed table. */
  lemma LinkedAdd(root: array<Word>, t: Tables, p: seq<nat>, i: nat, next: array<Word>, q: seq<nat>, j: nat)
    requires IsTree(root, t) && p in t && |p| < 4 && i < TABLE_SIZE && p + [i] !in t
    requires next.Length == TABLE_SIZE && next !in t.Values && q in t[p + [i] := next] && j < TABLE_SIZE
    requires t[p][i] == Ptr(next) && forall k | 0 <= k < TABLE_SIZE :: next[k] == Num(0)
    requires q in t && (q != p || j != i) ==> LinkedIn(t, q, j)
    ensures t[p + [i] := next][q].Length == TABLE_SIZE && LinkedIn(t[p + [i] := next], q, j)
  {
    PathEnds(p, i, q, j);
    if q == p + [i] {
      NothingBelow(root, t, q, j);
      assert |q + [j]| == |p + [i]| + 1;
    }
  }

  lemma AllLinkedAdd(root: array<Word>, t: Tables, p: seq<nat>, i: nat, next: array<Word>)
    requires IsTree(root, t) && p in t && |p| < 4 && i < TABLE_SIZE && p + [i] !in t
    requires next.Length == TABLE_SIZE && next !in t.Values
    requires t[p][i] == Ptr(next) && forall k | 0 <= k < TABLE_SIZE :: next[k] == Num(0)
    requires forall q, j | q in t && 0 <= j < TABLE_SIZE && (q != p || j != i) :: LinkedIn(t, q, j)
    ensures IsTree(root, t[p + [i] := next]) && AllLinked(root, t[p + [i] := next])
  {
    TreeAdd(root, t, p, i, next);
    hide IsTree, LinkedIn;
    var t' := t[p + [i] := next];
    forall q, j | q in t' && 0 <= j < TABLE_SIZE ensures t'[q].Length == TABLE_SIZE && LinkedIn(t', q, j) {
      LinkedAdd(root, t, p, i, next, q, j);
    }
  }

  /** The entry stored under an index path, 0 where no table is. */
  ghost function EntryIn(root: array<Word>, t: Tables, path: seq<nat>): nat
    requires IsTree(root, t) && ValidPath(path)
    reads t.Values
  {
    if path[..4] in t && t[path[..4]][path[4]].Num? then t[path[..4]][path[4]].n else 0
  }

  lemma EntryAdd(root: array<Word>, t: Tables, q: seq<nat>, next: array<Word>, path: seq<nat>)
    requires IsTree(root, t) && IsTree(root, t[q := next]) && ValidPath(path) && q !in t
    requires forall k | 0 <= k < next.Length :: next[k] == Num(0)
    ensures EntryIn(root, t[q := next], path) == EntryIn(root, t, path)
  {
  }

  class AddressSpace {
    var pgd: array<Word>
    // Only ever compared with NULL, by PteGetEntry.
    var p4d: array?<Word>
    var pud: array?<Word>
    var pmd: array?<Word>
    var pt: array?<Word>
    ghost var tables: Tables

    /** The tables form a tree, and its words are its links. */
    ghost predicate Valid()
      reads this, tables.Values
    {
      IsTree(pgd, tables) && AllLinked(pgd, tables)
    }

    ghost function Entry(path: seq<nat>): nat
      requires Valid() && ValidPath(path)
      reads this, tables.Values
    {
      EntryIn(pgd, tables, path)
    }

    ghost function Entries(): (flat: Flat)
      requires Valid()
      reads this, tables.Values
      ensures forall path :: path in flat <==> ValidPath(path)
      ensures forall path | ValidPath(path) :: flat[path] == Entry(path)
    {
      imap path | ValidPath(path) :: Entry(path)
    }

    /** `init_mm`: four zeroed tables, and no fifth. */
    constructor InitMm()
      ensures Valid() && fresh(tables.Values)
      ensures forall path | ValidPath(path) :: Entries()[path] == 0
      ensures p4d != null && pud != null && pmd != null && pt == null
    {
      pgd := new Word[TABLE_SIZE](_ => Num(0));
      p4d := new Word[TABLE_SIZE](_ => Num(0));
      pud := new Word[TABLE_SIZE](_ => Num(0));
      pmd := new Word[TABLE_SIZE](_ => Num(0));
      pt := null;
      tables := map[[] := pgd];
    }

    /** Tables are only ever added. */
    twostate predicate Grows()
      reads this
    {
      && (forall p <- old(tables) :: p in tables && tables[p] == old(tables)[p])
      && (forall p <- tables | p !in old(tables) :: fresh(tables[p]))
    }

    /** A new zeroed table whose address goes into word i of a table. */
    method NewTable(table: array<Word>, i: nat, ghost p: seq<nat>) returns (next: array<Word>)
      requires Valid() && p in tables && |p| < 4 && tables[p] == table && i < TABLE_SIZE
      modifies table
      ensures fresh(next) && next.Length == TABLE_SIZE && forall k | 0 <= k < TABLE_SIZE :: next[k] == Num(0)
      ensures table[i] == Ptr(next) && next !in tables.Values
      ensures forall q, j | q in tables && 0 <= j < TABLE_SIZE && (q != p || j != i) :: LinkedIn(tables, q, j)
      ensures forall path | ValidPath(path) :: EntryIn(pgd, tables, path) == old(EntryIn(pgd, tables, path))
    {
      hide ValidPath;
      next := new Word[TABLE_SIZE](_ => Num(0));
      table[i] := Ptr(next);
      forall q, j | q in tables && 0 <= j < TABLE_SIZE && (q != p || j != i) ensures LinkedIn(tables, q, j) {
        assert old(LinkedIn(tables, q, j));
      }
      forall path | ValidPath(path) ensures EntryIn(pgd, tables, path) == old(EntryIn(pgd, tables, path)) {
        LeafPath(path);
        assert path[..4] in tables ==> tables[path[..4]] != table;
      }
    }

    /** A new table joins the tree: it is still a tree, and no entry changes. */
    method AddTable(table: array<Word>, i: nat, ghost p: seq<nat>) returns (next: array<Word>)
      requires Valid() && p in tables && |p| < 4 && tables[p] == table && i < TABLE_SIZE
      requires p + [i] !in tables
      modifies this`tables, table
      ensures Valid() && fresh(next)
      ensures tables == old(tables)[p + [i] := next]
      ensures forall path | ValidPath(path) :: Entry(path) == old(Entry(path))
    {
      hide ValidPath, LinkedIn, EntryIn;
      ghost var t0 := tables;
      next := NewTable(table, i, p);
      tables := tables[p + [i] := next];
      AllLinkedAdd(pgd, t0, p, i, next);
      hide IsTree, AllLinked;
      forall path | ValidPath(path) ensures EntryIn(pgd, tables, path) == old(EntryIn(pgd, tables, path)) {
        EntryAdd(pgd, t0, p + [i], next, path);
      }
    }

    /** One level of the walk: follow word i of a table, allocating the next table if the
        word is zero. */
    method Descend(table: array<Word>, i: nat, ghost p: seq<nat>) returns (next: array<Word>)
      requires Valid() && p in tables && |p| < 4 && tables[p] == table && i < TABLE_SIZE
      modifies this`tables, table
      ensures Valid() && Entries() == old(Entries())
      ensures p + [i] in tables && tables[p + [i]] == next
      ensures Grows()
    {
      assert LinkedIn(tables, p, i);
      if table[i] == Num(0) {
        next := AddTable(table, i, p);
      } else {
        next := table[i].table;
      }
    }

    method DescendTwice(table: array<Word>, i: nat, j: nat, ghost p: seq<nat>) returns (next: array<Word>)
      requires Valid() && p in tables && |p| < 3 && tables[p] == table && i < TABLE_SIZE && j < TABLE_SIZE
      modifies this`tables, tables.Values
      ensures Valid() && Entries() == old(Entries())
      ensures p + [i] + [j] in tables && tables[p + [i] + [j]] == next
      ensures Grows()
    {
      hide Valid, Entries, Entry;
      var below := Descend(table, i, p);
      next := Descend(below, j, p + [i]);
    }

    /** The walk to the last table of a page number's path. */
    method Walk(path: seq<nat>) returns (leaf: array<Word>)
      requires Valid() && ValidPath(path)
      modifies this`tables, tables.Values
      ensures Valid() && Entries() == old(Entries())
      ensures Grows()
      ensures path[..4] in tables && tables[path[..4]] == leaf
    {
      assert [] in tables && tables[[]] == pgd;
      hide Valid, Entries, Entry;
      PathSteps(path);
      var pudTable := DescendTwice(pgd, path[0], path[1], []);
      leaf := DescendTwice(pudTable, path[2], path[3], path[..2]);
    }

    /** The load through `pte`. */
    method Load(leaf: array<Word>, ghost path: seq<nat>, i: nat) returns (v: nat)
      requires Valid() && ValidPath(path) && i == path[4]
      requires path[..4] in tables && tables[path[..4]] == leaf
      ensures v == Entries()[path]
    {
      assert LinkedIn(tables, path[..4], path[4]);
      v := leaf[i].n;
    }

    /** The store through `pte`: the one word of the last table. */
    method StoreWord(leaf: array<Word>, ghost p: seq<nat>, i: nat, v: nat)
      requires Valid() && p in tables && |p| == 4 && tables[p] == leaf && i < TABLE_SIZE
      modifies leaf
      ensures AllLinked(pgd, tables) && leaf[i] == Num(v)
      ensures forall q, j | q in tables && 0 <= j < TABLE_SIZE && (q != p || j != i) ::
                tables[q][j] == old(tables[q][j])
    {
      assert forall q <- tables :: tables[q].Length == TABLE_SIZE && (q != p ==> tables[q] != leaf);
      leaf[i] := Num(v);
      hide IsTree;
      forall q, j | q in tables && 0 <= j < TABLE_SIZE ensures LinkedIn(tables, q, j) {
        assert old(LinkedIn(tables, q, j));
      }
    }

    /** The flat map changes at one path. */
    method Store(leaf: array<Word>, ghost path: seq<nat>, i: nat, v: nat)
      requires Valid() && ValidPath(path) && i == path[4]
      requires path[..4] in tables && tables[path[..4]] == leaf
      modifies leaf
      ensures Valid() && Entries() == old(Entries())[path := v]
    {
      LeafPath(path);
      hide ValidPath, IsTree, AllLinked;
      StoreWord(leaf, path[..4], i, v);
      forall q | ValidPath(q) ensures EntryIn(pgd, tables, q) == if q == path then v else old(EntryIn(pgd, tables, q)) {
        LeafPath(q);
        SamePath(q, path);
      }
    }

    /** `pte_set_entry`: the page's entry becomes the value and no other entry changes. */
    method PteSetEntry(pgn: nat, pteVal: nat)
      requires Valid()
      modifies this`tables, tables.Values
      ensures Valid() && Entries() == old(Entries())[Path(pgn) := pteVal]
      ensures Grows()
    {
      hide Path;
      var path := Path(pgn);
      var leaf := Walk(path);
      Store(leaf, path, path[4], pteVal);
    }

    /** `pte_set_fpn`: the page's entry becomes a frame setting and no other entry changes. */
    method PteSetFpn(pgn: nat, fpn: nat)
      requires Valid()
      modifies this`tables, tables.Values
      ensures Valid()
      ensures Entries() == old(Entries())[Path(pgn) := WithFrame(old(Entries()[Path(pgn)]), fpn)]
      ensures Grows()
    {
      hide Path, WithFrame, Entry, Entries, Valid;
      var path := Path(pgn);
      var leaf := Walk(path);
      var v := Load(leaf, path, path[4]);
      Store(leaf, path, path[4], WithFrame(v, fpn));
    }

    /** `pte_set_swap`: the page's entry becomes a swap setting and no other entry changes. */
    method PteSetSwap(pgn: nat, swptyp: int, swpoff: nat)
      requires Valid()
      modifies this`tables, tables.Values
      ensures Valid()
      ensures Entries() ==
              old(Entries())[Path(pgn) := WithSwap(old(Entries()[Path(pgn)]), AsUnsigned(swptyp), swpoff)]
      ensures Grows()
    {
      hide Path, WithSwap, Entry, Entries, Valid;
      var path := Path(pgn);
      var leaf := Walk(path);
      var v := Load(leaf, path, path[4]);
      Store(leaf, path, path[4], WithSwap(v, AsUnsigned(swptyp), swpoff));
    }

    /** All five table pointers are set. */
    predicate Complete()
      reads this
    {
      p4d != null && pud != null && pmd != null && pt != null
    }

    /** `pte_get_entry` once the address space is there: the low 32 bits of the page's entry
        when all five table pointers are set, otherwise 0. The walk may allocate tables but
        changes no entry. */
    method ReadEntry(pgn: nat) returns (pte: nat)
      requires Valid()
      modifies this`tables, tables.Values
      ensures Valid() && Entries() == old(Entries()) && Grows()
      ensures pte == if Complete() then Bits.Low(Entries()[Path(pgn)], 32) else 0
    {
      hide Path, Entry, Entries, Valid;
      if p4d == null || pud == null || pmd == null || pt == null {
        return 0;
      }
      var path := Path(pgn);
      var leaf := Walk(path);
      var v := Load(leaf, path, path[4]);
      pte := Bits.Low(v, 32);
    }

    /** `pte_get_entry`. The address space is NULL if the caller, its kernel or the kernel's
        address space is. */
    static method PteGetEntry(mm: AddressSpace?, pgn: nat) returns (pte: nat)
      requires mm != null ==> mm.Valid()
      modifies if mm == null then {} else mm.tables.Values, if mm == null then {} else {mm}
      ensures mm == null ==> pte == 0
      ensures mm != null ==> mm.Valid() && mm.Entries() == old(mm.Entries()) && mm.Complete() == old(mm.Complete())
      ensures mm != null ==> pte == if mm.Complete() then Bits.Low(mm.Entries()[Path(pgn)], 32) else 0
    {
      hide Path, AddressSpace.Entry, AddressSpace.Entries, AddressSpace.Valid;
      if mm == null {
        return 0;
      }
      pte := mm.ReadEntry(pgn);
    }
  }

  /** What is set is read back exactly when all five pointers are set, or when it is 0 in
      its low half anyway. */
  method SetThenGet(mm: AddressSpace, pgn: nat, pteVal: nat) returns (pte: nat)
    requires mm.Valid()
    modifies mm, mm.tables.Values
    ensures mm.Valid()
    ensures pte == Bits.Low(pteVal, 32) <==>
            (old(mm.p4d) != null && old(mm.pud) != null && old(mm.pmd) != null && old(mm.pt) != null)
            || Bits.Low(pteVal, 32) == 0
  {
    hide Path, Bits.Low, AddressSpace.Valid, AddressSpace.Entry, AddressSpace.Entries;
    mm.PteSetEntry(pgn, pteVal);
    pte := AddressSpace.PteGetEntry(mm, pgn);
  }

  /** In a fresh address space the fifth pointer is NULL, so a setting cannot be read back. */
  method FreshReadsZero(pgn: nat, pteVal: nat) returns (mm: AddressSpace, pte: nat)
    ensures fresh(mm) && mm.Valid() && mm.Entries()[Path(pgn)] == pteVal && pte == 0
  {
    hide Path, AddressSpace.Valid, AddressSpace.Entry;
    mm := new AddressSpace.InitMm();
    mm.PteSetEntry(pgn, pteVal);
    pte := AddressSpace.PteGetEntry(mm, pgn);
  }
}
