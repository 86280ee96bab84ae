/**
  Physical pages and Sv39 page tables, as kernel/vm.c and kernel/kalloc.c use them.

  A page is named by its physical page number, never 0.  `tabs` holds the pages
  that are page tables, 512 entries each; `data` the pages that hold bytes.  A
  virtual page v is walked through three tables: PX(2), PX(1) and PX(0) of an
  address are v / 512 / 512, v / 512 % 512 and v % 512 of its page number v.

  `Look(m, r, l, x)` is the table at level l that covers the virtual pages whose
  number divided by 512^(l+1) is x, in the tree with root r; 0 if there is none.
  `Entry(m, r, v)` is the leaf PTE of page v; 0 if there is none.  `owner` is a
  ghost inverse: what each page of the pool is used for.
 */
module Vm {
  import opened Bits
  import opened Fold

  // tags of folded definitions
  const LOOK := 31
  const ENTRY := 32
  const PAGES := 33
  const TREE := 34
  const LEAVES := 35

  const PGSIZE: nat := 4096
  const PTES: nat := 512
  const MAXV: nat := 67108864          // MAXVA / PGSIZE, 1 << 26
  const VPNS: nat := 134217728         // 512 * 512 * 512
  const TRAMPOLINE: nat := MAXV - 1    // as virtual page numbers
  const TRAPFRAME: nat := MAXV - 2

  // ------------------------------------------------------------------- PTEs

  /** PA2PTE(pa) | flags */
  function Pte(ppn: nat, flags: nat): nat { ppn * 1024 + flags }
  function Ppn(e: nat): nat { e / 1024 }
  function Flags(e: nat): nat { e % 1024 }

  /** PTE_V is bit 0, PTE_R, PTE_W and PTE_X are bits 1 to 3, PTE_U is bit 4. */
  predicate IsValid(e: nat) { Flags(e) % 2 == 1 }
  predicate IsLeaf(e: nat) { Flags(e) / 2 % 8 != 0 }
  predicate IsWritable(e: nat) { Flags(e) / 4 % 2 == 1 }
  predicate IsUser(e: nat) { Flags(e) / 16 % 2 == 1 }

  lemma PteParts(ppn: nat, flags: nat)
    requires flags < 1024
    ensures Ppn(Pte(ppn, flags)) == ppn && Flags(Pte(ppn, flags)) == flags == Flags(flags)
  {
  }

  // ------------------------------------------------------------------ memory

  datatype Owner =
    | Free
    | Held                                   // allocated, in the hands of the running code
    | Table(root: nat, level: nat, x: nat)
    | Leaf(root: nat, v: nat)

  datatype Mem = Mem(tabs: map<nat, seq<nat>>, data: map<nat, seq<Byte>>, free: seq<nat>, owner: map<nat, Owner>)

  function Raw(m: Mem, p: nat, k: nat): nat {
    if p in m.tabs && k < |m.tabs[p]| then m.tabs[p][k] else 0
  }

  /** The page that a non-leaf entry points to. */
  function Child(m: Mem, p: nat, k: nat): nat {
    if IsValid(Raw(m, p, k)) then Ppn(Raw(m, p, k)) else 0
  }

  function Span(l: nat): nat { if l == 2 then 1 else if l == 1 then 512 else 262144 }

  function LookDef(m: Mem, r: nat, l: nat, x: nat): nat {
    if l == 2 then (if x == 0 then r else 0)
    else if l == 1 then Child(m, r, x)
    else if l == 0 then Child(m, Child(m, r, x / 512), x % 512)
    else 0
  }

  ghost predicate IsLook(m: Mem, r: nat, l: nat, x: nat, p: nat) {
    forall u {:trigger Unfold(LOOK, u)} :: Unfold(LOOK, u) ==> p == LookDef(m, r, l, x)
  }

  ghost function Look(m: Mem, r: nat, l: nat, x: nat): nat {
    assert IsLook(m, r, l, x, LookDef(m, r, l, x));
    var p: nat :| IsLook(m, r, l, x, p);
    p
  }

  lemma {:induction false} LookIs(m: Mem, r: nat, l: nat, x: nat)
    ensures Look(m, r, l, x) == LookDef(m, r, l, x)
  {
    assert IsLook(m, r, l, x, LookDef(m, r, l, x));
    assert Unfold(LOOK, 0);
  }

  lemma {:induction false} LookDown(m: Mem, r: nat, x: nat)
    ensures Look(m, r, 2, 0) == r
    ensures Look(m, r, 1, x) == Child(m, r, x)
    ensures Look(m, r, 0, x) == Child(m, Look(m, r, 1, x / 512), x % 512)
  {
    LookIs(m, r, 2, 0);
    LookIs(m, r, 1, x);
    LookIs(m, r, 0, x);
    LookIs(m, r, 1, x / 512);
  }

  ghost predicate IsEntry(m: Mem, r: nat, v: nat, e: nat) {
    forall u {:trigger Unfold(ENTRY, u)} :: Unfold(ENTRY, u) ==> e == Raw(m, Look(m, r, 0, v / 512), v % 512)
  }

  ghost function Entry(m: Mem, r: nat, v: nat): nat {
    assert IsEntry(m, r, v, Raw(m, Look(m, r, 0, v / 512), v % 512));
    var e: nat :| IsEntry(m, r, v, e);
    e
  }

  lemma {:induction false} EntryIs(m: Mem, r: nat, v: nat)
    ensures Entry(m, r, v) == Raw(m, Look(m, r, 0, v / 512), v % 512)
  {
    assert IsEntry(m, r, v, Raw(m, Look(m, r, 0, v / 512), v % 512));
    assert Unfold(ENTRY, 0);
  }

  // --------------------------------------------------------------- invariants

  predicate Root(m: Mem, r: nat) { r in m.owner && m.owner[r] == Table(r, 2, 0) }

  /** Every page of the pool is in exactly one place, and the free list has each free page once. */
  ghost predicate Pages(m: Mem) {
    forall u {:trigger Unfold(PAGES, u)} :: Unfold(PAGES, u) ==>
      && 0 !in m.owner
      && (forall p :: p in m.tabs <==> p in m.owner && m.owner[p].Table?)
      && (forall p :: p in m.data <==> p in m.owner && (m.owner[p].Leaf? || m.owner[p].Held?))
      && (forall p :: p in m.free <==> p in m.owner && m.owner[p].Free?)
      && (forall i, j :: 0 <= i < j < |m.free| ==> m.free[i] != m.free[j])
      && (forall p :: p in m.tabs ==> |m.tabs[p]| == PTES)
      && (forall p :: p in m.data ==> |m.data[p]| == PGSIZE)
  }

  /** The tables of each tree are exactly the pages owned as its tables. */
  ghost predicate Tree(m: Mem) {
    forall u {:trigger Unfold(TREE, u)} :: Unfold(TREE, u) ==>
      && (forall p :: p in m.owner && m.owner[p].Table? ==>
            var o := m.owner[p];
            o.level <= 2 && o.x < Span(o.level) && Root(m, o.root) && Look(m, o.root, o.level, o.x) == p)
      && (forall r, l, x :: Root(m, r) && 0 <= l <= 2 && 0 <= x < Span(l) && Look(m, r, l, x) != 0 ==>
            Look(m, r, l, x) in m.owner && m.owner[Look(m, r, l, x)] == Table(r, l, x))
      && (forall p, k :: p in m.owner && m.owner[p].Table? && m.owner[p].level > 0 && IsValid(Raw(m, p, k)) ==>
            !IsLeaf(Raw(m, p, k)) && Ppn(Raw(m, p, k)) != 0)
  }

  /** Entries that are not valid are 0; valid ones are leaves, lie below MAXVA, and below the
      trapframe own their page. */
  ghost predicate Leaves(m: Mem) {
    forall u {:trigger Unfold(LEAVES, u)} :: Unfold(LEAVES, u) ==>
      && (forall p :: p in m.owner && m.owner[p].Leaf? ==>
            var o := m.owner[p];
            o.v < TRAPFRAME && Root(m, o.root) && IsValid(Entry(m, o.root, o.v)) && Ppn(Entry(m, o.root, o.v)) == p)
      && (forall r, v :: Root(m, r) && 0 <= v < VPNS && !IsValid(Entry(m, r, v)) ==> Entry(m, r, v) == 0)
      && (forall r, v :: Root(m, r) && 0 <= v < VPNS && IsValid(Entry(m, r, v)) ==>
            && v < MAXV && IsLeaf(Entry(m, r, v))
            && (v < TRAPFRAME ==>
                  Ppn(Entry(m, r, v)) in m.owner && m.owner[Ppn(Entry(m, r, v))] == Leaf(r, v)))
  }

  ghost predicate Sane(m: Mem) { Pages(m) && Tree(m) && Leaves(m) }

  // ---------------------------------------------------- reading the invariants

  lemma {:induction false} LookOwned(m: Mem, r: nat, l: nat, x: nat)
    requires Tree(m) && Root(m, r) && l <= 2 && x < Span(l) && Look(m, r, l, x) != 0
    ensures Look(m, r, l, x) in m.owner && m.owner[Look(m, r, l, x)] == Table(r, l, x)
  {
    assert Unfold(TREE, 0);
  }

  lemma {:induction false} TableLooked(m: Mem, p: nat)
    requires Tree(m) && p in m.owner && m.owner[p].Table?
    ensures var o := m.owner[p];
            o.level <= 2 && o.x < Span(o.level) && Root(m, o.root) && Look(m, o.root, o.level, o.x) == p
  {
    assert Unfold(TREE, 0);
  }

  lemma {:induction false} DownEntry(m: Mem, p: nat, k: nat)
    requires Tree(m) && p in m.owner && m.owner[p].Table? && m.owner[p].level > 0 && IsValid(Raw(m, p, k))
    ensures !IsLeaf(Raw(m, p, k)) && Child(m, p, k) != 0
  {
    assert Unfold(TREE, 0);
  }

  lemma {:induction false} InvalidIsZero(m: Mem, r: nat, v: nat)
    requires Leaves(m) && Root(m, r) && v < VPNS
    ensures !IsValid(Entry(m, r, v)) ==> Entry(m, r, v) == 0
  {
    assert Unfold(LEAVES, 0);
  }

  lemma {:induction false} LeafMapped(m: Mem, p: nat)
    requires Leaves(m) && p in m.owner && m.owner[p].Leaf?
    ensures var o := m.owner[p];
            o.v < TRAPFRAME && Root(m, o.root) && IsValid(Entry(m, o.root, o.v)) && Ppn(Entry(m, o.root, o.v)) == p
  {
    assert Unfold(LEAVES, 0);
  }

  lemma {:induction false} NoPageZero(m: Mem)
    requires Pages(m)
    ensures 0 !in m.owner && 0 !in m.tabs && forall k :: Raw(m, 0, k) == 0 && Child(m, 0, k) == 0
  {
    assert Unfold(PAGES, 0);
  }

  lemma {:induction false} TableSize(m: Mem, p: nat)
    requires Pages(m) && p in m.owner
    ensures m.owner[p].Table? <==> p in m.tabs
    ensures p in m.tabs ==> |m.tabs[p]| == PTES && p != 0
  {
    assert Unfold(PAGES, 0);
  }

  lemma {:induction false} Split512(a: nat, b: nat)
    requires b < 512
    ensures (a * 512 + b) / 512 == a && (a * 512 + b) % 512 == b
  {
  }

  lemma {:induction false} SpanDown(x: nat)
    ensures x < Span(0) ==> x / 512 < Span(1)
    ensures forall v :: 0 <= v < VPNS ==> v / 512 < Span(0)
  {
  }

  // --------------------------------------------------- storing a table entry

  /** Storing e as entry k of the table in page t. */
  function Store(m: Mem, t: nat, k: nat, e: nat): (m': Mem)
    requires t in m.tabs && k < |m.tabs[t]|
  {
    var table: seq<nat> := m.tabs[t][k := e];
    m.(tabs := m.tabs[t := table])
  }

  lemma {:induction false} StoreRaw(m: Mem, t: nat, k: nat, e: nat, p: nat, j: nat)
    requires t in m.tabs && k < |m.tabs[t]|
    ensures Raw(Store(m, t, k, e), p, j) == if p == t && j == k then e else Raw(m, p, j)
  {
  }

  /** A store in a level-0 table changes no table pointer. */
  lemma {:induction false} LeafStoreLook(m: Mem, t: nat, k: nat, e: nat, r: nat, l: nat, x: nat)
    requires Pages(m) && Tree(m) && t in m.tabs && k < |m.tabs[t]| && t in m.owner && m.owner[t].Table?
             && m.owner[t].level == 0
    requires Root(m, r) && l <= 2 && x < Span(l)
    ensures Look(Store(m, t, k, e), r, l, x) == Look(m, r, l, x)
  {
    var m' := Store(m, t, k, e);
    LookIs(m, r, l, x);
    LookIs(m', r, l, x);
    if l == 1 {
      StoreRaw(m, t, k, e, r, x);
    } else if l == 0 {
      SpanDown(x);
      StoreRaw(m, t, k, e, r, x / 512);
      LookDown(m, r, x / 512);
      var q := Look(m, r, 1, x / 512);
      if q != 0 {
        LookOwned(m, r, 1, x / 512);
      } else {
        NoPageZero(m);
      }
      StoreRaw(m, t, k, e, q, x % 512);
    }
  }

  /** ... and changes exactly one leaf entry of one tree. */
  lemma {:induction false} LeafStoreEntry(m: Mem, t: nat, k: nat, e: nat, r: nat, v: nat)
    requires Pages(m) && Tree(m) && t in m.tabs && k < |m.tabs[t]| && t in m.owner && m.owner[t].Table?
             && m.owner[t].level == 0
    requires Root(m, r) && v < VPNS
    ensures Entry(Store(m, t, k, e), r, v) ==
            if r == m.owner[t].root && v == m.owner[t].x * 512 + k then e else Entry(m, r, v)
  {
    var m' := Store(m, t, k, e);
    EntryIs(m, r, v);
    EntryIs(m', r, v);
    SpanDown(0);
    LeafStoreLook(m, t, k, e, r, 0, v / 512);
    var q := Look(m, r, 0, v / 512);
    StoreRaw(m, t, k, e, q, v % 512);
    TableLooked(m, t);
    TableSize(m, t);
    if q != 0 {
      LookOwned(m, r, 0, v / 512);
    }
    Split512(m.owner[t].x, k);
  }

  // --------------------------------------------------------- adding a table

  function ZeroTable(): (t: seq<nat>)
    ensures |t| == PTES && forall k :: 0 <= k < PTES ==> t[k] == 0
  {
    Zeroes(PTES)
  }

  function Zeroes(n: nat): (t: seq<nat>)
    ensures |t| == n && forall k :: 0 <= k < n ==> t[k] == 0
  {
    if n == 0 then [] else Zeroes(n - 1) + [0]
  }

  /** walk(alloc): the held page q becomes an empty table below entry k of table t. */
  function AddTable(m: Mem, t: nat, k: nat, q: nat): (m': Mem)
    requires t in m.tabs && k < |m.tabs[t]| && t in m.owner && m.owner[t].Table? && m.owner[t].level > 0
  {
    var o := m.owner[t];
    var s := Store(m, t, k, Pte(q, 1));
    s.(tabs := s.tabs[q := ZeroTable()], data := s.data - {q},
       owner := s.owner[q := Table(o.root, o.level - 1, o.x * 512 + k)])
  }

  ghost predicate CanAdd(m: Mem, t: nat, k: nat, q: nat) {
    && Sane(m) && t in m.tabs && k < PTES == |m.tabs[t]| && t in m.owner && m.owner[t].Table? && m.owner[t].level > 0
    && q in m.owner && m.owner[q] == Held && !IsValid(Raw(m, t, k))
  }

  lemma {:induction false} AddRaw(m: Mem, t: nat, k: nat, q: nat, p: nat, j: nat)
    requires CanAdd(m, t, k, q)
    ensures q != 0 && q != t && q !in m.tabs
    ensures Raw(AddTable(m, t, k, q), p, j) ==
            if p == t && j == k then Pte(q, 1) else if p == q then 0 else Raw(m, p, j)
    ensures Child(AddTable(m, t, k, q), p, j) == if p == t && j == k then q else if p == q then 0 else Child(m, p, j)
  {
    NoPageZero(m);
    TableSize(m, q);
    PteParts(q, 1);
    PteParts(0, 0);
  }

  lemma {:induction false} AddLook(m: Mem, t: nat, k: nat, q: nat, r: nat, l: nat, x: nat)
    requires CanAdd(m, t, k, q) && Root(m, r) && l <= 2 && x < Span(l)
    ensures var o := m.owner[t];
            Look(AddTable(m, t, k, q), r, l, x) ==
            if r == o.root && l == o.level - 1 && x == o.x * 512 + k then q else Look(m, r, l, x)
  {
    var m' := AddTable(m, t, k, q);
    var o := m.owner[t];
    LookIs(m, r, l, x);
    LookIs(m', r, l, x);
    TableLooked(m, t);
    if l == 1 {
      AddRaw(m, t, k, q, r, x);
      LookIs(m, o.root, 2, 0);
    } else if l == 0 {
      SpanDown(x);
      var p := Look(m, r, 1, x / 512);
      LookIs(m, r, 1, x / 512);
      AddRaw(m, t, k, q, r, x / 512);
      AddRaw(m, t, k, q, p, x % 512);
      AddRaw(m, t, k, q, q, x % 512);
      NoPageZero(m);
      if p != 0 {
        LookOwned(m, r, 1, x / 512);
      }
      LookIs(m, o.root, 2, 0);
      Split512(o.x, k);
    }
  }

  lemma {:induction false} AddRoot(m: Mem, t: nat, k: nat, q: nat, r: nat)
    requires CanAdd(m, t, k, q)
    ensures Root(AddTable(m, t, k, q), r) <==> Root(m, r)
  {
    TableLooked(m, t);
  }

  lemma {:induction false} AddEntry(m: Mem, t: nat, k: nat, q: nat, r: nat, v: nat)
    requires CanAdd(m, t, k, q) && Root(m, r) && v < VPNS
    ensures Entry(AddTable(m, t, k, q), r, v) == Entry(m, r, v)
  {
    var m' := AddTable(m, t, k, q);
    EntryIs(m, r, v);
    EntryIs(m', r, v);
    SpanDown(0);
    AddLook(m, t, k, q, r, 0, v / 512);
    var p := Look(m, r, 0, v / 512);
    AddRaw(m, t, k, q, p, v % 512);
    AddRaw(m, t, k, q, q, v % 512);
    NoPageZero(m);
    if p != 0 {
      LookOwned(m, r, 0, v / 512);
    }
    if Look(m', r, 0, v / 512) == q && p != 0 {
      AddNothingBelow(m, t, k, q);
    }
  }

  /** Where the new table goes there was none. */
  lemma {:induction false} AddNothingBelow(m: Mem, t: nat, k: nat, q: nat)
    requires CanAdd(m, t, k, q)
    ensures var o := m.owner[t]; o.x * 512 + k < Span(o.level - 1) && Look(m, o.root, o.level - 1, o.x * 512 + k) == 0
  {
    var o := m.owner[t];
    TableLooked(m, t);
    Split512(o.x, k);
    LookDown(m, o.root, o.x * 512 + k);
  }

  lemma {:induction false} AddPages(m: Mem, t: nat, k: nat, q: nat)
    requires CanAdd(m, t, k, q)
    ensures Pages(AddTable(m, t, k, q))
  {
    assert Unfold(PAGES, 0);
  }

  lemma {:induction false} AddTree(m: Mem, t: nat, k: nat, q: nat)
    requires CanAdd(m, t, k, q)
    ensures Tree(AddTable(m, t, k, q))
  {
    var m' := AddTable(m, t, k, q);
    var o := m.owner[t];
    AddNothingBelow(m, t, k, q);
    AddRaw(m, t, k, q, 0, 0);
    NoPageZero(m);
    TableLooked(m, t);
    forall p | p in m'.owner && m'.owner[p].Table?
      ensures var w := m'.owner[p];
              w.level <= 2 && w.x < Span(w.level) && Root(m', w.root) && Look(m', w.root, w.level, w.x) == p
    {
      var w := m'.owner[p];
      AddRoot(m, t, k, q, w.root);
      if p != q {
        TableLooked(m, p);
      }
      AddLook(m, t, k, q, w.root, w.level, w.x);
    }
    forall r, l, x | Root(m', r) && 0 <= l <= 2 && 0 <= x < Span(l) && Look(m', r, l, x) != 0
      ensures Look(m', r, l, x) in m'.owner && m'.owner[Look(m', r, l, x)] == Table(r, l, x)
    {
      AddRoot(m, t, k, q, r);
      AddLook(m, t, k, q, r, l, x);
      if Look(m, r, l, x) != 0 {
        LookOwned(m, r, l, x);
      }
    }
    forall p, j | p in m'.owner && m'.owner[p].Table? && m'.owner[p].level > 0 && IsValid(Raw(m', p, j))
      ensures !IsLeaf(Raw(m', p, j)) && Ppn(Raw(m', p, j)) != 0
    {
      AddRaw(m, t, k, q, p, j);
      PteParts(q, 1);
      PteParts(0, 0);
      assert Unfold(TREE, 0);
    }
  }

  lemma {:induction false} AddLeaves(m: Mem, t: nat, k: nat, q: nat)
    requires CanAdd(m, t, k, q)
    ensures Leaves(AddTable(m, t, k, q))
  {
    var m' := AddTable(m, t, k, q);
    forall r, v | Root(m', r) && 0 <= v < VPNS ensures Root(m, r) && Entry(m', r, v) == Entry(m, r, v) {
      AddRoot(m, t, k, q, r);
      AddEntry(m, t, k, q, r, v);
    }
    forall r | Root(m, r) ensures Root(m', r) {
      AddRoot(m, t, k, q, r);
    }
    assert Unfold(LEAVES, 0);
  }

  /** Growing a tree by one table keeps everything sane and no leaf entry of any tree changes. */
  lemma {:induction false} AddSane(m: Mem, t: nat, k: nat, q: nat)
    requires CanAdd(m, t, k, q)
    ensures Sane(AddTable(m, t, k, q))
    ensures Look(AddTable(m, t, k, q), m.owner[t].root, m.owner[t].level - 1, m.owner[t].x * 512 + k) == q
    ensures forall r, v :: Root(m, r) && 0 <= v < VPNS ==> Entry(AddTable(m, t, k, q), r, v) == Entry(m, r, v)
  {
    forall r, v | Root(m, r) && 0 <= v < VPNS ensures Entry(AddTable(m, t, k, q), r, v) == Entry(m, r, v) {
      AddEntry(m, t, k, q, r, v);
    }
    AddPages(m, t, k, q);
    AddTree(m, t, k, q);
    AddLeaves(m, t, k, q);
    TableLooked(m, t);
    AddNothingBelow(m, t, k, q);
    AddLook(m, t, k, q, m.owner[t].root, m.owner[t].level - 1, m.owner[t].x * 512 + k);
  }

  // -------------------------------------------- installing and removing a leaf

  /** Storing the valid leaf entry e for page v of tree r, whose level-0 table is t.  The held page
      becomes the tree's, unless it is only borrowed (trampoline, trapframe). */
  function SetLeaf(m: Mem, r: nat, v: nat, t: nat, e: nat): (m': Mem)
    requires t in m.tabs && v % 512 < |m.tabs[t]|
  {
    var s := Store(m, t, v % 512, e);
    if v < TRAPFRAME then s.(owner := s.owner[Ppn(e) := Leaf(r, v)]) else s
  }

  /** Clearing a leaf entry; the page is in the hands of the caller again. */
  function ClearLeaf(m: Mem, v: nat, t: nat): (m': Mem)
    requires t in m.tabs && v % 512 < |m.tabs[t]|
  {
    var e := m.tabs[t][v % 512];
    var s := Store(m, t, v % 512, 0);
    if v < TRAPFRAME then s.(owner := s.owner[Ppn(e) := Held]) else s
  }

  /** t is the level-0 table of page v in tree r. */
  ghost predicate AtLeafTable(m: Mem, r: nat, v: nat, t: nat) {
    && Sane(m) && Root(m, r) && v < MAXV && t != 0 && t == Look(m, r, 0, v / 512)
    && t in m.tabs && |m.tabs[t]| == PTES && t in m.owner && m.owner[t] == Table(r, 0, v / 512)
    && m.tabs[t][v % 512] == Entry(m, r, v)
  }

  lemma {:induction false} FoundLeafTable(m: Mem, r: nat, v: nat, t: nat)
    requires Sane(m) && Root(m, r) && v < MAXV && t != 0 && t == Look(m, r, 0, v / 512)
    ensures AtLeafTable(m, r, v, t)
  {
    SpanDown(0);
    LookOwned(m, r, 0, v / 512);
    TableSize(m, t);
    EntryIs(m, r, v);
  }

  lemma {:induction false} SameTabsLook(m: Mem, m': Mem, r: nat, l: nat, x: nat)
    requires m'.tabs == m.tabs
    ensures Look(m', r, l, x) == Look(m, r, l, x)
  {
    LookIs(m, r, l, x);
    LookIs(m', r, l, x);
  }

  lemma {:induction false} SameTabsEntry(m: Mem, m': Mem, r: nat, v: nat)
    requires m'.tabs == m.tabs
    ensures Entry(m', r, v) == Entry(m, r, v)
  {
    EntryIs(m, r, v);
    EntryIs(m', r, v);
    SameTabsLook(m, m', r, 0, v / 512);
  }

  /** m' is m with entry `e` at page v of tree r, and perhaps one page passed between Held and Leaf. */
  ghost predicate LeafStep(m: Mem, m': Mem, r: nat, v: nat, t: nat, e: nat) {
    && AtLeafTable(m, r, v, t) && m'.tabs == Store(m, t, v % 512, e).tabs && m'.free == m.free && m'.data == m.data
    && m'.owner.Keys == m.owner.Keys
    && forall p :: p in m.owner ==>
         (m'.owner[p] == m.owner[p] ||
          (v < TRAPFRAME && m.owner[p] in {Held, Leaf(r, v)} && m'.owner[p] in {Held, Leaf(r, v)}))
  }

  lemma {:induction false} LeafStepLook(m: Mem, m': Mem, r: nat, v: nat, t: nat, e: nat, r2: nat, l: nat, x: nat)
    requires LeafStep(m, m', r, v, t, e) && Root(m, r2) && l <= 2 && x < Span(l)
    ensures Root(m', r2) && Look(m', r2, l, x) == Look(m, r2, l, x)
  {
    LeafStoreLook(m, t, v % 512, e, r2, l, x);
    SameTabsLook(Store(m, t, v % 512, e), m', r2, l, x);
  }

  lemma {:induction false} LeafStepEntry(m: Mem, m': Mem, r: nat, v: nat, t: nat, e: nat, r2: nat, w: nat)
    requires LeafStep(m, m', r, v, t, e) && Root(m, r2) && w < VPNS
    ensures Entry(m', r2, w) == if r2 == r && w == v then e else Entry(m, r2, w)
  {
    LeafStoreEntry(m, t, v % 512, e, r2, w);
    SameTabsEntry(Store(m, t, v % 512, e), m', r2, w);
  }

  lemma {:induction false} LeafStepRoot(m: Mem, m': Mem, r: nat, v: nat, t: nat, e: nat, r2: nat)
    requires LeafStep(m, m', r, v, t, e)
    ensures Root(m', r2) <==> Root(m, r2)
  {
  }

  lemma {:induction false} LeafStepPages(m: Mem, m': Mem, r: nat, v: nat, t: nat, e: nat)
    requires LeafStep(m, m', r, v, t, e)
    ensures Pages(m')
  {
    assert Unfold(PAGES, 0);
  }

  lemma {:induction false} LeafStepTree(m: Mem, m': Mem, r: nat, v: nat, t: nat, e: nat)
    requires LeafStep(m, m', r, v, t, e)
    ensures Tree(m')
  {
    forall p | p in m'.owner && m'.owner[p].Table?
      ensures var w := m'.owner[p];
              w.level <= 2 && w.x < Span(w.level) && Root(m', w.root) && Look(m', w.root, w.level, w.x) == p
    {
      TableLooked(m, p);
      var w := m.owner[p];
      LeafStepLook(m, m', r, v, t, e, w.root, w.level, w.x);
    }
    forall r2, l, x | Root(m', r2) && 0 <= l <= 2 && 0 <= x < Span(l) && Look(m', r2, l, x) != 0
      ensures Look(m', r2, l, x) in m'.owner && m'.owner[Look(m', r2, l, x)] == Table(r2, l, x)
    {
      LeafStepRoot(m, m', r, v, t, e, r2);
      LeafStepLook(m, m', r, v, t, e, r2, l, x);
      LookOwned(m, r2, l, x);
    }
    forall p, j | p in m'.owner && m'.owner[p].Table? && m'.owner[p].level > 0 && IsValid(Raw(m', p, j))
      ensures !IsLeaf(Raw(m', p, j)) && Ppn(Raw(m', p, j)) != 0
    {
      StoreRaw(m, t, v % 512, e, p, j);
      assert Raw(m', p, j) == Raw(m, p, j);
      assert Unfold(TREE, 0);
    }
  }

  lemma {:induction false} SetLeafSane(m: Mem, r: nat, v: nat, t: nat, e: nat)
    requires AtLeafTable(m, r, v, t) && !IsValid(Entry(m, r, v)) && IsValid(e) && IsLeaf(e)
    requires v < TRAPFRAME ==> Ppn(e) in m.owner && m.owner[Ppn(e)] == Held
    ensures Sane(SetLeaf(m, r, v, t, e)) && LeafStep(m, SetLeaf(m, r, v, t, e), r, v, t, e)
  {
    var m' := SetLeaf(m, r, v, t, e);
    LeafStepPages(m, m', r, v, t, e);
    LeafStepTree(m, m', r, v, t, e);
    forall p | p in m'.owner && m'.owner[p].Leaf?
      ensures var o := m'.owner[p];
              o.v < TRAPFRAME && Root(m', o.root) && IsValid(Entry(m', o.root, o.v)) && Ppn(Entry(m', o.root, o.v)) == p
    {
      var o := m'.owner[p];
      if m.owner[p] == o {
        LeafMapped(m, p);
      }
      LeafStepRoot(m, m', r, v, t, e, o.root);
      LeafStepEntry(m, m', r, v, t, e, o.root, o.v);
    }
    forall r2, w | Root(m', r2) && 0 <= w < VPNS && !IsValid(Entry(m', r2, w)) ensures Entry(m', r2, w) == 0 {
      LeafStepRoot(m, m', r, v, t, e, r2);
      LeafStepEntry(m, m', r, v, t, e, r2, w);
      InvalidIsZero(m, r2, w);
    }
    forall r2, w | Root(m', r2) && 0 <= w < VPNS && IsValid(Entry(m', r2, w))
      ensures && w < MAXV && IsLeaf(Entry(m', r2, w))
              && (w < TRAPFRAME ==>
                    Ppn(Entry(m', r2, w)) in m'.owner && m'.owner[Ppn(Entry(m', r2, w))] == Leaf(r2, w))
    {
      LeafStepRoot(m, m', r, v, t, e, r2);
      LeafStepEntry(m, m', r, v, t, e, r2, w);
      if !(r2 == r && w == v) {
        assert Unfold(LEAVES, 0);
      }
    }
  }

  lemma {:induction false} LeafOwned(m: Mem, r: nat, v: nat)
    requires Leaves(m) && Root(m, r) && v < VPNS && IsValid(Entry(m, r, v))
    ensures v < MAXV && IsLeaf(Entry(m, r, v))
    ensures v < TRAPFRAME ==> Ppn(Entry(m, r, v)) in m.owner && m.owner[Ppn(Entry(m, r, v))] == Leaf(r, v)
  {
    assert Unfold(LEAVES, 0);
  }

  lemma {:induction false} ClearLeafSane(m: Mem, r: nat, v: nat, t: nat)
    requires AtLeafTable(m, r, v, t) && IsValid(Entry(m, r, v))
    ensures Sane(ClearLeaf(m, v, t)) && LeafStep(m, ClearLeaf(m, v, t), r, v, t, 0)
    ensures v < TRAPFRAME ==> Ppn(Entry(m, r, v)) in m.owner && ClearLeaf(m, v, t).owner[Ppn(Entry(m, r, v))] == Held
  {
    var m' := ClearLeaf(m, v, t);
    LeafOwned(m, r, v);
    LeafStepPages(m, m', r, v, t, 0);
    LeafStepTree(m, m', r, v, t, 0);
    forall p | p in m'.owner && m'.owner[p].Leaf?
      ensures var o := m'.owner[p];
              o.v < TRAPFRAME && Root(m', o.root) && IsValid(Entry(m', o.root, o.v)) && Ppn(Entry(m', o.root, o.v)) == p
    {
      var o := m'.owner[p];
      LeafMapped(m, p);
      LeafStepEntry(m, m', r, v, t, 0, o.root, o.v);
    }
    forall r2, w | Root(m', r2) && 0 <= w < VPNS && !IsValid(Entry(m', r2, w)) ensures Entry(m', r2, w) == 0 {
      LeafStepRoot(m, m', r, v, t, 0, r2);
      LeafStepEntry(m, m', r, v, t, 0, r2, w);
      InvalidIsZero(m, r2, w);
    }
    forall r2, w | Root(m', r2) && 0 <= w < VPNS && IsValid(Entry(m', r2, w))
      ensures && w < MAXV && IsLeaf(Entry(m', r2, w))
              && (w < TRAPFRAME ==>
                    Ppn(Entry(m', r2, w)) in m'.owner && m'.owner[Ppn(Entry(m', r2, w))] == Leaf(r2, w))
    {
      LeafStepRoot(m, m', r, v, t, 0, r2);
      LeafStepEntry(m, m', r, v, t, 0, r2, w);
      PteParts(0, 0);
      LeafOwned(m, r2, w);
    }
  }

  // ------------------------------------------------------- kalloc and kfree

  /** kalloc: the head of the free list, filled with junk. */
  function Allocate(m: Mem, junk: seq<Byte>): (m': Mem)
    requires m.free != []
  {
    var p := m.free[0];
    m.(free := m.free[1..], data := m.data[p := junk], owner := m.owner[p := Held])
  }

  function Release(m: Mem, p: nat): (m': Mem) {
    m.(free := [p] + m.free, data := m.data - {p}, owner := m.owner[p := Free])
  }

  /** m' differs from m in what one page that is no table and no leaf is used for. */
  ghost predicate PoolStep(m: Mem, m': Mem, q: nat) {
    && m'.tabs == m.tabs && m'.owner.Keys == m.owner.Keys && q in m.owner
    && (m.owner[q].Free? || m.owner[q].Held?) && (m'.owner[q].Free? || m'.owner[q].Held?)
    && forall p :: p in m.owner && p != q ==> m'.owner[p] == m.owner[p]
  }

  lemma {:induction false} PoolStepSane(m: Mem, m': Mem, q: nat)
    requires Sane(m) && PoolStep(m, m', q)
    ensures Tree(m') && Leaves(m')
  {
    forall r, l, x: nat ensures Look(m', r, l, x) == Look(m, r, l, x) {
      SameTabsLook(m, m', r, l, x);
    }
    forall r, v: nat ensures Entry(m', r, v) == Entry(m, r, v) {
      SameTabsEntry(m, m', r, v);
    }
    assert forall r :: Root(m', r) <==> Root(m, r);
    assert Tree(m') by {
      assert Unfold(TREE, 0);
      assert forall p, k :: Raw(m', p, k) == Raw(m, p, k);
    }
    assert Leaves(m') by { assert Unfold(LEAVES, 0); }
  }

  lemma {:induction false} AllocateSane(m: Mem, junk: seq<Byte>)
    requires Sane(m) && m.free != [] && |junk| == PGSIZE
    ensures var p := m.free[0];
            p in m.owner && m.owner[p] == Free && p != 0 && Sane(Allocate(m, junk)) && PoolStep(m, Allocate(m, junk), p)
  {
    var p := m.free[0];
    assert Unfold(PAGES, 0);
    assert p in m.free;
    PoolStepSane(m, Allocate(m, junk), p);
  }

  lemma {:induction false} ReleaseSane(m: Mem, p: nat)
    requires Sane(m) && p in m.owner && m.owner[p] == Held
    ensures Sane(Release(m, p)) && PoolStep(m, Release(m, p), p)
  {
    PoolStepSane(m, Release(m, p), p);
    assert Unfold(PAGES, 0);
  }

  // --------------------------------------------------------------- new roots

  /** uvmcreate: a held page becomes an empty root. */
  function AddRootTable(m: Mem, q: nat): (m': Mem) {
    m.(tabs := m.tabs[q := ZeroTable()], data := m.data - {q}, owner := m.owner[q := Table(q, 2, 0)])
  }

  lemma {:induction false} NewRootRaw(m: Mem, q: nat, p: nat, k: nat)
    requires Sane(m) && q in m.owner && m.owner[q] == Held
    ensures q != 0 && Raw(AddRootTable(m, q), p, k) == Raw(m, p, k)
    ensures Raw(m, q, k) == 0 && Child(m, q, k) == 0
  {
    NoPageZero(m);
    TableSize(m, q);
    PteParts(0, 0);
  }

  lemma {:induction false} NewRootLook(m: Mem, q: nat, r: nat, l: nat, x: nat)
    requires Sane(m) && q in m.owner && m.owner[q] == Held && l <= 2
    ensures l < 2 || r != q ==> Look(AddRootTable(m, q), r, l, x) == Look(m, r, l, x)
    ensures l < 2 ==> Look(AddRootTable(m, q), q, l, x) == 0
    ensures Look(AddRootTable(m, q), q, 2, 0) == q
  {
    var m' := AddRootTable(m, q);
    LookIs(m, r, l, x);
    LookIs(m', r, l, x);
    LookIs(m', q, l, x);
    LookIs(m', q, 2, 0);
    NewRootRaw(m, q, r, x);
    NewRootRaw(m, q, r, x / 512);
    NewRootRaw(m, q, Child(m, r, x / 512), x % 512);
    NewRootRaw(m, q, q, x);
    NewRootRaw(m, q, q, x / 512);
    NoPageZero(m);
  }

  lemma {:induction false} NewRootEntry(m: Mem, q: nat, r: nat, v: nat)
    requires Sane(m) && q in m.owner && m.owner[q] == Held
    ensures Entry(AddRootTable(m, q), r, v) == Entry(m, r, v)
    ensures Entry(AddRootTable(m, q), q, v) == 0
  {
    var m' := AddRootTable(m, q);
    EntryIs(m, r, v);
    EntryIs(m', r, v);
    EntryIs(m', q, v);
    NewRootLook(m, q, r, 0, v / 512);
    NewRootLook(m, q, q, 0, v / 512);
    NewRootRaw(m, q, Look(m, r, 0, v / 512), v % 512);
    NewRootRaw(m, q, 0, v % 512);
    NoPageZero(m);
  }

  lemma {:induction false} NewRootTree(m: Mem, q: nat)
    requires Sane(m) && q in m.owner && m.owner[q] == Held
    ensures Tree(AddRootTable(m, q))
  {
    var m' := AddRootTable(m, q);
    forall p | p in m'.owner && m'.owner[p].Table?
      ensures var w := m'.owner[p];
              w.level <= 2 && w.x < Span(w.level) && Root(m', w.root) && Look(m', w.root, w.level, w.x) == p
    {
      NewRootLook(m, q, q, 2, 0);
      if p != q {
        TableLooked(m, p);
        NewRootLook(m, q, m.owner[p].root, m.owner[p].level, m.owner[p].x);
      }
    }
    forall r, l, x | Root(m', r) && 0 <= l <= 2 && 0 <= x < Span(l) && Look(m', r, l, x) != 0
      ensures Look(m', r, l, x) in m'.owner && m'.owner[Look(m', r, l, x)] == Table(r, l, x)
    {
      NewRootLook(m, q, r, l, x);
      if r != q {
        LookOwned(m, r, l, x);
      }
    }
    forall p, j | p in m'.owner && m'.owner[p].Table? && m'.owner[p].level > 0 && IsValid(Raw(m', p, j))
      ensures !IsLeaf(Raw(m', p, j)) && Ppn(Raw(m', p, j)) != 0
    {
      NewRootRaw(m, q, p, j);
      PteParts(0, 0);
      assert Unfold(TREE, 0);
    }
  }

  lemma {:induction false} NewRootLeaves(m: Mem, q: nat)
    requires Sane(m) && q in m.owner && m.owner[q] == Held
    ensures Leaves(AddRootTable(m, q))
  {
    var m' := AddRootTable(m, q);
    PteParts(0, 0);
    forall p | p in m'.owner && m'.owner[p].Leaf?
      ensures var o := m'.owner[p];
              o.v < TRAPFRAME && Root(m', o.root) && IsValid(Entry(m', o.root, o.v)) && Ppn(Entry(m', o.root, o.v)) == p
    {
      NewRootEntry(m, q, m.owner[p].root, m.owner[p].v);
      assert Unfold(LEAVES, 0);
    }
    forall r, w | Root(m', r) && 0 <= w < VPNS && !IsValid(Entry(m', r, w)) ensures Entry(m', r, w) == 0 {
      NewRootEntry(m, q, r, w);
      if r != q {
        InvalidIsZero(m, r, w);
      }
    }
    forall r, w | Root(m', r) && 0 <= w < VPNS && IsValid(Entry(m', r, w))
      ensures && w < MAXV && IsLeaf(Entry(m', r, w))
              && (w < TRAPFRAME ==> Ppn(Entry(m', r, w)) in m'.owner && m'.owner[Ppn(Entry(m', r, w))] == Leaf(r, w))
    {
      NewRootEntry(m, q, r, w);
      LeafOwned(m, r, w);
    }
  }

  lemma {:induction false} NewRootSane(m: Mem, q: nat)
    requires Sane(m) && q in m.owner && m.owner[q] == Held
    ensures Sane(AddRootTable(m, q)) && Root(AddRootTable(m, q), q)
  {
    NewRootTree(m, q);
    NewRootLeaves(m, q);
    assert Pages(AddRootTable(m, q)) by { assert Unfold(PAGES, 0); }
  }
}
