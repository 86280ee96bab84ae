/**
  What an operation on one address space may do to memory: `Near(m, m', r, lo, hi, hs)`
  says that only virtual pages lo..hi of the tree r may have changed, that every table is
  still the table it was, that a page that was free is free, or a table of r, or mapped in
  lo..hi of r, and that only the pages in hs may have come into the caller's hands or left
  them.  With hs empty no page is lost.
 */
module VmSpace {
  import opened Bits
  import opened Fold
  import opened Vm

  // tags of folded definitions
  const NEAR := 41
  const DROPPED := 42
  const MAPPING := 43
  const UNMAPPED := 44
  const GROWN := 45

  ghost predicate SameRoots(m: Mem, m': Mem) { forall q :: Root(m', q) <==> Root(m, q) }

  ghost predicate EntriesKept(m: Mem, m': Mem, r: nat, lo: nat, hi: nat) {
    forall q, v :: Root(m, q) && 0 <= v < VPNS && !(q == r && lo <= v < hi) ==> Entry(m', q, v) == Entry(m, q, v)
  }

  predicate PageKept(m: Mem, m': Mem, p: nat) {
    && p in m.owner && p in m'.owner && m'.owner[p] == m.owner[p]
    && p in m.data && p in m'.data && m'.data[p] == m.data[p]
  }

  ghost predicate PagesKept(m: Mem, m': Mem, r: nat, lo: nat, hi: nat, hs: set<nat>) {
    && (forall p ::
          p in m.owner && m.owner[p].Leaf? && !(m.owner[p].root == r && lo <= m.owner[p].v < hi) ==> PageKept(m, m', p))
    && (forall p :: p in m.owner && m.owner[p].Held? && p !in hs ==> PageKept(m, m', p))
  }

  /** A page that an operation on pages lo..hi of tree r may take, and where it may leave one. */
  predicate Loose(o: Owner, r: nat, lo: nat, hi: nat) { o.Free? || (o.Leaf? && o.root == r && lo <= o.v < hi) }

  predicate OwnerMoves(o: Owner, o': Owner, r: nat, lo: nat, hi: nat) {
    o' == o || (Loose(o, r, lo, hi) && (Loose(o', r, lo, hi) || (o'.Table? && o'.root == r)))
  }

  ghost predicate OwnersKept(m: Mem, m': Mem, r: nat, lo: nat, hi: nat, hs: set<nat>) {
    forall p :: p in m.owner && p !in hs ==> p in m'.owner && OwnerMoves(m.owner[p], m'.owner[p], r, lo, hi)
  }

  ghost predicate Near(m: Mem, m': Mem, r: nat, lo: nat, hi: nat, hs: set<nat>) {
    forall u {:trigger Unfold(NEAR, u)} :: Unfold(NEAR, u) ==>
      && Sane(m) && Sane(m') && m'.owner.Keys == m.owner.Keys && SameRoots(m, m')
      && EntriesKept(m, m', r, lo, hi) && PagesKept(m, m', r, lo, hi, hs) && OwnersKept(m, m', r, lo, hi, hs)
  }

  lemma {:induction false} NearShape(m: Mem, m': Mem, r: nat, lo: nat, hi: nat, hs: set<nat>)
    requires Near(m, m', r, lo, hi, hs)
    ensures Sane(m) && Sane(m') && m'.owner.Keys == m.owner.Keys && SameRoots(m, m')
  {
    assert Unfold(NEAR, 0);
  }

  lemma {:induction false} NearEntry(m: Mem, m': Mem, r: nat, lo: nat, hi: nat, hs: set<nat>, q: nat, v: nat)
    requires Near(m, m', r, lo, hi, hs) && Root(m, q) && v < VPNS && !(q == r && lo <= v < hi)
    ensures Entry(m', q, v) == Entry(m, q, v)
  {
    assert EntriesKept(m, m', r, lo, hi) by { assert Unfold(NEAR, 0); }
  }

  lemma {:induction false} NearHeld(m: Mem, m': Mem, r: nat, lo: nat, hi: nat, hs: set<nat>, p: nat)
    requires Near(m, m', r, lo, hi, hs) && p in m.owner && m.owner[p] == Held && p !in hs
    ensures PageKept(m, m', p)
  {
    assert PagesKept(m, m', r, lo, hi, hs) by { assert Unfold(NEAR, 0); }
  }

  lemma {:induction false} HeldHasData(m: Mem, p: nat)
    requires Pages(m) && p in m.owner && (m.owner[p].Held? || m.owner[p].Leaf?)
    ensures p in m.data && |m.data[p]| == PGSIZE && p !in m.tabs && p != 0
  {
    assert Unfold(PAGES, 0);
  }

  lemma {:induction false} FreeHasNoData(m: Mem, p: nat)
    requires Pages(m) && p in m.owner && m.owner[p].Free?
    ensures p !in m.data && p !in m.tabs
  {
    assert Unfold(PAGES, 0);
  }

  lemma {:induction false} NearRefl(m: Mem, r: nat, lo: nat, hi: nat, hs: set<nat>)
    requires Sane(m)
    ensures Near(m, m, r, lo, hi, hs)
  {
    assert Unfold(PAGES, 0);
  }

  lemma {:induction false} NearTrans(a: Mem, b: Mem, c: Mem, r: nat, lo: nat, hi: nat, hs: set<nat>)
    requires Near(a, b, r, lo, hi, hs) && Near(b, c, r, lo, hi, hs)
    ensures Near(a, c, r, lo, hi, hs)
  {
    assert Unfold(NEAR, 0);
    assert EntriesKept(a, c, r, lo, hi);
  }

  lemma {:induction false} NearWiden(m: Mem, m': Mem, r: nat, lo: nat, hi: nat, hs: set<nat>, lo': nat, hi': nat,
                                     hs': set<nat>)
    requires Near(m, m', r, lo, hi, hs)
    requires lo >= hi || lo' <= lo <= hi <= hi'
    requires hs <= hs'
    ensures Near(m, m', r, lo', hi', hs')
  {
    assert Unfold(NEAR, 0);
  }

  /** A step on page hi after steps on pages lo..hi. */
  lemma {:induction false} NearJoin(a: Mem, b: Mem, c: Mem, r: nat, lo: nat, hi: nat, hi': nat, hs: set<nat>,
                                    gs: set<nat>)
    requires Near(a, b, r, lo, hi, hs) && Near(b, c, r, hi, hi', gs) && lo <= hi && hi' == hi + 1
    ensures Near(a, c, r, lo, hi', hs + gs)
  {
    NearWiden(a, b, r, lo, hi, hs, lo, hi', hs + gs);
    NearWiden(b, c, r, hi, hi', gs, lo, hi', hs + gs);
    NearTrans(a, b, c, r, lo, hi', hs + gs);
  }

  // ------------------------------------------------------------- single steps

  lemma {:induction false} NearAllocate(m: Mem, junk: seq<Byte>, r: nat)
    requires Sane(m) && m.free != [] && |junk| == PGSIZE
    ensures Near(m, Allocate(m, junk), r, 0, 0, {m.free[0]})
  {
    var m' := Allocate(m, junk);
    AllocateSane(m, junk);
    forall q, v: nat ensures Entry(m', q, v) == Entry(m, q, v) {
      SameTabsEntry(m, m', q, v);
    }
    assert Unfold(PAGES, 0);
  }

  lemma {:induction false} NearRelease(m: Mem, p: nat, r: nat)
    requires Sane(m) && p in m.owner && m.owner[p] == Held
    ensures Near(m, Release(m, p), r, 0, 0, {p})
  {
    var m' := Release(m, p);
    ReleaseSane(m, p);
    forall q, v: nat ensures Entry(m', q, v) == Entry(m, q, v) {
      SameTabsEntry(m, m', q, v);
    }
    assert Unfold(PAGES, 0);
  }

  lemma {:induction false} AddKeepsPages(m: Mem, t: nat, k: nat, q: nat, r: nat)
    requires CanAdd(m, t, k, q)
    ensures var m' := AddTable(m, t, k, q);
            PagesKept(m, m', r, 0, 0, {q}) && OwnersKept(m, m', r, 0, 0, {q}) && m'.owner.Keys == m.owner.Keys
  {
    assert Unfold(PAGES, 0);
  }

  lemma {:induction false} NearAddTable(m: Mem, t: nat, k: nat, q: nat, r: nat)
    requires CanAdd(m, t, k, q)
    ensures Near(m, AddTable(m, t, k, q), r, 0, 0, {q})
  {
    var m' := AddTable(m, t, k, q);
    AddSane(m, t, k, q);
    forall x ensures Root(m', x) <==> Root(m, x) {
      AddRoot(m, t, k, q, x);
    }
    forall x, v | Root(m, x) && 0 <= v < VPNS ensures Entry(m', x, v) == Entry(m, x, v) {
      AddEntry(m, t, k, q, x, v);
    }
    AddKeepsPages(m, t, k, q, r);
  }

  lemma {:induction false} NearLeafStep(m: Mem, m': Mem, r: nat, v: nat, t: nat, e: nat, hs: set<nat>)
    requires LeafStep(m, m', r, v, t, e) && Sane(m')
    requires forall p :: p in m.owner && p !in hs ==> m'.owner[p] == m.owner[p]
    requires forall p ::
               p in m.owner && m.owner[p].Leaf? && !(m.owner[p].root == r && m.owner[p].v == v) ==>
                 m'.owner[p] == m.owner[p]
    ensures Near(m, m', r, v, v + 1, hs)
  {
    forall x ensures Root(m', x) <==> Root(m, x) {
      LeafStepRoot(m, m', r, v, t, e, x);
    }
    forall x, w | Root(m, x) && 0 <= w < VPNS && !(x == r && v <= w < v + 1) ensures Entry(m', x, w) == Entry(m, x, w) {
      LeafStepEntry(m, m', r, v, t, e, x, w);
    }
    assert Unfold(PAGES, 0);
  }

  lemma {:induction false} NearSetLeaf(m: Mem, r: nat, v: nat, t: nat, e: nat)
    requires AtLeafTable(m, r, v, t) && !IsValid(Entry(m, r, v)) && IsValid(e) && IsLeaf(e)
    requires v < TRAPFRAME ==> Ppn(e) in m.owner && m.owner[Ppn(e)] == Held
    ensures var m' := SetLeaf(m, r, v, t, e);
            && Near(m, m', r, v, v + 1, if v < TRAPFRAME then {Ppn(e)} else {}) && Entry(m', r, v) == e
            && (v < TRAPFRAME ==> m'.owner[Ppn(e)] == Leaf(r, v)) && m'.data == m.data && m'.free == m.free
  {
    var m' := SetLeaf(m, r, v, t, e);
    SetLeafSane(m, r, v, t, e);
    LeafStepEntry(m, m', r, v, t, e, r, v);
    NearLeafStep(m, m', r, v, t, e, if v < TRAPFRAME then {Ppn(e)} else {});
  }

  lemma {:induction false} NearClearLeaf(m: Mem, r: nat, v: nat, t: nat)
    requires AtLeafTable(m, r, v, t) && IsValid(Entry(m, r, v))
    ensures var m' := ClearLeaf(m, v, t);
            && Near(m, m', r, v, v + 1, if v < TRAPFRAME then {Ppn(Entry(m, r, v))} else {})
            && Entry(m', r, v) == 0 && m'.free == m.free
            && (v < TRAPFRAME ==> Ppn(Entry(m, r, v)) in m'.owner && m'.owner[Ppn(Entry(m, r, v))] == Held)
  {
    var m' := ClearLeaf(m, v, t);
    ClearLeafSane(m, r, v, t);
    LeafOwned(m, r, v);
    LeafStepEntry(m, m', r, v, t, 0, r, v);
    NearLeafStep(m, m', r, v, t, 0, if v < TRAPFRAME then {Ppn(Entry(m, r, v))} else {});
  }

  /** Writing the bytes of a page. */
  function WithData(m: Mem, p: nat, d: seq<Byte>): (m': Mem) { m.(data := m.data[p := d]) }

  lemma {:induction false} SameTabsTree(m: Mem, m': Mem)
    requires Tree(m) && m'.tabs == m.tabs && m'.owner == m.owner
    ensures Tree(m')
  {
    forall r, l, x: nat ensures Look(m', r, l, x) == Look(m, r, l, x) {
      SameTabsLook(m, m', r, l, x);
    }
    assert Unfold(TREE, 0);
    assert forall x, k :: Raw(m', x, k) == Raw(m, x, k);
  }

  lemma {:induction false} WithDataSane(m: Mem, p: nat, d: seq<Byte>)
    requires Sane(m) && p in m.data && |d| == PGSIZE
    ensures Sane(WithData(m, p, d)) && SameRoots(m, WithData(m, p, d))
    ensures forall q, v: nat :: Entry(WithData(m, p, d), q, v) == Entry(m, q, v)
  {
    var m' := WithData(m, p, d);
    SameTabsTree(m, m');
    forall r, v: nat ensures Entry(m', r, v) == Entry(m, r, v) {
      SameTabsEntry(m, m', r, v);
    }
    assert Pages(m') by { assert Unfold(PAGES, 0); }
    assert Leaves(m') by { assert Unfold(LEAVES, 0); }
  }

  lemma {:induction false} NearWithData(m: Mem, p: nat, d: seq<Byte>, r: nat, lo: nat, hi: nat)
    requires Sane(m) && p in m.owner && |d| == PGSIZE
    requires m.owner[p] == Held || (m.owner[p].Leaf? && m.owner[p].root == r && lo <= m.owner[p].v < hi)
    ensures Near(m, WithData(m, p, d), r, lo, hi, {p})
  {
    HeldHasData(m, p);
    WithDataSane(m, p, d);
    assert Unfold(PAGES, 0);
  }

  /** A page that came into the caller's hands on the way and has left them again. */
  lemma {:induction false} NearSettled(a: Mem, b: Mem, r: nat, lo: nat, hi: nat, q: nat)
    requires Near(a, b, r, lo, hi, {q}) && q in a.owner && Loose(a.owner[q], r, lo, hi)
    requires q in b.owner && OwnerMoves(a.owner[q], b.owner[q], r, lo, hi)
    ensures Near(a, b, r, lo, hi, {})
  {
    assert Unfold(NEAR, 0);
  }

  /** No page is lost: with nothing passed to or from the caller, it holds what it held. */
  lemma {:induction false} NearHolds(m: Mem, m': Mem, r: nat, lo: nat, hi: nat)
    requires Near(m, m', r, lo, hi, {})
    ensures forall p :: p in m.owner ==> p in m'.owner && (m'.owner[p].Held? <==> m.owner[p].Held?)
  {
    assert Unfold(NEAR, 0);
  }

  /** If pages lo..hi are unmapped at both ends, none of them has changed. */
  lemma {:induction false} NearBack(m: Mem, m': Mem, r: nat, lo: nat, hi: nat, hs: set<nat>)
    requires Near(m, m', r, lo, hi, hs) && Root(m, r) && hi <= VPNS
    requires forall v :: lo <= v < hi ==> !IsValid(Entry(m, r, v)) && !IsValid(Entry(m', r, v))
    ensures Near(m, m', r, 0, 0, hs)
  {
    NearShape(m, m', r, lo, hi, hs);
    assert EntriesKept(m, m', r, 0, 0) by {
      forall q, v | Root(m, q) && 0 <= v < VPNS ensures Entry(m', q, v) == Entry(m, q, v) {
        if q == r && lo <= v < hi {
          InvalidIsZero(m, r, v);
          InvalidIsZero(m', r, v);
        } else {
          NearEntry(m, m', r, lo, hi, hs, q, v);
        }
      }
    }
    assert PagesKept(m, m', r, 0, 0, hs) by {
      forall p | p in m.owner && m.owner[p].Leaf? ensures PageKept(m, m', p) {
        LeafMapped(m, p);
        NearLeaf(m, m', r, lo, hi, hs, p);
      }
      forall p | p in m.owner && m.owner[p].Held? && p !in hs ensures PageKept(m, m', p) {
        NearHeld(m, m', r, lo, hi, hs, p);
      }
    }
    assert OwnersKept(m, m', r, 0, 0, hs) by {
      forall p | p in m.owner && p !in hs ensures p in m'.owner && OwnerMoves(m.owner[p], m'.owner[p], r, 0, 0) {
        NearOwner(m, m', r, lo, hi, hs, p);
        if m.owner[p].Leaf? {
          LeafMapped(m, p);
        }
        if m'.owner[p].Leaf? {
          LeafMapped(m', p);
        }
      }
    }
  }

  lemma {:induction false} NearOwner(m: Mem, m': Mem, r: nat, lo: nat, hi: nat, hs: set<nat>, p: nat)
    requires Near(m, m', r, lo, hi, hs) && p in m.owner && p !in hs
    ensures p in m'.owner && OwnerMoves(m.owner[p], m'.owner[p], r, lo, hi)
  {
    assert OwnersKept(m, m', r, lo, hi, hs) by { assert Unfold(NEAR, 0); }
  }

  lemma {:induction false} NearLeaf(m: Mem, m': Mem, r: nat, lo: nat, hi: nat, hs: set<nat>, p: nat)
    requires Near(m, m', r, lo, hi, hs) && p in m.owner && m.owner[p].Leaf?
    requires !(m.owner[p].root == r && lo <= m.owner[p].v < hi)
    ensures PageKept(m, m', p)
  {
    assert PagesKept(m, m', r, lo, hi, hs) by { assert Unfold(NEAR, 0); }
  }

  // ------------------------------------------------------------ mapped pages

  /** perm | PTE_V */
  function WithV(perm: nat): nat { perm / 2 * 2 + 1 }

  lemma {:induction false} LeafPte(p: nat, perm: nat)
    requires perm < 1024 && perm / 2 % 8 != 0
    ensures var e := Pte(p, WithV(perm)); IsValid(e) && IsLeaf(e) && Ppn(e) == p && Flags(e) == WithV(perm) < 1024
  {
    PteParts(p, WithV(perm));
  }

  function PageRange(p: nat, n: nat): (s: set<nat>)
    ensures forall q :: q in s <==> p <= q < p + n
  {
    if n == 0 then {} else PageRange(p, n - 1) + {p + n - 1}
  }

  /** Page v of tree r is page p with these permissions, and p holds what it held in was. */
  predicate Holds(m: Mem, was: Mem, r: nat, v: nat, p: nat) {
    v < TRAPFRAME ==>
      p in m.owner && m.owner[p] == Leaf(r, v) && p in m.data && p in was.data && m.data[p] == was.data[p]
  }

  ghost predicate Mapped(m: Mem, was: Mem, r: nat, v: nat, p: nat, perm: nat) {
    Entry(m, r, v) == Pte(p, WithV(perm)) && Holds(m, was, r, v, p)
  }

  /** Page v of tree r may be mapped to p: nothing is there yet, and p is ours to give. */
  ghost predicate CanMap(m: Mem, r: nat, v: nat, p: nat) {
    && Root(m, r) && v < MAXV && !IsValid(Entry(m, r, v))
    && (v < TRAPFRAME ==> p in m.owner && m.owner[p] == Held)
  }

  /** Pages v..v + n of tree r are the physical pages from pa on. */
  ghost predicate MappedAt(m: Mem, was: Mem, r: nat, v: nat, w: nat, pa: nat, perm: nat) {
    v <= w && Mapped(m, was, r, w, pa + w - v, perm) && !Taken(was, r, w)
  }

  /** mappages panics at page v: it is past MAXVA, or mapped. */
  ghost predicate Taken(m: Mem, r: nat, v: nat) { v >= MAXV || IsValid(Entry(m, r, v)) }

  ghost predicate HeldPage(m: Mem, p: nat) { p in m.owner && m.owner[p] == Held }

  /** The physical pages from pa on that are to be mapped from page v on are the caller's. */
  ghost predicate HeldAll(m: Mem, v: nat, n: nat, pa: nat) {
    forall p :: pa <= p < pa + n && v + (p - pa) < TRAPFRAME ==> HeldPage(m, p)
  }

  lemma {:induction false} CanMapKept(m: Mem, m': Mem, r: nat, lo: nat, hi: nat, hs: set<nat>, v: nat, p: nat)
    requires Near(m, m', r, lo, hi, hs) && CanMap(m, r, v, p) && !(lo <= v < hi) && p !in hs
    ensures CanMap(m', r, v, p)
    ensures v < TRAPFRAME ==> PageKept(m, m', p)
  {
    NearShape(m, m', r, lo, hi, hs);
    NearEntry(m, m', r, lo, hi, hs, r, v);
    if v < TRAPFRAME {
      NearHeld(m, m', r, lo, hi, hs, p);
    }
  }

  lemma {:induction false} MappedKept(m: Mem, m': Mem, was: Mem, r: nat, lo: nat, hi: nat, hs: set<nat>, v: nat,
                                      p: nat, perm: nat)
    requires Near(m, m', r, lo, hi, hs) && Root(m, r) && v < MAXV && Mapped(m, was, r, v, p, perm) && !(lo <= v < hi)
    ensures Mapped(m', was, r, v, p, perm)
  {
    NearEntry(m, m', r, lo, hi, hs, r, v);
    if v < TRAPFRAME {
      NearLeaf(m, m', r, lo, hi, hs, p);
    }
  }

  predicate LeafIn(o: Owner, r: nat, lo: nat, hi: nat) { o.Leaf? && o.root == r && lo <= o.v < hi }

  /** The physical pages of pages lo..hi of tree r. */
  ghost function LeafPages(m: Mem, r: nat, lo: nat, hi: nat): set<nat> {
    set p | p in m.owner && LeafIn(m.owner[p], r, lo, hi)
  }

  /** Pages lo..hi of tree r are now `to`; every other page of the pool is used as before. */
  ghost predicate Dropped(m: Mem, m': Mem, r: nat, lo: nat, hi: nat, to: Owner) {
    forall u {:trigger Unfold(DROPPED, u)} :: Unfold(DROPPED, u) ==>
      && m'.owner.Keys == m.owner.Keys
      && (forall p :: p in m.owner ==> m'.owner[p] == if LeafIn(m.owner[p], r, lo, hi) then to else m.owner[p])
  }

  ghost predicate AllUnmapped(m: Mem, r: nat, lo: nat, hi: nat) {
    forall v :: lo <= v < hi ==> !IsValid(Entry(m, r, v))
  }

  lemma {:induction false} NothingToDrop(m: Mem, r: nat, v: nat, to: Owner)
    requires Sane(m) && !IsValid(Entry(m, r, v))
    ensures Dropped(m, m, r, v, v + 1, to)
  {
    forall p | p in m.owner && m.owner[p].Leaf? ensures !(m.owner[p].root == r && m.owner[p].v == v) {
      LeafMapped(m, p);
    }
  }

  /** Clearing the entry of v drops exactly its page. */
  lemma {:induction false} DroppedOne(m: Mem, m': Mem, r: nat, v: nat, p: nat, to: Owner)
    requires Sane(m) && Root(m, r) && v < TRAPFRAME && IsValid(Entry(m, r, v)) && p == Ppn(Entry(m, r, v))
    requires m'.owner == m.owner[p := to]
    ensures Dropped(m, m', r, v, v + 1, to) && LeafPages(m, r, v, v + 1) == {p}
  {
    LeafOwned(m, r, v);
    forall q | q in m.owner && m.owner[q].Leaf? && m.owner[q].root == r && m.owner[q].v == v ensures q == p {
      LeafMapped(m, q);
    }
  }

  lemma {:induction false} DroppedTrans(a: Mem, b: Mem, c: Mem, r: nat, lo: nat, mid: nat, hi: nat, to: Owner)
    requires Dropped(a, b, r, lo, mid, to) && Dropped(b, c, r, mid, hi, to) && lo <= mid <= hi && !to.Leaf?
    ensures Dropped(a, c, r, lo, hi, to)
    ensures LeafPages(a, r, lo, hi) == LeafPages(a, r, lo, mid) + LeafPages(b, r, mid, hi)
  {
    assert Unfold(DROPPED, 0);
  }

  lemma {:induction false} NoneDropped(m: Mem, m': Mem, r: nat, lo: nat, hi: nat, to: Owner)
    requires Sane(m) && m'.owner == m.owner && (lo >= hi || lo >= TRAPFRAME)
    ensures Dropped(m, m', r, lo, hi, to) && LeafPages(m, r, lo, hi) == {}
  {
    forall p | p in m.owner && m.owner[p].Leaf? ensures m.owner[p].v < TRAPFRAME {
      LeafMapped(m, p);
    }
  }
}
