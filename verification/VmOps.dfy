/**
  What the operations of kernel/vm.c do to an address space, as relations between
  two memories: pages mapped, unmapped, grown; and the proofs that a step after
  such a change is again one.
 */
module VmOps {
  import opened Bits
  import opened Fold
  import opened Vm
  import opened VmSpace

  /** The index of va in a table of this level. */
  function Px(level: nat, va: nat): (k: nat)
    requires level <= 2
    ensures k < PTES
  {
    if level == 2 then va / PGSIZE / 262144 % 512
    else if level == 1 then va / PGSIZE / 512 % 512
    else va / PGSIZE % 512
  }

  /** Which of the tables at a level covers virtual page v. */
  function Up(v: nat, level: nat): nat
    requires level <= 2
  {
    if level == 2 then 0 else if level == 1 then v / 262144 else v / 512
  }

  lemma UpDown(va: nat, level: nat)
    requires va / PGSIZE < MAXV && 0 < level <= 2
    ensures var v := va / PGSIZE;
            && Up(v, level) < Span(level) && Up(v, level - 1) == Up(v, level) * 512 + Px(level, va)
            && Up(v, level - 1) < Span(level - 1)
  {
    var v := va / PGSIZE;
    assert v / 512 / 512 == v / 262144;
  }

  lemma {:induction false} LookStep(m: Mem, r: nat, va: nat, level: nat)
    requires va / PGSIZE < MAXV && 0 < level <= 2
    ensures var v := va / PGSIZE;
            Look(m, r, level - 1, Up(v, level - 1)) == Child(m, Look(m, r, level, Up(v, level)), Px(level, va))
  {
    var v := va / PGSIZE;
    UpDown(va, level);
    LookDown(m, r, Up(v, level - 1));
    Split512(Up(v, level), Px(level, va));
    LookDown(m, r, Up(v, level));
  }

  lemma {:induction false} NoTableNoEntry(m: Mem, r: nat, va: nat, level: nat)
    requires Pages(m) && va / PGSIZE < MAXV && level < 2 && Look(m, r, level, Up(va / PGSIZE, level)) == 0
    ensures Look(m, r, 0, va / PGSIZE / 512) == 0 && Entry(m, r, va / PGSIZE) == 0
  {
    NoPageZero(m);
    if level == 1 {
      LookStep(m, r, va, 1);
    }
    EntryIs(m, r, va / PGSIZE);
  }

  /** From `was` on, pages v..v + n of tree r have been mapped to the pages from pa on, and nothing else changed. */
  ghost predicate Mapping(was: Mem, m: Mem, r: nat, v: nat, n: nat, pa: nat, perm: nat) {
    forall u {:trigger Unfold(MAPPING, u)} :: Unfold(MAPPING, u) ==>
      && Root(was, r) && (n > 0 ==> v + n <= MAXV) && Near(was, m, r, v, v + n, PageRange(pa, n))
      && (forall w :: v <= w < v + n ==> MappedAt(m, was, r, v, w, pa, perm))
  }

  lemma {:induction false} NothingMapped(m: Mem, r: nat, v: nat, pa: nat, perm: nat)
    requires Sane(m) && Root(m, r)
    ensures Mapping(m, m, r, v, 0, pa, perm)
  {
    NearRefl(m, r, v, v, {});
  }

  lemma {:induction false} MappingShape(was: Mem, m: Mem, r: nat, v: nat, n: nat, pa: nat, perm: nat)
    requires Mapping(was, m, r, v, n, pa, perm)
    ensures Near(was, m, r, v, v + n, PageRange(pa, n)) && Root(was, r) && Sane(m) && Root(m, r)
    ensures n == 1 ==> Mapped(m, was, r, v, pa, perm) && !Taken(was, r, v)
  {
    assert Unfold(MAPPING, 0);
    NearShape(was, m, r, v, v + n, PageRange(pa, n));
    if n == 1 {
      assert MappedAt(m, was, r, v, v, pa, perm);
    }
  }

  /** A page mapped after tables have been allocated for it. */
  lemma {:induction false} MappedFrom(was: Mem, mid: Mem, m: Mem, r: nat, v: nat, p: nat, perm: nat)
    requires Near(was, mid, r, 0, 0, {}) && CanMap(was, r, v, p) && CanMap(mid, r, v, p) && Sane(was)
    requires Near(mid, m, r, v, v + 1, {p}) && Mapped(m, mid, r, v, p, perm)
             && (v < TRAPFRAME ==> PageKept(was, mid, p))
    ensures Near(was, m, r, v, v + 1, {p}) && Mapped(m, was, r, v, p, perm)
  {
    NearWiden(was, mid, r, 0, 0, {}, v, v + 1, {p});
    NearTrans(was, mid, m, r, v, v + 1, {p});
    if v < TRAPFRAME {
      HeldHasData(was, p);
    }
  }

  lemma {:induction false} MappingNone(was: Mem, m: Mem, r: nat, v: nat, pa: nat, perm: nat)
    requires Mapping(was, m, r, v, 0, pa, perm)
    ensures Near(was, m, r, v, v, {})
  {
    MappingShape(was, m, r, v, 0, pa, perm);
    assert PageRange(pa, 0) == {};
  }

  /** The next page that mappages takes is still the caller's. */
  lemma {:induction false} StillHeld(was: Mem, m: Mem, r: nat, v: nat, n: nat, pa: nat, perm: nat, all: nat)
    requires Mapping(was, m, r, v, n, pa, perm) && HeldAll(was, v, all, pa) && n < all
    ensures v + n < TRAPFRAME ==> HeldPage(was, pa + n) && HeldPage(m, pa + n)
  {
    MappingShape(was, m, r, v, n, pa, perm);
    if v + n < TRAPFRAME {
      assert HeldPage(was, pa + n);
      NearHeld(was, m, r, v, v + n, PageRange(pa, n), pa + n);
    }
  }

  lemma {:induction false} StillTaken(was: Mem, m: Mem, r: nat, v: nat, n: nat, pa: nat, perm: nat)
    requires Mapping(was, m, r, v, n, pa, perm)
    ensures Taken(m, r, v + n) <==> Taken(was, r, v + n)
  {
    MappingShape(was, m, r, v, n, pa, perm);
    if v + n < MAXV {
      NearEntry(was, m, r, v, v + n, PageRange(pa, n), r, v + n);
    }
  }

  /** mappages with n pages mapped maps one more. */
  lemma {:induction false} MoreMapped(was: Mem, a: Mem, b: Mem, r: nat, v: nat, n: nat, pa: nat, perm: nat,
                                      w: nat, p: nat)
    returns (n': nat)
    requires Mapping(was, a, r, v, n, pa, perm) && w == v + n && p == pa + n && Near(a, b, r, w, w + 1, {p})
    requires CanMap(was, r, w, p) && Mapped(b, a, r, w, p, perm)
    ensures n' == n + 1 && Mapping(was, b, r, v, n', pa, perm)
  {
    n' := n + 1;
    MappingShape(was, a, r, v, n, pa, perm);
    CanMapKept(was, a, r, v, w, PageRange(pa, n), w, p);
    forall x | v <= x < v + n' ensures MappedAt(b, was, r, v, x, pa, perm) {
      if x < w {
        StillMapped(was, a, b, r, v, n, pa, perm, w, w + 1, {p}, x);
      } else {
        assert x == w && pa + x - v == p;
      }
    }
    NearJoin(was, a, b, r, v, w, w + 1, PageRange(pa, n), {p});
    assert PageRange(pa, n') == PageRange(pa, n) + {p};
  }

  lemma {:induction false} StillMapped(was: Mem, a: Mem, b: Mem, r: nat, v: nat, n: nat, pa: nat, perm: nat,
                                       lo: nat, hi: nat, hs: set<nat>, x: nat)
    requires Mapping(was, a, r, v, n, pa, perm) && Near(a, b, r, lo, hi, hs) && Root(a, r) && v <= x < v + n
    requires !(lo <= x < hi) && pa + x - v !in hs
    ensures MappedAt(b, was, r, v, x, pa, perm)
  {
    assert MappedAt(a, was, r, v, x, pa, perm) by { assert Unfold(MAPPING, 0); }
    assert v + n <= MAXV by { assert Unfold(MAPPING, 0); }
    MappedKept(a, b, was, r, lo, hi, hs, x, pa + x - v, perm);
  }

  /** A turn that only grew the tree leaves what is mapped. */
  lemma {:induction false} NoMoreMapped(was: Mem, a: Mem, b: Mem, r: nat, v: nat, n: nat, pa: nat, perm: nat)
    requires Mapping(was, a, r, v, n, pa, perm) && Near(a, b, r, 0, 0, {})
    ensures Mapping(was, b, r, v, n, pa, perm)
  {
    MappingShape(was, a, r, v, n, pa, perm);
    assert n > 0 ==> v + n <= MAXV by { assert Unfold(MAPPING, 0); }
    forall w | v <= w < v + n ensures MappedAt(b, was, r, v, w, pa, perm) {
      StillMapped(was, a, b, r, v, n, pa, perm, 0, 0, {}, w);
    }
    NearStill(was, a, b, r, v, v + n, PageRange(pa, n));
  }

  lemma {:induction false} NearStill(was: Mem, a: Mem, b: Mem, r: nat, lo: nat, hi: nat, hs: set<nat>)
    requires Near(was, a, r, lo, hi, hs) && Near(a, b, r, 0, 0, {}) && Root(was, r)
    ensures Near(was, b, r, lo, hi, hs)
  {
    NearShape(was, a, r, lo, hi, hs);
    NearWiden(a, b, r, 0, 0, {}, lo, hi, hs);
    NearTrans(was, a, b, r, lo, hi, hs);
  }

  /** From `was` on, pages lo..hi of tree r have been unmapped and their memory freed, or else handed to the
      caller, and nothing else changed. */
  ghost predicate Cleared(was: Mem, m: Mem, r: nat, lo: nat, hi: nat, freed: bool) {
    forall u {:trigger Unfold(UNMAPPED, u)} :: Unfold(UNMAPPED, u) ==>
      && Root(was, r) && hi <= MAXV && Near(was, m, r, lo, hi, if freed then {} else LeafPages(was, r, lo, hi))
      && Dropped(was, m, r, lo, hi, if freed then Free else Held)
      && (forall v :: lo <= v < hi ==> !IsValid(Entry(m, r, v)))
  }

  ghost predicate Unmapped(was: Mem, m: Mem, r: nat, lo: nat, hi: nat) { Cleared(was, m, r, lo, hi, true) }

  lemma {:induction false} ClearedShape(was: Mem, m: Mem, r: nat, lo: nat, hi: nat, freed: bool)
    requires Cleared(was, m, r, lo, hi, freed)
    ensures Near(was, m, r, lo, hi, if freed then {} else LeafPages(was, r, lo, hi)) && Root(was, r) && Sane(m)
            && Root(m, r)
    ensures Dropped(was, m, r, lo, hi, if freed then Free else Held) && AllUnmapped(m, r, lo, hi)
  {
    assert Unfold(UNMAPPED, 0);
    NearShape(was, m, r, lo, hi, if freed then {} else LeafPages(was, r, lo, hi));
  }

  lemma {:induction false} UnmappedShape(was: Mem, m: Mem, r: nat, lo: nat, hi: nat)
    requires Unmapped(was, m, r, lo, hi)
    ensures Near(was, m, r, lo, hi, {}) && Root(was, r) && Sane(m) && Root(m, r) && Dropped(was, m, r, lo, hi, Free)
    ensures AllUnmapped(m, r, lo, hi)
  {
    ClearedShape(was, m, r, lo, hi, true);
  }

  /** Trampoline and trapframe are not the tree's own pages, so nothing is handed over. */
  lemma {:induction false} ClearedBorrowed(was: Mem, m: Mem, r: nat, lo: nat, hi: nat)
    requires Cleared(was, m, r, lo, hi, false) && lo >= TRAPFRAME && Sane(was)
    ensures Unmapped(was, m, r, lo, hi)
  {
    ClearedShape(was, m, r, lo, hi, false);
    NoneDropped(was, was, r, lo, hi, Free);
    assert hi <= MAXV by { assert Unfold(UNMAPPED, 0); }
    assert Dropped(was, m, r, lo, hi, Free) by { assert Unfold(DROPPED, 0); }
  }

  lemma {:induction false} NothingCleared(m: Mem, r: nat, v: nat, freed: bool)
    requires Sane(m) && Root(m, r) && v <= MAXV
    ensures Cleared(m, m, r, v, v, freed)
  {
    NearRefl(m, r, v, v, {});
    NoneDropped(m, m, r, v, v, if freed then Free else Held);
  }

  lemma {:induction false} ClearedOne(was: Mem, m: Mem, r: nat, v: nat, freed: bool)
    requires Root(was, r) && v < MAXV && Near(was, m, r, v, v + 1, if freed then {} else LeafPages(was, r, v, v + 1))
    requires Dropped(was, m, r, v, v + 1, if freed then Free else Held) && !IsValid(Entry(m, r, v))
    ensures Cleared(was, m, r, v, v + 1, freed)
  {
  }

  lemma {:induction false} UnmappedFreed(was: Mem, mid: Mem, m: Mem, r: nat, v: nat, p: nat)
    requires Sane(was) && Root(was, r) && v < TRAPFRAME && IsValid(Entry(was, r, v)) && p == Ppn(Entry(was, r, v))
    requires Near(was, mid, r, v, v + 1, {p}) && Near(mid, m, r, 0, 0, {p})
    requires m.owner == was.owner[p := Free] && Entry(m, r, v) == 0
    ensures Unmapped(was, m, r, v, v + 1)
  {
    PteParts(0, 0);
    LeafOwned(was, r, v);
    NearWiden(mid, m, r, 0, 0, {p}, v, v + 1, {p});
    NearTrans(was, mid, m, r, v, v + 1, {p});
    NearSettled(was, m, r, v, v + 1, p);
    DroppedOne(was, m, r, v, p, Free);
    ClearedOne(was, m, r, v, true);
  }

  lemma {:induction false} UnmappedKept(was: Mem, m: Mem, r: nat, v: nat)
    requires Sane(was) && Root(was, r) && v < MAXV && IsValid(Entry(was, r, v)) && Entry(m, r, v) == 0
    requires Near(was, m, r, v, v + 1, if v < TRAPFRAME then {Ppn(Entry(was, r, v))} else {})
    requires m.owner == if v < TRAPFRAME then was.owner[Ppn(Entry(was, r, v)) := Held] else was.owner
    ensures Cleared(was, m, r, v, v + 1, false)
  {
    PteParts(0, 0);
    if v < TRAPFRAME {
      DroppedOne(was, m, r, v, Ppn(Entry(was, r, v)), Held);
    } else {
      NoneDropped(was, m, r, v, v + 1, Held);
    }
    ClearedOne(was, m, r, v, false);
  }

  lemma {:induction false} NothingThere(m: Mem, r: nat, v: nat, freed: bool)
    requires Sane(m) && Root(m, r) && v < MAXV && !IsValid(Entry(m, r, v))
    ensures Cleared(m, m, r, v, v + 1, freed)
  {
    NearRefl(m, r, v, v + 1, if freed then {} else LeafPages(m, r, v, v + 1));
    NothingToDrop(m, r, v, if freed then Free else Held);
    ClearedOne(m, m, r, v, freed);
  }

  lemma {:induction false} ClearedMore(was: Mem, a: Mem, b: Mem, r: nat, lo: nat, v: nat, v': nat, freed: bool)
    requires Cleared(was, a, r, lo, v, freed) && Cleared(a, b, r, v, v', freed) && lo <= v && v' == v + 1
    ensures Cleared(was, b, r, lo, v', freed)
  {
    var hs := if freed then {} else LeafPages(was, r, lo, v);
    var gs := if freed then {} else LeafPages(a, r, v, v');
    ClearedShape(was, a, r, lo, v, freed);
    ClearedShape(a, b, r, v, v', freed);
    assert v < MAXV by { assert Unfold(UNMAPPED, 0); }
    forall w | lo <= w < v' ensures !IsValid(Entry(b, r, w)) {
      if w < v {
        NearEntry(a, b, r, v, v', gs, r, w);
      }
    }
    NearJoin(was, a, b, r, lo, v, v', hs, gs);
    DroppedTrans(was, a, b, r, lo, v, v', if freed then Free else Held);
    assert hs + gs == if freed then {} else LeafPages(was, r, lo, v');
  }

  function Filled(n: nat, b: Byte): (s: seq<Byte>)
    ensures |s| == n && forall i :: 0 <= i < n ==> s[i] == b
  {
    if n == 0 then [] else Filled(n - 1, b) + [b]
  }

  // ------------------------------------------------------- what a process sees

  const NUL: Byte := Binary(0, 8)

  datatype Page = NoPage | Page(flags: nat, bytes: seq<Byte>)

  function ZeroPage(): (s: seq<Byte>)
    ensures |s| == PGSIZE
  {
    Zeros(PGSIZE)
  }

  /** What the page table says of page v. */
  ghost function Seen(m: Mem, r: nat, v: nat): Page {
    var e := Entry(m, r, v);
    if IsValid(e) then Page(Flags(e), if Ppn(e) in m.data then m.data[Ppn(e)] else []) else NoPage
  }

  lemma {:induction false} SeenKept(m: Mem, m': Mem, r: nat, lo: nat, hi: nat, hs: set<nat>, q: nat, v: nat)
    requires Near(m, m', r, lo, hi, hs) && Root(m, q) && v < TRAPFRAME && !(q == r && lo <= v < hi)
    ensures Seen(m', q, v) == Seen(m, q, v)
  {
    NearShape(m, m', r, lo, hi, hs);
    NearEntry(m, m', r, lo, hi, hs, q, v);
    if IsValid(Entry(m, q, v)) {
      LeafOwned(m, q, v);
      NearLeaf(m, m', r, lo, hi, hs, Ppn(Entry(m, q, v)));
    }
  }

  /** From `was` on, a fresh page with these bytes has been mapped at v, and nothing else changed. */
  ghost predicate Placed(was: Mem, m: Mem, r: nat, v: nat, flags: nat, bytes: seq<Byte>) {
    Root(was, r) && v < TRAPFRAME && Near(was, m, r, v, v + 1, {}) && Seen(m, r, v) == Page(flags, bytes)
  }

  /** Allocating p (a), filling it (b) and mapping it at v (c). */
  lemma {:induction false} PlacedOne(was: Mem, a: Mem, b: Mem, c: Mem, r: nat, v: nat, p: nat, perm: nat, d: seq<Byte>)
    requires Near(was, a, r, 0, 0, {p}) && p in was.owner && was.owner[p] == Free && p in a.owner && a.owner[p] == Held
    requires |d| == PGSIZE
    requires b == WithData(a, p, d) && Mapping(b, c, r, v, 1, p, perm) && v < TRAPFRAME && perm < 1024
             && perm / 2 % 8 != 0
    ensures Placed(was, c, r, v, WithV(perm), d) && Ppn(Entry(c, r, v)) == p
  {
    NearShape(was, a, r, 0, 0, {p});
    NearWithData(a, p, d, r, v, v + 1);
    NearShape(a, b, r, v, v + 1, {p});
    MappingShape(b, c, r, v, 1, p, perm);
    assert PageRange(p, 1) == {p};
    NearTrans(a, b, c, r, v, v + 1, {p});
    NearWiden(was, a, r, 0, 0, {p}, v, v + 1, {p});
    NearTrans(was, a, c, r, v, v + 1, {p});
    NearSettled(was, c, r, v, v + 1, p);
    LeafPte(p, perm);
  }

  /** Allocating p (a), filling it (b), failing to map it (c) and freeing it (d). */
  lemma {:induction false} PlaceFailed(was: Mem, a: Mem, b: Mem, c: Mem, d: Mem, r: nat, v: nat, p: nat, perm: nat,
                                       bs: seq<Byte>)
    requires Near(was, a, r, 0, 0, {p}) && p in was.owner && was.owner[p] == Free && p in a.owner && a.owner[p] == Held
    requires b == WithData(a, p, bs) && |bs| == PGSIZE && Mapping(b, c, r, v, 0, p, perm)
    requires Near(c, d, r, 0, 0, {p}) && p in d.owner && d.owner[p] == Free
    ensures Near(was, d, r, 0, 0, {})
  {
    NearShape(was, a, r, 0, 0, {p});
    NearWithData(a, p, bs, r, 0, 0);
    MappingShape(b, c, r, v, 0, p, perm);
    NearWiden(b, c, r, v, v, {}, 0, 0, {p});
    NearTrans(a, b, c, r, 0, 0, {p});
    NearTrans(a, c, d, r, 0, 0, {p});
    NearTrans(was, a, d, r, 0, 0, {p});
    NearSettled(was, d, r, 0, 0, p);
  }

  /** From `was` on, fresh zeroed pages have been mapped at lo..hi of tree r, and nothing else changed. */
  ghost predicate Grown(was: Mem, m: Mem, r: nat, lo: nat, hi: nat, flags: nat) {
    forall u {:trigger Unfold(GROWN, u)} :: Unfold(GROWN, u) ==>
      && Root(was, r) && hi <= TRAPFRAME && Near(was, m, r, lo, hi, {})
      && (forall v :: lo <= v < hi ==> Seen(m, r, v) == Page(flags, ZeroPage()))
  }

  lemma {:induction false} GrownShape(was: Mem, m: Mem, r: nat, lo: nat, hi: nat, flags: nat)
    requires Grown(was, m, r, lo, hi, flags)
    ensures Near(was, m, r, lo, hi, {}) && Root(was, r) && Sane(m) && Root(m, r) && hi <= TRAPFRAME
  {
    assert Unfold(GROWN, 0);
    NearShape(was, m, r, lo, hi, {});
  }

  lemma {:induction false} NothingGrown(m: Mem, r: nat, v: nat, flags: nat)
    requires Sane(m) && Root(m, r) && v <= TRAPFRAME
    ensures Grown(m, m, r, v, v, flags)
  {
    NearRefl(m, r, v, v, {});
  }

  lemma {:induction false} GrownMore(was: Mem, a: Mem, b: Mem, r: nat, lo: nat, v: nat, flags: nat) returns (v': nat)
    requires Grown(was, a, r, lo, v, flags) && Placed(a, b, r, v, flags, ZeroPage()) && lo <= v
    ensures v' == v + 1 && Grown(was, b, r, lo, v', flags)
  {
    v' := v + 1;
    GrownShape(was, a, r, lo, v, flags);
    forall w | lo <= w < v + 1 ensures Seen(b, r, w) == Page(flags, ZeroPage()) {
      if w < v {
        assert Seen(a, r, w) == Page(flags, ZeroPage()) by { assert Unfold(GROWN, 0); }
        SeenKept(a, b, r, v, v + 1, {}, r, w);
      }
    }
    var none: set<nat> := {};
    assert none + none == none;
    NearJoin(was, a, b, r, lo, v, v', none, none);
  }

  /** Pages lo..v grown (a), the next not (b), and lo..v unmapped again (c): the address space is as it was. */
  lemma {:induction false} RolledBack(was: Mem, a: Mem, b: Mem, c: Mem, r: nat, lo: nat, v: nat)
    requires Near(was, a, r, lo, v, {}) && Near(a, b, r, 0, 0, {}) && Unmapped(b, c, r, lo, v) && lo <= v <= MAXV
    requires Root(was, r) && AllUnmapped(was, r, lo, v)
    ensures Near(was, c, r, 0, 0, {})
  {
    UnmappedShape(b, c, r, lo, v);
    NearWiden(a, b, r, 0, 0, {}, lo, v, {});
    NearTrans(was, a, b, r, lo, v, {});
    NearTrans(was, b, c, r, lo, v, {});
    NearBack(was, c, r, lo, v, {});
  }

  /** PTE_R | PTE_U | xperm */
  lemma GrowFlags(xperm: nat)
    requires xperm in {0, 4, 8, 12}
    ensures var perm := 18 + xperm; perm < 1024 && perm / 2 % 8 != 0 && WithV(perm) == perm + 1
  {
  }

  // ------------------------------------------------------------------- sizes

  /** PGROUNDUP(sz) / PGSIZE: how many pages a process of size sz spans. */
  function PagesOf(sz: nat): nat { (sz + PGSIZE - 1) / PGSIZE }

  lemma PagesOfIs(sz: nat, v: nat)
    ensures v * PGSIZE < sz <==> v < PagesOf(sz)
  {
  }

  lemma WholePages(v: nat)
    ensures PagesOf(v * PGSIZE) == v && RoundUp(v * PGSIZE) == v * PGSIZE
  {
  }

  /** How many pages the n addresses from a on lie in. */
  function Touched(a: nat, n: nat): nat { if n == 0 then 0 else (a + n - 1) / PGSIZE - a / PGSIZE + 1 }

  /** A turn of k bytes, which begins where a page begins unless it is the first, touches one page more. */
  lemma {:induction false} TouchedMore(a: nat, n: nat, k: nat)
    requires 0 < k <= PGSIZE - (a + n) % PGSIZE && (n == 0 || (a + n) % PGSIZE == 0)
    ensures Touched(a, n + k) == Touched(a, n) + 1
  {
    if n > 0 {
      var q := (a + n) / PGSIZE;
      assert a + n == q * PGSIZE;
      assert (a + n - 1) / PGSIZE == q - 1 && (a + n + k - 1) / PGSIZE == q;
    }
  }

  lemma {:induction false} TouchedGrows(a: nat, n: nat, n': nat)
    requires n <= n'
    ensures Touched(a, n) <= Touched(a, n')
  {
  }

  /** How much of n bytes at address a is copied in one turn: up to the end of the page. */
  function Piece(a: nat, n: nat): (k: nat)
    ensures k <= n && k <= PGSIZE - a % PGSIZE && (n > 0 ==> k > 0)
    ensures k == n || (a + k) % PGSIZE == 0
  {
    if n < PGSIZE - a % PGSIZE then n else PGSIZE - a % PGSIZE
  }

  function RoundUp(sz: nat): (a: nat)
    ensures a % PGSIZE == 0 && a / PGSIZE == PagesOf(sz) == PagesOf(a)
  {
    (sz + PGSIZE - 1) / PGSIZE * PGSIZE
  }

  /** A turn of copyin or copyout at address b, with n of all bytes done: one page more is touched. */
  lemma {:induction false} TouchedTurn(a: nat, n: nat, all: nat, b: nat)
    requires n < all && (n == 0 || b % PGSIZE == 0) && b == a + n
    ensures Touched(a, n + 1) == Touched(a, n) + 1 <= Touched(a, all)
    ensures Touched(a, n + Piece(b, all - n)) == Touched(a, n) + 1
  {
    TouchedMore(a, n, 1);
    TouchedMore(a, n, Piece(b, all - n));
    TouchedGrows(a, n + 1, all);
  }

  const U64: nat := 0x1_0000_0000_0000_0000   // the range of uint64

  /** An address below sz in a page past MAXVA. */
  predicate PastTop(sz: nat, va: nat) { va / PGSIZE >= MAXV && va / PGSIZE * PGSIZE < sz }

  /** Growing from oldsz to newsz takes new pages, up to or past the fixed pages at the top. */
  predicate Overruns(oldsz: nat, newsz: nat) { PagesOf(oldsz) < PagesOf(newsz) && PagesOf(newsz) > TRAPFRAME }

  lemma {:induction false} NextPiece(a: nat, n: nat)
    requires n > 0
    ensures (a + Piece(a, n)) / PGSIZE <= a / PGSIZE + 1
  {
  }

  /** Free pages that growing from lo to hi pages is sure to do with, up to the fixed pages at the top. */
  function Needed(lo: nat, hi: nat): nat {
    if hi <= lo then 0 else
    if hi <= TRAPFRAME then 3 * (hi - lo) else
    if lo < TRAPFRAME then 3 * (TRAPFRAME - lo) + 1 else 1
  }

  /** The size after sbrk(n): uint64 addition wraps, and uvmdealloc does not shrink to a larger size. */
  function NewSize(sz: nat, n: int): nat { if sz + n < 0 then sz else sz + n }

  /** What a process of size sz sees at page v: the mapped page, or, below sz, the zeroed page that
      vmfault would put there. */
  ghost function View(m: Mem, r: nat, sz: nat, v: nat): Page {
    if Seen(m, r, v).Page? then Seen(m, r, v) else if v < PagesOf(sz) then Page(23, ZeroPage()) else NoPage
  }

  ghost predicate SameView(m: Mem, m': Mem, r: nat, sz: nat) {
    forall v :: 0 <= v < TRAPFRAME ==> View(m', r, sz, v) == View(m, r, sz, v)
  }

  /** A page fault is not seen: the page it maps is the page that was seen there before. */
  lemma {:induction false} FaultUnseen(was: Mem, m: Mem, r: nat, sz: nat, v: nat)
    requires Placed(was, m, r, v, 23, ZeroPage()) && !IsValid(Entry(was, r, v)) && v < PagesOf(sz)
    ensures SameView(was, m, r, sz)
  {
    forall w | 0 <= w < TRAPFRAME ensures View(m, r, sz, w) == View(was, r, sz, w) {
      if w != v {
        SeenKept(was, m, r, v, v + 1, {}, r, w);
      }
    }
  }

  lemma {:induction false} NearUnseen(m: Mem, m': Mem, r: nat, sz: nat)
    requires Near(m, m', r, 0, 0, {}) && Root(m, r)
    ensures SameView(m, m', r, sz)
  {
    forall v | 0 <= v < TRAPFRAME ensures View(m', r, sz, v) == View(m, r, sz, v) {
      SeenKept(m, m', r, 0, 0, {}, r, v);
    }
  }
}
