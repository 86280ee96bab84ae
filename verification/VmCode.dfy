/**
  The code of kernel/vm.c over physical pages: walk, mappages, uvmunmap, and what is
  built on them.  `tabs` and `data` are the contents of the pages that are page tables
  and of those that hold bytes, `free` is kalloc's free list, head first.
 */
module VmCode {
  import opened Base
  import opened Bits
  import opened Vm
  import opened VmSpace
  import opened VmOps
  import opened VmCopy
  import opened VmFree

  /** With the trampoline and then the trapframe unmapped, nothing is mapped from page n on. */
  lemma {:induction false} TopCleared(m0: Mem, m1: Mem, m2: Mem, r: nat, n: nat)
    requires Unmapped(m0, m1, r, TRAMPOLINE, TRAMPOLINE + 1) && Unmapped(m1, m2, r, TRAPFRAME, TRAPFRAME + 1)
    requires AllUnmapped(m0, r, n, TRAPFRAME) && n <= TRAPFRAME
    ensures AllUnmapped(m2, r, n, MAXV)
  {
    UnmappedShape(m0, m1, r, TRAMPOLINE, TRAMPOLINE + 1);
    UnmappedShape(m1, m2, r, TRAPFRAME, TRAPFRAME + 1);
    forall v | n <= v < MAXV ensures !IsValid(Entry(m2, r, v)) {
      if v != TRAMPOLINE {
        NearEntry(m0, m1, r, TRAMPOLINE, TRAMPOLINE + 1, {}, r, v);
      }
      if v != TRAPFRAME {
        NearEntry(m1, m2, r, TRAPFRAME, TRAPFRAME + 1, {}, r, v);
      }
    }
  }

  /** Pages lo..v have been added; if lo is past the fixed pages, none has. */
  ghost predicate GrownSoFar(was: Mem, m: Mem, r: nat, lo: nat, v: nat, flags: nat) {
    if lo <= TRAPFRAME then Grown(was, m, r, lo, v, flags) else v == lo && m == was
  }

  /** What uvmalloc knows of its next page. */
  lemma {:induction false} GrowStart(was: Mem, m: Mem, r: nat, lo: nat, v: nat, hi: nat, flags: nat, sz: nat)
    requires Fits(was, r, sz) && hi == PagesOf(sz) && lo <= v < hi && AllUnmapped(was, r, lo, TRAPFRAME)
    requires GrownSoFar(was, m, r, lo, v, flags) && Sane(was) && Root(was, r)
    ensures Sane(m) && Root(m, r) && (v < TRAPFRAME || Taken(m, r, v)) && (v < TRAPFRAME ==> !Taken(m, r, v))
    ensures lo <= TRAPFRAME ==> v <= TRAPFRAME && Near(was, m, r, lo, v, {}) && Root(was, r)
  {
    if lo <= TRAPFRAME {
      GrownShape(was, m, r, lo, v, flags);
      NearEntry(was, m, r, lo, v, {}, r, v);
    }
  }

  class Machine {
    var tabs: map<nat, seq<nat>>
    var data: map<nat, seq<Byte>>
    var free: seq<nat>
    ghost var owner: map<nat, Owner>

    ghost function Now(): Mem
      reads this
    {
      Mem(tabs, data, free, owner)
    }

    /** kinit: freerange puts the n pages from `first` on in the free list, each at its head. */
    constructor (first: nat, n: nat)
      requires first > 0
      ensures Sane(Now()) && owner.Keys == PageRange(first, n) && forall p :: p in owner ==> owner[p] == Free
    {
      tabs, data, free, owner := map[], map[], [], map[];
      new;
      var p := first;
      while p < first + n
        invariant first <= p <= first + n && tabs == map[] && data == map[]
        invariant owner.Keys == PageRange(first, p - first) && (forall q :: q in owner ==> owner[q] == Free)
        invariant Distinct(free) && forall q :: q in free <==> q in owner
      {
        free := [p] + free;
        owner := owner[p := Free];
        p := p + 1;
      }
      AllFreeSane(Now());
    }

    /** kalloc: 0 exactly when the free list is empty. */
    method Kalloc(ghost r: nat) returns (p: nat)
      requires Sane(Now())
      modifies this
      ensures Near(old(Now()), Now(), r, 0, 0, {p})
      ensures p == 0 <==> old(free) == []
      ensures p == 0 ==> Now() == old(Now())
      ensures p != 0 ==> p == old(free)[0] && free == old(free)[1..] && tabs == old(tabs)
      ensures p != 0 ==>
                p !in old(data) && data == old(data)[p := Filled(PGSIZE, Binary(5, 8))]
                && owner == old(owner)[p := Held]
      ensures p != 0 ==> p in old(owner) && old(owner)[p] == Free && p in owner && owner[p] == Held
    {
      if free == [] {
        NearRefl(Now(), r, 0, 0, {0});
        return 0;
      }
      p := free[0];
      var junk := Filled(PGSIZE, Binary(5, 8));
      NearAllocate(Now(), junk, r);
      AllocateSane(Now(), junk);
      FreeHasNoData(Now(), p);
      free, data, owner := free[1..], data[p := junk], owner[p := Held];
    }

    /** kfree */
    method Kfree(p: nat, ghost r: nat)
      requires Sane(Now()) && p in owner && owner[p] == Held
      modifies this
      ensures Near(old(Now()), Now(), r, 0, 0, {p})
      ensures free == [p] + old(free) && owner == old(owner)[p := Free] && tabs == old(tabs)
    {
      NearRelease(Now(), p, r);
      free, data, owner := [p] + free, data - {p}, owner[p := Free];
    }

    /** walk's stores: page q becomes an empty table, and entry k of table pt leads to it. */
    method LinkTable(ghost r: nat, ghost level: nat, ghost x: nat, pt: nat, k: nat, q: nat)
      requires CanAdd(Now(), pt, k, q) && pt in tabs && |tabs[pt]| == PTES && k < PTES && Root(Now(), r)
      requires 0 < level <= 2 && pt in owner && owner[pt] == Table(r, level, x)
      modifies this`tabs, this`data, this`owner
      ensures Near(old(Now()), Now(), r, 0, 0, {q}) && q == Look(Now(), r, level - 1, x * 512 + k)
      ensures q in owner && owner[q] == Table(r, level - 1, x * 512 + k)
    {
      NearAddTable(Now(), pt, k, q, r);
      AddSane(Now(), pt, k, q);
      var table: seq<nat> := tabs[pt][k := Pte(q, 1)];
      tabs := tabs[pt := table][q := ZeroTable()];
      data := data - {q};
      owner := owner[q := Table(r, level - 1, x * 512 + k)];
      assert Now() == AddTable(old(Now()), pt, k, q);
    }

    /** walk's allocation of a table below the empty entry k of table pt, table x of its level; 0 if there is no
        memory. */
    method NewTable(r: nat, level: nat, x: nat, pt: nat, k: nat) returns (q: nat)
      requires Sane(Now()) && Root(Now(), r) && 0 < level <= 2 && pt in owner && owner[pt] == Table(r, level, x)
      requires k < PTES && !IsValid(Raw(Now(), pt, k))
      modifies this
      ensures Near(old(Now()), Now(), r, 0, 0, {})
      ensures q != 0 ==> q == Look(Now(), r, level - 1, x * 512 + k)
      ensures q == 0 ==> old(free) == [] && Now() == old(Now())
      ensures |free| + 1 >= |old(free)|
    {
      q := Kalloc(r);
      if q == 0 {
        NearRefl(Now(), r, 0, 0, {});
        return 0;
      }
      ghost var mid := Now();
      NearShape(old(Now()), mid, r, 0, 0, {q});
      TableSize(mid, pt);
      LinkTable(r, level, x, pt, k, q);
      NearTrans(old(Now()), mid, Now(), r, 0, 0, {q});
      NearSettled(old(Now()), Now(), r, 0, 0, q);
    }

    /** One level of walk: the table below entry PX(level, va) of the table pt. */
    method WalkDown(r: nat, va: nat, level: nat, pt: nat, alloc: bool) returns (q: nat)
      requires Sane(Now()) && Root(Now(), r) && va / PGSIZE < MAXV && 0 < level <= 2
      requires pt == Look(Now(), r, level, Up(va / PGSIZE, level)) != 0
      modifies this
      ensures Near(old(Now()), Now(), r, 0, 0, {})
      ensures q == Look(Now(), r, level - 1, Up(va / PGSIZE, level - 1))
      ensures !alloc ==> Now() == old(Now())
      ensures Look(old(Now()), r, level - 1, Up(va / PGSIZE, level - 1)) != 0 ==> Now() == old(Now())
      ensures q == 0 && alloc ==> old(free) == [] && Now() == old(Now())
      ensures |free| + 1 >= |old(free)|
    {
      UpDown(va, level);
      LookStep(Now(), r, va, level);
      LookOwned(Now(), r, level, Up(va / PGSIZE, level));
      TableSize(Now(), pt);
      var k := Px(level, va);
      var pte := tabs[pt][k];
      NearRefl(Now(), r, 0, 0, {});
      if IsValid(pte) {
        DownEntry(Now(), pt, k);
        return Ppn(pte);
      }
      if !alloc {
        return 0;
      }
      q := NewTable(r, level, Up(va / PGSIZE, level), pt, k);
    }

    /** walk: the level-0 table that holds the PTE of va, at PX(0, va); 0 if there is none. */
    method Walk(r: nat, va: nat, alloc: bool) returns (t: nat)
      requires Sane(Now()) && Root(Now(), r) && va / PGSIZE < MAXV
      modifies this
      ensures Near(old(Now()), Now(), r, 0, 0, {})
      ensures t == Look(Now(), r, 0, va / PGSIZE / 512)
      ensures t != 0 ==> AtLeafTable(Now(), r, va / PGSIZE, t)
      ensures t == 0 ==> Entry(Now(), r, va / PGSIZE) == 0
      ensures !alloc ==> Now() == old(Now())
      ensures t == 0 && alloc ==> |old(free)| <= 1 && free == []
      ensures |free| + 2 >= |old(free)|
    {
      t := r;
      var level := 2;
      LookDown(Now(), r, 0);
      NoPageZero(Now());
      NearRefl(Now(), r, 0, 0, {});
      while level > 0
        invariant 0 <= level <= 2
        invariant Near(old(Now()), Now(), r, 0, 0, {}) && Sane(Now()) && Root(Now(), r)
        invariant t != 0 && t == Look(Now(), r, level, Up(va / PGSIZE, level))
        invariant !alloc ==> Now() == old(Now())
        invariant |free| + 2 - level >= |old(free)|
      {
        ghost var before := Now();
        t := WalkDown(r, va, level, t, alloc);
        NearTrans(old(Now()), before, Now(), r, 0, 0, {});
        NearShape(before, Now(), r, 0, 0, {});
        if t == 0 {
          NoTableNoEntry(Now(), r, va, level - 1);
          return 0;
        }
        level := level - 1;
      }
      FoundLeafTable(Now(), r, va / PGSIZE, t);
    }

    /** mappages' store of a leaf entry in table t. */
    method StoreLeaf(r: nat, a: nat, t: nat, p: nat, perm: nat, ghost v: nat)
      requires v == a / PGSIZE && AtLeafTable(Now(), r, v, t) && perm < 1024 && perm / 2 % 8 != 0
               && CanMap(Now(), r, v, p)
      modifies this`tabs, this`owner
      ensures Near(old(Now()), Now(), r, v, v + 1, {p}) && Mapped(Now(), old(Now()), r, v, p, perm)
    {
      var e := Pte(p, WithV(perm));
      LeafPte(p, perm);
      NearSetLeaf(Now(), r, v, t, e);
      if v < TRAPFRAME {
        HeldHasData(Now(), p);
      }
      var table: seq<nat> := tabs[t][Px(0, a) := e];
      tabs := tabs[t := table];
      if v < TRAPFRAME {
        owner := owner[p := Leaf(r, v)];
      }
      assert Now() == SetLeaf(old(Now()), r, v, t, e);
      NearWiden(old(Now()), Now(), r, v, v + 1, if v < TRAPFRAME then {p} else {}, v, v + 1, {p});
    }

    /** One turn of mappages: false if walk found no memory, and a panic for a page that is past MAXVA or mapped. */
    method MapOne(r: nat, a: nat, p: nat, perm: nat, ghost v: nat) returns (ok: bool, panic: bool)
      requires v == a / PGSIZE && Sane(Now()) && Root(Now(), r) && perm < 1024 && perm / 2 % 8 != 0
      requires v < TRAPFRAME ==> HeldPage(Now(), p)
      modifies this
      ensures ok ==> Near(old(Now()), Now(), r, v, v + 1, {p}) && Mapped(Now(), old(Now()), r, v, p, perm)
      ensures panic <==> Taken(old(Now()), r, v)
      ensures panic ==> !ok
      ensures !ok ==> Near(old(Now()), Now(), r, 0, 0, {})
      ensures !ok && !panic ==> |old(free)| <= 1 && free == []
      ensures |free| + 2 >= |old(free)|
    {
      if a / PGSIZE >= MAXV {
        NearRefl(Now(), r, 0, 0, {});
        return false, true;
      }
      var t := Walk(r, a, true);
      NearEntry(old(Now()), Now(), r, 0, 0, {}, r, v);
      if t == 0 {
        PteParts(0, 0);
        return false, false;
      }
      if IsValid(tabs[t][Px(0, a)]) {
        return false, true;
      }
      ghost var mid := Now();
      CanMapKept(old(Now()), mid, r, 0, 0, {}, v, p);
      StoreLeaf(r, a, t, p, perm, v);
      MappedFrom(old(Now()), mid, Now(), r, v, p, perm);
      return true, false;
    }

    /** mappages: maps size / PGSIZE pages from va to the physical pages from pa on.  If walk runs out of
        memory the first `done` pages are mapped and the rest are as they were.  It panics at a page that is
        past MAXVA or already mapped. */
    method Mappages(r: nat, va: nat, size: nat, pa: nat, perm: nat) returns (ok: bool, panic: bool, ghost done: nat)
      requires Sane(Now()) && Root(Now(), r) && perm < 1024 && perm / 2 % 8 != 0
      requires va % PGSIZE == 0 && size % PGSIZE == 0 && size != 0
      requires HeldAll(Now(), va / PGSIZE, size / PGSIZE, pa)
      modifies this
      ensures done <= size / PGSIZE && (ok <==> done == size / PGSIZE)
      ensures Mapping(old(Now()), Now(), r, va / PGSIZE, done, pa, perm)
      ensures panic <==> !ok && Taken(old(Now()), r, va / PGSIZE + done)
      ensures !ok && !panic ==> |old(free)| < 2 * (size / PGSIZE) && free == []
      ensures |free| + 2 * (size / PGSIZE) >= |old(free)|
    {
      ghost var v, n := va / PGSIZE, size / PGSIZE;
      var a, last, p := va, va + size - PGSIZE, pa;
      done := 0;
      NothingMapped(Now(), r, v, pa, perm);
      while true
        invariant va <= a <= last && a == (v + done) * PGSIZE && p == pa + done && done < n
        invariant Mapping(old(Now()), Now(), r, v, done, pa, perm)
        invariant |free| + 2 * done >= |old(free)|
        decreases last - a
      {
        ghost var before, w := Now(), v + done;
        MappingShape(old(Now()), before, r, v, done, pa, perm);
        StillHeld(old(Now()), before, r, v, done, pa, perm, n);
        StillTaken(old(Now()), before, r, v, done, pa, perm);
        assert a / PGSIZE == w;
        ok, panic := MapOne(r, a, p, perm, w);
        if !ok {
          NoMoreMapped(old(Now()), before, Now(), r, v, done, pa, perm);
          return false, panic, done;
        }
        done := MoreMapped(old(Now()), before, Now(), r, v, done, pa, perm, w, p);
        if a == last {
          break;
        }
        a := a + PGSIZE;
        p := p + 1;
      }
      return true, false, done;
    }

    /** kfree and the clearing of a valid entry in table t. */
    method ClearAndFree(r: nat, a: nat, t: nat)
      requires AtLeafTable(Now(), r, a / PGSIZE, t) && IsValid(Entry(Now(), r, a / PGSIZE)) && a / PGSIZE < TRAPFRAME
      modifies this
      ensures Unmapped(old(Now()), Now(), r, a / PGSIZE, a / PGSIZE + 1)
    {
      ghost var v := a / PGSIZE;
      var p := Ppn(tabs[t][Px(0, a)]);
      NearClearLeaf(Now(), r, v, t);
      LeafOwned(Now(), r, v);
      var table: seq<nat> := tabs[t][Px(0, a) := 0];
      tabs := tabs[t := table];
      owner := owner[p := Held];
      ghost var mid := Now();
      assert mid == ClearLeaf(old(Now()), v, t);
      NearShape(old(Now()), mid, r, v, v + 1, {p});
      Kfree(p, r);
      SameTabsEntry(mid, Now(), r, v);
      UnmappedFreed(old(Now()), mid, Now(), r, v, p);
    }

    /** One turn of uvmunmap. */
    method UnmapOne(r: nat, a: nat, doFree: bool, ghost v: nat) returns (ghost v': nat)
      requires v == a / PGSIZE && Sane(Now()) && Root(Now(), r) && v < MAXV
      requires doFree ==> v < TRAPFRAME || !IsValid(Entry(Now(), r, v))
      modifies this
      ensures v' == v + 1 && Cleared(old(Now()), Now(), r, v, v', doFree)
    {
      v' := v + 1;
      PteParts(0, 0);
      var t := Walk(r, a, false);
      if t == 0 {
        NothingThere(Now(), r, v, doFree);
        return;
      }
      var pte := tabs[t][Px(0, a)];
      if !IsValid(pte) {
        NothingThere(Now(), r, v, doFree);
        return;
      }
      if doFree {
        ClearAndFree(r, a, t);
      } else {
        NearClearLeaf(Now(), r, v, t);
        LeafOwned(Now(), r, v);
        var table: seq<nat> := tabs[t][Px(0, a) := 0];
        tabs := tabs[t := table];
        if v < TRAPFRAME {
          owner := owner[Ppn(pte) := Held];
        }
        assert Now() == ClearLeaf(old(Now()), v, t);
        UnmappedKept(old(Now()), Now(), r, v);
      }
    }

    /** uvmunmap: none of the pages is mapped any more; their memory, and no other, is free again or, without
        doFree, in the caller's hands.  It panics exactly if a page is past MAXVA. */
    method Uvmunmap(r: nat, va: nat, npages: nat, doFree: bool) returns (panic: bool)
      requires Sane(Now()) && Root(Now(), r) && va % PGSIZE == 0
      requires doFree ==> va / PGSIZE + npages <= TRAPFRAME || AllUnmapped(Now(), r, TRAPFRAME, MAXV)
      modifies this
      ensures panic <==> npages > 0 && va / PGSIZE + npages > MAXV
      ensures va / PGSIZE + npages <= MAXV ==> Cleared(old(Now()), Now(), r, va / PGSIZE, va / PGSIZE + npages, doFree)
    {
      ghost var lo := va / PGSIZE;
      ghost var v := lo;
      var a := va;
      if lo <= MAXV {
        NothingCleared(Now(), r, v, doFree);
      }
      while a < va + npages * PGSIZE
        invariant a == v * PGSIZE && lo <= v <= lo + npages
        invariant if lo <= MAXV then v <= MAXV && Cleared(old(Now()), Now(), r, lo, v, doFree) else v == lo
        decreases lo + npages - v
      {
        assert v == a / PGSIZE;
        if a / PGSIZE >= MAXV {
          return true;
        }
        ghost var before := Now();
        ClearedShape(old(Now()), before, r, lo, v, doFree);
        if doFree && v >= TRAPFRAME {
          NearEntry(old(Now()), before, r, lo, v, {}, r, v);
        }
        ghost var v' := UnmapOne(r, a, doFree, v);
        ClearedMore(old(Now()), before, Now(), r, lo, v, v', doFree);
        a, v := a + PGSIZE, v';
      }
      assert v == lo + npages;
      panic := false;
    }

    /** kalloc, filling the page and mappages, as uvmalloc, vmfault and uvmcopy do it; 0 if there is no memory,
        and a panic if there is but the page is taken. */
    method PlaceOne(r: nat, a: nat, perm: nat, bytes: seq<Byte>) returns (p: nat, panic: bool)
      requires Sane(Now()) && Root(Now(), r) && a % PGSIZE == 0 && perm < 1024 && perm / 2 % 8 != 0 && |bytes| == PGSIZE
      requires a / PGSIZE < TRAPFRAME || Taken(Now(), r, a / PGSIZE)
      modifies this
      ensures p != 0 ==>
                Placed(old(Now()), Now(), r, a / PGSIZE, WithV(perm), bytes) && Ppn(Entry(Now(), r, a / PGSIZE)) == p
      ensures panic <==> Taken(old(Now()), r, a / PGSIZE) && old(free) != []
      ensures panic ==> p == 0
      ensures p == 0 && !panic ==> Near(old(Now()), Now(), r, 0, 0, {}) && |old(free)| < 3
      ensures p == 0 && !panic && Taken(old(Now()), r, a / PGSIZE) ==> old(free) == []
      ensures |free| + 3 >= |old(free)|
    {
      ghost var v := a / PGSIZE;
      p := Kalloc(r);
      panic := false;
      if p == 0 {
        NearRefl(Now(), r, 0, 0, {});
        return;
      }
      ghost var m1 := Now();
      NearShape(old(Now()), m1, r, 0, 0, {p});
      if v < MAXV {
        NearEntry(old(Now()), m1, r, 0, 0, {p}, r, v);
      }
      NearWithData(m1, p, bytes, r, 0, 0);
      data := data[p := bytes];
      ghost var m2 := Now();
      NearShape(m1, m2, r, 0, 0, {p});
      SameTabsEntry(m1, m2, r, v);
      assert HeldPage(m2, p);
      var ok, bad, done := Mappages(r, a, PGSIZE, p, perm);
      if bad {
        return 0, true;
      }
      ghost var m3 := Now();
      MappingShape(m2, m3, r, v, done, p, perm);
      if !ok {
        MappingNone(m2, m3, r, v, p, perm);
        NearHeld(m2, m3, r, v, v, {}, p);
        Kfree(p, r);
        PlaceFailed(old(Now()), m1, m2, m3, Now(), r, v, p, perm, bytes);
        return 0, false;
      }
      PlacedOne(old(Now()), m1, m2, m3, r, v, p, perm, bytes);
      NoPageZero(m1);
    }

    /** uvmdealloc: with newsz < oldsz exactly the pages past newsz are gone and their memory is free. */
    method Uvmdealloc(r: nat, oldsz: nat, newsz: nat) returns (sz: nat)
      requires Sane(Now()) && Root(Now(), r) && (newsz < oldsz ==> PagesOf(oldsz) <= TRAPFRAME)
      modifies this
      ensures newsz >= oldsz ==> sz == oldsz && Now() == old(Now())
      ensures newsz < oldsz ==> sz == newsz && PagesOf(newsz) <= PagesOf(oldsz)
      ensures newsz < oldsz ==> Unmapped(old(Now()), Now(), r, PagesOf(newsz), PagesOf(oldsz))
    {
      if newsz >= oldsz {
        return oldsz;
      }
      if RoundUp(newsz) < RoundUp(oldsz) {
        var npages := (RoundUp(oldsz) - RoundUp(newsz)) / PGSIZE;
        var _ := Uvmunmap(r, RoundUp(newsz), npages, true);
      } else {
        NothingCleared(Now(), r, PagesOf(newsz), true);
      }
      return newsz;
    }

    /** uvmalloc's way out: unmap what has been mapped so far. */
    method GiveUp(r: nat, a: nat, start: nat, ghost was: Mem, ghost before: Mem, ghost lo: nat, ghost v: nat)
      requires a == v * PGSIZE && start == lo * PGSIZE && lo <= v && Near(before, Now(), r, 0, 0, {}) && Root(was, r)
      requires (was == before && a == start)
               || (v <= TRAPFRAME && Near(was, before, r, lo, v, {}) && AllUnmapped(was, r, lo, v))
      modifies this
      ensures Near(was, Now(), r, 0, 0, {})
    {
      ghost var after := Now();
      if was != before || a != start {
        NearShape(was, before, r, lo, v, {});
      }
      NearShape(before, after, r, 0, 0, {});
      WholePages(v);
      WholePages(lo);
      var _ := Uvmdealloc(r, a, start);
      if was != before || a != start {
        if a == start {
          NothingCleared(Now(), r, lo, true);
        }
        RolledBack(was, before, after, Now(), r, lo, v);
      }
    }

    /** One turn of uvmalloc: one more page, or none and back to the beginning, or a panic. */
    method GrowTurn(r: nat, a: nat, start: nat, perm: nat, ghost was: Mem, ghost lo: nat, ghost v: nat,
                    ghost newsz: nat)
      returns (ok: bool, panic: bool, ghost v': nat)
      requires lo <= v < PagesOf(newsz) && a == v * PGSIZE && start == lo * PGSIZE && AllUnmapped(was, r, lo, TRAPFRAME)
      requires Sane(was) && Root(was, r) && Fits(was, r, newsz) && GrownSoFar(was, Now(), r, lo, v, perm + 1)
      requires perm < 1024 && perm / 2 % 8 != 0 && WithV(perm) == perm + 1
      modifies this
      ensures v' == v + 1 && |free| + 3 >= |old(free)|
      ensures ok ==> !panic && v < TRAPFRAME && lo < TRAPFRAME && GrownSoFar(was, Now(), r, lo, v', perm + 1)
      ensures panic ==> v >= TRAPFRAME
      ensures !ok && !panic ==> Near(was, Now(), r, 0, 0, {}) && |old(free)| < 3 && (v >= TRAPFRAME ==> old(free) == [])
      ensures lo <= TRAPFRAME ==> v <= TRAPFRAME
    {
      ghost var before := Now();
      assert a / PGSIZE == v && start / PGSIZE == lo;
      GrowStart(was, before, r, lo, v, PagesOf(newsz), perm + 1, newsz);
      var p;
      p, panic := PlaceOne(r, a, perm, ZeroPage());
      ok, v' := p != 0, v + 1;
      if p == 0 && !panic {
        GiveUp(r, a, start, was, before, lo, v);
      } else if p != 0 {
        v' := GrownMore(was, before, Now(), r, lo, v, perm + 1);
      }
    }

    /** uvmalloc: the new size, with fresh zeroed pages between the sizes; or 0 for lack of memory, with
        the address space as it was.  If new pages run into the fixed pages at the top or past them, it panics
        there unless memory runs out before. */
    method Uvmalloc(r: nat, oldsz: nat, newsz: nat, xperm: nat) returns (sz: nat, panic: bool)
      requires Sane(Now()) && Root(Now(), r) && Fits(Now(), r, newsz) && xperm in {0, 4, 8, 12}
      requires AllUnmapped(Now(), r, PagesOf(oldsz), TRAPFRAME)
      modifies this
      ensures newsz < oldsz ==> sz == oldsz && !panic && Now() == old(Now())
      ensures panic ==> sz == 0 && Overruns(oldsz, newsz)
      ensures newsz >= oldsz && !panic ==> sz == newsz || sz == 0
      ensures newsz >= oldsz && sz == newsz ==>
                !Overruns(oldsz, newsz)
                && if PagesOf(newsz) <= TRAPFRAME
                   then Grown(old(Now()), Now(), r, PagesOf(oldsz), PagesOf(newsz), 19 + xperm)
                   else Now() == old(Now())
      ensures newsz >= oldsz && sz != newsz && !panic ==>
                Near(old(Now()), Now(), r, 0, 0, {}) && |old(free)| < Needed(PagesOf(oldsz), PagesOf(newsz))
    {
      panic := false;
      if newsz < oldsz {
        return oldsz, false;
      }
      var start, perm := RoundUp(oldsz), 18 + xperm;
      GrowFlags(xperm);
      ghost var lo, v, hi := PagesOf(oldsz), PagesOf(oldsz), PagesOf(newsz);
      var a := start;
      if lo <= TRAPFRAME {
        NothingGrown(Now(), r, lo, perm + 1);
      }
      while a < newsz
        invariant a == v * PGSIZE && lo <= v <= hi && GrownSoFar(old(Now()), Now(), r, lo, v, perm + 1)
        invariant |free| + 3 * (v - lo) >= |old(free)|
        decreases hi - v
      {
        PagesOfIs(newsz, v);
        var ok; ghost var next;
        ok, panic, next := GrowTurn(r, a, start, perm, old(Now()), lo, v, newsz);
        if !ok {
          return 0, panic;
        }
        a, v := a + PGSIZE, next;
      }
      PagesOfIs(newsz, v);
      if lo <= TRAPFRAME {
        GrownShape(old(Now()), Now(), r, lo, v, perm + 1);
      }
      return newsz, false;
    }

    /** walkaddr: the physical page of a user address, 0 if there is none. */
    method Walkaddr(r: nat, va: nat) returns (p: nat)
      requires Sane(Now()) && Root(Now(), r) && Private(Now(), r)
      modifies this
      ensures Now() == old(Now())
      ensures p != 0 ==> va / PGSIZE < TRAPFRAME && p == Ppn(Entry(Now(), r, va / PGSIZE))
      ensures p != 0 <==>
                va / PGSIZE < MAXV && IsValid(Entry(Now(), r, va / PGSIZE)) && IsUser(Entry(Now(), r, va / PGSIZE))
    {
      if va / PGSIZE >= MAXV {
        return 0;
      }
      PteParts(0, 0);
      var t := Walk(r, va, false);
      if t == 0 {
        return 0;
      }
      var pte := tabs[t][Px(0, va)];
      if !IsValid(pte) || !IsUser(pte) {
        return 0;
      }
      LeafOwned(Now(), r, va / PGSIZE);
      NoPageZero(Now());
      return Ppn(pte);
    }

    /** ismapped; it does not test for MAXVA, so walk panics past it. */
    method Ismapped(r: nat, va: nat) returns (yes: bool, panic: bool)
      requires Sane(Now()) && Root(Now(), r)
      modifies this
      ensures Now() == old(Now()) && (panic <==> va / PGSIZE >= MAXV)
      ensures !panic ==> (yes <==> IsValid(Entry(Now(), r, va / PGSIZE)))
    {
      PteParts(0, 0);
      if va / PGSIZE >= MAXV {
        return false, true;
      }
      var t := Walk(r, va, false);
      if t == 0 {
        return false, false;
      }
      return IsValid(tabs[t][Px(0, va)]), false;
    }

    /** vmfault: maps a page that is below sz and not mapped yet; the process sees no difference.  It panics
        exactly if the page is below sz and past MAXVA. */
    method Vmfault(r: nat, sz: nat, va: nat) returns (p: nat, panic: bool)
      requires Sane(Now()) && Root(Now(), r) && Private(Now(), r) && Fits(Now(), r, sz)
      modifies this
      ensures Calm(old(Now()), Now(), r, sz)
      ensures panic <==> va < sz && va / PGSIZE >= MAXV
      ensures panic ==> p == 0
      ensures p != 0 ==> va < sz && va / PGSIZE < PagesOf(sz) && va / PGSIZE < TRAPFRAME
      ensures p != 0 ==> !IsValid(Entry(old(Now()), r, va / PGSIZE))
      ensures p != 0 ==> p == Ppn(Entry(Now(), r, va / PGSIZE)) && Seen(Now(), r, va / PGSIZE) == Page(23, ZeroPage())
      ensures p == 0 && !panic ==> va >= sz || IsValid(Entry(old(Now()), r, va / PGSIZE)) || |old(free)| < 3
      ensures |free| + 3 >= |old(free)|
    {
      CalmRefl(Now(), r, sz);
      if va >= sz {
        return 0, false;
      }
      var a := va / PGSIZE * PGSIZE;
      assert va / PGSIZE < PagesOf(sz) && a / PGSIZE == va / PGSIZE;
      var mapped;
      mapped, panic := Ismapped(r, a);
      if mapped || panic {
        return 0, panic;
      }
      p, panic := PlaceOne(r, a, 22, ZeroPage());
      if p == 0 {
        CalmNear(old(Now()), Now(), r, sz);
      } else {
        CalmFault(old(Now()), Now(), r, sz, va / PGSIZE);
      }
    }

    /** What copyin and copyout do to find the page of an address: walkaddr, and vmfault if that fails. */
    method Reach(r: nat, sz: nat, va: nat) returns (p: nat, panic: bool)
      requires Sane(Now()) && Root(Now(), r) && Private(Now(), r) && Fits(Now(), r, sz) && va % PGSIZE == 0
      modifies this
      ensures Calm(old(Now()), Now(), r, sz)
      ensures panic <==> va < sz && va / PGSIZE >= MAXV
      ensures panic ==> p == 0
      ensures p != 0 ==> Readable(old(Now()), r, sz, va / PGSIZE) && IsValid(Entry(Now(), r, va / PGSIZE))
      ensures p != 0 ==> p == Ppn(Entry(Now(), r, va / PGSIZE)) && p in data && |data[p]| == PGSIZE
      ensures p != 0 ==> Seen(Now(), r, va / PGSIZE) == View(old(Now()), r, sz, va / PGSIZE)
      ensures p == 0 ==> !Readable(old(Now()), r, sz, va / PGSIZE) || |old(free)| < 3
      ensures |free| + 3 >= |old(free)|
    {
      CalmRefl(Now(), r, sz);
      p := Walkaddr(r, va);
      panic := false;
      if p == 0 {
        p, panic := Vmfault(r, sz, va);
        PagesOfIs(sz, va / PGSIZE);
        if p == 0 {
          return;
        }
      }
      CalmShape(old(Now()), Now(), r, sz);
      CalmView(old(Now()), Now(), r, sz, va / PGSIZE);
      LeafOwned(Now(), r, va / PGSIZE);
      HeldHasData(Now(), p);
    }

    /** One page of copyin: the bytes the process sees there, or false if it may not read that page. */
    method CopyinTurn(r: nat, sz: nat, srcva: nat, len: nat) returns (ok: bool, panic: bool, piece: seq<Byte>)
      requires Sane(Now()) && Root(Now(), r) && Private(Now(), r) && Fits(Now(), r, sz) && len > 0
      modifies this
      ensures Calm(old(Now()), Now(), r, sz)
      ensures panic <==> PastTop(sz, srcva)
      ensures panic ==> !ok
      ensures ok ==> |piece| == Piece(srcva, len) && Reads(old(Now()), r, sz, srcva, piece)
      ensures ok ==> srcva / PGSIZE < TRAPFRAME
      ensures !ok ==> !Readable(old(Now()), r, sz, srcva / PGSIZE) || |old(free)| < 3
      ensures |free| + 3 >= |old(free)|
    {
      var va0 := srcva / PGSIZE * PGSIZE;
      assert va0 / PGSIZE == srcva / PGSIZE && srcva - va0 == srcva % PGSIZE;
      var p;
      p, panic := Reach(r, sz, va0);
      if p == 0 {
        return false, panic, [];
      }
      var n := PGSIZE - (srcva - va0);
      if n > len {
        n := len;
      }
      piece := data[p][srcva - va0..srcva - va0 + n];
      forall i | 0 <= i < n ensures ReadsAs(old(Now()), r, sz, srcva + i, piece[i]) {
        SamePage(srcva, i);
      }
      ok := true;
    }

    /** copyin: the bytes the process sees at srcva; it stops at the first page that it may not read.  It
        panics exactly if the first address is below sz and past MAXVA: coming from below it stops before. */
    method Copyin(r: nat, sz: nat, srcva: nat, len: nat) returns (ok: bool, panic: bool, dst: seq<Byte>)
      requires Sane(Now()) && Root(Now(), r) && Private(Now(), r) && Fits(Now(), r, sz)
      modifies this
      ensures Calm(old(Now()), Now(), r, sz)
      ensures |dst| <= len && (ok <==> |dst| == len)
      ensures panic <==> len > 0 && PastTop(sz, srcva)
      ensures Reads(old(Now()), r, sz, srcva, dst)
      ensures !ok ==>
                !Readable(old(Now()), r, sz, (srcva + |dst|) / PGSIZE) || |old(free)| < 3 * Touched(srcva, |dst| + 1)
      ensures |free| + 3 * Touched(srcva, len) >= |old(free)|
    {
      CalmRefl(Now(), r, sz);
      dst := [];
      while |dst| < len
        invariant |dst| <= len && Calm(old(Now()), Now(), r, sz) && Reads(old(Now()), r, sz, srcva, dst)
        invariant |dst| == 0 || |dst| == len || (srcva + |dst|) % PGSIZE == 0
        invariant |dst| > 0 ==> srcva / PGSIZE < TRAPFRAME && (srcva + |dst|) / PGSIZE <= TRAPFRAME
        invariant |free| + 3 * Touched(srcva, |dst|) >= |old(free)|
      {
        var a, n := srcva + |dst|, len - |dst|;
        NextPiece(a, n);
        TouchedTurn(srcva, |dst|, len, a);
        ghost var before := Now();
        CalmShape(old(Now()), before, r, sz);
        CalmReads(old(Now()), before, r, sz, a / PGSIZE);
        NearFits(old(Now()), before, r, 0, TRAPFRAME, {}, sz);
        var more, bad, piece := CopyinTurn(r, sz, a, n);
        CalmTrans(old(Now()), before, Now(), r, sz);
        if !more {
          return false, bad, dst;
        }
        ReadsMore(old(Now()), before, r, sz, srcva, dst, piece);
        dst := dst + piece;
      }
      ok, panic := true, false;
    }

    /** One page of copyinstr: the bytes up to a NUL, the end of the page or max. */
    method CopyinstrTurn(r: nat, srcva: nat, max: nat) returns (ok: bool, gotNull: bool, piece: seq<Byte>)
      requires Sane(Now()) && Root(Now(), r) && Private(Now(), r) && max > 0
      modifies this
      ensures Now() == old(Now())
      ensures !ok ==> !Readable(Now(), r, 0, srcva / PGSIZE) && !gotNull && piece == []
      ensures ok ==> |piece| <= max && Reads(Now(), r, 0, srcva, piece) && NUL !in piece
      ensures ok && gotNull ==> |piece| < max && ReadsAs(Now(), r, 0, srcva + |piece|, NUL)
      ensures ok && !gotNull ==> |piece| > 0
    {
      var va0 := srcva / PGSIZE * PGSIZE;
      assert va0 / PGSIZE == srcva / PGSIZE && srcva - va0 == srcva % PGSIZE;
      piece, gotNull := [], false;
      var p := Walkaddr(r, va0);
      if p == 0 {
        return false, false, [];
      }
      LeafOwned(Now(), r, va0 / PGSIZE);
      HeldHasData(Now(), p);
      var n := PGSIZE - (srcva - va0);
      if n > max {
        n := max;
      }
      while |piece| < n
        invariant |piece| <= n && Reads(Now(), r, 0, srcva, piece) && NUL !in piece
        invariant Now() == old(Now())
      {
        SamePage(srcva, |piece|);
        var b := data[p][srcva - va0 + |piece|];
        assert ReadsAs(Now(), r, 0, srcva + |piece|, b);
        if b == NUL {
          return true, true, piece;
        }
        piece := piece + [b];
      }
      return true, false, piece;
    }

    /** copyinstr: the string at srcva, if the page table alone shows it whole within max bytes.  It never
        calls vmfault, so a string in a page that is not mapped yet is refused. */
    method Copyinstr(r: nat, srcva: nat, max: nat) returns (ok: bool, dst: seq<Byte>)
      requires Sane(Now()) && Root(Now(), r) && Private(Now(), r)
      modifies this
      ensures Now() == old(Now())
      ensures ok ==> |dst| < max && IsString(Now(), r, 0, srcva, dst)
      ensures !ok ==> forall bs :: |bs| < max ==> !IsString(Now(), r, 0, srcva, bs)
    {
      dst := [];
      var gotNull := false;
      while !gotNull && |dst| < max
        invariant |dst| <= max && Reads(Now(), r, 0, srcva, dst) && NUL !in dst
        invariant gotNull ==> |dst| < max && ReadsAs(Now(), r, 0, srcva + |dst|, NUL)
        invariant Now() == old(Now())
        decreases !gotNull, max - |dst|
      {
        var more, got, piece := CopyinstrTurn(r, srcva + |dst|, max - |dst|);
        if !more {
          NoString(Now(), r, 0, srcva, max, dst);
          return false, dst;
        }
        CalmRefl(Now(), r, 0);
        ReadsMore(Now(), Now(), r, 0, srcva, dst, piece);
        dst, gotNull := dst + piece, got;
      }
      if !gotNull {
        NoString(Now(), r, 0, srcva, max, dst);
      }
      ok := gotNull;
    }

    /** One page of copyout. */
    method CopyoutTurn(r: nat, sz: nat, dstva: nat, src: seq<Byte>) returns (ok: bool, n: nat)
      requires Sane(Now()) && Root(Now(), r) && Private(Now(), r) && Fits(Now(), r, sz) && |src| > 0
      modifies this
      ensures ok ==> Writable(old(Now()), r, sz, dstva / PGSIZE) && n == Piece(dstva, |src|)
      ensures ok ==> Wrote(old(Now()), Now(), r, sz, dstva, src[..n])
      ensures !ok ==>
                Calm(old(Now()), Now(), r, sz) && (!Writable(old(Now()), r, sz, dstva / PGSIZE) || |old(free)| < 3)
      ensures |free| + 3 >= |old(free)|
    {
      n := 0;
      var va0 := dstva / PGSIZE * PGSIZE;
      assert va0 / PGSIZE == dstva / PGSIZE && dstva - va0 == dstva % PGSIZE;
      if va0 / PGSIZE >= MAXV {
        CalmRefl(Now(), r, sz);
        return false, 0;
      }
      var p, _ := Reach(r, sz, va0);
      CalmShape(old(Now()), Now(), r, sz);
      if p == 0 {
        return false, 0;
      }
      ghost var mid := Now();
      var t := Walk(r, va0, false);
      PteParts(0, 0);
      assert t != 0;
      if !IsWritable(tabs[t][Px(0, va0)]) {
        return false, 0;
      }
      n := PGSIZE - (dstva - va0);
      if n > |src| {
        n := |src|;
      }
      WroteInPage(mid, r, sz, dstva, src[..n], p);
      data := data[p := Overwritten(data[p], dstva - va0, src[..n])];
      assert Now() == WithData(mid, p, Overwritten(mid.data[p], dstva % PGSIZE, src[..n]));
      WroteAfterCalm(old(Now()), mid, Now(), r, sz, dstva, src[..n]);
      return true, n;
    }

    /** copyout: what the process sees has the first `done` bytes of src at dstva, and is otherwise the same;
        it stops at the first page that it may not write.  It tests for MAXVA itself, and does not panic. */
    method Copyout(r: nat, sz: nat, dstva: nat, src: seq<Byte>) returns (ok: bool, ghost done: nat)
      requires Sane(Now()) && Root(Now(), r) && Private(Now(), r) && Fits(Now(), r, sz)
      modifies this
      ensures done <= |src| && (ok <==> done == |src|)
      ensures Wrote(old(Now()), Now(), r, sz, dstva, src[..done])
      ensures MayWrite(old(Now()), r, sz, dstva, dstva + done)
      ensures !ok ==>
                !Writable(old(Now()), r, sz, (dstva + done) / PGSIZE) || |old(free)| < 3 * Touched(dstva, done + 1)
      ensures |free| + 3 * Touched(dstva, |src|) >= |old(free)|
    {
      CalmRefl(Now(), r, sz);
      WroteNothing(Now(), Now(), r, sz, dstva);
      var rest, a := src, dstva;
      done := 0;
      while |rest| > 0
        invariant done <= |src| && rest == src[done..] && a == dstva + done
        invariant Wrote(old(Now()), Now(), r, sz, dstva, src[..done])
        invariant MayWrite(old(Now()), r, sz, dstva, a)
        invariant done == 0 || done == |src| || a % PGSIZE == 0
        invariant |free| + 3 * Touched(dstva, done) >= |old(free)|
        decreases |rest|
      {
        TouchedTurn(dstva, done, |src|, a);
        ghost var before, bs := Now(), src[..done];
        WroteShape(old(Now()), before, r, sz, dstva, bs);
        WroteAllows(old(Now()), before, r, sz, dstva, bs, a / PGSIZE);
        NearFits(old(Now()), before, r, 0, TRAPFRAME, {}, sz);
        var more, n := CopyoutTurn(r, sz, a, rest);
        if !more {
          WroteThenCalm(old(Now()), before, Now(), r, sz, dstva, bs);
          return false, done;
        }
        WroteOn(old(Now()), before, Now(), r, sz, dstva, src, done, a, n);
        MayWriteMore(old(Now()), r, sz, dstva, a, n);
        assert rest[n..] == src[done + n..];
        done, rest, a := done + n, rest[n..], a + n;
      }
      return true, done;
    }

    /** One page of uvmcopy. */
    method CopyPage(r: nat, q: nat, a: nat, ghost v: nat) returns (ok: bool)
      requires Sane(Now()) && Root(Now(), r) && Root(Now(), q) && r != q && a % PGSIZE == 0
               && v == a / PGSIZE < TRAPFRAME
      requires !IsValid(Entry(Now(), q, v))
      modifies this
      ensures ok ==> Near(old(Now()), Now(), q, v, v + 1, {}) && Seen(Now(), q, v) == Seen(old(Now()), r, v)
      ensures !ok ==> Near(old(Now()), Now(), q, 0, 0, {}) && |old(free)| < 3
      ensures |free| + 3 >= |old(free)|
    {
      PteParts(0, 0);
      NearRefl(Now(), q, v, v + 1, {});
      var t := Walk(r, a, false);
      if t == 0 {
        return true;
      }
      var pte := tabs[t][Px(0, a)];
      if !IsValid(pte) {
        return true;
      }
      LeafOwned(Now(), r, v);
      HeldHasData(Now(), Ppn(pte));
      var p, _ := PlaceOne(q, a, Flags(pte), data[Ppn(pte)]);
      return p != 0;
    }

    /** One turn of uvmcopy, with the first v pages copied: one more is, or all of them are taken back. */
    method CopyTurn(r: nat, q: nat, i: nat, ghost was: Mem, ghost v: nat) returns (ok: bool, ghost v': nat)
      requires r != q && Forked(was, Now(), r, q, v) && i == v * PGSIZE && v < TRAPFRAME && Root(was, q)
      requires AllUnmapped(was, q, 0, v + 1)
      modifies this
      ensures v' == v + 1 && (ok ==> |free| + 3 >= |old(free)|)
      ensures ok ==> Forked(was, Now(), r, q, v')
      ensures !ok ==> Near(was, Now(), q, 0, 0, {}) && |old(free)| < 3
    {
      ghost var before := Now();
      ForkedShape(was, before, r, q, v);
      NearEntry(was, before, q, 0, v, {}, q, v);
      assert i / PGSIZE == v;
      ok := CopyPage(r, q, i, v);
      v' := v + 1;
      if !ok {
        ghost var after := Now();
        NearShape(before, after, q, 0, 0, {});
        var n := i / PGSIZE;
        var _ := Uvmunmap(q, 0, n, true);
        RolledBack(was, before, after, Now(), q, 0, v);
      } else {
        v' := ForkedMore(was, before, Now(), r, q, v);
      }
    }

    /** uvmcopy: tree q gets a copy of every page of tree r below sz; on failure it has none of them. */
    method Uvmcopy(r: nat, q: nat, sz: nat) returns (ok: bool)
      requires Sane(Now()) && Root(Now(), r) && Root(Now(), q) && r != q && PagesOf(sz) <= TRAPFRAME
      requires AllUnmapped(Now(), q, 0, PagesOf(sz))
      modifies this
      ensures ok ==> Forked(old(Now()), Now(), r, q, PagesOf(sz))
      ensures !ok ==> Near(old(Now()), Now(), q, 0, 0, {}) && |old(free)| < 3 * PagesOf(sz)
    {
      var i := 0;
      ghost var v := 0;
      ForkedNothing(Now(), r, q);
      while i < sz
        invariant i == v * PGSIZE && v <= PagesOf(sz)
        invariant Forked(old(Now()), Now(), r, q, v)
        invariant |free| + 3 * v >= |old(free)|
        decreases PagesOf(sz) - v
      {
        PagesOfIs(sz, v);
        ok, v := CopyTurn(r, q, i, old(Now()), v);
        if !ok {
          return false;
        }
        i := i + PGSIZE;
      }
      PagesOfIs(sz, v);
      return true;
    }

    /** growproc; a size that would be below 0 wraps round to a large one, and nothing happens.  It does not
        test the new size: growing into the fixed pages at the top panics, unless memory runs out before. */
    method Growproc(r: nat, sz: nat, n: int) returns (ok: bool, panic: bool, sz2: nat)
      requires Sane(Now()) && Root(Now(), r) && AllUnmapped(Now(), r, PagesOf(sz), TRAPFRAME)
      requires -0x8000_0000 <= n < 0x8000_0000 && (n > 0 ==> Fits(Now(), r, sz + n) && sz + n + PGSIZE <= U64)
      requires n < 0 ==> PagesOf(sz) <= TRAPFRAME
      modifies this
      ensures ok ==> !panic && sz2 == NewSize(sz, n) && Resized(old(Now()), Now(), r, sz, sz2)
      ensures panic ==> n > 0 && Overruns(sz, sz + n)
      ensures n > 0 && Overruns(sz, sz + n) ==> !ok
      ensures !ok && !panic ==>
                n > 0 && sz2 == sz && Near(old(Now()), Now(), r, 0, 0, {})
                && |old(free)| < Needed(PagesOf(sz), PagesOf(sz + n))
    {
      sz2, panic := sz, false;
      if n > 0 {
        sz2, panic := Uvmalloc(r, sz, sz + n, 4);
        if sz2 == 0 {
          return false, panic, sz;
        }
        if PagesOf(sz2) <= TRAPFRAME {
          ResizedByGrowing(old(Now()), Now(), r, sz, sz2);
        } else {
          ResizedLazily(Now(), r, sz, sz2);
        }
      } else if n < 0 {
        sz2 := Uvmdealloc(r, sz, (sz + n) % U64);
        if sz + n < 0 {
          ResizedLazily(Now(), r, sz, sz);
        } else {
          ResizedByShrinking(old(Now()), Now(), r, sz, sz2);
        }
      } else {
        ResizedLazily(Now(), r, sz, sz);
      }
      return true, false, sz2;
    }

    /** sys_sbrk: eager or lazy, the process sees the same change of size.  Lazy growth takes any size below
        2^64, past the fixed pages and past MAXVA too; eager growth into them panics. */
    method Sbrk(r: nat, sz: nat, n: int, eager: bool) returns (ok: bool, panic: bool, sz2: nat)
      requires Sane(Now()) && Root(Now(), r) && AllUnmapped(Now(), r, PagesOf(sz), TRAPFRAME)
      requires -0x8000_0000 <= n < 0x8000_0000 && sz < U64 && (n < 0 ==> PagesOf(sz) <= TRAPFRAME)
      requires eager && n > 0 ==> Fits(Now(), r, sz + n) && sz + n + PGSIZE <= U64
      modifies this
      ensures ok ==> !panic && sz2 == NewSize(sz, n) && Resized(old(Now()), Now(), r, sz, sz2)
      ensures !eager && n >= 0 ==> (ok <==> sz + n < U64) && !panic && Now() == old(Now())
      ensures panic ==> n > 0 && Overruns(sz, sz + n)
      ensures eager && n > 0 && Overruns(sz, sz + n) ==> !ok
      ensures !ok && !panic ==> n > 0 && sz2 == sz && Near(old(Now()), Now(), r, 0, 0, {})
      ensures !ok && !panic && eager ==> |old(free)| < Needed(PagesOf(sz), PagesOf(sz + n))
    {
      if eager || n < 0 {
        ok, panic, sz2 := Growproc(r, sz, n);
      } else {
        if (sz + n) % U64 < sz {
          NearRefl(Now(), r, 0, 0, {});
          return false, false, sz;
        }
        ResizedLazily(Now(), r, sz, sz + n);
        return true, false, sz + n;
      }
    }

    /** A process that calls lazy sbrk often enough is larger than MAXVA, with no memory used, and then a
        copyin from MAXVA panics. */
    method OutgrowAndPanic(r: nat, sz: nat) returns (sz2: nat, panic: bool)
      requires Sane(Now()) && Root(Now(), r) && Private(Now(), r) && Topped(Now(), r)
      requires AllUnmapped(Now(), r, PagesOf(sz), TRAPFRAME) && sz <= MAXV * PGSIZE
      modifies this
      ensures sz2 > MAXV * PGSIZE && panic
    {
      sz2 := sz;
      var n := 0x7fff_ffff;
      while sz2 <= MAXV * PGSIZE
        invariant sz <= sz2 <= MAXV * PGSIZE + n && Now() == old(Now())
        decreases MAXV * PGSIZE + n - sz2
      {
        var ok, _, next := Sbrk(r, sz2, n, false);
        sz2 := next;
      }
      var ok, bytes;
      ok, panic, bytes := Copyin(r, sz2, MAXV * PGSIZE, 1);
    }

    /** freewalk of table pt, which in m0 is table x of a level of the bare tree r: it frees exactly the tables
        at and below pt, and never meets a leaf. */
    method Freewalk(pt: nat, ghost m0: Mem, ghost r: nat, ghost level: nat, ghost x: nat)
      requires Sane(m0) && Root(m0, r) && Bare(m0, r) && pt in m0.owner && m0.owner[pt] == Table(r, level, x)
      requires Whole(m0, Under(m0, r, level, x), tabs, free) && Distinct(free)
      modifies this`tabs, this`free
      ensures Freed(old(tabs), old(free), tabs, free, Under(m0, r, level, x))
      decreases level
    {
      UnderIs(m0, r, level, x, pt);
      TableSize(m0, pt);
      for i := 0 to PTES
        invariant pt in tabs && |tabs[pt]| == PTES && pt in m0.tabs && |m0.tabs[pt]| == PTES && pt !in free
        invariant forall k :: i <= k < PTES ==> tabs[pt][k] == m0.tabs[pt][k]
        invariant Freed(old(tabs) - {pt}, old(free), tabs - {pt}, free, Kids(m0, r, level, x, i))
      {
        BareEntry(m0, r, level, x, pt, i);
        var pte := tabs[pt][i];
        ghost var t0, f0 := tabs, free;
        if IsValid(pte) && !IsLeaf(pte) {
          KidsStep(m0, r, level, x, i);
          StillWhole(m0, r, level, x, i, pt, old(tabs), old(free), tabs, free);
          Freewalk(Ppn(pte), m0, r, level - 1, x * 512 + i);
          ghost var t1 := tabs;
          var table: seq<nat> := tabs[pt][i := 0];
          tabs := tabs[pt := table];
          FreedBelow(old(tabs), old(free), t0, f0, t1, free, pt, table, Kids(m0, r, level, x, i),
                     Under(m0, r, level - 1, x * 512 + i));
        } else if IsValid(pte) {
          assert false;
        } else {
          NoKid(m0, r, level, x, i);
        }
      }
      free := [pt] + free;
      tabs := tabs - {pt};
    }

    /** uvmcreate: an empty address space, or 0 when no page is free. */
    method Uvmcreate() returns (r: nat)
      requires Sane(Now())
      modifies this
      ensures r == 0 <==> old(free) == []
      ensures r == 0 ==> Now() == old(Now())
      ensures r != 0 ==> Created(old(Now()), Now(), r) && free == old(free)[1..]
    {
      r := Kalloc(0);
      if r == 0 {
        return 0;
      }
      ghost var mid := Now();
      tabs := tabs[r := ZeroTable()];
      data := data - {r};
      owner := owner[r := Table(r, 2, 0)];
      CreatedBy(old(Now()), mid, Now(), r);
    }

    /** uvmfree: every page of the address space is free again.  It panics exactly if the size is past MAXVA. */
    method Uvmfree(r: nat, sz: nat) returns (panic: bool)
      requires Sane(Now()) && Root(Now(), r) && AllUnmapped(Now(), r, PagesOf(sz), MAXV)
      requires PagesOf(sz) <= TRAPFRAME || AllUnmapped(Now(), r, TRAPFRAME, MAXV)
      modifies this
      ensures panic <==> PagesOf(sz) > MAXV
      ensures !panic ==> Vanished(old(Now()), Now(), r)
    {
      NothingCleared(Now(), r, 0, true);
      panic := false;
      if sz > 0 {
        panic := Uvmunmap(r, 0, RoundUp(sz) / PGSIZE, true);
        if panic {
          return;
        }
      }
      ghost var mid := Now();
      UnmappedShape(old(Now()), mid, r, 0, PagesOf(sz));
      BareAfter(old(Now()), mid, r, 0, PagesOf(sz));
      WholeTree(mid, r);
      Freewalk(r, mid, r, 2, 0);
      owner := map p | p in owner :: if owner[p].Table? && owner[p].root == r then Free else owner[p];
      TakenVanished(mid, Now(), r);
      UnmappedThenVanished(old(Now()), mid, Now(), r, 0, PagesOf(sz));
    }

    /** uvmunmap of the trampoline or the trapframe, which are not freed. */
    method UnmapTop(r: nat, v: nat)
      requires Sane(Now()) && Root(Now(), r) && TRAPFRAME <= v < MAXV
      modifies this
      ensures Unmapped(old(Now()), Now(), r, v, v + 1) && Sane(Now()) && Root(Now(), r)
    {
      var a := v * PGSIZE;
      assert a / PGSIZE == v && a % PGSIZE == 0;
      var _ := Uvmunmap(r, a, 1, false);
      ClearedBorrowed(old(Now()), Now(), r, v, v + 1);
      UnmappedShape(old(Now()), Now(), r, v, v + 1);
    }

    /** proc_freepagetable, for any size. */
    method ProcFreepagetable(r: nat, sz: nat) returns (panic: bool)
      requires Sane(Now()) && Root(Now(), r) && AllUnmapped(Now(), r, PagesOf(sz), TRAPFRAME)
      modifies this
      ensures panic <==> PagesOf(sz) > MAXV
      ensures !panic ==> Vanished(old(Now()), Now(), r)
    {
      ghost var n := if PagesOf(sz) <= TRAPFRAME then PagesOf(sz) else TRAPFRAME;
      UnmapTop(r, TRAMPOLINE);
      ghost var m1 := Now();
      UnmapTop(r, TRAPFRAME);
      ghost var m2 := Now();
      TopCleared(old(Now()), m1, m2, r, n);
      panic := Uvmfree(r, sz);
      if panic {
        return;
      }
      UnmappedThenVanished(m1, m2, Now(), r, TRAPFRAME, TRAPFRAME + 1);
      UnmappedThenVanished(old(Now()), m1, Now(), r, TRAMPOLINE, TRAMPOLINE + 1);
    }
  }
}
