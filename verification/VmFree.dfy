/**
  Taking an address space apart: which tables freewalk visits, and what is left
  when all tables of a tree are gone.
 */
module VmFree {
  import opened Base
  import opened Fold
  import opened Vm
  import opened VmSpace
  import opened VmOps

  const VANISHED := 61

  /** The number of the level-`level` table above table y of level l. */
  function Anc(l: nat, y: nat, level: nat): nat
    decreases level - l
  {
    if level <= l then y else Anc(l + 1, y / 512, level)
  }

  ghost predicate IsUnder(m: Mem, r: nat, level: nat, x: nat, p: nat) {
    p in m.owner && m.owner[p].Table? && m.owner[p].root == r && m.owner[p].level <= level
    && Anc(m.owner[p].level, m.owner[p].x, level) == x
  }

  /** The tables of tree r at and below table x of a level. */
  ghost function Under(m: Mem, r: nat, level: nat, x: nat): set<nat> {
    set p | p in m.owner && IsUnder(m, r, level, x, p)
  }

  ghost predicate IsKid(m: Mem, r: nat, level: nat, x: nat, i: nat, p: nat) {
    && p in m.owner && m.owner[p].Table? && m.owner[p].root == r && m.owner[p].level < level
    && x * 512 <= Anc(m.owner[p].level, m.owner[p].x, level - 1) < x * 512 + i
  }

  /** The tables below the first i entries of table x of a level. */
  ghost function Kids(m: Mem, r: nat, level: nat, x: nat, i: nat): set<nat> {
    set p | p in m.owner && IsKid(m, r, level, x, i, p)
  }

  lemma {:induction false} AncUp(l: nat, y: nat, level: nat)
    requires l < level
    ensures Anc(l, y, level) == Anc(l, y, level - 1) / 512
    decreases level - l
  {
    if l + 1 < level {
      AncUp(l + 1, y / 512, level);
    }
  }

  lemma {:induction false} KidsStep(m: Mem, r: nat, level: nat, x: nat, i: nat)
    requires level > 0
    ensures Kids(m, r, level, x, i + 1) == Kids(m, r, level, x, i) + Under(m, r, level - 1, x * 512 + i)
    ensures Kids(m, r, level, x, i) !! Under(m, r, level - 1, x * 512 + i)
  {
  }

  lemma {:induction false} NoKid(m: Mem, r: nat, level: nat, x: nat, i: nat)
    requires level > 0 ==> Under(m, r, level - 1, x * 512 + i) == {}
    ensures Kids(m, r, level, x, i + 1) == Kids(m, r, level, x, i)
  {
    if level > 0 {
      KidsStep(m, r, level, x, i);
    }
  }

  /** A table and the tables below its 512 entries are all the tables under it. */
  lemma {:induction false} UnderIs(m: Mem, r: nat, level: nat, x: nat, pt: nat)
    requires Sane(m) && Root(m, r) && pt in m.owner && m.owner[pt] == Table(r, level, x)
    ensures Under(m, r, level, x) == {pt} + Kids(m, r, level, x, 512) && pt !in Kids(m, r, level, x, 512)
  {
    TableLooked(m, pt);
    forall p ensures IsUnder(m, r, level, x, p) <==> p == pt || IsKid(m, r, level, x, 512, p) {
      if p in m.owner && m.owner[p].Table? && m.owner[p].root == r {
        TableLooked(m, p);
        var o := m.owner[p];
        if o.level < level {
          AncUp(o.level, o.x, level);
        }
      }
    }
  }

  /** Where there is no table there are none below. */
  lemma {:induction false} NothingUnder(m: Mem, r: nat, level: nat, x: nat)
    requires Sane(m) && Root(m, r) && level < 2 && Look(m, r, level, x) == 0
    ensures Under(m, r, level, x) == {}
  {
    forall p ensures !IsUnder(m, r, level, x, p) {
      if IsUnder(m, r, level, x, p) {
        TableLooked(m, p);
        NoPageZero(m);
        LookDown(m, r, m.owner[p].x);
      }
    }
  }

  /** The tables in `gone` have been freed. */
  ghost predicate Freed(tabs: map<nat, seq<nat>>, free: seq<nat>, tabs': map<nat, seq<nat>>, free': seq<nat>,
                        gone: set<nat>) {
    tabs' == tabs - gone && (forall p :: p in free' <==> p in free || p in gone) && Distinct(free')
  }

  lemma {:induction false} FreedMore(t0: map<nat, seq<nat>>, f0: seq<nat>, t1: map<nat, seq<nat>>, f1: seq<nat>,
                                     t2: map<nat, seq<nat>>, f2: seq<nat>, g: set<nat>, g': set<nat>)
    requires Freed(t0, f0, t1, f1, g) && Freed(t1, f1, t2, f2, g')
    ensures Freed(t0, f0, t2, f2, g + g')
  {
  }

  lemma {:induction false} FreedBelow(told: map<nat, seq<nat>>, fold: seq<nat>, t0: map<nat, seq<nat>>, f0: seq<nat>,
                                      t1: map<nat, seq<nat>>, f1: seq<nat>,
                                      pt: nat, row: seq<nat>, kids: set<nat>, us: set<nat>)
    requires Freed(told - {pt}, fold, t0 - {pt}, f0, kids) && Freed(t0, f0, t1, f1, us) && pt !in us
    ensures Freed(told - {pt}, fold, t1[pt := row] - {pt}, f1, kids + us)
  {
    assert t1[pt := row] - {pt} == t0 - {pt} - us;
    FreedMore(told - {pt}, fold, t0 - {pt}, f0, t1[pt := row] - {pt}, f1, kids, us);
  }

  /** The tables in us are still as in m0. */
  ghost predicate Whole(m0: Mem, us: set<nat>, tabs: map<nat, seq<nat>>, free: seq<nat>) {
    forall p :: p in us ==> p in tabs && p in m0.tabs && tabs[p] == m0.tabs[p] && p !in free
  }

  lemma {:induction false} StillWhole(m0: Mem, r: nat, level: nat, x: nat, i: nat, pt: nat, t0: map<nat, seq<nat>>,
                                      f0: seq<nat>, t: map<nat, seq<nat>>, f: seq<nat>)
    requires Sane(m0) && Root(m0, r) && pt in m0.owner && m0.owner[pt] == Table(r, level, x) && level > 0 && i < 512
    requires Whole(m0, Under(m0, r, level, x), t0, f0) && Freed(t0 - {pt}, f0, t - {pt}, f, Kids(m0, r, level, x, i))
    ensures Whole(m0, Under(m0, r, level - 1, x * 512 + i), t, f) && pt !in Under(m0, r, level - 1, x * 512 + i)
  {
    UnderIs(m0, r, level, x, pt);
    KidsStep(m0, r, level, x, i);
    forall p | p in Under(m0, r, level - 1, x * 512 + i)
      ensures p in t && p in m0.tabs && t[p] == m0.tabs[p] && p !in f && p != pt
    {
      assert IsKid(m0, r, level, x, 512, p);
      assert p in t - {pt};
    }
  }

  lemma {:induction false} WholeTree(m: Mem, r: nat)
    requires Sane(m)
    ensures Whole(m, Under(m, r, 2, 0), m.tabs, m.free) && Distinct(m.free)
  {
    assert Unfold(PAGES, 0);
  }

  /** No page of tree r is mapped. */
  ghost predicate Bare(m: Mem, r: nat) { AllUnmapped(m, r, 0, VPNS) }

  /** Entry k of a table of a bare tree: at level 0 not valid, higher up the table below or nothing. */
  lemma {:induction false} BareEntry(m: Mem, r: nat, level: nat, x: nat, pt: nat, k: nat)
    requires Sane(m) && Root(m, r) && Bare(m, r) && pt in m.owner && m.owner[pt] == Table(r, level, x) && k < PTES
    ensures pt in m.tabs && |m.tabs[pt]| == PTES
    ensures IsValid(m.tabs[pt][k]) ==> level > 0 && !IsLeaf(m.tabs[pt][k])
    ensures IsValid(m.tabs[pt][k]) ==>
              Ppn(m.tabs[pt][k]) in m.owner && m.owner[Ppn(m.tabs[pt][k])] == Table(r, level - 1, x * 512 + k)
    ensures level > 0 && !IsValid(m.tabs[pt][k]) ==> Under(m, r, level - 1, x * 512 + k) == {}
  {
    TableLooked(m, pt);
    TableSize(m, pt);
    Split512(x, k);
    if level == 0 {
      EntryIs(m, r, x * 512 + k);
    } else {
      LookDown(m, r, x * 512 + k);
      LookDown(m, r, x);
      if IsValid(m.tabs[pt][k]) {
        DownEntry(m, pt, k);
        LookOwned(m, r, level - 1, x * 512 + k);
      } else {
        NothingUnder(m, r, level - 1, x * 512 + k);
      }
    }
  }

  // ------------------------------------------------------------ a tree is gone

  predicate OfTree(o: Owner, r: nat) { (o.Table? || o.Leaf?) && o.root == r }

  /** Every page of tree r is free, and everything else is as it was. */
  ghost predicate Vanished(was: Mem, m: Mem, r: nat) {
    forall u {:trigger Unfold(VANISHED, u)} :: Unfold(VANISHED, u) ==>
      && Sane(was) && Sane(m) && m.owner.Keys == was.owner.Keys
      && (forall p :: p in was.owner ==> m.owner[p] == if OfTree(was.owner[p], r) then Free else was.owner[p])
      && (forall q, v :: Root(was, q) && q != r && 0 <= v < VPNS ==> Entry(m, q, v) == Entry(was, q, v))
      && (forall p ::
            p in was.owner && (was.owner[p].Leaf? || was.owner[p].Held?) && !OfTree(was.owner[p], r) ==>
              PageKept(was, m, p))
  }

  /** m' is m without the tables of the bare tree r. */
  ghost predicate TreeTaken(m: Mem, m': Mem, r: nat) {
    && Sane(m) && Root(m, r) && Bare(m, r) && m'.data == m.data && m'.owner.Keys == m.owner.Keys
    && Freed(m.tabs, m.free, m'.tabs, m'.free, Under(m, r, 2, 0))
    && forall p ::
         p in m.owner ==> m'.owner[p] == if m.owner[p].Table? && m.owner[p].root == r then Free else m.owner[p]
  }

  lemma {:induction false} AllUnder(m: Mem, r: nat)
    requires Sane(m)
    ensures forall p :: p in Under(m, r, 2, 0) <==> p in m.owner && m.owner[p].Table? && m.owner[p].root == r
  {
    forall p | p in m.owner && m.owner[p].Table? && m.owner[p].root == r ensures IsUnder(m, r, 2, 0, p) {
      TableLooked(m, p);
      var o := m.owner[p];
      if o.level < 2 {
        AncUp(o.level, o.x, 2);
        if o.level == 0 {
          AncUp(0, o.x, 1);
        }
      }
    }
  }

  lemma {:induction false} TakenLook(m: Mem, m': Mem, r: nat, q: nat, l: nat, x: nat)
    requires TreeTaken(m, m', r) && Root(m, q) && q != r && l <= 2 && x < Span(l)
    ensures Look(m', q, l, x) == Look(m, q, l, x)
  {
    AllUnder(m, r);
    NoPageZero(m);
    LookIs(m, q, l, x);
    LookIs(m', q, l, x);
    if l == 0 {
      SpanDown(x);
      LookDown(m, q, x / 512);
      if Look(m, q, 1, x / 512) != 0 {
        LookOwned(m, q, 1, x / 512);
      }
    }
  }

  lemma {:induction false} TakenEntry(m: Mem, m': Mem, r: nat, q: nat, v: nat)
    requires TreeTaken(m, m', r) && Root(m, q) && q != r && v < VPNS
    ensures Entry(m', q, v) == Entry(m, q, v)
  {
    AllUnder(m, r);
    NoPageZero(m);
    SpanDown(0);
    TakenLook(m, m', r, q, 0, v / 512);
    EntryIs(m, q, v);
    EntryIs(m', q, v);
    if Look(m, q, 0, v / 512) != 0 {
      LookOwned(m, q, 0, v / 512);
    }
  }

  lemma {:induction false} TakenRoot(m: Mem, m': Mem, r: nat, q: nat)
    requires TreeTaken(m, m', r)
    ensures Root(m', q) <==> Root(m, q) && q != r
  {
  }

  lemma {:induction false} TakenPages(m: Mem, m': Mem, r: nat)
    requires TreeTaken(m, m', r)
    ensures Pages(m')
  {
    AllUnder(m, r);
    assert Unfold(PAGES, 0);
  }

  lemma {:induction false} TakenTree(m: Mem, m': Mem, r: nat)
    requires TreeTaken(m, m', r)
    ensures Tree(m')
  {
    AllUnder(m, r);
    forall p | p in m'.owner && m'.owner[p].Table?
      ensures var w := m'.owner[p];
              w.level <= 2 && w.x < Span(w.level) && Root(m', w.root) && Look(m', w.root, w.level, w.x) == p
    {
      TableLooked(m, p);
      var w := m.owner[p];
      TakenRoot(m, m', r, w.root);
      TakenLook(m, m', r, w.root, w.level, w.x);
    }
    forall q, l, x | Root(m', q) && 0 <= l <= 2 && 0 <= x < Span(l) && Look(m', q, l, x) != 0
      ensures Look(m', q, l, x) in m'.owner && m'.owner[Look(m', q, l, x)] == Table(q, l, x)
    {
      TakenRoot(m, m', r, q);
      TakenLook(m, m', r, q, l, x);
      LookOwned(m, q, l, x);
    }
    forall p, j | p in m'.owner && m'.owner[p].Table? && m'.owner[p].level > 0 && IsValid(Raw(m', p, j))
      ensures !IsLeaf(Raw(m', p, j)) && Ppn(Raw(m', p, j)) != 0
    {
      PteParts(0, 0);
      DownEntry(m, p, j);
    }
  }

  lemma {:induction false} TakenLeaves(m: Mem, m': Mem, r: nat)
    requires TreeTaken(m, m', r)
    ensures Leaves(m')
  {
    forall p | p in m'.owner && m'.owner[p].Leaf?
      ensures var o := m'.owner[p];
              o.v < TRAPFRAME && Root(m', o.root) && IsValid(Entry(m', o.root, o.v)) && Ppn(Entry(m', o.root, o.v)) == p
    {
      LeafMapped(m, p);
      var o := m.owner[p];
      TakenRoot(m, m', r, o.root);
      TakenEntry(m, m', r, o.root, o.v);
    }
    forall q, w | Root(m', q) && 0 <= w < VPNS
      ensures Root(m, q) && Entry(m', q, w) == Entry(m, q, w)
      ensures !IsValid(Entry(m', q, w)) ==> Entry(m', q, w) == 0
    {
      TakenRoot(m, m', r, q);
      TakenEntry(m, m', r, q, w);
      InvalidIsZero(m, q, w);
    }
    forall q, w | Root(m', q) && 0 <= w < VPNS && IsValid(Entry(m', q, w))
      ensures && w < MAXV && IsLeaf(Entry(m', q, w))
              && (w < TRAPFRAME ==> Ppn(Entry(m', q, w)) in m'.owner && m'.owner[Ppn(Entry(m', q, w))] == Leaf(q, w))
    {
      assert Root(m, q) && Entry(m', q, w) == Entry(m, q, w);
      LeafOwned(m, q, w);
    }
  }

  lemma {:induction false} TakenVanished(m: Mem, m': Mem, r: nat)
    requires TreeTaken(m, m', r)
    ensures Vanished(m, m', r)
  {
    TakenPages(m, m', r);
    TakenTree(m, m', r);
    TakenLeaves(m, m', r);
    forall p | p in m.owner && m.owner[p].Leaf? ensures m.owner[p].root != r {
      LeafMapped(m, p);
    }
    forall q, v | Root(m, q) && q != r && 0 <= v < VPNS ensures Entry(m', q, v) == Entry(m, q, v) {
      TakenEntry(m, m', r, q, v);
    }
    forall p | p in m.owner && (m.owner[p].Leaf? || m.owner[p].Held?) ensures p in m.data {
      HeldHasData(m, p);
    }
  }

  lemma {:induction false} VanishedShape(was: Mem, m: Mem, r: nat)
    requires Vanished(was, m, r)
    ensures Sane(m) && !Root(m, r) && m.owner.Keys == was.owner.Keys
  {
    assert Unfold(VANISHED, 0);
  }

  /** Unmapping some pages of tree r and then taking it apart frees all it had. */
  lemma {:induction false} UnmappedThenVanished(was: Mem, mid: Mem, m: Mem, r: nat, lo: nat, hi: nat)
    requires Unmapped(was, mid, r, lo, hi) && Vanished(mid, m, r) && Sane(was)
    ensures Vanished(was, m, r)
  {
    UnmappedShape(was, mid, r, lo, hi);
    forall q, v | Root(was, q) && q != r && 0 <= v < VPNS ensures Entry(m, q, v) == Entry(was, q, v) {
      NearShape(was, mid, r, lo, hi, {});
      NearEntry(was, mid, r, lo, hi, {}, q, v);
      assert Unfold(VANISHED, 0);
    }
    assert forall p :: p in was.owner ==> m.owner[p] == if OfTree(was.owner[p], r) then Free else was.owner[p] by {
      assert Unfold(DROPPED, 0);
      assert Unfold(VANISHED, 0);
    }
    forall p | p in was.owner && (was.owner[p].Leaf? || was.owner[p].Held?) && !OfTree(was.owner[p], r)
      ensures PageKept(was, m, p) {
      if was.owner[p].Leaf? {
        NearLeaf(was, mid, r, lo, hi, {}, p);
      } else {
        NearHeld(was, mid, r, lo, hi, {}, p);
      }
      assert PageKept(mid, m, p) by { assert Unfold(VANISHED, 0); }
    }
    VanishedShape(mid, m, r);
    NearShape(was, mid, r, lo, hi, {});
  }

  lemma {:induction false} BareAfter(was: Mem, m: Mem, r: nat, lo: nat, hi: nat)
    requires Unmapped(was, m, r, lo, hi) && AllUnmapped(was, r, 0, lo) && AllUnmapped(was, r, hi, MAXV)
    ensures Bare(m, r)
  {
    UnmappedShape(was, m, r, lo, hi);
    forall v | 0 <= v < VPNS ensures !IsValid(Entry(m, r, v)) {
      if v >= MAXV && IsValid(Entry(m, r, v)) {
        LeafOwned(m, r, v);
      } else if v < MAXV && !(lo <= v < hi) {
        NearEntry(was, m, r, lo, hi, {}, r, v);
      }
    }
  }

  /** A new empty tree r, made of one page that was free. */
  ghost predicate Created(was: Mem, m: Mem, r: nat) {
    && Sane(m) && Root(m, r) && r in was.owner && was.owner[r] == Free && m.owner == was.owner[r := Table(r, 2, 0)]
    && (forall v :: Entry(m, r, v) == 0)
    && (forall q, v :: Root(was, q) && 0 <= v < VPNS ==> Entry(m, q, v) == Entry(was, q, v))
    && (forall p :: p in was.data ==> p in m.data && m.data[p] == was.data[p])
  }

  lemma {:induction false} CreatedBy(was: Mem, mid: Mem, m: Mem, q: nat)
    requires Near(was, mid, 0, 0, 0, {q}) && q in was.owner && was.owner[q] == Free && mid.owner == was.owner[q := Held]
    requires m == AddRootTable(mid, q) && mid.data.Keys == was.data.Keys + {q}
             && forall p :: p in was.data ==> mid.data[p] == was.data[p]
    requires q !in was.data
    ensures Created(was, m, q)
  {
    NearShape(was, mid, 0, 0, 0, {q});
    NewRootSane(mid, q);
    forall v: nat ensures Entry(m, q, v) == 0 {
      NewRootEntry(mid, q, q, v);
    }
    forall x, v | Root(was, x) && 0 <= v < VPNS ensures Entry(m, x, v) == Entry(was, x, v) {
      NewRootEntry(mid, q, x, v);
      NearEntry(was, mid, 0, 0, 0, {q}, x, v);
    }
  }

  lemma {:induction false} AllFreeSane(m: Mem)
    requires m.tabs == map[] && m.data == map[] && Distinct(m.free) && 0 !in m.owner
    requires (forall p :: p in m.owner ==> m.owner[p] == Free) && forall p :: p in m.free <==> p in m.owner
    ensures Sane(m)
  {
  }

  /** Memory with one page, which is the root of an empty tree. */
  lemma {:induction false} OneRoot() returns (m: Mem)
    ensures Sane(m) && Root(m, 1) && m.owner.Keys == {1} && forall v :: Entry(m, 1, v) == 0
  {
    var h := Mem(map[], map[1 := ZeroPage()], [], map[1 := Held]);
    assert Sane(h);
    m := AddRootTable(h, 1);
    NewRootSane(h, 1);
    forall v: nat ensures Entry(m, 1, v) == 0 {
      NewRootEntry(h, 1, 1, v);
    }
  }
}
