/**
  The storage allocator of user/umalloc.c.  Addresses count header-sized units of
  16 bytes.  `hdr` is the memory of the headers.  The free list is the circular
  list from freep; the ghost `ring` is that list in address order, from BASE on.
  `live` are the blocks handed out, by address, with their sizes; `own` says for
  every unit that sbrk gave which block, free or live, it belongs to.
 */
module Umalloc {
  import opened Base
  import opened Fold

  const HEAP := 71
  const SMALL := 72

  datatype Header = Header(ptr: nat, size: nat)

  /** &base, below the heap; 0 is the null pointer. */
  const BASE: nat := 1

  datatype Heap = Heap(hdr: map<nat, Header>, ring: seq<nat>, live: map<nat, nat>, own: map<nat, nat>)

  // ---------------------------------------------------------------- invariant

  function Size(h: Heap, b: nat): nat { if b in h.hdr then h.hdr[b].size else 0 }
  function Ptr(h: Heap, b: nat): nat { if b in h.hdr then h.hdr[b].ptr else 0 }

  /** ring[i] is linked to its successor, and does not touch it. */
  predicate Link(h: Heap, i: nat) {
    i < |h.ring| ==>
      && h.ring[i] in h.hdr && h.hdr[h.ring[i]].ptr == (if i + 1 < |h.ring| then h.ring[i + 1] else h.ring[0])
      && (i + 1 < |h.ring| ==> h.ring[i] + h.hdr[h.ring[i]].size < h.ring[i + 1])
      && (i > 0 ==> h.hdr[h.ring[i]].size >= 1)
  }

  /** The free list is circular, in address order, and fully coalesced; base is its first and has no units. */
  ghost predicate Listed(h: Heap) {
    && |h.ring| >= 1 && h.ring[0] == BASE && Size(h, BASE) == 0
    && (forall i, j :: 0 <= i < j < |h.ring| ==> h.ring[i] < h.ring[j])
    && (forall i {:trigger Link(h, i)} :: Link(h, i))
  }

  ghost predicate IsFree(h: Heap, b: nat) { b in h.ring && b != BASE }

  /** A block has exactly the units from its address on. */
  ghost predicate Block(h: Heap, b: nat) {
    && (b in h.live ==> b !in h.ring && b in h.hdr && h.hdr[b].size == h.live[b] >= 1)
    && (IsFree(h, b) || b in h.live ==> b > BASE)
  }

  ghost predicate Unit(h: Heap, b: nat, u: nat) {
    IsFree(h, b) || b in h.live ==> ((u in h.own && h.own[u] == b) <==> b <= u < b + Size(h, b))
  }

  ghost predicate Owner(h: Heap, u: nat) { u in h.own ==> u > BASE && (IsFree(h, h.own[u]) || h.own[u] in h.live) }

  ghost predicate Owned(h: Heap) {
    && (forall b {:trigger Block(h, b)} :: Block(h, b))
    && (forall b, u {:trigger Unit(h, b, u)} :: Unit(h, b, u))
    && (forall u {:trigger Owner(h, u)} :: Owner(h, u))
  }

  ghost predicate Valid(h: Heap) { Listed(h) && Owned(h) }

  /** Valid, folded. */
  ghost predicate Sound(h: Heap) { forall u {:trigger Unfold(HEAP, u)} :: Unfold(HEAP, u) ==> Valid(h) }

  lemma {:induction false} LinkAt(h: Heap, i: nat)
    requires Sound(h)
    ensures Link(h, i) && |h.ring| >= 1 && h.ring[0] == BASE && Size(h, BASE) == 0
    ensures i < |h.ring| ==> h.ring[i] >= BASE && (i > 0 ==> h.ring[i] > h.ring[i - 1])
  {
    assert Unfold(HEAP, 0);
  }

  lemma {:induction false} BlockAt(h: Heap, b: nat)
    requires Sound(h)
    ensures Block(h, b)
  {
    assert Unfold(HEAP, 0);
  }

  /** Two blocks have no unit in common. */
  lemma {:induction false} Disjoint(h: Heap, a: nat, b: nat, u: nat)
    requires Sound(h) && (IsFree(h, a) || a in h.live) && (IsFree(h, b) || b in h.live) && a != b
    ensures !(a <= u < a + Size(h, a) && b <= u < b + Size(h, b))
  {
    assert Unfold(HEAP, 0);
    assert Unit(h, a, u) && Unit(h, b, u);
  }

  // --------------------------------------------------------------------- free

  /** ring[i] is the last free block below b. */
  predicate Spot(h: Heap, b: nat, i: nat) { i < |h.ring| && h.ring[i] < b && (i + 1 < |h.ring| ==> b < h.ring[i + 1]) }

  lemma {:induction false} SpotExists(h: Heap, b: nat) returns (i: nat)
    requires Sound(h) && b > BASE && b !in h.ring
    ensures Spot(h, b, i)
  {
    assert Unfold(HEAP, 0);
    i := 0;
    while i + 1 < |h.ring| && h.ring[i + 1] < b
      invariant i < |h.ring| && h.ring[i] < b
    {
      i := i + 1;
    }
  }

  /** The loop of free stops at p. */
  predicate Stops(b: nat, p: nat, next: nat) { (b > p && b < next) || (p >= next && (b > p || b < next)) }

  lemma {:induction false} StopsAtSpot(h: Heap, b: nat, i: nat)
    requires Sound(h) && b > BASE && b !in h.ring && i < |h.ring|
    ensures Stops(b, h.ring[i], Ptr(h, h.ring[i])) <==> Spot(h, b, i)
  {
    assert Unfold(HEAP, 0);
    assert Link(h, i);
  }

  /** A live block lies between the free blocks around it. */
  lemma {:induction false} LiveBetween(h: Heap, b: nat, i: nat)
    requires Valid(h) && b in h.live && Spot(h, b, i)
    ensures h.ring[i] + Size(h, h.ring[i]) <= b && (i + 1 < |h.ring| ==> b + Size(h, b) <= h.ring[i + 1])
  {
    assert Block(h, b) && Link(h, i);
    if i > 0 {
      Disjoint(h, h.ring[i], b, b);
    }
    if i + 1 < |h.ring| {
      assert Link(h, i + 1);
      Disjoint(h, h.ring[i + 1], b, h.ring[i + 1]);
    }
  }

  /** The free list and headers after free puts b behind ring[i], joined to its neighbours where they touch. */
  ghost function Inserted(h: Heap, b: nat, i: nat): Heap
    requires i < |h.ring|
  {
    var p, next := h.ring[i], Ptr(h, h.ring[i]);
    var up, down := b + Size(h, b) == next, p + Size(h, p) == b;
    var merged := if up then Header(Ptr(h, next), Size(h, b) + Size(h, next)) else Header(next, Size(h, b));
    var hdr := h.hdr[b := merged][p := if down then Header(merged.ptr, Size(h, p) + merged.size)
                                  else Header(b, Size(h, p))];
    var ring := h.ring[..i + 1] + (if down then [] else [b])
      + (if up && i + 1 < |h.ring| then h.ring[i + 2..] else h.ring[i + 1..]);
    var to := if down then p else b;
    Heap(hdr, ring, h.live - {b},
         map u | u in h.own :: if h.own[u] == b || (up && h.own[u] == next) then to else h.own[u])
  }

  lemma {:induction false} InsertedOrder(h: Heap, b: nat, i: nat)
    requires Valid(h) && b in h.live && Spot(h, b, i)
    ensures var ring := Inserted(h, b, i).ring;
            |ring| >= 1 && ring[0] == BASE && (forall k, l :: 0 <= k < l < |ring| ==> ring[k] < ring[l])
  {
    assert Link(h, i);
  }

  lemma {:induction false} InsertedLink(h: Heap, b: nat, i: nat, k: nat)
    requires Valid(h) && b in h.live && Spot(h, b, i)
    ensures Link(Inserted(h, b, i), k)
  {
    var h' := Inserted(h, b, i);
    LiveBetween(h, b, i);
    assert Block(h, b) && Link(h, i) && Link(h, i + 1);
    InsertedAt(h, b, i, k);
    InsertedAt(h, b, i, k + 1);
    if k < i {
      assert Link(h, k);
    } else if k > i {
      assert Link(h, k - 1) && Link(h, k) && Link(h, k + 1);
    }
  }

  /** The entries of the new list, in terms of the old. */
  lemma {:induction false} InsertedAt(h: Heap, b: nat, i: nat, k: nat)
    requires i < |h.ring|
    ensures var ring, ring' := h.ring, Inserted(h, b, i).ring;
            var up, down := i + 1 < |ring| && b + Size(h, b) == Ptr(h, ring[i]), ring[i] + Size(h, ring[i]) == b;
            && |ring'| == |ring| + (if down then 0 else 1) - (if up then 1 else 0)
            && (k < |ring'| ==>
                  ring'[k] == if k <= i then ring[k] else if !down && k == i + 1 then b
                              else ring[k - (if down then 0 else 1) + (if up then 1 else 0)])
  {
  }

  lemma {:induction false} InsertedListed(h: Heap, b: nat, i: nat)
    requires Valid(h) && b in h.live && Spot(h, b, i)
    ensures Listed(Inserted(h, b, i))
  {
    var h' := Inserted(h, b, i);
    InsertedOrder(h, b, i);
    forall k: nat ensures Link(h', k) { InsertedLink(h, b, i, k); }
    LiveBetween(h, b, i);
    assert Block(h, b) && Link(h, i);
  }

  /** Which blocks there are after free. */
  lemma {:induction false} InsertedBlocks(h: Heap, b: nat, i: nat, x: nat)
    requires Valid(h) && b in h.live && Spot(h, b, i)
    ensures var p, next := h.ring[i], Ptr(h, h.ring[i]);
            var up, down := b + Size(h, b) == next, p + Size(h, p) == b;
            && (IsFree(Inserted(h, b, i), x) <==> (IsFree(h, x) && !(up && x == next)) || (!down && x == b))
            && (down ==> i > 0) && (up ==> i + 1 < |h.ring| && next == h.ring[i + 1])
  {
    LiveBetween(h, b, i);
    assert Block(h, b) && Link(h, i);
    var ring, ring' := h.ring, Inserted(h, b, i).ring;
    if x in ring {
      var k :| 0 <= k < |ring| && ring[k] == x;
      if k <= i {
        assert ring'[k] == x;
      } else {
        assert ring == ring[..i + 1] + ring[i + 1..];
        assert i + 2 <= k ==> ring[k] in ring[i + 2..];
      }
    }
  }

  lemma {:induction false} InsertedOwned(h: Heap, b: nat, i: nat)
    requires Valid(h) && b in h.live && Spot(h, b, i)
    ensures Owned(Inserted(h, b, i))
  {
    var h' := Inserted(h, b, i);
    LiveBetween(h, b, i);
    assert Block(h, b) && Link(h, i);
    forall x: nat ensures Block(h', x) {
      assert Block(h, x);
      InsertedBlocks(h, b, i, x);
    }
    forall u: nat ensures Owner(h', u) {
      assert Owner(h, u);
      if u in h.own {
        InsertedBlocks(h, b, i, h'.own[u]);
      }
    }
    forall x: nat, u: nat ensures Unit(h', x, u) {
      InsertedBlocks(h, b, i, x);
      assert Block(h, x) && Owner(h, u);
      assert Unit(h, x, u) && Unit(h, b, u) && Unit(h, Ptr(h, h.ring[i]), u) && Unit(h, h.ring[i], u);
    }
  }

  lemma {:induction false} InsertedValid(h: Heap, b: nat, i: nat)
    requires Sound(h) && b in h.live && Spot(h, b, i)
    ensures Sound(Inserted(h, b, i)) && Inserted(h, b, i).own.Keys == h.own.Keys && h.ring[i] in Inserted(h, b, i).ring
  {
    assert Unfold(HEAP, 0);
    InsertedListed(h, b, i);
    InsertedOwned(h, b, i);
    assert Inserted(h, b, i).ring[i] == h.ring[i];
  }

  /** The block that contained b, free now, has at least b's size. */
  lemma {:induction false} InsertedFits(h: Heap, b: nat, i: nat, n: nat)
    requires Sound(h) && b in h.live && Spot(h, b, i) && n <= Size(h, b)
    ensures !AllSmall(Inserted(h, b, i), n)
  {
    assert Unfold(HEAP, 0);
    var h' := Inserted(h, b, i);
    assert Block(h, b) && Link(h, i);
    LiveBetween(h, b, i);
    InsertedAt(h, b, i, i);
    InsertedAt(h, b, i, i + 1);
    var m := if h.ring[i] + Size(h, h.ring[i]) == b then i else i + 1;
    assert Size(h', h'.ring[m]) >= Size(h, b);
  }

  // ------------------------------------------------------------------- malloc

  function Units(a: nat, n: nat): (us: set<nat>)
    ensures forall u :: u in us <==> a <= u < a + n
  {
    if n == 0 then {} else Units(a, n - 1) + {a + n - 1}
  }

  function Assigned(own: map<nat, nat>, a: nat, n: nat): (m: map<nat, nat>)
    ensures m.Keys == own.Keys + Units(a, n)
    ensures forall u :: u in m <==> u in own || a <= u < a + n
    ensures forall u :: u in m ==> m[u] == if a <= u < a + n then a else own[u]
  {
    map u | u in own.Keys + Units(a, n) :: if a <= u < a + n then a else own[u]
  }

  /** The block ring[k] is exactly what malloc wants. */
  ghost function TakenWhole(h: Heap, k: nat): Heap
    requires 0 < k < |h.ring|
  {
    var prev, p := h.ring[k - 1], h.ring[k];
    h.(hdr := h.hdr[prev := Header(Ptr(h, p), Size(h, prev))], ring := h.ring[..k] + h.ring[k + 1..],
       live := h.live[p := Size(h, p)])
  }

  lemma {:induction false} TakenWholeLink(h: Heap, k: nat, i: nat)
    requires Valid(h) && 0 < k < |h.ring|
    ensures Link(TakenWhole(h, k), i)
  {
    assert Link(h, k) && Link(h, k - 1) && Link(h, i) && Link(h, i + 1);
    assert i + 1 == k || i != k - 1;
  }

  lemma {:induction false} TakenWholeFree(h: Heap, k: nat, x: nat)
    requires Valid(h) && 0 < k < |h.ring|
    ensures IsFree(TakenWhole(h, k), x) <==> IsFree(h, x) && x != h.ring[k]
  {
    var h' := TakenWhole(h, k);
    if x in h.ring && x != h.ring[k] {
      var m :| 0 <= m < |h.ring| && h.ring[m] == x;
      assert h'.ring[if m < k then m else m - 1] == x;
    }
  }

  lemma {:induction false} TakenWholeListed(h: Heap, k: nat)
    requires Valid(h) && 0 < k < |h.ring|
    ensures Listed(TakenWhole(h, k))
  {
    var h' := TakenWhole(h, k);
    assert Link(h, k - 1);
    forall i: nat ensures Link(h', i) { TakenWholeLink(h, k, i); }
  }

  lemma {:induction false} TakenWholeOwned(h: Heap, k: nat)
    requires Valid(h) && 0 < k < |h.ring|
    ensures Owned(TakenWhole(h, k))
  {
    var h' := TakenWhole(h, k);
    assert Link(h, k) && Link(h, k - 1) && Block(h, h.ring[k]);
    forall x: nat ensures Block(h', x) {
      TakenWholeFree(h, k, x);
      assert Block(h, x);
    }
    forall u: nat ensures Owner(h', u) {
      assert Owner(h, u);
      if u in h.own { TakenWholeFree(h, k, h.own[u]); }
    }
    forall x: nat, u: nat ensures Unit(h', x, u) {
      TakenWholeFree(h, k, x);
      assert Unit(h, x, u) && Block(h, x);
    }
  }

  lemma {:induction false} TakenWholeValid(h: Heap, k: nat)
    requires Sound(h) && 0 < k < |h.ring|
    ensures Sound(TakenWhole(h, k))
  {
    assert Unfold(HEAP, 0);
    TakenWholeListed(h, k);
    TakenWholeOwned(h, k);
  }

  /** The last n units of block ring[k], which keeps the rest. */
  ghost function TakenTail(h: Heap, k: nat, n: nat): Heap
    requires 0 < k < |h.ring| && n < Size(h, h.ring[k])
  {
    var p := h.ring[k];
    var q := p + Size(h, p) - n;
    Heap(h.hdr[p := Header(Ptr(h, p), Size(h, p) - n)][q := Header(Ptr(h, q), n)], h.ring, h.live[q := n],
         Assigned(h.own, q, n))
  }

  lemma {:induction false} TailIsNew(h: Heap, k: nat, n: nat)
    requires Sound(h) && 0 < k < |h.ring| && 0 < n < Size(h, h.ring[k])
    ensures var q := h.ring[k] + Size(h, h.ring[k]) - n;
            q !in h.live && q !in h.ring && q > BASE && TakenTail(h, k, n).own.Keys == h.own.Keys
  {
    assert Unfold(HEAP, 0);
    var p := h.ring[k];
    var q := p + Size(h, p) - n;
    assert Link(h, k) && Block(h, p) && Block(h, q) && Unit(h, p, q) && Unit(h, q, q);
    forall u | q <= u < q + n ensures u in h.own {
      assert Unit(h, p, u);
    }
  }

  lemma {:induction false} TakenTailValid(h: Heap, k: nat, n: nat)
    requires Sound(h) && 0 < k < |h.ring| && 0 < n < Size(h, h.ring[k])
    ensures Sound(TakenTail(h, k, n))
  {
    assert Unfold(HEAP, 0);
    var h', p := TakenTail(h, k, n), h.ring[k];
    var q := p + Size(h, p) - n;
    TailIsNew(h, k, n);
    forall i: nat ensures Link(h', i) { assert Link(h, i) && Link(h, k); }
    forall x: nat ensures Block(h', x) { assert Block(h, x) && Block(h, p); }
    forall u: nat ensures Owner(h', u) { assert Owner(h, u) && Owner(h', u); }
    assert Link(h, k);
    forall x: nat, u: nat ensures Unit(h', x, u) {
      assert Unit(h, x, u) && Unit(h, p, u) && Block(h, x) && Block(h, p);
      assert Owner(h, u) && (u in h'.own <==> u in h.own);
    }
  }

  lemma {:induction false} FreeHasUnits(h: Heap, b: nat)
    requires Sound(h) && IsFree(h, b)
    ensures b in h.own && h.own[b] == b
  {
    assert Unfold(HEAP, 0);
    var m :| 0 <= m < |h.ring| && h.ring[m] == b;
    assert Link(h, m) && Unit(h, b, b);
  }

  /** What sbrk gave, as a block of its own. */
  ghost function Granted(h: Heap, a: nat, n: nat): Heap {
    Heap(h.hdr[a := Header(Ptr(h, a), n)], h.ring, h.live[a := n], Assigned(h.own, a, n))
  }

  /** a is beyond all that sbrk gave before. */
  ghost predicate Beyond(h: Heap, a: nat) { a > BASE && forall u :: u in h.own ==> u < a }

  lemma {:induction false} GrantedValid(h: Heap, a: nat, n: nat)
    requires Sound(h) && Beyond(h, a) && n > 0
    ensures Sound(Granted(h, a, n)) && a !in h.ring && Granted(h, a, n).live - {a} == h.live
  {
    assert Unfold(HEAP, 0);
    var h' := Granted(h, a, n);
    assert Block(h, a) && Unit(h, a, a);
    if IsFree(h, a) {
      FreeHasUnits(h, a);
    }
    forall i: nat ensures Link(h', i) { assert Link(h, i); }
    forall x: nat ensures Block(h', x) { assert Block(h, x); }
    forall u: nat ensures Owner(h', u) { assert Owner(h, u); }
    forall x: nat, u: nat ensures Unit(h', x, u) {
      assert Unit(h, x, u) && Block(h, x) && Owner(h, u);
    }
  }

  // -------------------------------------------------------------------- sizes

  /** The units for nbytes: one for the header. */
  function Nunits(nbytes: nat): nat { (nbytes + 15) / 16 + 1 }

  /** What sbrk gets for nu units: its argument is a 32-bit int. */
  function SbrkArg(nu: nat): int {
    var n := nu * 16 % UINT;
    if n < 0x8000_0000 then n else n - UINT
  }

  /** morecore's lower limit. */
  function Asked(nu: nat): nat { if nu < 4096 then 4096 else nu }

  /** morecore asks sbrk for what malloc needs exactly when malloc is asked for at most 2^31 - 32 bytes. */
  lemma SbrkArgWhole(nbytes: nat)
    requires nbytes < UINT
    ensures SbrkArg(Asked(Nunits(nbytes))) == Asked(Nunits(nbytes)) * 16 <==> nbytes <= 0x8000_0000 - 32
  {
  }

  /** A request for 4294967280 bytes makes morecore ask sbrk for 0 bytes. */
  lemma SbrkArgWraps()
    ensures Nunits(4294967280) == 0x1000_0000 && SbrkArg(Asked(Nunits(4294967280))) == 0
  {
  }

  // ------------------------------------------------------------ the search order

  /** malloc, starting after ring[f] and now at ring[k], has been at ring[m]. */
  predicate Passed(f: nat, k: nat, m: nat) { if f <= k then f < m <= k else m > f || m <= k }

  function Next(n: nat, k: nat): nat { if k + 1 < n then k + 1 else 0 }

  /** How far round the ring k is from f. */
  function Distance(n: nat, f: nat, k: nat): int { if f <= k then k - f else n - f + k }

  lemma {:induction false} Index(ring: seq<nat>, b: nat) returns (i: nat)
    requires b in ring
    ensures i < |ring| && ring[i] == b
  {
    i :| 0 <= i < |ring| && ring[i] == b;
  }

  ghost predicate AllSmall(h: Heap, n: nat) { forall m :: 0 <= m < |h.ring| ==> Size(h, h.ring[m]) < n }

  /** The search from ring[f] to ring[k] has passed only blocks that are too small. */
  ghost predicate SmallSoFar(h: Heap, f: nat, k: nat, n: nat) {
    forall u {:trigger Unfold(SMALL, u)} :: Unfold(SMALL, u) ==>
      forall m :: 0 <= m < |h.ring| && Passed(f, k, m) ==> Size(h, h.ring[m]) < n
  }

  lemma {:induction false} SmallStart(h: Heap, f: nat, n: nat)
    ensures SmallSoFar(h, f, f, n)
  {
  }

  lemma {:induction false} SmallMore(h: Heap, f: nat, k: nat, n: nat)
    requires f < |h.ring| && k < |h.ring| && SmallSoFar(h, f, k, n) && Next(|h.ring|, k) != f
             && Size(h, h.ring[Next(|h.ring|, k)]) < n
    ensures SmallSoFar(h, f, Next(|h.ring|, k), n)
            && Distance(|h.ring|, f, Next(|h.ring|, k)) > Distance(|h.ring|, f, k)
  {
    assert Unfold(SMALL, 0);
  }

  /** Back at freep: every free block is too small. */
  lemma {:induction false} RoundDone(h: Heap, f: nat, k: nat, n: nat)
    requires Sound(h) && f < |h.ring| && k < |h.ring| && SmallSoFar(h, f, k, n)
    requires h.ring[Next(|h.ring|, k)] == h.ring[f] && Size(h, h.ring[f]) < n
    ensures AllSmall(h, n)
  {
    assert Unfold(HEAP, 0) && Unfold(SMALL, 0);
    assert Next(|h.ring|, k) == f;
    forall m | 0 <= m < |h.ring| ensures Size(h, h.ring[m]) < n {
      assert m != f ==> Passed(f, k, m);
    }
  }

  lemma {:induction false} EmptyIsSound(h: Heap)
    requires h.ring == [BASE] && h.live == map[] && h.own == map[] && BASE in h.hdr && h.hdr[BASE] == Header(BASE, 0)
    ensures Sound(h)
  {
  }

  class Allocator {
    var hdr: map<nat, Header>
    var freep: nat
    ghost var ring: seq<nat>
    ghost var live: map<nat, nat>
    ghost var own: map<nat, nat>

    ghost function Now(): Heap
      reads this
    {
      Heap(hdr, ring, live, own)
    }

    /** Before the first malloc freep is null; from then on it is in the free list. */
    ghost predicate Ready()
      reads this
    {
      if freep == 0 then live == map[] && own == map[] else Sound(Now()) && freep in ring
    }

    constructor ()
      ensures Ready() && live == map[] && own == map[]
    {
      hdr, freep := map[], 0;
      ring, live, own := [], map[], map[];
    }

    /** The search of free: p is the last free block below b. */
    method FindSpot(b: nat) returns (p: nat, ghost i: nat)
      requires freep != 0 && Ready() && b in live
      ensures Spot(Now(), b, i) && p == ring[i] && p in hdr
    {
      ghost var h := Now();
      BlockAt(h, b);
      ghost var spot := SpotExists(h, b);
      i := Index(ring, freep);
      p := freep;
      LinkAt(h, i);
      while !(b > p && b < hdr[p].ptr)
        invariant 0 <= i < |ring| && p == ring[i] && Link(h, i)
        decreases Distance(|ring|, i, spot)
      {
        StopsAtSpot(h, b, i);
        if p >= hdr[p].ptr && (b > p || b < hdr[p].ptr) {
          break;
        }
        p := hdr[p].ptr;
        i := Next(|ring|, i);
        LinkAt(h, i);
      }
      StopsAtSpot(h, b, i);
    }

    /** free's links: b goes behind p, joined to its neighbours where they touch. */
    method Join(b: nat, p: nat, ghost h: Heap, ghost i: nat)
      requires h == Now() && i < |ring| && p == ring[i] && p in hdr && b in hdr && hdr[p].ptr in hdr && p != b
      modifies this`hdr
      ensures hdr == Inserted(h, b, i).hdr
    {
      var next := hdr[p].ptr;
      if b + hdr[b].size == next {
        hdr := hdr[b := Header(hdr[next].ptr, hdr[b].size + hdr[next].size)];
      } else {
        hdr := hdr[b := Header(next, hdr[b].size)];
      }
      if p + hdr[p].size == b {
        hdr := hdr[p := Header(hdr[b].ptr, hdr[p].size + hdr[b].size)];
      } else {
        hdr := hdr[p := Header(b, hdr[p].size)];
      }
    }

    /** free: the block is no longer live; its units, and all others, still belong to one block each. */
    method Free(ap: nat) returns (ghost i: nat)
      requires freep != 0 && Ready() && ap > 0 && ap - 1 in live
      modifies this
      ensures Ready() && freep != 0 && live == old(live) - {ap - 1} && own.Keys == old(own.Keys)
      ensures Spot(old(Now()), ap - 1, i) && Now() == Inserted(old(Now()), ap - 1, i)
    {
      var b, p := ap - 1, 0;
      ghost var h := Now();
      p, i := FindSpot(b);
      BlockAt(h, b);
      LinkAt(h, i);
      LinkAt(h, Next(|ring|, i));
      InsertedValid(h, b, i);
      Join(b, p, h, i);
      freep := p;
      ring, live, own := Inserted(h, b, i).ring, Inserted(h, b, i).live, Inserted(h, b, i).own;
      assert p > 0;
    }

    /** morecore: at least nu units from sbrk become free; `at` is where sbrk would put them, or `enough` is false.
        Returns freep, or 0. */
    method Morecore(nu: nat, enough: bool, at: nat) returns (r: nat)
      requires freep != 0 && Ready() && Beyond(Now(), at) && 0 < nu < 0x800_0000
      modifies this
      ensures Ready() && freep != 0 && live == old(live)
      ensures r == 0 <==> !enough
      ensures r == 0 ==> Now() == old(Now()) && freep == old(freep)
      ensures r != 0 ==> r == freep && own.Keys == old(own.Keys) + Units(at, Asked(nu)) && !AllSmall(Now(), nu)
    {
      var n := nu;
      if n < 4096 {
        n := 4096;
      }
      if !enough {
        return 0;
      }
      ghost var h := Now();
      GrantedValid(h, at, n);
      hdr := hdr[at := Header(if at in hdr then hdr[at].ptr else 0, n)];
      live, own := live[at := n], Assigned(own, at, n);
      ghost var g := Now();
      assert g == Granted(h, at, n);
      ghost var i := Free(at + 1);
      InsertedFits(g, at, i, nu);
      return freep;
    }

    /** malloc takes the whole block p behind prevp. */
    method TakeWhole(prevp: nat, p: nat, ghost k: nat)
      requires freep != 0 && Ready() && 0 < k < |ring| && prevp == ring[k - 1] && p == ring[k]
      modifies this
      ensures Ready() && freep != 0 && own == old(own)
      ensures p !in old(live) && p > 0 && live == old(live)[p := Size(old(Now()), p)]
    {
      ghost var h := Now();
      LinkAt(h, k);
      LinkAt(h, k - 1);
      BlockAt(h, p);
      TakenWholeValid(h, k);
      hdr := hdr[prevp := Header(hdr[p].ptr, hdr[prevp].size)];
      live := live[p := Size(h, p)];
      ring := ring[..k] + ring[k + 1..];
      assert Now() == TakenWhole(h, k);
      freep := prevp;
      assert ring[k - 1] == prevp;
    }

    /** malloc takes the last n units of block p behind prevp. */
    method TakeTail(prevp: nat, p: nat, n: nat, ghost k: nat) returns (q: nat)
      requires freep != 0 && Ready() && 0 < k < |ring| && prevp == ring[k - 1] && p == ring[k] && 0 < n < Size(Now(), p)
      modifies this
      ensures Ready() && freep != 0 && own.Keys == old(own.Keys)
      ensures q !in old(live) && q > 0 && live == old(live)[q := n]
    {
      ghost var h := Now();
      LinkAt(h, k);
      LinkAt(h, k - 1);
      TakenTailValid(h, k, n);
      TailIsNew(h, k, n);
      hdr := hdr[p := Header(hdr[p].ptr, hdr[p].size - n)];
      q := p + hdr[p].size;
      hdr := hdr[q := Header(if q in hdr then hdr[q].ptr else 0, n)];
      live, own := TakenTail(h, k, n).live, TakenTail(h, k, n).own;
      assert hdr == TakenTail(h, k, n).hdr;
      freep := prevp;
    }

    /** malloc takes n units from block p behind prevp, which has enough. */
    method Take(prevp: nat, p: nat, n: nat, ghost k: nat) returns (q: nat)
      requires freep != 0 && Ready() && 0 < k < |ring| && prevp == ring[k - 1] && p == ring[k]
               && 0 < n <= Size(Now(), p)
      modifies this
      ensures Ready() && freep != 0 && own.Keys == old(own.Keys)
      ensures q !in old(live) && q > 0 && live == old(live)[q := n]
    {
      LinkAt(Now(), k);
      if hdr[p].size == n {
        TakeWhole(prevp, p, k);
        return p;
      }
      q := TakeTail(prevp, p, n, k);
    }

    /** malloc: a block of Nunits(nbytes) units that belonged to no live block, or 0 if sbrk has no more.  It calls sbrk
        only after a whole round has shown that no free block is large enough, and at most once.  `wild` says that sbrk
        would be asked for another amount than is needed; the model stops there. */
    method Malloc(nbytes: nat, enough: bool, at: nat) returns (r: nat, ghost asked: bool, wild: bool)
      requires Ready() && Beyond(Now(), at) && nbytes < UINT
      modifies this
      ensures Ready() && freep != 0 && 16 * (Nunits(nbytes) - 1) >= nbytes
      ensures wild <==> asked && nbytes > 0x8000_0000 - 32
      ensures r == 0 ==> asked && (wild || !enough) && live == old(live) && own == old(own)
      ensures r != 0 ==>
                !wild && r > 1 && r - 1 !in old(live) && live == old(live)[r - 1 := Nunits(nbytes)]
                && (asked ==> enough)
      ensures r != 0 ==> own.Keys == old(own.Keys) + (if asked then Units(at, Asked(Nunits(nbytes))) else {})
      ensures asked && old(freep) != 0 ==> AllSmall(old(Now()), Nunits(nbytes))
    {
      var n := Nunits(nbytes);
      wild := false;
      if freep == 0 {
        hdr := hdr[BASE := Header(BASE, 0)];
        freep := BASE;
        ring := [BASE];
        EmptyIsSound(Now());
      }
      asked := false;
      ghost var h := Now();
      ghost var f := Index(ring, freep);
      ghost var k := f;
      var prevp := freep;
      LinkAt(h, k);
      SmallStart(h, f, n);
      var p := hdr[prevp].ptr;
      while true
        invariant Ready() && freep != 0 && h == Now() && live == old(live)
        invariant 0 <= f < |ring| && ring[f] == freep && 0 <= k < |ring| && prevp == ring[k]
                  && p == ring[Next(|ring|, k)]
        invariant SmallSoFar(h, f, k, n)
        invariant asked ==>
                    nbytes <= 0x8000_0000 - 32 && enough && !AllSmall(h, n)
                    && own.Keys == old(own.Keys) + Units(at, Asked(n))
        invariant asked && old(freep) != 0 ==> AllSmall(old(Now()), n)
        invariant !asked ==> own == old(own) && (old(freep) != 0 ==> h == old(Now()))
        decreases !asked, |ring| - Distance(|ring|, f, k)
      {
        ghost var j := Next(|ring|, k);
        LinkAt(h, j);
        if hdr[p].size >= n {
          var q := Take(prevp, p, n, j);
          return q + 1, asked, false;
        }
        if p == freep {
          RoundDone(h, f, k, n);
          assert !asked;
          asked := true;
          SbrkArgWhole(nbytes);
          if SbrkArg(Asked(n)) != Asked(n) * 16 {
            return 0, true, true;
          }
          p := Morecore(n, enough, at);
          if p == 0 {
            return 0, true, false;
          }
          f := Index(ring, freep);
          h, k := Now(), f;
          SmallStart(h, f, n);
        } else {
          SmallMore(h, f, k, n);
          k := j;
        }
        prevp := p;
        LinkAt(h, k);
        p := hdr[p].ptr;
      }
    }
  }
}
