/**
  The request queue of kernel/virtio_disk.c: descriptors, the avail and used rings
  with their 16-bit indices, and the device at the other end (split virtqueues,
  section 2.6 of VIRTIO 1.1).  A method is a section under vdisk_lock, or a step
  of the device.

  A request is named by the first descriptor of its chain.  It is posted by
  virtio_disk_rw, taken by the device, completed by the device, seen by
  virtio_disk_intr, and then its descriptors are freed by virtio_disk_rw.
 */
module Virtio {
  import opened Base
  import opened Fold

  // tags of folded definitions
  const RING := 81
  const OWNED := 82
  const BUFFERS := 83
  const WAITING := 84
  const THREE := 85

  const NUM: nat := 8
  const UINT16: nat := 0x1_0000
  const NONE: nat := NUM

  datatype Desc = Desc(chained: bool, next: nat)

  datatype Stage = Posted | Taken | Completed | Seen

  datatype Request = Request(mid: nat, last: nat, b: nat, stage: Stage)

  // ------------------------------------------------------------------- queues

  /** Different descriptors: there are at most NUM. */
  lemma {:induction false} AtMost(q: seq<nat>, n: nat)
    requires Distinct(q) && forall i :: 0 <= i < |q| ==> q[i] < n
    ensures |q| <= n
  {
    if q == [] {
    } else if exists i :: 0 <= i < |q| && q[i] == n - 1 {
      var i :| 0 <= i < |q| && q[i] == n - 1;
      AtMost(q[..i] + q[i + 1..], n - 1);
    } else {
      assert q[0] < n;
      AtMost(q, n - 1);
    }
  }

  /** The place in the ring, and the next index, can be taken from the wrapped index. */
  lemma {:induction false} SameSlot(n: nat)
    ensures n % UINT16 % NUM == n % NUM && (n % UINT16 + 1) % UINT16 == (n + 1) % UINT16
  {
    WrapPlace(NUM, UINT16 / NUM, n);
    WrapNext(UINT16, n);
  }

  lemma {:induction false} OtherSlot(first: nat, k: nat, n: nat)
    requires k < n < k + NUM
    ensures (first + k) % NUM != (first + n) % NUM
  {
  }

  /** A ring whose writer is at idx and whose reader is at seen, with q between them, `first` entries having
      been read in all. */
  ghost predicate Ring(ring: seq<nat>, first: nat, q: seq<nat>, idx: nat, seen: nat) {
    forall u {:trigger Unfold(RING, u)} :: Unfold(RING, u) ==>
      && |ring| == NUM && |q| <= NUM && idx == (first + |q|) % UINT16 && seen == first % UINT16
      && (forall k :: 0 <= k < |q| ==> ring[(first + k) % NUM] == q[k])
  }

  /** Adding an entry overwrites none that is in use. */
  lemma {:induction false} Pushed(ring: seq<nat>, first: nat, q: seq<nat>, idx: nat, seen: nat, h: nat)
    requires Ring(ring, first, q, idx, seen) && |ring| == NUM && |q| < NUM
    ensures Ring(ring[idx % NUM := h], first, q + [h], (idx + 1) % UINT16, seen)
  {
    assert Unfold(RING, 0);
    SameSlot(first + |q|);
    var ring' := ring[(first + |q|) % NUM := h];
    forall k | 0 <= k < |q| ensures ring'[(first + k) % NUM] == q[k] {
      OtherSlot(first, k, |q|);
    }
  }

  /** The reader finds the oldest entry. */
  lemma {:induction false} Popped(ring: seq<nat>, first: nat, q: seq<nat>, idx: nat, seen: nat)
    requires Ring(ring, first, q, idx, seen) && |ring| == NUM && |q| > 0
    ensures ring[seen % NUM] == q[0] && Ring(ring, first + 1, q[1..], idx, (seen + 1) % UINT16)
  {
    assert Unfold(RING, 0);
    SameSlot(first);
    forall k | 0 <= k < |q| - 1 ensures ring[(first + 1 + k) % NUM] == q[1..][k] {
      assert ring[(first + (k + 1)) % NUM] == q[k + 1];
    }
  }

  /** The indices are equal exactly when the ring is empty, though they wrap. */
  lemma {:induction false} IsEmpty(ring: seq<nat>, first: nat, q: seq<nat>, idx: nat, seen: nat)
    requires Ring(ring, first, q, idx, seen)
    ensures seen == idx <==> q == []
  {
    assert Unfold(RING, 0);
    WrapBy(UINT16, first, |q|);
  }

  // -------------------------------------------------------------- descriptors

  /** The three descriptors of request h are different, linked, and its own. */
  ghost predicate Chained(desc: seq<Desc>, own: seq<nat>, h: nat, r: Request)
    requires |desc| == NUM && |own| == NUM
  {
    && h < NUM && r.mid < NUM && r.last < NUM && h != r.mid && h != r.last && r.mid != r.last
    && desc[h] == Desc(true, r.mid) && desc[r.mid] == Desc(true, r.last) && !desc[r.last].chained
    && own[h] == h && own[r.mid] == h && own[r.last] == h
  }

  /** own[i] is the request that descriptor i belongs to, or NONE. */
  ghost predicate Owned(free: seq<bool>, desc: seq<Desc>, own: seq<nat>, reqs: map<nat, Request>) {
    forall u {:trigger Unfold(OWNED, u)} :: Unfold(OWNED, u) ==>
      && |free| == |desc| == |own| == NUM
      && (forall i :: 0 <= i < NUM ==> (free[i] <==> own[i] == NONE))
      && (forall i ::
            0 <= i < NUM && own[i] != NONE ==>
              own[i] in reqs && (i == own[i] || i == reqs[own[i]].mid || i == reqs[own[i]].last))
      && (forall h :: h in reqs ==> Chained(desc, own, h, reqs[h]))
  }

  /** Every request keeps its own buffer, and the buffer is marked as long as the interrupt has not seen it. */
  ghost predicate Buffers(info: seq<int>, marked: set<nat>, reqs: map<nat, Request>) {
    forall u {:trigger Unfold(BUFFERS, u)} :: Unfold(BUFFERS, u) ==>
      && |info| == NUM
      && (forall h :: h in reqs ==> h < NUM && info[h] == reqs[h].b && (reqs[h].b in marked <==> reqs[h].stage != Seen))
      && (forall h, g :: h in reqs && g in reqs && h != g ==> reqs[h].b != reqs[g].b)
  }

  ghost predicate Waiting(q: seq<nat>, reqs: map<nat, Request>, stage: Stage) {
    forall u {:trigger Unfold(WAITING, u)} :: Unfold(WAITING, u) ==>
      && Distinct(q)
      && (forall i :: 0 <= i < |q| ==> q[i] in reqs && reqs[q[i]].stage == stage)
      && (forall h :: h in reqs && reqs[h].stage == stage ==> h in q)
  }

  /** The requests waiting in a queue are different descriptors, so there is room for another. */
  lemma {:induction false} PostedAll(q: seq<nat>, reqs: map<nat, Request>, reqs': map<nat, Request>, h: nat)
    requires Waiting(q, reqs, Posted) && h !in reqs && h < NUM && (forall g :: g in reqs ==> g < NUM)
    requires reqs'.Keys == reqs.Keys + {h} && (forall g :: g in reqs ==> reqs'[g] == reqs[g])
             && reqs'[h].stage == Posted
    ensures Waiting(q + [h], reqs', Posted) && |q| < NUM
  {
    assert Unfold(WAITING, 0);
    AtMost(q + [h], NUM);
  }

  /** A request that enters or leaves other stages leaves a queue as it is. */
  lemma {:induction false} WaitingStill(q: seq<nat>, reqs: map<nat, Request>, reqs': map<nat, Request>, stage: Stage)
    requires Waiting(q, reqs, stage)
    requires forall g :: g in reqs && reqs[g].stage == stage ==> g in reqs' && reqs'[g] == reqs[g]
    requires forall g :: g in reqs' && reqs'[g].stage == stage ==> g in reqs && reqs'[g] == reqs[g]
    ensures Waiting(q, reqs', stage)
  {
    assert Unfold(WAITING, 0);
  }

  lemma {:induction false} OwnedIdle(free: seq<bool>, desc: seq<Desc>, desc': seq<Desc>, own: seq<nat>,
                                     reqs: map<nat, Request>)
    requires Owned(free, desc, own, reqs) && |free| == |desc| == |desc'| == NUM
             && forall i :: 0 <= i < NUM && !free[i] ==> desc'[i] == desc[i]
    ensures Owned(free, desc', own, reqs)
  {
    assert Unfold(OWNED, 0);
    forall h | h in reqs ensures Chained(desc', own, h, reqs[h]) {
      assert Chained(desc, own, h, reqs[h]);
    }
  }

  lemma {:induction false} OwnedMore(free: seq<bool>, desc: seq<Desc>, own: seq<nat>, reqs: map<nat, Request>, x: nat,
                                     y: nat, z: nat, b: nat)
    requires Owned(free, desc, own, reqs) && |free| == |desc| == |own| == NUM && x < NUM && y < NUM && z < NUM
             && x != y && x != z && y != z && free[x] && free[y] && free[z]
    ensures x !in reqs && forall g :: g in reqs ==> g < NUM
    ensures Owned(free[x := false][y := false][z := false],
                  desc[x := Desc(true, y)][y := Desc(true, z)][z := Desc(false, 0)],
                  own[x := x][y := x][z := x], reqs[x := Request(y, z, b, Posted)])
  {
    assert Unfold(OWNED, 0);
    forall h | h in reqs ensures h != x && h < NUM {
      ChainStays(free, desc, own, reqs, x, y, z, h);
    }
    var desc' := desc[x := Desc(true, y)][y := Desc(true, z)][z := Desc(false, 0)];
    var own' := own[x := x][y := x][z := x];
    forall h | h in reqs ensures Chained(desc', own', h, reqs[h]) {
      ChainStays(free, desc, own, reqs, x, y, z, h);
    }
  }

  lemma {:induction false} ChainStays(free: seq<bool>, desc: seq<Desc>, own: seq<nat>, reqs: map<nat, Request>, x: nat,
                                      y: nat, z: nat, h: nat)
    requires Owned(free, desc, own, reqs) && |free| == |desc| == |own| == NUM && x < NUM && y < NUM && z < NUM
             && x != y && x != z && y != z && free[x] && free[y] && free[z] && h in reqs
    ensures h != x && h < NUM
    ensures Chained(desc[x := Desc(true, y)][y := Desc(true, z)][z := Desc(false, 0)], own[x := x][y := x][z := x], h,
                    reqs[h])
  {
    assert Unfold(OWNED, 0);
    assert Chained(desc, own, h, reqs[h]);
  }

  lemma {:induction false} BuffersMore(info: seq<int>, marked: set<nat>, reqs: map<nat, Request>, x: nat, r: Request)
    requires Buffers(info, marked, reqs) && |info| == NUM && x < NUM && x !in reqs && r.stage != Seen
             && forall g :: g in reqs ==> reqs[g].b != r.b
    ensures Buffers(info[x := r.b], marked + {r.b}, reqs[x := r])
  {
    assert Unfold(BUFFERS, 0);
  }

  /** Request h is now at another stage. */
  ghost function Moved(reqs: map<nat, Request>, h: nat, stage: Stage): map<nat, Request> {
    if h in reqs then reqs[h := reqs[h].(stage := stage)] else reqs
  }

  lemma {:induction false} QueueFits(q: seq<nat>, reqs: map<nat, Request>, stage: Stage, free: seq<bool>,
                                     desc: seq<Desc>, own: seq<nat>)
    requires Waiting(q, reqs, stage) && |free| == |desc| == |own| == NUM && Owned(free, desc, own, reqs)
    ensures |q| <= NUM && forall i :: 0 <= i < |q| ==> q[i] in reqs && q[i] < NUM
  {
    assert Unfold(WAITING, 0) && Unfold(OWNED, 0);
    forall i | 0 <= i < |q| ensures q[i] < NUM {
      assert Chained(desc, own, q[i], reqs[q[i]]);
    }
    AtMost(q, NUM);
  }

  lemma {:induction false} FirstLeaves(q: seq<nat>, reqs: map<nat, Request>, stage: Stage, next: Stage)
    requires Waiting(q, reqs, stage) && q != [] && next != stage
    ensures q[0] in reqs && reqs[q[0]].stage == stage && Waiting(q[1..], Moved(reqs, q[0], next), stage)
  {
    assert Unfold(WAITING, 0);
    assert q == [q[0]] + q[1..];
    forall h | h in Moved(reqs, q[0], next) && Moved(reqs, q[0], next)[h].stage == stage ensures h in q[1..] {
      assert h in q;
    }
  }

  lemma {:induction false} LastEnters(q: seq<nat>, reqs: map<nat, Request>, stage: Stage, h: nat, free: seq<bool>,
                                      desc: seq<Desc>, own: seq<nat>)
    requires Waiting(q, reqs, stage) && h in reqs && reqs[h].stage != stage && |free| == |desc| == |own| == NUM
             && Owned(free, desc, own, reqs)
    ensures Waiting(q + [h], Moved(reqs, h, stage), stage) && |q| < NUM
  {
    var reqs' := Moved(reqs, h, stage);
    assert Waiting(q + [h], reqs', stage) by { assert Unfold(WAITING, 0); }
    assert Owned(free, desc, own, reqs') by {
      assert Unfold(OWNED, 0);
      forall g | g in reqs' ensures Chained(desc, own, g, reqs'[g]) {
        assert Chained(desc, own, g, reqs[g]);
      }
    }
    QueueFits(q + [h], reqs', stage, free, desc, own);
  }

  lemma {:induction false} OwnedMoved(free: seq<bool>, desc: seq<Desc>, own: seq<nat>, reqs: map<nat, Request>,
                                      h: nat, stage: Stage)
    requires |free| == |desc| == |own| == NUM && Owned(free, desc, own, reqs)
    ensures Owned(free, desc, own, Moved(reqs, h, stage))
  {
    var reqs' := Moved(reqs, h, stage);
    assert Unfold(OWNED, 0);
    forall g | g in reqs' ensures Chained(desc, own, g, reqs'[g]) {
      assert Chained(desc, own, g, reqs[g]);
    }
  }

  lemma {:induction false} BuffersMoved(info: seq<int>, marked: set<nat>, reqs: map<nat, Request>, h: nat, stage: Stage)
    requires |info| == NUM && Buffers(info, marked, reqs) && h in reqs && reqs[h].stage != Seen && stage != Seen
    ensures Buffers(info, marked, Moved(reqs, h, stage))
  {
    assert Unfold(BUFFERS, 0);
  }

  lemma {:induction false} WaitingMoved(q: seq<nat>, reqs: map<nat, Request>, h: nat, next: Stage, stage: Stage)
    requires Waiting(q, reqs, stage) && h in reqs && reqs[h].stage != stage && next != stage
    ensures Waiting(q, Moved(reqs, h, next), stage)
  {
    WaitingStill(q, reqs, Moved(reqs, h, next), stage);
  }

  lemma {:induction false} WaitingLess(q: seq<nat>, reqs: map<nat, Request>, h: nat, stage: Stage)
    requires Waiting(q, reqs, stage) && h in reqs && reqs[h].stage != stage
    ensures Waiting(q, reqs - {h}, stage)
  {
    WaitingStill(q, reqs, reqs - {h}, stage);
  }

  /** The interrupt finds the buffer of request h, and releasing it releases no other's. */
  lemma {:induction false} BuffersSeen(info: seq<int>, marked: set<nat>, reqs: map<nat, Request>, h: nat)
    requires |info| == NUM && Buffers(info, marked, reqs) && h in reqs && reqs[h].stage != Seen
    ensures h < NUM && info[h] == reqs[h].b && reqs[h].b in marked
    ensures Buffers(info, marked - {reqs[h].b}, Moved(reqs, h, Seen))
  {
    assert Unfold(BUFFERS, 0);
  }

  lemma {:induction false} NoneLeft(reqs: map<nat, Request>, stage: Stage)
    requires Waiting([], reqs, stage)
    ensures forall h :: h in reqs ==> reqs[h].stage != stage
  {
    assert Unfold(WAITING, 0);
  }

  lemma {:induction false} BuffersLess(info: seq<int>, marked: set<nat>, reqs: map<nat, Request>, h: nat)
    requires |info| == NUM && Buffers(info, marked, reqs) && h in reqs && reqs[h].b !in marked
    ensures h < NUM && reqs[h].stage == Seen && Buffers(info[h := -1], marked, reqs - {h})
  {
    assert Unfold(BUFFERS, 0);
  }

  lemma {:induction false} RequestChained(free: seq<bool>, desc: seq<Desc>, own: seq<nat>, reqs: map<nat, Request>,
                                          h: nat)
    requires |free| == |desc| == |own| == NUM && Owned(free, desc, own, reqs) && h in reqs
    ensures Chained(desc, own, h, reqs[h]) && !free[h] && !free[reqs[h].mid] && !free[reqs[h].last]
  {
    assert Unfold(OWNED, 0);
  }

  /** Without request h its three descriptors are nobody's, and those of the others are theirs. */
  lemma {:induction false} OwnedLess(free: seq<bool>, desc: seq<Desc>, own: seq<nat>, reqs: map<nat, Request>, h: nat,
                                     r: Request)
    requires |free| == |desc| == |own| == NUM && Owned(free, desc, own, reqs) && h in reqs && r == reqs[h]
             && Chained(desc, own, h, r)
    ensures Owned(free[h := true][r.mid := true][r.last := true],
                  desc[h := Desc(false, 0)][r.mid := Desc(false, 0)][r.last := Desc(false, 0)],
                  own[h := NONE][r.mid := NONE][r.last := NONE], reqs - {h})
  {
    var desc' := desc[h := Desc(false, 0)][r.mid := Desc(false, 0)][r.last := Desc(false, 0)];
    var own' := own[h := NONE][r.mid := NONE][r.last := NONE];
    forall g | g in reqs && g != h ensures Chained(desc', own', g, reqs[g]) {
      RequestChained(free, desc, own, reqs, g);
    }
    assert Unfold(OWNED, 0);
  }

  /** No request is about buffer b. */
  ghost predicate Unused(b: nat, reqs: map<nat, Request>) { forall g :: g in reqs ==> reqs[g].b != b }

  predicate IsFree(free: seq<bool>, i: nat) { i < |free| && free[i] }

  /** At least three descriptors are free. */
  ghost predicate ThreeFree(free: seq<bool>) {
    forall u {:trigger Unfold(THREE, u)} :: Unfold(THREE, u) ==>
      exists x, y, z :: IsFree(free, x) && IsFree(free, y) && IsFree(free, z) && x != y && x != z && y != z
  }

  lemma {:induction false} AreThree(free: seq<bool>, x: nat, y: nat, z: nat)
    requires IsFree(free, x) && IsFree(free, y) && IsFree(free, z) && x != y && x != z && y != z
    ensures ThreeFree(free)
  {
  }

  lemma {:induction false} OnlyTwo(free: seq<bool>, x: int, y: int)
    requires forall k :: 0 <= k < |free| && free[k] ==> k == x || k == y
    ensures !ThreeFree(free)
  {
    assert Unfold(THREE, 0);
  }

  class Disk {
    var free: seq<bool>
    var desc: seq<Desc>
    var info: seq<int>
    var marked: set<nat>          // buffers with b->disk set
    var avail: seq<nat>
    var availIdx: nat
    var used: seq<nat>
    var usedIdx: nat
    var usedSeen: nat             // disk.used_idx
    var devSeen: nat              // how far the device has read avail
    ghost var own: seq<nat>
    ghost var reqs: map<nat, Request>
    ghost var posted: seq<nat>    // in avail, not taken yet
    ghost var completed: seq<nat> // in used, not seen yet
    ghost var taken: nat          // how many the device has taken in all
    ghost var seen: nat           // how many virtio_disk_intr has seen in all

    ghost predicate Valid()
      reads this
    {
      && |free| == |desc| == |own| == |info| == |avail| == |used| == NUM
      && Owned(free, desc, own, reqs) && Buffers(info, marked, reqs)
      && Waiting(posted, reqs, Posted) && Waiting(completed, reqs, Completed)
      && Ring(avail, taken, posted, availIdx, devSeen) && Ring(used, seen, completed, usedIdx, usedSeen)
    }

    /** virtio_disk_init: all descriptors are free and nothing is under way. */
    constructor ()
      ensures Valid() && reqs == map[] && posted == [] && completed == [] && marked == {}
    {
      free := [true, true, true, true, true, true, true, true];
      desc := [Desc(false, 0), Desc(false, 0), Desc(false, 0), Desc(false, 0), Desc(false, 0), Desc(false, 0),
               Desc(false, 0), Desc(false, 0)];
      info := [-1, -1, -1, -1, -1, -1, -1, -1];
      avail, used := [0, 0, 0, 0, 0, 0, 0, 0], [0, 0, 0, 0, 0, 0, 0, 0];
      availIdx, usedIdx, usedSeen, devSeen, marked := 0, 0, 0, 0, {};
      own := [NONE, NONE, NONE, NONE, NONE, NONE, NONE, NONE];
      reqs, posted, completed, taken, seen := map[], [], [], 0, 0;
    }

    /** alloc_desc: the first free descriptor, or -1 if there is none. */
    method AllocDesc() returns (i: int)
      requires |free| == NUM
      modifies this`free
      ensures -1 <= i < NUM && |free| == NUM
      ensures i == -1 <==> forall k :: 0 <= k < NUM ==> !old(free)[k]
      ensures i == -1 ==> free == old(free)
      ensures i >= 0 ==> old(free)[i] && free == old(free)[i := false] && forall k :: 0 <= k < i ==> !old(free)[k]
    {
      var k := 0;
      while k < NUM
        invariant 0 <= k <= NUM && free == old(free) && forall m :: 0 <= m < k ==> !free[m]
      {
        if free[k] {
          free := free[k := false];
          return k;
        }
        k := k + 1;
      }
      return -1;
    }

    /** free_desc of a descriptor that is in use. */
    method FreeDesc(i: nat)
      requires |free| == |desc| == NUM && i < NUM && !free[i]
      modifies this`free, this`desc
      ensures free == old(free)[i := true] && desc == old(desc)[i := Desc(false, 0)]
    {
      desc := desc[i := Desc(false, 0)];
      free := free[i := true];
    }

    /** alloc3_desc: three different free descriptors, or none taken, exactly if fewer than three are free. */
    method Alloc3() returns (ok: bool, a: nat, b: nat, c: nat)
      requires |free| == |desc| == NUM
      modifies this`free, this`desc
      ensures ok <==> ThreeFree(old(free))
      ensures ok ==>
                a < NUM && b < NUM && c < NUM && a != b && a != c && b != c && old(free)[a] && old(free)[b]
                && old(free)[c]
      ensures ok ==> free == old(free)[a := false][b := false][c := false] && desc == old(desc)
      ensures !ok ==>
                free == old(free) && |desc| == NUM && forall i :: 0 <= i < NUM && !free[i] ==> desc[i] == old(desc)[i]
    {
      a, b, c := 0, 0, 0;
      var x := AllocDesc();
      if x < 0 {
        OnlyTwo(old(free), x, x);
        return false, 0, 0, 0;
      }
      ghost var f1 := free;
      assert forall k :: 0 <= k < NUM && k != x ==> f1[k] == old(free)[k];
      var y := AllocDesc();
      if y < 0 {
        OnlyTwo(old(free), x, y);
        FreeDesc(x);
        return false, 0, 0, 0;
      }
      ghost var f2 := free;
      assert forall k :: 0 <= k < NUM && k != y ==> f2[k] == f1[k];
      var z := AllocDesc();
      if z < 0 {
        OnlyTwo(old(free), x, y);
        FreeDesc(x);
        FreeDesc(y);
        return false, 0, 0, 0;
      }
      AreThree(old(free), x, y, z);
      return true, x, y, z;
    }

    /** Formatting the three descriptors and recording the buffer. */
    method Format(ghost free0: seq<bool>, x: nat, y: nat, z: nat, b: nat)
      requires |free| == |desc| == |own| == |info| == |avail| == |used| == |free0| == NUM
      requires x < NUM && y < NUM && z < NUM && x != y && x != z && y != z && free0[x] && free0[y] && free0[z]
      requires free == free0[x := false][y := false][z := false]
      requires Owned(free0, desc, own, reqs) && Buffers(info, marked, reqs) && Unused(b, reqs)
      requires Waiting(posted, reqs, Posted) && Waiting(completed, reqs, Completed)
      modifies this`desc, this`info, this`marked, this`own, this`reqs
      ensures |desc| == |own| == |info| == NUM && Owned(free, desc, own, reqs) && Buffers(info, marked, reqs)
      ensures Waiting(posted + [x], reqs, Posted) && |posted| < NUM && Waiting(completed, reqs, Completed)
      ensures x !in old(reqs) && reqs == old(reqs)[x := Request(y, z, b, Posted)] && marked == old(marked) + {b}
    {
      ghost var r := Request(y, z, b, Posted);
      OwnedMore(free0, desc, own, reqs, x, y, z, b);
      BuffersMore(info, marked, reqs, x, r);
      PostedAll(posted, reqs, reqs[x := r], x);
      WaitingStill(completed, reqs, reqs[x := r], Completed);
      desc := desc[x := Desc(true, y)][y := Desc(true, z)][z := Desc(false, 0)];
      marked := marked + {b};
      info := info[x := b];
      own := own[x := x][y := x][z := x];
      reqs := reqs[x := r];
    }

    /** Putting a chain's first descriptor into avail. */
    method Publish(x: nat)
      requires |avail| == NUM && |posted| < NUM && Ring(avail, taken, posted, availIdx, devSeen)
      modifies this`avail, this`availIdx, this`posted
      ensures |avail| == NUM && posted == old(posted) + [x] && Ring(avail, taken, posted, availIdx, devSeen)
    {
      Pushed(avail, taken, posted, availIdx, devSeen, x);
      avail := avail[availIdx % NUM := x];
      availIdx := (availIdx + 1) % UINT16;
      posted := posted + [x];
    }

    /** The rest of virtio_disk_rw's way to the device, with three descriptors in hand. */
    method Start(ghost free0: seq<bool>, x: nat, y: nat, z: nat, b: nat)
      requires |free0| == NUM && x < NUM && y < NUM && z < NUM && x != y && x != z && y != z
      requires free0[x] && free0[y] && free0[z] && free == free0[x := false][y := false][z := false]
      requires |desc| == |own| == |info| == |avail| == |used| == NUM
      requires Owned(free0, desc, own, reqs) && Buffers(info, marked, reqs) && Unused(b, reqs)
      requires Waiting(posted, reqs, Posted) && Waiting(completed, reqs, Completed)
      requires Ring(avail, taken, posted, availIdx, devSeen) && Ring(used, seen, completed, usedIdx, usedSeen)
      modifies this`desc, this`info, this`marked, this`avail, this`availIdx, this`own, this`reqs, this`posted
      ensures Valid() && x !in old(reqs) && reqs == old(reqs)[x := Request(y, z, b, Posted)]
      ensures posted == old(posted) + [x] && marked == old(marked) + {b}
    {
      Format(free0, x, y, z, b);
      Publish(x);
    }

    /** A turn of virtio_disk_rw's loop and, if it gets its descriptors, the posting of the request for buffer b,
        which no other request is using. */
    method Post(b: nat) returns (ok: bool, h: nat, ghost r: Request)
      requires Valid() && Unused(b, reqs)
      modifies this`free, this`desc, this`info, this`marked, this`avail, this`availIdx, this`own, this`reqs, this`posted
      ensures Valid() && (ok <==> ThreeFree(old(free)))
      ensures !ok ==> reqs == old(reqs) && marked == old(marked) && posted == old(posted)
      ensures ok ==> h !in old(reqs) && reqs == old(reqs)[h := r] && r.b == b && r.stage == Posted
      ensures ok ==> posted == old(posted) + [h] && marked == old(marked) + {b}
    {
      var x, y, z;
      ok, x, y, z := Alloc3();
      h, r := x, Request(y, z, b, Posted);
      if ok {
        Start(old(free), x, y, z, b);
      } else {
        OwnedIdle(free, old(desc), desc, own, reqs);
      }
    }

    /** The device takes the next request from avail, if there is one. */
    method DeviceTakes() returns (h: nat)
      requires Valid()
      modifies this`devSeen, this`reqs, this`posted, this`taken
      ensures Valid()
      ensures old(posted) == [] ==> h == NONE && reqs == old(reqs) && posted == [] && taken == old(taken)
      ensures old(posted) != [] ==> h == old(posted)[0] && h in old(reqs) && old(reqs)[h].stage == Posted
      ensures old(posted) != [] ==> posted == old(posted)[1..] && reqs == Moved(old(reqs), h, Taken)
    {
      IsEmpty(avail, taken, posted, availIdx, devSeen);
      if devSeen == availIdx {
        return NONE;
      }
      Popped(avail, taken, posted, availIdx, devSeen);
      h := avail[devSeen % NUM];
      devSeen := (devSeen + 1) % UINT16;
      FirstLeaves(posted, reqs, Posted, Taken);
      OwnedMoved(free, desc, own, reqs, h, Taken);
      BuffersMoved(info, marked, reqs, h, Taken);
      WaitingMoved(completed, reqs, h, Taken, Completed);
      taken := taken + 1;
      reqs, posted := Moved(reqs, h, Taken), posted[1..];
    }

    /** The device completes a request it has taken, in any order, and writes it to used. */
    method DeviceCompletes(h: nat)
      requires Valid() && h in reqs && reqs[h].stage == Taken
      modifies this`used, this`usedIdx, this`reqs, this`completed
      ensures Valid() && reqs == Moved(old(reqs), h, Completed) && completed == old(completed) + [h]
    {
      LastEnters(completed, reqs, Completed, h, free, desc, own);
      Pushed(used, seen, completed, usedIdx, usedSeen, h);
      var at := usedIdx % NUM;
      used := used[at := h];
      usedIdx := (usedIdx + 1) % UINT16;
      OwnedMoved(free, desc, own, reqs, h, Completed);
      BuffersMoved(info, marked, reqs, h, Completed);
      WaitingMoved(posted, reqs, h, Completed, Posted);
      reqs, completed := Moved(reqs, h, Completed), completed + [h];
    }

    /** One turn of virtio_disk_intr: the buffer of the next completed request, and no other, is released. */
    method IntrTurn() returns (b: nat)
      requires Valid() && completed != []
      modifies this`usedSeen, this`marked, this`reqs, this`completed, this`seen
      ensures Valid() && completed == old(completed)[1..]
      ensures var h := old(completed)[0];
              h in old(reqs) && old(reqs)[h].stage == Completed && b == old(reqs)[h].b
              && reqs == Moved(old(reqs), h, Seen)
      ensures b in old(marked) && marked == old(marked) - {b}
    {
      Popped(used, seen, completed, usedIdx, usedSeen);
      var id := used[usedSeen % NUM];
      FirstLeaves(completed, reqs, Completed, Seen);
      OwnedMoved(free, desc, own, reqs, id, Seen);
      BuffersSeen(info, marked, reqs, id);
      WaitingMoved(posted, reqs, id, Seen, Posted);
      b := info[id];
      marked := marked - {b};
      usedSeen := (usedSeen + 1) % UINT16;
      seen := seen + 1;
      reqs, completed := Moved(reqs, id, Seen), completed[1..];
    }

    /** virtio_disk_intr: every completed request is seen. */
    method Intr()
      requires Valid()
      modifies this`usedSeen, this`marked, this`reqs, this`completed, this`seen
      ensures Valid() && completed == [] && reqs.Keys == old(reqs.Keys)
      ensures forall h ::
                h in old(reqs) ==>
                  reqs[h] == if old(reqs)[h].stage == Completed then old(reqs)[h].(stage := Seen) else old(reqs)[h]
    {
      while usedSeen != usedIdx
        invariant Valid() && reqs.Keys == old(reqs.Keys)
        invariant forall h ::
                    h in old(reqs) ==>
                      reqs[h] == old(reqs)[h]
                      || (old(reqs)[h].stage == Completed && reqs[h] == old(reqs)[h].(stage := Seen))
        decreases |completed|
      {
        IsEmpty(used, seen, completed, usedIdx, usedSeen);
        var _ := IntrTurn();
      }
      IsEmpty(used, seen, completed, usedIdx, usedSeen);
      NoneLeft(reqs, Completed);
    }

    /** free_chain of request h: exactly its three descriptors are free again. */
    method FreeChain(h: nat, ghost r: Request)
      requires |free| == |desc| == |own| == NUM && Chained(desc, own, h, r) && !free[h] && !free[r.mid] && !free[r.last]
      modifies this`free, this`desc
      ensures free == old(free)[h := true][r.mid := true][r.last := true]
      ensures desc == old(desc)[h := Desc(false, 0)][r.mid := Desc(false, 0)][r.last := Desc(false, 0)]
    {
      var i := h;
      ghost var n := 0;
      while true
        invariant 0 <= n <= 2 && |free| == |desc| == NUM
                  && i == (if n == 0 then h else if n == 1 then r.mid else r.last)
        invariant n == 0 ==> free == old(free) && desc == old(desc)
        invariant n == 1 ==> free == old(free)[h := true] && desc == old(desc)[h := Desc(false, 0)]
        invariant n == 2 ==>
                    free == old(free)[h := true][r.mid := true]
                    && desc == old(desc)[h := Desc(false, 0)][r.mid := Desc(false, 0)]
        decreases 3 - n
      {
        var flag, nxt := desc[i].chained, desc[i].next;
        FreeDesc(i);
        if flag {
          i := nxt;
          n := n + 1;
        } else {
          break;
        }
      }
    }

    /** The end of virtio_disk_rw, once the interrupt has released its buffer. */
    method Finish(h: nat)
      requires Valid() && h in reqs && reqs[h].b !in marked
      modifies this`free, this`desc, this`info, this`own, this`reqs
      ensures Valid() && reqs == old(reqs) - {h}
    {
      ghost var r := reqs[h];
      RequestChained(free, desc, own, reqs, h);
      OwnedLess(free, desc, own, reqs, h, r);
      BuffersLess(info, marked, reqs, h);
      WaitingLess(posted, reqs, h, Posted);
      WaitingLess(completed, reqs, h, Completed);
      info := info[h := -1];
      FreeChain(h, r);
      own := own[h := NONE][r.mid := NONE][r.last := NONE];
      reqs := reqs - {h};
    }
  }
}
