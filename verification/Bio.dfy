/**
  The buffer cache of kernel/bio.c: n buffers on a doubly linked list through a
  head, most recently released first.  Buffers and the head are numbered, the
  head last.  A method is a section under bcache.lock, or what the holder of a
  buffer's sleep-lock does with it.
 */
module Bio {
  import opened Base
  import opened Fold

  // tags of folded definitions
  const LINKED := 91
  const CACHED := 92

  type Key = (nat, nat)

  datatype Buf<D> = Buf(key: Key, valid: bool, refcnt: nat, data: D)

  // ----------------------------------------------------------------- the list

  /** What is at position i of the list: the head at both ends. */
  function Node(order: seq<nat>, head: nat, i: int): nat {
    if 1 <= i <= |order| then order[i - 1] else head
  }

  predicate LinkAt(next: seq<nat>, prev: seq<nat>, order: seq<nat>, head: nat, i: int) {
    var a, b := Node(order, head, i), Node(order, head, i + 1);
    a < |next| && b < |prev| && next[a] == b && prev[b] == a
  }

  /** next and prev run through order from the head and back to it. */
  ghost predicate Linked(next: seq<nat>, prev: seq<nat>, order: seq<nat>, head: nat) {
    forall u {:trigger Unfold(LINKED, u)} :: Unfold(LINKED, u) ==>
      && |next| == |prev| == head + 1 && Distinct(order) && (forall i :: 0 <= i < |order| ==> order[i] < head)
      && (forall i {:trigger LinkAt(next, prev, order, head, i)} ::
            0 <= i <= |order| ==> LinkAt(next, prev, order, head, i))
  }

  function Without(order: seq<nat>, p: nat): seq<nat>
    requires p < |order|
  {
    order[..p] + order[p + 1..]
  }

  lemma {:induction false} Links(next: seq<nat>, prev: seq<nat>, order: seq<nat>, head: nat, i: nat)
    requires Linked(next, prev, order, head) && i <= |order|
    ensures LinkAt(next, prev, order, head, i) && |next| == |prev| == head + 1 && Node(order, head, i) <= head
    ensures 1 <= i ==> order[i - 1] < head
  {
    assert Unfold(LINKED, 0);
  }

  /** Taking out the p-th buffer. */
  lemma {:induction false} Unlinked(next: seq<nat>, prev: seq<nat>, order: seq<nat>, head: nat, p: nat)
    requires Linked(next, prev, order, head) && p < |order| && |next| == |prev| == head + 1 && order[p] < head
    requires next[order[p]] <= head && prev[order[p]] <= head
    ensures var b := order[p];
            Linked(next[prev[b] := next[b]], prev[next[b] := prev[b]], Without(order, p), head)
            && b !in Without(order, p)
  {
    var b, order' := order[p], Without(order, p);
    var next', prev' := next[prev[b] := next[b]], prev[next[b] := prev[b]];
    assert Unfold(LINKED, 0);
    assert LinkAt(next, prev, order, head, p) && LinkAt(next, prev, order, head, p + 1);
    forall i | 0 <= i <= |order'| ensures LinkAt(next', prev', order', head, i) {
      assert LinkAt(next, prev, order, head, i) && LinkAt(next, prev, order, head, i + 1);
    }
  }

  /** Putting b in front. */
  lemma {:induction false} Fronted(next: seq<nat>, prev: seq<nat>, order: seq<nat>, head: nat, b: nat)
    requires Linked(next, prev, order, head) && b !in order && b < head && |next| == |prev| == head + 1
             && next[head] <= head
    ensures Linked(next[b := next[head]][head := b], prev[b := head][next[head] := b], [b] + order, head)
  {
    var order' := [b] + order;
    var next', prev' := next[b := next[head]][head := b], prev[b := head][next[head] := b];
    assert Unfold(LINKED, 0);
    assert LinkAt(next, prev, order, head, 0);
    forall i | 0 <= i <= |order'| ensures LinkAt(next', prev', order', head, i) {
      assert i > 0 ==> LinkAt(next, prev, order, head, i - 1);
    }
  }

  /** The list is in the order of the last releases, latest first, and has all buffers. */
  ghost predicate Recent(order: seq<nat>, stamp: seq<nat>, clock: nat, n: nat) {
    && |stamp| == |order| == n && (forall b :: 0 <= b < n ==> b in order && stamp[b] <= clock)
    && (forall i :: 0 <= i < n ==> order[i] < n)
    && (forall i, j :: 0 <= i < j < n ==> stamp[order[i]] > stamp[order[j]])
  }

  lemma {:induction false} FrontedAt(order: seq<nat>, p: nat, i: nat)
    requires p < |order| && i < |order|
    ensures ([order[p]] + Without(order, p))[i] ==
            if i == 0 then order[p] else if i <= p then order[i - 1] else order[i]
  {
  }

  lemma {:induction false} RecentFronted(order: seq<nat>, stamp: seq<nat>, clock: nat, n: nat, p: nat)
    requires Recent(order, stamp, clock, n) && Distinct(order) && p < n
    ensures Recent([order[p]] + Without(order, p), stamp[order[p] := clock + 1], clock + 1, n)
  {
    var b := order[p];
    var order', stamp' := [b] + Without(order, p), stamp[b := clock + 1];
    forall x | 0 <= x < n ensures x in order' {
      assert x in order;
      var i :| 0 <= i < n && order[i] == x;
      FrontedAt(order, p, if i < p then i + 1 else if i == p then 0 else i);
    }
    forall i | 0 <= i < n ensures order'[i] < n {
      FrontedAt(order, p, i);
    }
    forall i, j | 0 <= i < j < n ensures stamp'[order'[i]] > stamp'[order'[j]] {
      FrontedAt(order, p, i);
      FrontedAt(order, p, j);
    }
  }

  // ---------------------------------------------------------------- the store

  predicate InCache<D>(bufs: seq<Buf<D>>, b: int, k: Key) { 0 <= b < |bufs| && bufs[b].key == k && bufs[b].valid }

  /** Cache and disk taken together hold d at block k: a cached copy counts before the disk. */
  ghost predicate Stored<D(!new)>(bufs: seq<Buf<D>>, disk: map<Key, D>, k: Key, d: D) {
    || (exists b :: InCache(bufs, b, k) && bufs[b].data == d)
    || ((forall b :: !InCache(bufs, b, k)) && k in disk && disk[k] == d)
  }

  ghost predicate SameStore<D(!new)>(bufs: seq<Buf<D>>, disk: map<Key, D>, bufs': seq<Buf<D>>, disk': map<Key, D>) {
    forall k: Key, d: D :: k.0 != 0 ==> (Stored(bufs', disk', k, d) <==> Stored(bufs, disk, k, d))
  }

  /** A block is in at most one buffer, and an unreferenced buffer holds what the disk holds. */
  ghost predicate Cached<D>(bufs: seq<Buf<D>>, disk: map<Key, D>) {
    forall u {:trigger Unfold(CACHED, u)} :: Unfold(CACHED, u) ==>
      && (forall a, b :: 0 <= a < b < |bufs| ==> bufs[a].key.0 == 0 || bufs[a].key != bufs[b].key)
      && (forall b :: 0 <= b < |bufs| && bufs[b].key.0 != 0 && bufs[b].refcnt == 0 && bufs[b].valid ==>
            bufs[b].key in disk && disk[bufs[b].key] == bufs[b].data)
  }

  /** Recycling an unreferenced buffer for a block that is not cached loses nothing. */
  lemma {:induction false} Recycled<D(!new)>(bufs: seq<Buf<D>>, disk: map<Key, D>, b: nat, k: Key)
    requires Cached(bufs, disk) && b < |bufs| && bufs[b].refcnt == 0 && k.0 != 0
             && forall a :: 0 <= a < |bufs| ==> bufs[a].key != k
    ensures var bufs' := bufs[b := Buf(k, false, 1, bufs[b].data)];
            Cached(bufs', disk) && SameStore(bufs, disk, bufs', disk)
  {
    assert Unfold(CACHED, 0);
    var bufs' := bufs[b := Buf(k, false, 1, bufs[b].data)];
    forall k2: Key, d: D | k2.0 != 0 ensures Stored(bufs', disk, k2, d) <==> Stored(bufs, disk, k2, d) {
      forall a ensures InCache(bufs', a, k2) <==> InCache(bufs, a, k2) && a != b {}
      if Stored(bufs, disk, k2, d) && exists a :: InCache(bufs, a, k2) {
        var a :| InCache(bufs, a, k2) && bufs[a].data == d;
        if a != b {
          assert InCache(bufs', a, k2);
        }
      }
    }
  }

  /** Changing a buffer's reference count only; to 0 only with the disk's contents. */
  lemma {:induction false} Counted<D(!new)>(bufs: seq<Buf<D>>, disk: map<Key, D>, b: nat, n: nat)
    requires Cached(bufs, disk) && b < |bufs|
    requires n == 0 && bufs[b].key.0 != 0 && bufs[b].valid ==> bufs[b].key in disk && disk[bufs[b].key] == bufs[b].data
    ensures var bufs' := bufs[b := bufs[b].(refcnt := n)]; Cached(bufs', disk) && SameStore(bufs, disk, bufs', disk)
  {
    assert Unfold(CACHED, 0);
    var bufs' := bufs[b := bufs[b].(refcnt := n)];
    forall k: Key, d: D | k.0 != 0 ensures Stored(bufs', disk, k, d) <==> Stored(bufs, disk, k, d) {
      forall a ensures InCache(bufs', a, k) <==> InCache(bufs, a, k) {}
    }
  }

  /** A referenced buffer that is not valid gets the block from the disk. */
  lemma {:induction false} Filled<D(!new)>(bufs: seq<Buf<D>>, disk: map<Key, D>, b: nat)
    requires Cached(bufs, disk) && b < |bufs| && !bufs[b].valid && bufs[b].key.0 != 0 && bufs[b].key in disk
             && bufs[b].refcnt > 0
    ensures var bufs' := bufs[b := bufs[b].(valid := true, data := disk[bufs[b].key])];
            Cached(bufs', disk) && SameStore(bufs, disk, bufs', disk)
  {
    assert Unfold(CACHED, 0);
    var bufs' := bufs[b := bufs[b].(valid := true, data := disk[bufs[b].key])];
    forall k: Key, d: D | k.0 != 0 ensures Stored(bufs', disk, k, d) <==> Stored(bufs, disk, k, d) {
      forall a ensures InCache(bufs', a, k) <==> InCache(bufs, a, k) || (a == b && k == bufs[b].key) {}
      if k == bufs[b].key {
        assert InCache(bufs', b, k);
        forall a ensures !InCache(bufs, a, k) {}
      }
    }
  }

  lemma {:induction false} OnlyCopy<D(!new)>(bufs: seq<Buf<D>>, disk: map<Key, D>, b: nat, d: D)
    requires Cached(bufs, disk) && b < |bufs| && bufs[b].valid && bufs[b].key.0 != 0
    ensures Stored(bufs, disk, bufs[b].key, d) <==> d == bufs[b].data
  {
    assert Unfold(CACHED, 0);
    assert InCache(bufs, b, bufs[b].key);
  }

  /** The store differs at block k alone, where it now has d. */
  ghost predicate StoredAt<D(!new)>(bufs: seq<Buf<D>>, bufs': seq<Buf<D>>, disk: map<Key, D>, k: Key, d: D) {
    forall k2: Key, e: D ::
      k2.0 != 0 ==> (Stored(bufs', disk, k2, e) <==> if k2 == k then e == d else Stored(bufs, disk, k2, e))
  }

  /** The holder of a buffer changes its data. */
  lemma {:induction false} Changed<D(!new)>(bufs: seq<Buf<D>>, disk: map<Key, D>, b: nat, d: D)
    requires Cached(bufs, disk) && b < |bufs| && bufs[b].valid && bufs[b].key.0 != 0 && bufs[b].refcnt > 0
    ensures var bufs' := bufs[b := bufs[b].(data := d)];
            Cached(bufs', disk) && StoredAt(bufs, bufs', disk, bufs[b].key, d)
  {
    var bufs', k := bufs[b := bufs[b].(data := d)], bufs[b].key;
    assert Unfold(CACHED, 0);
    forall k2: Key, e: D | k2.0 != 0
      ensures Stored(bufs', disk, k2, e) <==> if k2 == k then e == d else Stored(bufs, disk, k2, e)
    {
      forall a ensures InCache(bufs', a, k2) <==> InCache(bufs, a, k2) {}
      assert k2 == k ==> InCache(bufs', b, k2);
    }
  }

  /** Writing a valid buffer to the disk does not change the store. */
  lemma {:induction false} WrittenBack<D(!new)>(bufs: seq<Buf<D>>, disk: map<Key, D>, b: nat)
    requires Cached(bufs, disk) && b < |bufs| && bufs[b].valid && bufs[b].key.0 != 0
    ensures var disk' := disk[bufs[b].key := bufs[b].data]; Cached(bufs, disk') && SameStore(bufs, disk, bufs, disk')
  {
    assert Unfold(CACHED, 0);
    assert InCache(bufs, b, bufs[b].key);
  }

  lemma {:induction false} AllSeen<D>(order: seq<nat>, n: nat, bufs: seq<Buf<D>>, k: Key)
    requires |bufs| == n && (forall b :: 0 <= b < n ==> b in order) && (forall i :: 0 <= i < |order| ==> order[i] < n)
    requires forall m :: 0 <= m < |order| ==> bufs[order[m]].key != k
    ensures forall b :: 0 <= b < n ==> bufs[b].key != k
  {
    forall b | 0 <= b < n ensures bufs[b].key != k {
      var _ := IndexOf(order, b);
    }
  }

  lemma {:induction false} NoneFree<D>(order: seq<nat>, stamp: seq<nat>, clock: nat, bufs: seq<Buf<D>>)
    requires Recent(order, stamp, clock, |bufs|) && forall m :: 0 <= m < |order| ==> bufs[order[m]].refcnt > 0
    ensures forall b :: 0 <= b < |bufs| ==> bufs[b].refcnt > 0
  {
    forall b | 0 <= b < |bufs| ensures bufs[b].refcnt > 0 {
      var _ := IndexOf(order, b);
    }
  }

  lemma {:induction false} OldestIs<D>(order: seq<nat>, stamp: seq<nat>, clock: nat, bufs: seq<Buf<D>>, i: nat)
    requires Recent(order, stamp, clock, |bufs|) && i < |order|
             && forall m :: i < m < |order| ==> bufs[order[m]].refcnt > 0
    ensures forall a :: 0 <= a < |bufs| && bufs[a].refcnt == 0 && a != order[i] ==> stamp[a] > stamp[order[i]]
  {
    forall a | 0 <= a < |bufs| && bufs[a].refcnt == 0 && a != order[i] ensures stamp[a] > stamp[order[i]] {
      assert a in order;
      var _ := IndexOf(order, a);
    }
  }

  lemma {:induction false} IndexOf(order: seq<nat>, b: nat) returns (p: nat)
    requires b in order
    ensures p < |order| && order[p] == b
  {
    p :| 0 <= p < |order| && order[p] == b;
  }

  lemma {:induction false} AllDistinct(next: seq<nat>, prev: seq<nat>, order: seq<nat>, head: nat)
    requires Linked(next, prev, order, head)
    ensures Distinct(order)
  {
    assert Unfold(LINKED, 0);
  }

  function Fill<T>(n: nat, x: T): (s: seq<T>)
    ensures |s| == n && forall i :: 0 <= i < n ==> s[i] == x
  {
    if n == 0 then [] else Fill(n - 1, x) + [x]
  }

  function Down(k: nat): (s: seq<nat>)
    ensures |s| == k && forall i :: 0 <= i < k ==> s[i] == k - 1 - i
  {
    if k == 0 then [] else [k - 1] + Down(k - 1)
  }

  function Upto(n: nat): (s: seq<nat>)
    ensures |s| == n && forall i :: 0 <= i < n ==> s[i] == i
  {
    if n == 0 then [] else Upto(n - 1) + [n - 1]
  }

  lemma {:induction false} InitiallyRecent(n: nat)
    ensures Recent(Down(n), Upto(n), n, n)
  {
    forall b | 0 <= b < n ensures b in Down(n) {
      assert Down(n)[n - 1 - b] == b;
    }
  }

  class Cache<D(!new)> {
    var next: seq<nat>
    var prev: seq<nat>
    var bufs: seq<Buf<D>>
    var disk: map<Key, D>
    ghost var order: seq<nat>
    ghost var stamp: seq<nat>
    ghost var clock: nat

    ghost predicate Valid()
      reads this
    {
      && |next| == |prev| == |bufs| + 1 && Linked(next, prev, order, |bufs|)
      && Recent(order, stamp, clock, |bufs|) && Cached(bufs, disk)
    }

    /** binit: no buffer has a block or a reference; every buffer is on the list. */
    constructor (n: nat, junk: D, image: map<Key, D>)
      ensures Valid() && |bufs| == n && disk == image
              && forall b :: 0 <= b < n ==> bufs[b] == Buf((0, 0), false, 0, junk)
    {
      next, prev, bufs, disk := Fill(n + 1, n), Fill(n + 1, n), Fill(n, Buf((0, 0), false, 0, junk)), image;
      order, stamp, clock := Down(n), Upto(n), n;
      new;
      var b := 0;
      assert LinkAt(next, prev, Down(0), n, 0);
      while b < n
        invariant 0 <= b <= n && |next| == |prev| == n + 1 && Linked(next, prev, Down(b), n)
        invariant order == Down(n) && stamp == Upto(n) && clock == n && disk == image
                  && bufs == Fill(n, Buf((0, 0), false, 0, junk))
      {
        Links(next, prev, Down(b), n, 0);
        Fronted(next, prev, Down(b), n, b);
        var first := next[n];
        next := next[b := first];
        prev := prev[b := n];
        prev := prev[first := b];
        next := next[n := b];
        b := b + 1;
      }
      InitiallyRecent(n);
    }

    /** The buffers found by bget's first loop: the one that caches k, or the head. */
    method Lookup(k: Key) returns (b: nat)
      requires Valid()
      ensures b <= |bufs| && (b < |bufs| ==> bufs[b].key == k)
      ensures b == |bufs| ==> forall a :: 0 <= a < |bufs| ==> bufs[a].key != k
    {
      var head := |bufs|;
      ghost var i := 1;
      Links(next, prev, order, head, 0);
      b := next[head];
      while b != head
        invariant 1 <= i <= |order| + 1 && b == Node(order, head, i)
        invariant forall m :: 0 <= m < i - 1 ==> bufs[order[m]].key != k
        decreases |order| + 1 - i
      {
        Links(next, prev, order, head, i);
        if bufs[b].key == k {
          return;
        }
        b := next[b];
        i := i + 1;
      }
      AllSeen(order, |bufs|, bufs, k);
    }

    /** bget's second loop: the unreferenced buffer whose last release is the oldest, or the head. */
    method Oldest() returns (b: nat)
      requires Valid()
      ensures b <= |bufs| && (b == |bufs| ==> forall a :: 0 <= a < |bufs| ==> bufs[a].refcnt > 0)
      ensures b < |bufs| ==>
                bufs[b].refcnt == 0
                && forall a :: 0 <= a < |bufs| && bufs[a].refcnt == 0 && a != b ==> stamp[a] > stamp[b]
    {
      var head := |bufs|;
      ghost var i := |order|;
      Links(next, prev, order, head, i);
      b := prev[head];
      while b != head
        invariant 0 <= i <= |order| && b == Node(order, head, i)
        invariant forall m :: i <= m < |order| ==> bufs[order[m]].refcnt > 0
        decreases i
      {
        Links(next, prev, order, head, i);
        Links(next, prev, order, head, i - 1);
        if bufs[b].refcnt == 0 {
          OldestIs(order, stamp, clock, bufs, i - 1);
          return;
        }
        b := prev[b];
        i := i - 1;
      }
      NoneFree(order, stamp, clock, bufs);
    }

    /** bget: the buffer of block k with one more reference.  If k was not cached, the buffer was unreferenced, and of
        all those the one released longest ago.  The store is the same. */
    method Bget(k: Key) returns (b: nat)
      requires Valid() && k.0 != 0
      requires (exists a :: 0 <= a < |bufs| && bufs[a].key == k) || (exists a :: 0 <= a < |bufs| && bufs[a].refcnt == 0)
      modifies this`bufs
      ensures Valid() && |bufs| == |old(bufs)| && b < |bufs| && SameStore(old(bufs), disk, bufs, disk)
      ensures bufs == old(bufs)[b := bufs[b]] && bufs[b].key == k
      ensures old(bufs)[b].key == k ==> bufs[b] == old(bufs)[b].(refcnt := old(bufs)[b].refcnt + 1)
      ensures old(bufs)[b].key != k ==>
                (forall a :: 0 <= a < |bufs| ==> old(bufs)[a].key != k) && old(bufs)[b].refcnt == 0
      ensures old(bufs)[b].key != k ==> bufs[b].refcnt == 1 && !bufs[b].valid
      ensures old(bufs)[b].key != k ==>
                forall a :: 0 <= a < |bufs| && old(bufs)[a].refcnt == 0 && a != b ==> stamp[a] > stamp[b]
    {
      b := Lookup(k);
      if b != |bufs| {
        Counted(bufs, disk, b, bufs[b].refcnt + 1);
        bufs := bufs[b := bufs[b].(refcnt := bufs[b].refcnt + 1)];
        return;
      }
      b := Oldest();
      Recycled(bufs, disk, b, k);
      bufs := bufs[b := Buf(k, false, 1, bufs[b].data)];
    }

    /** bread: the buffer of block k, with the contents of the store. */
    method Bread(k: Key) returns (b: nat)
      requires Valid() && k.0 != 0 && k in disk
      requires (exists a :: 0 <= a < |bufs| && bufs[a].key == k) || (exists a :: 0 <= a < |bufs| && bufs[a].refcnt == 0)
      modifies this`bufs
      ensures Valid() && |bufs| == |old(bufs)| && b < |bufs| && SameStore(old(bufs), disk, bufs, disk)
      ensures bufs == old(bufs)[b := bufs[b]] && bufs[b].key == k && bufs[b].valid && bufs[b].refcnt > 0
      ensures Stored(old(bufs), disk, k, bufs[b].data)
    {
      b := Bget(k);
      if !bufs[b].valid {
        Filled(bufs, disk, b);
        bufs := bufs[b := bufs[b].(valid := true, data := disk[k])];
      }
      OnlyCopy(bufs, disk, b, bufs[b].data);
    }

    /** The holder of a buffer writes its data: the store changes at that block, and nowhere else. */
    method Change(b: nat, d: D)
      requires Valid() && b < |bufs| && bufs[b].valid && bufs[b].key.0 != 0 && bufs[b].refcnt > 0
      modifies this`bufs
      ensures Valid() && bufs == old(bufs)[b := old(bufs)[b].(data := d)]
              && StoredAt(old(bufs), bufs, disk, bufs[b].key, d)
    {
      Changed(bufs, disk, b, d);
      bufs := bufs[b := bufs[b].(data := d)];
    }

    /** bwrite */
    method Bwrite(b: nat)
      requires Valid() && b < |bufs| && bufs[b].valid && bufs[b].key.0 != 0
      modifies this`disk
      ensures Valid() && disk == old(disk)[bufs[b].key := bufs[b].data] && SameStore(bufs, old(disk), bufs, disk)
    {
      WrittenBack(bufs, disk, b);
      disk := disk[bufs[b].key := bufs[b].data];
    }

    /** brelse of a referenced buffer, which the disk agrees with if this is the last reference: when it is, the buffer
        becomes the most recently released. */
    method Brelse(b: nat)
      requires Valid() && b < |bufs| && bufs[b].refcnt > 0
      requires bufs[b].refcnt == 1 && bufs[b].valid && bufs[b].key.0 != 0 ==>
                 bufs[b].key in disk && disk[bufs[b].key] == bufs[b].data
      modifies this`bufs, this`next, this`prev, this`order, this`stamp, this`clock
      ensures Valid() && bufs == old(bufs)[b := old(bufs)[b].(refcnt := old(bufs)[b].refcnt - 1)]
              && SameStore(old(bufs), disk, bufs, disk)
      ensures old(bufs)[b].refcnt > 1 ==> order == old(order) && stamp == old(stamp)
      ensures old(bufs)[b].refcnt == 1 ==> order[0] == b && stamp == old(stamp)[b := old(clock) + 1]
    {
      Counted(bufs, disk, b, bufs[b].refcnt - 1);
      bufs := bufs[b := bufs[b].(refcnt := bufs[b].refcnt - 1)];
      if bufs[b].refcnt == 0 {
        ghost var p := IndexOf(order, b);
        AllDistinct(next, prev, order, |bufs|);
        RecentFronted(order, stamp, clock, |bufs|, p);
        MoveToFront(b, p);
        order, stamp, clock := [b] + Without(order, p), stamp[b := clock + 1], clock + 1;
      }
    }

    method MoveToFront(b: nat, ghost p: nat)
      requires |next| == |prev| == |bufs| + 1 && Linked(next, prev, order, |bufs|) && p < |order| && order[p] == b
      modifies this`next, this`prev
      ensures |next| == |prev| == |bufs| + 1 && Linked(next, prev, [b] + Without(order, p), |bufs|)
    {
      var head := |bufs|;
      Links(next, prev, order, head, p);
      Links(next, prev, order, head, p + 1);
      Unlinked(next, prev, order, head, p);
      prev := prev[next[b] := prev[b]];
      next := next[prev[b] := next[b]];
      Links(next, prev, Without(order, p), head, 0);
      Fronted(next, prev, Without(order, p), head, b);
      var first := next[head];
      next := next[b := first];
      prev := prev[b := head];
      prev := prev[first := b];
      next := next[head := b];
    }

    /** bpin */
    method Bpin(b: nat)
      requires Valid() && b < |bufs|
      modifies this`bufs
      ensures Valid() && bufs == old(bufs)[b := old(bufs)[b].(refcnt := old(bufs)[b].refcnt + 1)]
              && SameStore(old(bufs), disk, bufs, disk)
    {
      Counted(bufs, disk, b, bufs[b].refcnt + 1);
      bufs := bufs[b := bufs[b].(refcnt := bufs[b].refcnt + 1)];
    }

    /** bunpin, also of the last reference. */
    method Bunpin(b: nat)
      requires Valid() && b < |bufs| && bufs[b].refcnt > 0
      requires bufs[b].refcnt == 1 && bufs[b].valid && bufs[b].key.0 != 0 ==>
                 bufs[b].key in disk && disk[bufs[b].key] == bufs[b].data
      modifies this`bufs
      ensures Valid() && bufs == old(bufs)[b := old(bufs)[b].(refcnt := old(bufs)[b].refcnt - 1)]
              && SameStore(old(bufs), disk, bufs, disk)
    {
      Counted(bufs, disk, b, bufs[b].refcnt - 1);
      bufs := bufs[b := bufs[b].(refcnt := bufs[b].refcnt - 1)];
    }
  }
}
