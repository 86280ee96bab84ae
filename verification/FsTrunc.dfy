/**
  itrunc: the blocks of a file are freed slot by slot, first the direct ones, then
  the entries of the indirect block, which stay in place until the indirect block
  itself is freed.
 */
module FsTrunc {
  import opened Bits
  import opened Fold
  import opened Fs
  import opened FsImage

  const TRUNC := 21
  const EMPTIED := 22
  const INDIRECT := 23

  /** Slot k has been freed after n turns: turns 0..NDIRECT are direct slots, later ones entries. */
  predicate Gone(k: nat, n: nat) {
    k != NDIRECT && k < n
  }

  function Limit(n: nat): nat { if n <= NDIRECT then 0 else n }

  ghost predicate AddrsAt(a: Inode, b: Inode, n: nat) {
    && |a.addrs| == NDIRECT + 1 && |b.addrs| == NDIRECT + 1 && b.size == a.size
    && forall k :: 0 <= k <= NDIRECT ==> b.addrs[k] == if Gone(k, n) then 0 else a.addrs[k]
  }

  ghost predicate OwnersAt(a: map<nat, Slot>, b: map<nat, Slot>, i: nat, n: nat) {
    && (forall x :: x in b <==> x in a && !(a[x].inum == i && Gone(a[x].k, n)))
    && (forall x :: x in b ==> b[x] == a[x])
  }

  /** itrunc of file i, started in `a`, is now in `b` after n turns. */
  ghost predicate Truncating(sb: Super, a: Image, b: Image, i: nat, n: nat) {
    forall u {:trigger Unfold(TRUNC, u)} :: Unfold(TRUNC, u) ==>
      && Good(sb, a) && i < |a.inodes| == |b.inodes| && |b.blocks| == sb.size && Sized(b.inodes)
      && (forall h :: 0 <= h < |a.inodes| && h != i ==> b.inodes[h] == a.inodes[h])
      && AddrsAt(a.inodes[i], b.inodes[i], n)
      && (forall x :: sb.datastart <= x < sb.size && x < |a.blocks| ==> b.blocks[x] == a.blocks[x])
      && OwnersAt(a.owner, b.owner, i, n)
      && Own(sb, Table(b.blocks, b.inodes), b.owner, i, Limit(n)) && Bitmap(sb, b.blocks, b.owner)
  }

  lemma {:induction false} TruncShape(sb: Super, a: Image, b: Image, i: nat, n: nat)
    requires Truncating(sb, a, b, i, n)
    ensures i < |b.inodes| && |b.inodes[i].addrs| == NDIRECT + 1 && Sized(b.inodes)
    ensures GoodSuper(sb) && |b.blocks| == sb.size && Bitmap(sb, b.blocks, b.owner)
  {
    assert Unfold(TRUNC, 0);
  }

  /** Block x is the indirect block of file i. */
  ghost predicate HasIndirect(inodes: seq<Inode>, i: nat, x: nat) {
    forall u {:trigger Unfold(INDIRECT, u)} :: Unfold(INDIRECT, u) ==>
      i < |inodes| && |inodes[i].addrs| == NDIRECT + 1 && inodes[i].addrs[NDIRECT] == x != 0
  }

  lemma {:induction false} TruncStart(sb: Super, a: Image, i: nat)
    requires Good(sb, a) && i < |a.inodes|
    ensures Truncating(sb, a, a, i, 0)
  {
    GoodShape(sb, a);
    LimitShift(sb, Table(a.blocks, a.inodes), a.owner, i, 0);
  }

  /** With nothing exempt it does not matter whose entries are. */
  lemma {:induction false} LimitShift(sb: Super, t: BlockMap, owner: map<nat, Slot>, i: nat, j: nat)
    requires Own(sb, t, owner, j, 0)
    ensures Own(sb, t, owner, i, 0)
  {
    assert Unfold(OWN, 0);
  }

  /** Clearing a bit touches only the bitmap. */
  lemma {:induction false} MarkedTable(sb: Super, blocks: seq<Block>, inodes: seq<Inode>, owner: map<nat, Slot>,
                                       i: nat, lim: nat, x: nat)
    requires Sized(inodes) && Own(sb, Table(blocks, inodes), owner, i, lim) && |blocks| == sb.size
    requires sb.datastart <= x < sb.size
    ensures Table(Marked(sb, blocks, x, false), inodes) == Table(blocks, inodes)
    ensures forall y :: sb.datastart <= y < sb.size ==> Marked(sb, blocks, x, false)[y] == blocks[y]
  {
    assert BBlock(sb, x) < sb.datastart;
    OwnedInRange(sb, Table(blocks, inodes), owner, i, lim);
    SameTable(sb, blocks, Marked(sb, blocks, x, false), inodes, owner, i, lim);
  }

  lemma {:induction false} OwnersStep(a: map<nat, Slot>, b: map<nat, Slot>, i: nat, n: nat, x: nat)
    requires OwnersAt(a, b, i, n) && n != NDIRECT
    requires forall y :: y in b && b[y] == Slot(i, n) ==> y == x
    requires x in b ==> b[x] == Slot(i, n)
    ensures OwnersAt(a, b - {x}, i, n + 1)
  {
    forall y ensures y in b - {x} <==> y in a && !(a[y].inum == i && Gone(a[y].k, n + 1)) {
      if y in a && a[y].inum == i && a[y].k == n && y in b {
        assert b[y] == Slot(i, n);
      }
    }
  }

  /** No block can be owned by slot k of inode i other than the one in it. */
  lemma {:induction false} OnlyOwner(sb: Super, t: BlockMap, owner: map<nat, Slot>, i0: nat, lim: nat, i: nat, k: nat)
    requires Own(sb, t, owner, i0, lim) && i < |t| && k < SLOTS
    ensures forall y :: y in owner && owner[y] == Slot(i, k) ==> y == t[i][k] && y != 0
  {
    assert Unfold(OWN, 0);
  }

  lemma {:induction false} TakeOwners(sb: Super, t: BlockMap, oa: map<nat, Slot>, ob: map<nat, Slot>, i: nat, n: nat)
    requires Own(sb, t, ob, i, Limit(n)) && OwnersAt(oa, ob, i, n) && i < |t| && n < SLOTS && n != NDIRECT
    ensures OwnersAt(oa, ob - {t[i][n]}, i, n + 1)
    ensures t[i][n] == 0 ==> ob - {t[i][n]} == ob
    ensures t[i][n] != 0 ==> t[i][n] in ob && sb.datastart <= t[i][n] < sb.size
  {
    OnlyOwner(sb, t, ob, i, Limit(n), i, n);
    OwnedInRange(sb, t, ob, i, Limit(n));
    if t[i][n] != 0 {
      SlotOwns(sb, t, ob, i, Limit(n), i, n);
    }
    OwnersStep(oa, ob, i, n, t[i][n]);
  }

  lemma {:induction false} DirectFreed(sb: Super, blocks: seq<Block>, inodes: seq<Inode>, owner: map<nat, Slot>,
                                       i: nat, n: nat)
    requires Sized(inodes) && Own(sb, Table(blocks, inodes), owner, i, 0) && Bitmap(sb, blocks, owner)
    requires i < |inodes| && n < NDIRECT && inodes[i].addrs[n] != 0
    ensures var x := inodes[i].addrs[n];
            && x in owner && sb.datastart <= x < sb.size && Table(blocks, inodes)[i][n] == x
            && var blocks' := Marked(sb, blocks, x, false);
               var inodes' := inodes[i := WithAddr(inodes[i], n, 0)];
            && Sized(inodes') && Own(sb, Table(blocks', inodes'), owner - {x}, i, 0) && Bitmap(sb, blocks', owner - {x})
            && (forall y :: sb.datastart <= y < sb.size ==> blocks'[y] == blocks[y])
  {
    var t := Table(blocks, inodes);
    var x := inodes[i].addrs[n];
    assert t[i][n] == At(blocks, inodes[i], n) == x;
    SlotOwns(sb, t, owner, i, 0, i, n);
    TakeSlot(sb, t, owner, i, n);
    MarkedTable(sb, blocks, inodes, owner, i, 0, x);
    FreedBitmap(sb, blocks, owner, x);
    SetAddrTable(Marked(sb, blocks, x, false), inodes, i, n, 0);
  }

  lemma {:induction false} TruncDirect(sb: Super, a: Image, b: Image, i: nat, n: nat, x: nat, n': nat)
    requires Truncating(sb, a, b, i, n) && n < NDIRECT && i < |b.inodes| && |b.inodes[i].addrs| == NDIRECT + 1
    requires GoodSuper(sb) && |b.blocks| == sb.size
    requires x == b.inodes[i].addrs[n] != 0 && n' == n + 1
    ensures x in b.owner && sb.datastart <= x < sb.size
    ensures Truncating(sb, a, Image(Marked(sb, b.blocks, x, false), b.inodes[i := WithAddr(b.inodes[i], n, 0)],
                                    b.owner - {x}), i, n')
  {
    assert Unfold(TRUNC, 0);
    DirectFreed(sb, b.blocks, b.inodes, b.owner, i, n);
    TakeOwners(sb, Table(b.blocks, b.inodes), a.owner, b.owner, i, n);
    AddrsStep(a.inodes[i], b.inodes[i], n);
  }

  lemma {:induction false} AddrsStep(a: Inode, b: Inode, n: nat)
    requires AddrsAt(a, b, n) && n < NDIRECT
    ensures AddrsAt(a, WithAddr(b, n, 0), n + 1)
  {
  }

  lemma {:induction false} TruncEmpty(sb: Super, a: Image, b: Image, i: nat, n: nat, n': nat)
    requires Truncating(sb, a, b, i, n) && n < SLOTS && n != NDIRECT && i < |b.inodes|
             && |b.inodes[i].addrs| == NDIRECT + 1
    requires At(b.blocks, b.inodes[i], n) == 0 && n' == n + 1
    ensures Truncating(sb, a, b, i, n')
  {
    assert Unfold(TRUNC, 0);
    var t := Table(b.blocks, b.inodes);
    assert t[i][n] == At(b.blocks, b.inodes[i], n);
    TakeOwners(sb, t, a.owner, b.owner, i, n);
    if n > NDIRECT {
      TakeEntry(sb, t, b.owner, i, n);
    } else {
      assert Own(sb, t, b.owner, i, Limit(n + 1)) by { assert Unfold(OWN, 0); }
    }
    assert AddrsAt(a.inodes[i], b.inodes[i], n + 1);
  }

  lemma {:induction false} TruncToEntries(sb: Super, a: Image, b: Image, i: nat)
    requires Truncating(sb, a, b, i, NDIRECT)
    ensures Truncating(sb, a, b, i, NDIRECT + 1)
  {
    assert Unfold(TRUNC, 0);
    EntriesLimit(sb, Table(b.blocks, b.inodes), b.owner, i);
    assert AddrsAt(a.inodes[i], b.inodes[i], NDIRECT + 1);
    assert OwnersAt(a.owner, b.owner, i, NDIRECT + 1);
  }

  lemma {:induction false} EntriesLimit(sb: Super, t: BlockMap, owner: map<nat, Slot>, i: nat)
    requires Own(sb, t, owner, i, 0)
    ensures Own(sb, t, owner, i, NDIRECT + 1)
  {
    assert Unfold(OWN, 0);
  }

  lemma {:induction false} EntryFreed(sb: Super, blocks: seq<Block>, inodes: seq<Inode>, owner: map<nat, Slot>,
                                      i: nat, n: nat, x: nat, n': nat)
    requires Sized(inodes) && Own(sb, Table(blocks, inodes), owner, i, Limit(n)) && Bitmap(sb, blocks, owner)
    requires i < |inodes| && NDIRECT < n < SLOTS && x == At(blocks, inodes[i], n) != 0 && n' == n + 1
    requires GoodSuper(sb) && |blocks| == sb.size
    ensures x in owner && sb.datastart <= x < sb.size
    ensures var blocks' := Marked(sb, blocks, x, false);
            && Own(sb, Table(blocks', inodes), owner - {x}, i, Limit(n')) && Bitmap(sb, blocks', owner - {x})
            && (forall y :: sb.datastart <= y < sb.size ==> blocks'[y] == blocks[y])
  {
    var t := Table(blocks, inodes);
    assert t[i][n] == x;
    SlotOwns(sb, t, owner, i, Limit(n), i, n);
    TakeEntry(sb, t, owner, i, n);
    MarkedTable(sb, blocks, inodes, owner, i, n, x);
    FreedBitmap(sb, blocks, owner, x);
  }

  lemma {:induction false} TruncEntry(sb: Super, a: Image, b: Image, i: nat, n: nat, x: nat, n': nat)
    requires Truncating(sb, a, b, i, n) && NDIRECT < n < SLOTS && i < |b.inodes| && |b.inodes[i].addrs| == NDIRECT + 1
    requires GoodSuper(sb) && |b.blocks| == sb.size
    requires x == At(b.blocks, b.inodes[i], n) != 0 && n' == n + 1
    ensures x in b.owner && sb.datastart <= x < sb.size
    ensures Truncating(sb, a, Image(Marked(sb, b.blocks, x, false), b.inodes, b.owner - {x}), i, n')
  {
    assert Unfold(TRUNC, 0);
    var t := Table(b.blocks, b.inodes);
    assert t[i][n] == x;
    TakeOwners(sb, t, a.owner, b.owner, i, n);
    EntryFreed(sb, b.blocks, b.inodes, b.owner, i, n, x, n');
    assert AddrsAt(a.inodes[i], b.inodes[i], n');
  }

  // ------------------------------------------------------------------ the end

  /** File i is empty and owns nothing; every other file is as it was. */
  ghost predicate Truncated(sb: Super, a: Image, d: Image, i: nat) {
    && Good(sb, d) && |d.inodes| == |a.inodes| && i < |d.inodes| && d.inodes[i].size == 0
    && (forall k :: SlotAt(d, i, k) == 0)
    && (forall x :: x in d.owner <==> x in a.owner && a.owner[x].inum != i)
    && (forall h, k :: 0 <= h < |a.inodes| && h != i ==> SlotAt(d, h, k) == SlotAt(a, h, k))
    && (forall h :: 0 <= h < |a.inodes| && h != i ==> FileOf(d, h) == FileOf(a, h))
  }

  /** All slots of file i are empty; what is left is to set the size. */
  ghost predicate Emptied(sb: Super, a: Image, c: Image, i: nat) {
    && i < |a.inodes| == |c.inodes|
    && forall u {:trigger Unfold(EMPTIED, u)} :: Unfold(EMPTIED, u) ==> EmptiedBody(sb, a, c, i)
  }

  ghost predicate EmptiedBody(sb: Super, a: Image, c: Image, i: nat) {
    && Good(sb, a) && i < |a.inodes| == |c.inodes| && |c.blocks| == sb.size && Sized(c.inodes)
    && (forall h :: 0 <= h < |a.inodes| && h != i ==> c.inodes[h] == a.inodes[h])
    && (forall x :: sb.datastart <= x < sb.size && x < |a.blocks| ==> c.blocks[x] == a.blocks[x])
    && (forall k :: 0 <= k < SLOTS ==> At(c.blocks, c.inodes[i], k) == 0)
    && (forall x :: x in c.owner <==> x in a.owner && a.owner[x].inum != i)
    && Own(sb, Table(c.blocks, c.inodes), c.owner, 0, 0) && Bitmap(sb, c.blocks, c.owner)
  }

  lemma {:induction false} AllEntriesZero(sb: Super, t: BlockMap, owner: map<nat, Slot>, i: nat)
    requires Own(sb, t, owner, i, SLOTS) && i < |t| && forall k :: NDIRECT < k < SLOTS ==> t[i][k] == 0
    ensures Own(sb, t, owner, 0, 0)
  {
    assert Unfold(OWN, 0);
  }

  lemma {:induction false} EmptiedWithoutIndirect(sb: Super, a: Image, b: Image, i: nat)
    requires Truncating(sb, a, b, i, SLOTS) && i < |b.inodes| && |b.inodes[i].addrs| == NDIRECT + 1
    requires b.inodes[i].addrs[NDIRECT] == 0
    ensures Emptied(sb, a, b, i)
  {
    assert Unfold(TRUNC, 0);
    var t := Table(b.blocks, b.inodes);
    forall k | 0 <= k < SLOTS ensures t[i][k] == At(b.blocks, b.inodes[i], k) == 0 {
    }
    OnlyOwner(sb, t, b.owner, i, SLOTS, i, NDIRECT);
    AllEntriesZero(sb, t, b.owner, i);
    OwnersEnd(sb, a, b.owner, i);
  }

  lemma {:induction false} OwnersEnd(sb: Super, a: Image, ob: map<nat, Slot>, i: nat)
    requires Good(sb, a) && OwnersAt(a.owner, ob, i, SLOTS)
    requires forall y :: y in ob ==> ob[y] != Slot(i, NDIRECT)
    ensures forall x :: x in ob <==> x in a.owner && a.owner[x].inum != i
  {
    forall x | x in a.owner && a.owner[x].inum == i ensures x !in ob {
      OwnerSlot(sb, a, x);
      assert a.owner[x].k < SLOTS;
    }
  }

  lemma {:induction false} IndirectFreed(sb: Super, blocks: seq<Block>, inodes: seq<Inode>, owner: map<nat, Slot>,
                                         i: nat)
    requires Sized(inodes) && Own(sb, Table(blocks, inodes), owner, i, SLOTS) && Bitmap(sb, blocks, owner)
    requires i < |inodes| && inodes[i].addrs[NDIRECT] != 0
    ensures var x := inodes[i].addrs[NDIRECT];
            && x in owner && sb.datastart <= x < sb.size && owner[x] == Slot(i, NDIRECT)
            && (forall y :: y in owner && owner[y] == Slot(i, NDIRECT) ==> y == x)
            && var blocks' := Marked(sb, blocks, x, false);
               var inodes' := inodes[i := WithAddr(inodes[i], NDIRECT, 0)];
            && Sized(inodes') && Own(sb, Table(blocks', inodes'), owner - {x}, 0, 0) && Bitmap(sb, blocks', owner - {x})
            && (forall y :: sb.datastart <= y < sb.size ==> blocks'[y] == blocks[y])
  {
    var t := Table(blocks, inodes);
    var x := inodes[i].addrs[NDIRECT];
    assert t[i][NDIRECT] == At(blocks, inodes[i], NDIRECT) == x;
    OnlyOwner(sb, t, owner, i, SLOTS, i, NDIRECT);
    SlotOwns(sb, t, owner, i, SLOTS, i, NDIRECT);
    TakeIndirect(sb, t, owner, i);
    MarkedTable(sb, blocks, inodes, owner, i, SLOTS, x);
    FreedBitmap(sb, blocks, owner, x);
    ClearIndirectTable(Marked(sb, blocks, x, false), inodes, i);
    LimitShift(sb, t[i := ClearedRow(t[i], NDIRECT)], owner - {x}, 0, i);
  }

  lemma {:induction false} EmptiedWithIndirect(sb: Super, a: Image, b: Image, i: nat)
    requires Truncating(sb, a, b, i, SLOTS) && i < |b.inodes| && |b.inodes[i].addrs| == NDIRECT + 1
    requires GoodSuper(sb) && |b.blocks| == sb.size && b.inodes[i].addrs[NDIRECT] != 0
    ensures var x := b.inodes[i].addrs[NDIRECT];
            && x in b.owner && sb.datastart <= x < sb.size
            && Emptied(sb, a, Image(Marked(sb, b.blocks, x, false), b.inodes[i := WithAddr(b.inodes[i], NDIRECT, 0)],
                                    b.owner - {x}), i)
  {
    assert Unfold(TRUNC, 0);
    IndirectFreed(sb, b.blocks, b.inodes, b.owner, i);
    OwnersEndMinus(sb, a, b.owner, i, b.inodes[i].addrs[NDIRECT]);
  }

  lemma {:induction false} OwnersEndMinus(sb: Super, a: Image, ob: map<nat, Slot>, i: nat, x: nat)
    requires Good(sb, a) && OwnersAt(a.owner, ob, i, SLOTS)
    requires x in ob && ob[x] == Slot(i, NDIRECT) && forall y :: y in ob && ob[y] == Slot(i, NDIRECT) ==> y == x
    ensures forall y :: y in ob - {x} <==> y in a.owner && a.owner[y].inum != i
  {
    forall y | y in a.owner && a.owner[y].inum == i ensures y !in ob - {x} {
      OwnerSlot(sb, a, y);
      assert a.owner[y].k < SLOTS;
    }
  }

  lemma {:induction false} EmptiedSlots(sb: Super, a: Image, c: Image, i: nat, h: nat, k: nat)
    requires Emptied(sb, a, c, i) && h < |a.inodes|
    ensures SlotAt(c, h, k) == if h == i then 0 else SlotAt(a, h, k)
  {
    assert Unfold(EMPTIED, 0);
    GoodShape(sb, a);
    SlotAtTable(c, h, k);
    SlotAtTable(a, h, k);
    if h != i {
      IndirectOwned(sb, a.blocks, a.inodes, a.owner, 0, 0, h);
      RowFrame(a.blocks, c.blocks, a.inodes[h]);
    }
  }

  lemma {:induction false} EmptiedMapped(sb: Super, a: Image, c: Image, i: nat, h: nat)
    requires Emptied(sb, a, c, i) && Good(sb, a) && Sized(c.inodes) && h < |a.inodes|
    requires h != i ==> c.inodes[h] == a.inodes[h]
    ensures NoHoles(Table(c.blocks, c.inodes)[h], if h == i then 0 else c.inodes[h].size)
  {
    if h != i {
      GoodFile(sb, a, h);
      forall bn | 0 <= bn < MAXFILE && bn * BSIZE < a.inodes[h].size
        ensures Table(c.blocks, c.inodes)[h][SlotOf(bn)] != 0 {
        assert IsMapped(a, h, bn * BSIZE);
        EmptiedSlots(sb, a, c, i, h, SlotOf(bn));
        SlotAtTable(c, h, SlotOf(bn));
      }
    }
  }

  lemma {:induction false} EmptiedGood(sb: Super, a: Image, c: Image, i: nat)
    requires Emptied(sb, a, c, i)
    ensures Good(sb, Resized(c, i, 0)) && forall h, k :: SlotAt(Resized(c, i, 0), h, k) == SlotAt(c, h, k)
  {
    assert Unfold(EMPTIED, 0);
    var d := Resized(c, i, 0);
    ResizedTable(c, i, 0);
    SameSlots(c, d);
    forall h | 0 <= h < |d.inodes| ensures NoHoles(Table(c.blocks, c.inodes)[h], d.inodes[h].size) {
      EmptiedMapped(sb, a, c, i, h);
    }
    assert AllMapped(Table(c.blocks, c.inodes), d.inodes);
  }

  lemma {:induction false} EmptiedByte(sb: Super, a: Image, c: Image, i: nat, h: nat, p: nat)
    requires Emptied(sb, a, c, i) && h < |a.inodes| && h != i && IsMapped(a, h, p)
    ensures ByteOf(c, h, p) == ByteOf(a, h, p)
  {
    assert Unfold(EMPTIED, 0);
    SlotBlock(sb, a, h, SlotOf(p / BSIZE));
    EmptiedSlots(sb, a, c, i, h, SlotOf(p / BSIZE));
    GoodShape(sb, a);
  }

  lemma {:induction false} EmptiedFile(sb: Super, a: Image, c: Image, i: nat, h: nat)
    requires Emptied(sb, a, c, i) && h < |a.inodes| && h != i
    requires forall g, k :: SlotAt(Resized(c, i, 0), g, k) == SlotAt(c, g, k)
    ensures FileOf(Resized(c, i, 0), h) == FileOf(a, h)
  {
    var d := Resized(c, i, 0);
    assert Good(sb, a) && c.inodes[h] == a.inodes[h] by { assert Unfold(EMPTIED, 0); }
    GoodFile(sb, a, h);
    FileIs(a, h);
    FileIs(d, h);
    forall p | 0 <= p < a.inodes[h].size ensures ByteOf(d, h, p) == ByteOf(a, h, p) {
      EmptiedByte(sb, a, c, i, h, p);
      assert ByteOf(d, h, p) == ByteOf(c, h, p);
    }
  }

  lemma {:induction false} EmptiedShape(sb: Super, a: Image, c: Image, i: nat)
    requires Emptied(sb, a, c, i)
    ensures GoodSuper(sb) && i < |c.inodes| == sb.ninodes
  {
    assert Unfold(EMPTIED, 0);
    GoodShape(sb, a);
  }

  lemma {:induction false} TruncDone(sb: Super, a: Image, c: Image, i: nat)
    requires Emptied(sb, a, c, i)
    ensures Truncated(sb, a, Resized(c, i, 0), i)
  {
    var d := Resized(c, i, 0);
    EmptiedGood(sb, a, c, i);
    forall h: nat, k: nat | h < |a.inodes| ensures SlotAt(d, h, k) == if h == i then 0 else SlotAt(a, h, k) {
      EmptiedSlots(sb, a, c, i, h, k);
    }
    forall h | 0 <= h < |a.inodes| && h != i ensures FileOf(d, h) == FileOf(a, h) {
      EmptiedFile(sb, a, c, i, h);
    }
    assert forall x :: x in d.owner <==> x in a.owner && a.owner[x].inum != i by { assert Unfold(EMPTIED, 0); }
  }

  /** The indirect block is still there and unchanged while its entries are freed. */
  /** Entry j of the indirect block is slot n. */
  lemma {:induction false} IndirectEntry(sb: Super, a: Image, b: Image, i: nat, n: nat, ind: nat, j: nat)
    requires Truncating(sb, a, b, i, n) && HasIndirect(b.inodes, i, ind) && n == NDIRECT + 1 + j && j < NINDIRECT
    ensures i < |b.inodes| && |b.inodes[i].addrs| == NDIRECT + 1 && ind < |b.blocks|
    ensures WordAt(b.blocks[ind], j) == At(b.blocks, b.inodes[i], n)
  {
    assert Unfold(INDIRECT, 0);
    TruncIndirect(sb, a, b, i, n);
  }

  lemma {:induction false} TruncIndirect(sb: Super, a: Image, b: Image, i: nat, n: nat)
    requires Truncating(sb, a, b, i, n) && i < |b.inodes| && |b.inodes[i].addrs| == NDIRECT + 1
    ensures b.inodes[i].addrs[NDIRECT] != 0 ==> b.inodes[i].addrs[NDIRECT] < |b.blocks|
  {
    assert Unfold(TRUNC, 0);
    var t := Table(b.blocks, b.inodes);
    assert t[i][NDIRECT] == At(b.blocks, b.inodes[i], NDIRECT);
    if t[i][NDIRECT] != 0 {
      SlotOwns(sb, t, b.owner, i, Limit(n), i, NDIRECT);
    }
  }

  /** Without an indirect block there are no entries to free. */
  lemma {:induction false} TruncNoEntries(sb: Super, a: Image, b: Image, i: nat, n: nat)
    requires Truncating(sb, a, b, i, n) && NDIRECT <= n <= SLOTS && i < |b.inodes| && |b.inodes[i].addrs| == NDIRECT + 1
    requires b.inodes[i].addrs[NDIRECT] == 0
    ensures Truncating(sb, a, b, i, SLOTS)
    decreases SLOTS - n
  {
    if n == NDIRECT {
      TruncToEntries(sb, a, b, i);
      TruncNoEntries(sb, a, b, i, NDIRECT + 1);
    } else if n < SLOTS {
      TruncEmpty(sb, a, b, i, n, n + 1);
      TruncNoEntries(sb, a, b, i, n + 1);
    } else {
      assert n == SLOTS;
    }
  }
}
