/**
  Images that are good: an empty file system, and one in which a chunk of filewrite
  logs ten blocks.
 */
module FsMake {
  import opened Bits
  import opened Fs
  import opened FsImage
  import opened FsBudget

  // ------------------------------------------------------------ bitmap blocks

  function ZeroBlocks(n: nat): (d: seq<Block>)
    ensures |d| == n && forall b :: 0 <= b < n ==> d[b] == ZeroBlock()
  {
    if n == 0 then [] else ZeroBlocks(n - 1) + [ZeroBlock()]
  }

  /** A disk whose bitmap says of the blocks below n which are used. */
  function MarkedDisk(sb: Super, used: nat -> bool, n: nat): (d: seq<Block>)
    requires GoodSuper(sb) && n <= sb.size
    ensures |d| == sb.size
  {
    if n == 0 then ZeroBlocks(sb.size)
    else if used(n - 1) then Marked(sb, MarkedDisk(sb, used, n - 1), n - 1, true) else MarkedDisk(sb, used, n - 1)
  }

  lemma {:induction false} ZeroBits(n: nat, k: nat)
    requires k < n
    ensures !Binary(0, n)[k]
  {
    if k > 0 {
      ZeroBits(n - 1, k - 1);
    }
  }

  lemma {:induction false} ZeroDiskBit(bi: nat)
    requires bi < BPB
    ensures !BitOf(ZeroBlock(), bi)
  {
    ZeroBits(8, bi % 8);
  }

  lemma {:induction false} MarkedDiskBit(sb: Super, used: nat -> bool, n: nat, c: nat)
    requires GoodSuper(sb) && n <= sb.size && c < sb.size
    ensures Bit(sb, MarkedDisk(sb, used, n), c) <==> c < n && used(c)
  {
    if n == 0 {
      BBlockWithin(sb, c);
      ZeroDiskBit(c % BPB);
    } else {
      var d := MarkedDisk(sb, used, n - 1);
      MarkedDiskBit(sb, used, n - 1, c);
      MarkedBit(sb, d, n - 1, true, c);
      assert MarkedDisk(sb, used, n) == if used(n - 1) then Marked(sb, d, n - 1, true) else d;
    }
  }

  // ------------------------------------------------ images with direct blocks only

  predicate DirectInode(ip: Inode) {
    && |ip.addrs| == NDIRECT + 1 && ip.addrs[NDIRECT] == 0 && ip.size <= NDIRECT * BSIZE
    && forall k :: 0 <= k < NDIRECT && k * BSIZE < ip.size ==> ip.addrs[k] != 0
  }

  function DirectAddr(inodes: seq<Inode>, i: nat, k: nat): nat {
    if i < |inodes| && k < |inodes[i].addrs| then inodes[i].addrs[k] else 0
  }

  /** The owners and the direct blocks say the same. */
  ghost predicate DirectOwners(sb: Super, inodes: seq<Inode>, owner: map<nat, Slot>) {
    DirectHeld(sb, inodes, owner) && DirectRecorded(inodes, owner)
  }

  ghost predicate DirectHeld(sb: Super, inodes: seq<Inode>, owner: map<nat, Slot>) {
    forall b :: b in owner ==> DirectlyIn(sb, inodes, owner[b], b)
  }

  ghost predicate DirectlyIn(sb: Super, inodes: seq<Inode>, s: Slot, b: nat) {
    sb.datastart <= b < sb.size && s.inum < |inodes| && s.k < NDIRECT && DirectAddr(inodes, s.inum, s.k) == b
  }

  ghost predicate DirectRecorded(inodes: seq<Inode>, owner: map<nat, Slot>) {
    forall i, k :: 0 <= i < |inodes| && 0 <= k < NDIRECT && DirectAddr(inodes, i, k) != 0 ==>
      DirectAddr(inodes, i, k) in owner && owner[DirectAddr(inodes, i, k)] == Slot(i, k)
  }

  lemma {:induction false} DirectTable(blocks: seq<Block>, inodes: seq<Inode>, i: nat, k: nat)
    requires Sized(inodes) && i < |inodes| && DirectInode(inodes[i]) && k < SLOTS
    ensures Table(blocks, inodes)[i][k] == if k < NDIRECT then DirectAddr(inodes, i, k) else 0
  {
  }

  lemma {:induction false} DirectGood(sb: Super, im: Image)
    requires GoodSuper(sb) && |im.blocks| == sb.size && |im.inodes| == sb.ninodes && Sized(im.inodes)
    requires (forall i :: 0 <= i < |im.inodes| ==> DirectInode(im.inodes[i])) && DirectOwners(sb, im.inodes, im.owner)
    requires forall b :: 0 <= b < sb.size ==> (Bit(sb, im.blocks, b) <==> b < sb.datastart || b in im.owner)
    ensures Good(sb, im)
  {
    var t := Table(im.blocks, im.inodes);
    forall i, k | 0 <= i < |t| && 0 <= k < SLOTS
      ensures t[i][k] == if k < NDIRECT then DirectAddr(im.inodes, i, k) else 0 {
      DirectTable(im.blocks, im.inodes, i, k);
    }
    assert Held(sb, t, im.owner);
    assert Recorded(sb, t, im.owner, 0, 0);
    forall h | 0 <= h < |im.inodes| ensures NoHoles(t[h], im.inodes[h].size) {
      forall bn | 0 <= bn < MAXFILE && bn * BSIZE < im.inodes[h].size ensures t[h][SlotOf(bn)] != 0 {
        assert bn < NDIRECT;
        assert im.inodes[h].addrs[bn] != 0;
      }
    }
    GoodConsistent(sb, im);
  }

  // -------------------------------------------------------------- empty files

  const NOBLOCKS: seq<nat> := [0, 0, 0, 0, 0, 0, 0, 0, 0, 0, 0, 0, 0]

  function EmptyInodes(n: nat): (s: seq<Inode>)
    ensures |s| == n && forall i :: 0 <= i < n ==> s[i] == Inode(0, NOBLOCKS)
  {
    if n == 0 then [] else EmptyInodes(n - 1) + [Inode(0, NOBLOCKS)]
  }

  /** A fresh file system: no file has a block, and exactly the metadata blocks are marked. */
  lemma {:induction false} EmptyGood(sb: Super)
    requires GoodSuper(sb)
    ensures Good(sb, Image(MarkedDisk(sb, b => b < sb.datastart, sb.size), EmptyInodes(sb.ninodes), map[]))
  {
    var im := Image(MarkedDisk(sb, b => b < sb.datastart, sb.size), EmptyInodes(sb.ninodes), map[]);
    forall b | 0 <= b < sb.size ensures Bit(sb, im.blocks, b) <==> b < sb.datastart {
      MarkedDiskBit(sb, c => c < sb.datastart, sb.size, b);
    }
    DirectGood(sb, im);
  }

  // ---------------------------------------------------------------- ten blocks

  const DATA: nat := 8181

  /** A disk whose data blocks begin eleven before the second bitmap block's. */
  predicate TenSuper(sb: Super) {
    && sb.datastart == DATA && sb.ninodes == 1400 && sb.size == DATA + NDIRECT * sb.ninodes
    && sb.inodestart == 2 && sb.bmapstart == 100
  }

  /** The four free blocks, each with its bit in another bitmap block. */
  predicate IsGap(b: nat) { b == BPB - 1 || b == BPB || b == 2 * BPB || b == 3 * BPB }

  predicate IsUsed(b: nat) { b < DATA || !IsGap(b) }

  /** Slot k of file h has the block of its number, unless that is free. */
  function TenAddr(h: nat, k: nat): nat { if IsGap(DATA + NDIRECT * h + k) then 0 else DATA + NDIRECT * h + k }

  function TenAddrs(h: nat, n: nat): (s: seq<nat>)
    ensures |s| == n && forall k :: 0 <= k < n ==> s[k] == TenAddr(h, k)
  {
    if n == 0 then [] else TenAddrs(h, n - 1) + [TenAddr(h, n - 1)]
  }

  /** File 0 ends one byte into its tenth block; the others are empty but keep their blocks. */
  function TenInode(h: nat): (ip: Inode)
    ensures |ip.addrs| == NDIRECT + 1 && ip.addrs[NDIRECT] == 0
            && forall k :: 0 <= k < NDIRECT ==> ip.addrs[k] == TenAddr(h, k)
    ensures ip.size == if h == 0 then 9 * BSIZE + 1 else 0
  {
    Inode(if h == 0 then 9 * BSIZE + 1 else 0, TenAddrs(h, NDIRECT) + [0])
  }

  function TenInodes(n: nat): (s: seq<Inode>)
    ensures |s| == n && forall h :: 0 <= h < n ==> s[h] == TenInode(h)
  {
    if n == 0 then [] else TenInodes(n - 1) + [TenInode(n - 1)]
  }

  ghost function TenOwner(sb: Super): map<nat, Slot> {
    map b: nat | DATA <= b < sb.size && !IsGap(b) :: Slot((b - DATA) / NDIRECT, (b - DATA) % NDIRECT)
  }

  ghost function TenImage(sb: Super): Image
    requires GoodSuper(sb)
  {
    Image(MarkedDisk(sb, IsUsed, sb.size), TenInodes(sb.ninodes), TenOwner(sb))
  }

  /** Files and slots number the data blocks. */
  lemma {:induction false} TenSlot(n: nat, h: nat, k: nat, b: nat)
    requires k < NDIRECT && b == DATA + NDIRECT * h + k
    ensures (b - DATA) / NDIRECT == h && (b - DATA) % NDIRECT == k && (h < n ==> b < DATA + NDIRECT * n)
  {
    if h < n {
      assert NDIRECT * h + k < NDIRECT * (h + 1) <= NDIRECT * n;
    }
  }

  lemma {:induction false} TenBlock(sb: Super, b: nat)
    requires TenSuper(sb) && DATA <= b < sb.size
    ensures var h, k := (b - DATA) / NDIRECT, (b - DATA) % NDIRECT;
            h < sb.ninodes && k < NDIRECT && b == DATA + NDIRECT * h + k
  {
  }

  lemma {:induction false} TenDirect(h: nat)
    ensures DirectInode(TenInode(h))
  {
  }

  lemma {:induction false} TenAt(n: nat, h: nat, k: nat)
    requires h < n && k < NDIRECT
    ensures DirectAddr(TenInodes(n), h, k) == TenAddr(h, k)
  {
    assert TenInodes(n)[h] == TenInode(h);
  }

  lemma {:induction false} TenBack(sb: Super, h: nat, k: nat, b: nat)
    requires TenSuper(sb) && h < sb.ninodes && k < NDIRECT && b == TenAddr(h, k) != 0
    ensures b in TenOwner(sb) && TenOwner(sb)[b] == Slot(h, k)
  {
    TenSlot(sb.ninodes, h, k, b);
  }

  lemma {:induction false} TenForth(sb: Super, b: nat)
    requires TenSuper(sb) && b in TenOwner(sb)
    ensures var s := TenOwner(sb)[b];
            sb.datastart <= b < sb.size && s.inum < sb.ninodes && s.k < NDIRECT && TenAddr(s.inum, s.k) == b
  {
    TenBlock(sb, b);
  }

  lemma {:induction false} TenOwners(sb: Super, inodes: seq<Inode>, owner: map<nat, Slot>)
    requires TenSuper(sb) && inodes == TenInodes(sb.ninodes) && owner == TenOwner(sb)
    ensures DirectOwners(sb, inodes, owner)
  {
    assert DirectHeld(sb, inodes, owner) by {
      forall b | b in owner ensures DirectlyIn(sb, inodes, owner[b], b) {
        TenHeld(sb, b);
      }
    }
    assert DirectRecorded(inodes, owner) by {
      forall h, k | 0 <= h < |inodes| && 0 <= k < NDIRECT && DirectAddr(inodes, h, k) != 0
        ensures DirectAddr(inodes, h, k) in owner && owner[DirectAddr(inodes, h, k)] == Slot(h, k)
      {
        TenRecorded(sb, h, k);
      }
    }
  }

  lemma {:induction false} TenHeld(sb: Super, b: nat)
    requires TenSuper(sb) && b in TenOwner(sb)
    ensures var s := TenOwner(sb)[b];
            && sb.datastart <= b < sb.size && s.inum < sb.ninodes && s.k < NDIRECT
            && DirectAddr(TenInodes(sb.ninodes), s.inum, s.k) == b
  {
    var s := TenOwner(sb)[b];
    TenForth(sb, b);
    TenAt(sb.ninodes, s.inum, s.k);
  }

  lemma {:induction false} TenRecorded(sb: Super, h: nat, k: nat)
    requires TenSuper(sb) && h < sb.ninodes && k < NDIRECT && DirectAddr(TenInodes(sb.ninodes), h, k) != 0
    ensures var b := DirectAddr(TenInodes(sb.ninodes), h, k); b in TenOwner(sb) && TenOwner(sb)[b] == Slot(h, k)
  {
    TenAt(sb.ninodes, h, k);
    TenBack(sb, h, k, DirectAddr(TenInodes(sb.ninodes), h, k));
  }

  lemma {:induction false} TenBit(sb: Super, b: nat)
    requires TenSuper(sb) && b < sb.size
    ensures IsUsed(b) <==> b < sb.datastart || b in TenOwner(sb)
  {
  }

  lemma {:induction false} TenGood(sb: Super)
    requires TenSuper(sb)
    ensures GoodSuper(sb) && Good(sb, TenImage(sb))
  {
    assert GoodSuper(sb);
    TenGoodImage(sb, TenImage(sb));
  }

  lemma {:induction false} TenGoodImage(sb: Super, im: Image)
    requires TenSuper(sb) && GoodSuper(sb) && im == TenImage(sb)
    ensures Good(sb, im)
  {
    TenOwners(sb, im.inodes, im.owner);
    forall h | 0 <= h < |im.inodes| ensures DirectInode(im.inodes[h]) {
      TenDirect(h);
      assert im.inodes[h] == TenInode(h);
    }
    TenBits(sb, im.blocks, im.owner);
    DirectGood(sb, im);
  }

  lemma {:induction false} TenBits(sb: Super, blocks: seq<Block>, owner: map<nat, Slot>)
    requires TenSuper(sb) && GoodSuper(sb) && blocks == MarkedDisk(sb, IsUsed, sb.size) && owner == TenOwner(sb)
    ensures |blocks| == sb.size
    ensures forall b :: 0 <= b < sb.size ==> (Bit(sb, blocks, b) <==> b < sb.datastart || b in owner)
  {
    forall b | 0 <= b < sb.size ensures Bit(sb, blocks, b) <==> b < sb.datastart || b in owner {
      MarkedDiskBit(sb, IsUsed, sb.size, b);
      TenBit(sb, b);
    }
  }

  /** balloc finds the gaps one after the other. */
  lemma {:induction false} TenLowest(sb: Super)
    requires TenSuper(sb)
    ensures Lowest(sb, TenOwner(sb).Keys, 4) == {BPB - 1, BPB, 2 * BPB, 3 * BPB}
  {
    var keys := TenOwner(sb).Keys;
    var g1, g2, g3, g4 := BPB - 1, BPB, 2 * BPB, 3 * BPB;
    assert Taken(sb, keys, 0) == keys;
    NextFreeIs(sb, keys, g1);
    assert Taken(sb, keys, 1) == keys + {g1};
    NextFreeIs(sb, keys + {g1}, g2);
    assert Taken(sb, keys, 2) == keys + {g1} + {g2};
    NextFreeIs(sb, keys + {g1} + {g2}, g3);
    assert Taken(sb, keys, 3) == keys + {g1} + {g2} + {g3};
    NextFreeIs(sb, keys + {g1} + {g2} + {g3}, g4);
    assert Taken(sb, keys, 4) == keys + {g1} + {g2} + {g3} + {g4};
  }

  lemma {:induction false} TenApart(sb: Super)
    requires TenSuper(sb)
    ensures FourApart(sb, TenOwner(sb).Keys)
  {
    TenLowest(sb);
    GapBits(sb);
    assert |Lowest(sb, TenOwner(sb).Keys, 4)| == 4;
  }

  lemma {:induction false} GapBits(sb: Super)
    ensures BBlock(sb, BPB - 1) == sb.bmapstart && BBlock(sb, BPB) == sb.bmapstart + 1
    ensures BBlock(sb, 2 * BPB) == sb.bmapstart + 2 && BBlock(sb, 3 * BPB) == sb.bmapstart + 3
  {
  }

  lemma {:induction false} TenOffset(off: nat)
    requires off == 9 * BSIZE + 1
    ensures off / BSIZE == 9 && off % BSIZE == 1 && (off + CHUNK - 1) / BSIZE == 12
  {
  }

  lemma {:induction false} TenTail(n: nat, k: nat)
    requires n > 0 && 9 < k <= NDIRECT
    ensures |TenInodes(n)[0].addrs| == NDIRECT + 1 && TenInodes(n)[0].addrs[k] == 0
  {
    assert TenInodes(n)[0] == TenInode(0);
  }

  lemma {:induction false} TenWorst(sb: Super)
    requires TenSuper(sb) && GoodSuper(sb) && Good(sb, TenImage(sb))
    ensures Worst(sb, TenImage(sb), 0, 9 * BSIZE + 1, CHUNK)
  {
    var im, off := TenImage(sb), 9 * BSIZE + 1;
    TenApart(sb);
    GoodShape(sb, im);
    TenOffset(off);
    forall k | 9 < k <= NDIRECT ensures SlotAt(im, 0, k) == 0 {
      SlotAtIs(im, 0, k);
      TenTail(sb.ninodes, k);
    }
  }

  /** A good image, a file and an offset at which a full chunk of filewrite logs exactly ten blocks. */
  lemma {:induction false} TenReached() returns (sb: Super, im: Image, off: nat)
    ensures Good(sb, im) && 0 < |im.inodes| && off <= im.inodes[0].size && off + CHUNK <= MAXFILE * BSIZE
    ensures Worst(sb, im, 0, off, CHUNK) && ExactCost(sb, im, 0, off, CHUNK) == 10
  {
    sb := Super(DATA + NDIRECT * 1400, 1400, 2, 100, DATA);
    TenGood(sb);
    im, off := TenImage(sb), 9 * BSIZE + 1;
    TenWorst(sb);
    ChunkCostsTen(sb, im, 0, off, CHUNK);
  }
}
