/**
  The code of kernel/fs.c that moves file data: balloc, bfree, bmap, itrunc, readi
  and writei, and the chunking loop of filewrite in kernel/file.c.

  `logged` collects the block numbers passed to log_write since begin_op.
 */
module FsCode {
  import opened Base
  import opened Bits
  import opened Fold
  import opened Fs
  import opened FsImage
  import opened FsBudget
  import opened FsMake
  import opened FsTrunc

  class FileSystem {
    const sb: Super
    var blocks: seq<Block>
    var inodes: seq<Inode>
    ghost var owner: map<nat, Slot>
    var logged: set<nat>
    ghost var base: Image         // the file system at begin_op

    ghost predicate Valid()
      reads this
    {
      Good(sb, Now())
    }

    /** A fresh file system of this shape, as mkfs leaves it before it adds files. */
    constructor (sb: Super)
      requires GoodSuper(sb)
      ensures this.sb == sb && Valid() && logged == {} && |inodes| == sb.ninodes
      ensures forall i :: 0 <= i < |inodes| ==> File(i) == []
    {
      this.sb := sb;
      blocks := MarkedDisk(sb, b => b < sb.datastart, sb.size);
      inodes := EmptyInodes(sb.ninodes);
      owner, logged := map[], {};
      new;
      EmptyGood(sb);
      forall i | 0 <= i < |inodes| ensures File(i) == [] {
        GoodFile(sb, Now(), i);
      }
    }

    ghost function Now(): Image
      reads this
    {
      Image(blocks, inodes, owner)
    }

    /** The bytes of file i. */
    ghost function File(i: nat): seq<Byte>
      reads this
    {
      FileOf(Now(), i)
    }

    ghost predicate Full()
      reads this
    {
      forall b :: sb.datastart <= b < sb.size ==> b in owner
    }

    /** Since begin_op only logged blocks have changed, and inode i. */
    ghost predicate Tracked(i: nat)
      reads this
    {
      Untouched(sb, base, Now(), i, logged)
    }

    /** Storing d in the buffer of block x, and log_write. */
    method Put(x: nat, d: Block, ghost i: nat)
      requires GoodSuper(sb) && |blocks| == sb.size && sb.inodestart <= x < sb.size
      modifies this`blocks, this`logged
      ensures blocks == old(blocks)[x := d] && logged == old(logged) + {x}
      ensures old(Tracked(i)) ==> Tracked(i)
    {
      blocks, logged := blocks[x := d], logged + {x};
      TrackedStore(sb, base, old(Now()), Now(), i, old(logged), x, d);
    }

    /** A change of the inode in memory. */
    method SetInode(i: nat, ip: Inode)
      requires i < |inodes|
      modifies this`inodes
      ensures inodes == old(inodes)[i := ip]
      ensures old(Tracked(i)) ==> Tracked(i)
    {
      inodes := inodes[i := ip];
      TrackedInode(sb, base, old(Now()), Now(), i, logged, ip);
    }

    /** iupdate: inode i, now ip, goes to its block. */
    method Iupdate(i: nat, ip: Inode)
      requires GoodSuper(sb) && i < |inodes| == sb.ninodes
      modifies this`inodes, this`logged
      ensures inodes == old(inodes)[i := ip] && logged == old(logged) + {IBlock(sb, i)}
      ensures old(Tracked(i)) ==> Tracked(i)
    {
      inodes, logged := inodes[i := ip], logged + {IBlock(sb, i)};
      TrackedUpdate(sb, base, old(Now()), Now(), i, old(logged), ip);
    }

    /** Marks block x and zeroes it. */
    method Claim(x: nat, ghost i: nat)
      requires GoodSuper(sb) && |blocks| == sb.size && sb.datastart <= x < sb.size
      modifies this`blocks, this`logged
      ensures blocks == Allocated(sb, old(blocks), x) && logged == old(logged) + {BBlock(sb, x), x}
      ensures old(Tracked(i)) ==> Tracked(i)
    {
      var y := BBlock(sb, x);
      assert y < sb.datastart;
      Put(y, WithBit(blocks[y], x % BPB, true), i);
      Put(x, ZeroBlock(), i);
      assert old(logged) + {y} + {x} == old(logged) + {y, x};
    }

    /** Allocates the first free block and zeroes it; 0 if there is none. */
    method Balloc(ghost i: nat) returns (r: nat)
      requires Bitmap(sb, blocks, owner)
      modifies this`blocks, this`logged
      ensures r == 0 ==> blocks == old(blocks) && logged == old(logged) && Full()
      ensures r != 0 ==>
                && sb.datastart <= r < sb.size && r !in owner
                && (forall b :: sb.datastart <= b < r ==> b in owner)
                && blocks == Allocated(sb, old(blocks), r)
                && logged == old(logged) + {BBlock(sb, r), r}
      ensures r == NextFree(sb, owner.Keys)
      ensures old(Tracked(i)) ==> Tracked(i)
    {
      var b := 0;
      ghost var g := 0;
      while b < sb.size
        invariant b == g * BPB
        invariant blocks == old(blocks) && logged == old(logged)
        invariant UsedBelow(b)
      {
        assert BBlock(sb, b) < sb.datastart;
        var bp := blocks[BBlock(sb, b)];
        var bi := 0;
        while bi < BPB && b + bi < sb.size
          invariant 0 <= bi <= BPB
          invariant blocks == old(blocks) && logged == old(logged)
          invariant UsedBelow(b + bi)
        {
          BitInBlock(sb, g, b, bi);
          BitMeans(b + bi);
          if !BitOf(bp, bi) {
            r := b + bi;
            Claim(r, i);
            NextFreeIs(sb, owner.Keys, r);
            return;
          }
          bi := bi + 1;
        }
        b, g := b + BPB, g + 1;
      }
      r := 0;
      NextFreeIs(sb, owner.Keys, r);
    }

    ghost predicate UsedBelow(n: nat)
      reads this
    {
      forall b :: sb.datastart <= b < n && b < sb.size ==> b in owner
    }

    lemma BitMeans(b: nat)
      requires Bitmap(sb, blocks, owner) && b < sb.size
      ensures BitOf(blocks[BBlock(sb, b)], b % BPB) <==> b < sb.datastart || b in owner
    {
      assert Unfold(BITMAP, 0);
      assert Bit(sb, blocks, b) == BitOf(blocks[BBlock(sb, b)], b % BPB);
    }

    /** Frees an allocated block; the "freeing free block" panic is not reached. */
    method Bfree(b: nat, ghost i: nat)
      requires Bitmap(sb, blocks, owner) && b in owner && sb.datastart <= b < sb.size
      modifies this`blocks, this`logged
      ensures blocks == Marked(sb, old(blocks), b, false)
      ensures logged == old(logged) + {BBlock(sb, b)}
      ensures BBlock(sb, b) in BitmapArea(sb) && (old(Tracked(i)) ==> Tracked(i))
    {
      var bp := blocks[BBlock(sb, b)];
      BitMeans(b);
      assert BitOf(bp, b % BPB);
      Put(BBlock(sb, b), WithBit(bp, b % BPB, false), i);
    }

    /** bmap's allocation for slot k of the inode itself, for a data block or for the indirect block. */
    method MapAddr(i: nat, k: nat) returns (addr: nat)
      requires Valid() && i < |inodes| && k <= NDIRECT && SlotAt(Now(), i, k) == 0
      modifies this`blocks, this`inodes, this`owner, this`logged
      ensures Grew(sb, old(Now()), Now(), i, {k})
      ensures addr == SlotAt(Now(), i, k)
      ensures addr == 0 ==> Full() && Now() == old(Now())
      ensures owner.Keys == old(owner).Keys + Opt(addr) && addr == NextFree(sb, old(owner).Keys)
      ensures Logs(sb, old(logged), old(Now()), logged, Now(), {})
      ensures old(Tracked(i)) ==> Tracked(i)
    {
      GoodShape(sb, Now());
      SlotAtIs(Now(), i, k);
      GrewRefl(sb, Now(), i, {k});
      LogsNothing(sb, logged, Now());
      addr := Balloc(i);
      if addr != 0 {
        GrewDirect(sb, old(Now()), i, k, addr);
        SetInode(i, WithAddr(inodes[i], k, addr));
        owner := owner[addr := Slot(i, k)];
        LogsOne(sb, old(logged), old(Now()), Now(), addr, {});
        assert old(logged) + {BBlock(sb, addr), addr} + {} == logged;
      }
    }

    /** bmap's allocation for entry j of the indirect block. */
    method MapEntry(i: nat, j: nat) returns (addr: nat)
      requires Valid() && i < |inodes| && j < NINDIRECT
      requires SlotAt(Now(), i, NDIRECT) != 0 && SlotAt(Now(), i, NDIRECT + 1 + j) == 0
      modifies this`blocks, this`owner, this`logged
      ensures Grew(sb, old(Now()), Now(), i, {NDIRECT + 1 + j})
      ensures addr == SlotAt(Now(), i, NDIRECT + 1 + j)
      ensures addr == 0 ==> Full() && Now() == old(Now())
      ensures owner.Keys == old(owner).Keys + Opt(addr) && addr == NextFree(sb, old(owner).Keys)
      ensures Logs(sb, old(logged), old(Now()), logged, Now(), if addr != 0 then {SlotAt(Now(), i, NDIRECT)} else {})
      ensures old(Tracked(i)) ==> Tracked(i)
    {
      GoodShape(sb, Now());
      SlotAtIs(Now(), i, NDIRECT);
      GrewRefl(sb, Now(), i, {NDIRECT + 1 + j});
      LogsNothing(sb, logged, Now());
      SlotPlace(sb, Now(), i, NDIRECT);
      var x := inodes[i].addrs[NDIRECT];
      addr := Balloc(i);
      if addr != 0 {
        GrewIndirect(sb, old(Now()), i, j, addr);
        Put(x, PutWord(blocks[x], j, addr), i);
        owner := owner[addr := Slot(i, NDIRECT + 1 + j)];
        LogsOne(sb, old(logged), old(Now()), Now(), addr, {x});
        assert old(logged) + {BBlock(sb, addr), addr} + {x} == logged;
        GrewSlot(sb, old(Now()), Now(), i, {NDIRECT + 1 + j}, i, NDIRECT);
      }
    }

    /** addrs[k] of file i, allocated if it is 0. */
    method LoadAddr(i: nat, k: nat) returns (addr: nat)
      requires Valid() && i < |inodes| && k <= NDIRECT
      modifies this`blocks, this`inodes, this`owner, this`logged
      ensures Grew(sb, old(Now()), Now(), i, {k})
      ensures addr == SlotAt(Now(), i, k)
      ensures addr == 0 ==> Full() && Now() == old(Now())
      ensures SlotAt(old(Now()), i, k) != 0 ==> Now() == old(Now()) && logged == old(logged)
      ensures owner.Keys <= old(owner).Keys + Opt(addr)
      ensures owner.Keys == Taken(sb, old(owner).Keys, if SlotAt(old(Now()), i, k) == 0 then 1 else 0)
      ensures Logs(sb, old(logged), old(Now()), logged, Now(), {})
      ensures old(Tracked(i)) ==> Tracked(i)
    {
      GoodShape(sb, Now());
      SlotAtIs(Now(), i, k);
      TakenOne(sb, owner.Keys);
      addr := inodes[i].addrs[k];
      if addr == 0 {
        addr := MapAddr(i, k);
      } else {
        GrewRefl(sb, Now(), i, {k});
        LogsNothing(sb, logged, Now());
      }
    }

    /** The block in entry j of the indirect block, allocated if there is none. */
    method LoadEntry(i: nat, j: nat) returns (addr: nat)
      requires Valid() && i < |inodes| && j < NINDIRECT && SlotAt(Now(), i, NDIRECT) != 0
      modifies this`blocks, this`owner, this`logged
      ensures Grew(sb, old(Now()), Now(), i, {NDIRECT + 1 + j})
      ensures addr == SlotAt(Now(), i, NDIRECT + 1 + j)
      ensures addr == 0 ==> Full()
      ensures SlotAt(old(Now()), i, NDIRECT + 1 + j) != 0 ==> Now() == old(Now()) && logged == old(logged)
      ensures owner.Keys <= old(owner).Keys + Opt(addr)
      ensures owner.Keys == Taken(sb, old(owner).Keys, if SlotAt(old(Now()), i, NDIRECT + 1 + j) == 0 then 1 else 0)
      ensures Logs(sb, old(logged), old(Now()), logged, Now(),
                   if addr != SlotAt(old(Now()), i, NDIRECT + 1 + j) then {SlotAt(Now(), i, NDIRECT)} else {})
      ensures old(Tracked(i)) ==> Tracked(i)
    {
      GoodShape(sb, Now());
      SlotAtIs(Now(), i, NDIRECT);
      SlotAtIs(Now(), i, NDIRECT + 1 + j);
      SlotBlock(sb, Now(), i, NDIRECT);
      TakenOne(sb, owner.Keys);
      addr := WordAt(blocks[inodes[i].addrs[NDIRECT]], j);
      if addr == 0 {
        addr := MapEntry(i, j);
      } else {
        GrewRefl(sb, Now(), i, {NDIRECT + 1 + j});
        LogsNothing(sb, logged, Now());
      }
    }

    /** An indirect entry can only be in use if the indirect block is. */
    lemma EntryNeedsIndirect(i: nat, j: nat)
      requires Valid() && i < |inodes| && j < NINDIRECT && SlotAt(Now(), i, NDIRECT + 1 + j) != 0
      ensures SlotAt(Now(), i, NDIRECT) != 0
    {
      GoodShape(sb, Now());
      SlotAtIs(Now(), i, NDIRECT + 1 + j);
      SlotAtIs(Now(), i, NDIRECT);
    }

    method BmapIndirect(i: nat, j: nat) returns (addr: nat)
      requires Valid() && i < |inodes| && j < NINDIRECT
      modifies this`blocks, this`inodes, this`owner, this`logged
      ensures Grew(sb, old(Now()), Now(), i, {NDIRECT, NDIRECT + 1 + j})
      ensures addr == SlotAt(Now(), i, NDIRECT + 1 + j)
      ensures addr == 0 ==> Full()
      ensures SlotAt(old(Now()), i, NDIRECT + 1 + j) != 0 ==> Now() == old(Now()) && logged == old(logged)
      ensures addr != 0 ==> SlotAt(Now(), i, NDIRECT) != 0
      ensures SlotAt(old(Now()), i, NDIRECT) != 0 ==> owner.Keys <= old(owner).Keys + Opt(addr)
      ensures owner.Keys <= old(owner).Keys + Opt(addr) + Opt(SlotAt(Now(), i, NDIRECT))
      ensures addr != 0 ==> owner.Keys == Taken(sb, old(owner).Keys, AllocsAt(old(Now()), i, NDIRECT + j))
      ensures Logs(sb, old(logged), old(Now()), logged, Now(),
                   if addr != SlotAt(old(Now()), i, NDIRECT + 1 + j) then {SlotAt(Now(), i, NDIRECT)} else {})
      ensures old(Tracked(i)) ==> Tracked(i)
    {
      ghost var k := NDIRECT + 1 + j;
      ghost var was := SlotAt(Now(), i, k);
      if was != 0 {
        EntryNeedsIndirect(i, j);
      }
      var x := LoadAddr(i, NDIRECT);
      GrewShape(sb, old(Now()), Now(), i, {NDIRECT});
      GrewSlot(sb, old(Now()), Now(), i, {NDIRECT}, i, k);
      if x == 0 {
        GrewRefl(sb, Now(), i, {NDIRECT, k});
        return 0;
      }
      label L:
      addr := LoadEntry(i, j);
      GrewShape(sb, old@L(Now()), Now(), i, {k});
      GrewSlot(sb, old@L(Now()), Now(), i, {k}, i, NDIRECT);
      ghost var more := if addr != was then {x} else {};
      LogsTrans(sb, old(logged), old(Now()), old@L(logged), old@L(Now()), logged, Now(), {}, more);
      assert {} + more == more;
      GrewTrans(sb, old(Now()), old@L(Now()), Now(), i, {NDIRECT}, {k});
      ghost var n1 := if SlotAt(old(Now()), i, NDIRECT) == 0 then 1 else 0;
      ghost var n2 := if was == 0 then 1 else 0;
      TakenMore(sb, old(owner).Keys, n1, n2, n1 + n2);
      assert n1 + n2 == AllocsAt(old(Now()), i, NDIRECT + j);
      assert {NDIRECT} + {k} == {NDIRECT, k};
    }

    /** The disk block of block bn of file i, allocated if there is none; 0 if the disk is full. */
    method Bmap(i: nat, bn: nat) returns (addr: nat)
      requires Valid() && i < |inodes| && bn < MAXFILE
      modifies this`blocks, this`inodes, this`owner, this`logged
      ensures Grew(sb, old(Now()), Now(), i, {SlotOf(bn), NDIRECT})
      ensures addr == SlotAt(Now(), i, SlotOf(bn))
      ensures addr == 0 ==> Full()
      ensures SlotAt(old(Now()), i, SlotOf(bn)) != 0 ==> Now() == old(Now()) && logged == old(logged)
      ensures bn < NDIRECT ==> SlotAt(Now(), i, NDIRECT) == SlotAt(old(Now()), i, NDIRECT)
      ensures bn >= NDIRECT && addr != 0 ==> SlotAt(Now(), i, NDIRECT) != 0
      ensures bn < NDIRECT || SlotAt(old(Now()), i, NDIRECT) != 0 ==> owner.Keys <= old(owner).Keys + Opt(addr)
      ensures owner.Keys <= old(owner).Keys + Opt(addr) + Opt(SlotAt(Now(), i, NDIRECT))
      ensures addr != 0 ==> owner.Keys == Taken(sb, old(owner).Keys, AllocsAt(old(Now()), i, bn))
      ensures Logs(sb, old(logged), old(Now()), logged, Now(),
                   if bn >= NDIRECT && addr != SlotAt(old(Now()), i, SlotOf(bn)) then {SlotAt(Now(), i, NDIRECT)}
                     else {})
      ensures old(Tracked(i)) ==> Tracked(i)
    {
      if bn < NDIRECT {
        addr := LoadAddr(i, bn);
        GrewSlot(sb, old(Now()), Now(), i, {bn}, i, NDIRECT);
        GrewWiden(sb, old(Now()), Now(), i, {bn}, {bn, NDIRECT});
      } else {
        addr := BmapIndirect(i, bn - NDIRECT);
        assert {NDIRECT, bn + 1} == {bn + 1, NDIRECT};
      }
    }

    /** One turn of readi's loop: m bytes at offset o, all in one block. */
    method ReadTurn(i: nat, o: nat, m: nat) returns (data: seq<Byte>)
      requires Valid() && i < |inodes| && o + m <= inodes[i].size && 0 < m && o % BSIZE + m <= BSIZE
      modifies this`blocks, this`inodes, this`owner, this`logged
      ensures Now() == old(Now()) && logged == old(logged)
      ensures |File(i)| == inodes[i].size && data == File(i)[o..o + m]
    {
      ReadBlock(sb, Now(), i, o, m);
      var addr := Bmap(i, o / BSIZE);
      data := blocks[addr][o % BSIZE..o % BSIZE + m];
    }

    /** readi: the requested bytes, clipped to the file's size.  Nothing is allocated on the way.
        copyOk(t) says whether the user copy at progress t succeeds. */
    method Readi(i: nat, off: nat, n: nat, copyOk: nat -> bool) returns (r: int, dst: seq<Byte>)
      requires Valid() && i < |inodes| && off < UINT && n < UINT
      modifies this`blocks, this`inodes, this`owner, this`logged
      ensures Now() == old(Now()) && logged == old(logged)
      ensures |File(i)| == inodes[i].size
      ensures off > |File(i)| || off + n >= UINT ==> r == 0 && dst == []
      ensures off <= |File(i)| && off + n < UINT ==>
                var end := if off + n > |File(i)| then |File(i)| else off + n;
                && off + |dst| <= end && dst == File(i)[off..off + |dst|]
                && (r >= 0 ==> r == |dst| == end - off)
                && (r < 0 ==> r == -1 && |dst| < end - off && !copyOk(|dst|))
    {
      GoodFile(sb, Now(), i);
      Wraps(off, n);
      ghost var f := File(i);
      dst := [];
      if off > inodes[i].size || (off + n) % UINT < off {
        return 0, [];
      }
      var size := inodes[i].size;
      var want := if off + n > size then size - off else n;
      var tot := 0;
      while tot < want
        invariant Now() == old(Now()) && logged == old(logged)
        invariant 0 <= tot <= want && |dst| == tot && off + want <= size
        invariant dst == f[off..off + tot]
        decreases want - tot
      {
        var o := off + tot;
        var m := Piece(o, want - tot);
        var data := ReadTurn(i, o, m);
        if !copyOk(tot) {
          return -1, dst;
        }
        dst := dst + data;
        tot := tot + m;
      }
      r := tot;
    }

    /** bmap, with the log account of the write that asks. */
    method BmapFor(i: nat, bn: nat, ghost l0: set<nat>, ghost start: Image, ghost first: nat, ghost acc: Account)
      returns (addr: nat, ghost acc': Account)
      requires Tracked(i)
      requires Valid() && i < |inodes| && bn < MAXFILE && bn == first + acc.cnt
      requires Spent(sb, l0, start, logged, Now(), i, acc) && Exact(sb, l0, start, logged, Now(), i, first, acc.cnt)
      modifies this`blocks, this`inodes, this`owner, this`logged
      ensures Grew(sb, old(Now()), Now(), i, {SlotOf(bn), NDIRECT})
      ensures addr == SlotAt(Now(), i, SlotOf(bn))
      ensures addr == 0 ==> Full()
      ensures Spent(sb, l0, start, logged, Now(), i, acc')
      ensures addr != 0 ==> addr in acc'.data && Exact(sb, l0, start, logged + {addr}, Now(), i, first, acc'.cnt)
      ensures acc'.cnt == acc.cnt + 1
      ensures acc'.allocs == acc.allocs + if SlotAt(old(Now()), i, SlotOf(bn)) == 0 then 1 else 0
      ensures Tracked(i)
    {
      ghost var ks := {SlotOf(bn), NDIRECT};
      ghost var was := SlotAt(Now(), i, SlotOf(bn));
      ghost var im, l := Now(), logged;
      addr := Bmap(i, bn);
      ghost var im', l' := Now(), logged;
      GrewShape(sb, im, im', i, ks);
      if SlotAt(im, i, NDIRECT) != 0 {
        GrewSlot(sb, im, im', i, ks, i, NDIRECT);
      }
      ghost var extra := if bn >= NDIRECT && addr != was then {SlotAt(im', i, NDIRECT)} else {};
      SpentBmap(sb, l0, start, l, im, l', im', i, acc, addr, was, extra);
      acc' := Looked(acc, addr, was, extra);
      if addr != 0 {
        ExactBmap(sb, l0, start, l, im, l', im', i, first, acc.cnt, bn, addr, extra, acc'.cnt);
      }
    }

    /** One turn of writei's loop; m == 0 when it has to stop. */
    method WriteTurn(i: nat, src: seq<Byte>, ghost start: Image, ghost off0: nat, off: nat, tot: nat, n: nat,
                     copyOk: nat -> bool, ghost l0: set<nat>, ghost first: nat, ghost acc: Account)
      returns (m: nat, ghost acc': Account)
      requires Tracked(i)
      requires Wrote(sb, start, Now(), i, off0, off, src) && Spent(sb, l0, start, logged, Now(), i, acc)
      requires Exact(sb, l0, start, logged, Now(), i, first, acc.cnt) && off / BSIZE == first + acc.cnt
      requires off == off0 + tot && tot < n <= |src| && off0 + n <= MAXFILE * BSIZE
      modifies this`blocks, this`inodes, this`owner, this`logged
      ensures tot + m <= n && Wrote(sb, start, Now(), i, off0, off + m, src)
      ensures m == 0 ==> Full() || !copyOk(tot)
      ensures m != 0 ==> m == Piece(off, n - tot) && Exact(sb, l0, start, logged, Now(), i, first, acc'.cnt)
      ensures Spent(sb, l0, start, logged, Now(), i, acc')
      ensures acc'.cnt == acc.cnt + 1 && acc'.allocs == acc.allocs + if IsMapped(old(Now()), i, off) then 0 else 1
      ensures Tracked(i)
    {
      WroteShape(sb, start, Now(), i, off0, off, src);
      var addr;
      addr, acc' := BmapFor(i, off / BSIZE, l0, start, first, acc);
      WroteGrew(sb, start, old(Now()), Now(), i, {SlotOf(off / BSIZE), NDIRECT}, off0, off, src);
      if addr == 0 {
        return 0, acc';
      }
      if !copyOk(tot) {
        return 0, acc';
      }
      m := Piece(off, n - tot);
      acc' := StoreTurn(i, src, start, off0, off, tot, m, l0, first, acc', addr);
    }

    /** The copy and log_write of one turn. */
    method StoreTurn(i: nat, src: seq<Byte>, ghost start: Image, ghost off0: nat, off: nat, tot: nat, m: nat,
                     ghost l0: set<nat>, ghost first: nat, ghost acc: Account, addr: nat) returns (ghost acc': Account)
      requires Tracked(i)
      requires Wrote(sb, start, Now(), i, off0, off, src) && Spent(sb, l0, start, logged, Now(), i, acc)
      requires Exact(sb, l0, start, logged + {addr}, Now(), i, first, acc.cnt)
      requires off == off0 + tot && tot + m <= |src| && off + m <= MAXFILE * BSIZE && off % BSIZE + m <= BSIZE
      requires IsMapped(Now(), i, off) && addr == SlotAt(Now(), i, SlotOf(off / BSIZE)) && addr in acc.data
      modifies this`blocks, this`logged
      ensures Wrote(sb, start, Now(), i, off0, off + m, src)
      ensures Spent(sb, l0, start, logged, Now(), i, acc') && acc'.cnt == acc.cnt && acc'.allocs == acc.allocs
      ensures Exact(sb, l0, start, logged, Now(), i, first, acc'.cnt)
      ensures Tracked(i)
    {
      ghost var mid := Now();
      WroteShape(sb, start, mid, i, off0, off, src);
      StoreGood(sb, mid, i, SlotOf(off / BSIZE), off % BSIZE, src[tot..tot + m]);
      WroteMore(sb, start, mid, i, off0, off, src, m);
      assert off - off0 == tot;
      SpentStore(sb, l0, start, logged, mid, Stored(mid, addr, off % BSIZE, src[tot..tot + m]), i, acc, addr);
      SlotPlace(sb, mid, i, SlotOf(off / BSIZE));
      Put(addr, Patched(blocks[addr], off % BSIZE, src[tot..tot + m]), i);
      assert Now() == Stored(mid, addr, off % BSIZE, src[tot..tot + m]);
      acc' := acc.(more := acc.more + {addr});
      ExactStored(sb, l0, start, logged, mid, Now(), i, first, acc.cnt);
    }

    /** WriteTurn, keeping the account within the bound. */
    method FrugalTurn(i: nat, src: seq<Byte>, ghost start: Image, ghost off0: nat, off: nat, tot: nat, n: nat,
                      copyOk: nat -> bool, ghost l0: set<nat>, ghost first: nat, ghost acc: Account)
      returns (m: nat, ghost acc': Account)
      requires Tracked(i)
      requires Wrote(sb, start, Now(), i, off0, off, src) && Spent(sb, l0, start, logged, Now(), i, acc)
      requires Exact(sb, l0, start, logged, Now(), i, first, acc.cnt) && first == off0 / BSIZE
      requires off == off0 + tot && tot < n <= |src| && off0 + n <= MAXFILE * BSIZE
      requires Frugal(acc, off0, off)
      requires acc.cnt == 0 ==> off == off0 && (off0 % BSIZE != 0 ==> IsMapped(Now(), i, off0))
      modifies this`blocks, this`inodes, this`owner, this`logged
      ensures tot + m <= n && Wrote(sb, start, Now(), i, off0, off + m, src)
      ensures m == 0 ==> Full() || !copyOk(tot)
      ensures Spent(sb, l0, start, logged, Now(), i, acc') && Affordable(acc', off0, n) && acc'.cnt > 0
      ensures m != 0 && tot + m < n ==> Frugal(acc', off0, off + m)
      ensures m != 0 ==> Exact(sb, l0, start, logged, Now(), i, first, acc'.cnt)
      ensures m != 0 && tot + m == n ==> acc'.cnt == Touches(off0, n)
      ensures Tracked(i)
    {
      FrugalAt(acc, off0, off, n, Piece(off, n - tot));
      m, acc' := WriteTurn(i, src, start, off0, off, tot, n, copyOk, l0, first, acc);
      FrugalCost(acc, off0, off, n, acc');
      if m != 0 && tot + m < n {
        FrugalNext(acc, acc', off0, off, m, n - tot);
      }
    }

    method WriteLoop(i: nat, src: seq<Byte>, off0: nat, n: nat, copyOk: nat -> bool)
      returns (tot: nat, ghost acc: Account)
      requires Tracked(i)
      requires Valid() && i < |inodes| && n <= |src| && off0 <= inodes[i].size && off0 + n <= MAXFILE * BSIZE
      modifies this`blocks, this`inodes, this`owner, this`logged
      ensures tot <= n && Wrote(sb, old(Now()), Now(), i, off0, off0 + tot, src)
      ensures tot < n ==> Full() || !copyOk(tot)
      ensures Spent(sb, old(logged), old(Now()), logged, Now(), i, acc) && Affordable(acc, off0, n)
      ensures tot == n ==> Exact(sb, old(logged), old(Now()), logged, Now(), i, off0 / BSIZE, Touches(off0, n))
      ensures Tracked(i)
    {
      ghost var start := Now();
      ghost var first := off0 / BSIZE;
      TouchesFits(off0, n);
      ExactNothing(sb, logged, start, i, first);
      WroteNothing(sb, start, i, off0, src);
      SpentNothing(sb, logged, start, i);
      FirstMapped(sb, start, i, off0);
      NothingAffordable(off0, n);
      acc := Account({}, {}, 0, 0);
      tot := 0;
      var off := off0;
      while tot < n
        invariant 0 <= tot <= n && off == off0 + tot
        invariant Wrote(sb, start, Now(), i, off0, off, src)
        invariant Spent(sb, old(logged), start, logged, Now(), i, acc)
        invariant Affordable(acc, off0, n) && (tot < n ==> Frugal(acc, off0, off))
        invariant Exact(sb, old(logged), start, logged, Now(), i, first, acc.cnt)
                  && (tot == n ==> acc.cnt == Touches(off0, n))
        invariant acc.cnt == 0 ==> off == off0 && (off0 % BSIZE != 0 ==> IsMapped(Now(), i, off0))
        invariant Tracked(i)
        decreases n - tot
      {
        var m;
        m, acc := FrugalTurn(i, src, start, off0, off, tot, n, copyOk, old(logged), first, acc);
        if m == 0 {
          break;
        }
        tot, off := tot + m, off + m;
      }
    }

    /** The end of writei: the new size, and iupdate. */
    method Finish(i: nat, src: seq<Byte>, ghost start: Image, ghost off0: nat, off: nat, tot: nat) returns (r: int)
      requires Tracked(i)
      requires Wrote(sb, start, Now(), i, off0, off, src) && off == off0 + tot
      requires i < |start.inodes| && off0 <= start.inodes[i].size
      modifies this`inodes, this`logged
      ensures Valid() && r == tot && Spliced(start, Now(), i, off0, off, src)
              && |FileOf(start, i)| == start.inodes[i].size
      ensures logged == old(logged) + {IBlock(sb, i)}
      ensures Tracked(i)
    {
      ghost var done := Now();
      WroteShape(sb, start, done, i, off0, off, src);
      WroteDone(sb, start, done, i, off0, off, src);
      GoodShape(sb, done);
      Iupdate(i, if off > inodes[i].size then inodes[i].(size := off) else inodes[i]);
      assert Now() == Resized(done, i, NewSize(done, i, off));
      WroteSpliced(start, Now(), i, off0, tot, src);
      r := tot;
    }

    /** writei.  Returns how many bytes it wrote, or -1 without doing anything. */
    method Writei(i: nat, src: seq<Byte>, off0: nat, n: nat, copyOk: nat -> bool) returns (r: int)
      requires Tracked(i)
      requires Valid() && i < |inodes| && off0 < UINT && n < UINT && n <= |src|
      modifies this`blocks, this`inodes, this`owner, this`logged
      ensures Valid() && |inodes| == |old(inodes)|
      ensures r == -1 <==> off0 > old(inodes)[i].size || off0 + n > MAXFILE * BSIZE
      ensures r == -1 ==> Now() == old(Now()) && logged == old(logged)
      ensures r != -1 ==>
                && 0 <= r <= n && Spliced(old(Now()), Now(), i, off0, off0 + r, src)
                && (r < n ==> Full() || !copyOk(r))
      ensures |logged| <= |old(logged)| + WriteCost(off0, n)
      ensures r == n && old(logged) == {} ==> |logged| == ExactCost(sb, old(Now()), i, off0, n)
      ensures Tracked(i)
      ensures r != -1 ==> IBlock(sb, i) in logged
    {
      Wraps(off0, n);
      if off0 > inodes[i].size || (off0 + n) % UINT < off0 {
        return -1;
      }
      if off0 + n > MAXFILE * BSIZE {
        return -1;
      }
      r := WriteAll(i, src, off0, n, copyOk);
    }

    /** writei after its checks. */
    method WriteAll(i: nat, src: seq<Byte>, off0: nat, n: nat, copyOk: nat -> bool) returns (r: nat)
      requires Tracked(i)
      requires Valid() && i < |inodes| && n <= |src| && off0 <= inodes[i].size && off0 + n <= MAXFILE * BSIZE
      modifies this`blocks, this`inodes, this`owner, this`logged
      ensures Valid() && |inodes| == |old(inodes)| && Tracked(i) && IBlock(sb, i) in logged
      ensures r <= n && Spliced(old(Now()), Now(), i, off0, off0 + r, src) && (r < n ==> Full() || !copyOk(r))
      ensures |logged| <= |old(logged)| + WriteCost(off0, n)
      ensures r == n && old(logged) == {} ==> |logged| == ExactCost(sb, old(Now()), i, off0, n)
    {
      ghost var start := Now();
      var tot; ghost var acc;
      tot, acc := WriteLoop(i, src, off0, n, copyOk);
      SpentTotal(sb, old(logged), start, logged, Now(), i, acc, IBlock(sb, i));
      TouchesFits(off0, n);
      if tot == n && old(logged) == {} {
        ExactTotal(sb, start, logged, Now(), i, off0 / BSIZE, Touches(off0, n));
      }
      var _ := Finish(i, src, start, off0, off0 + tot, tot);
      r := tot;
    }

    /** One turn of itrunc's loop over the direct slots. */
    method FreeDirect(i: nat, k: nat, ghost start: Image) returns (k': nat)
      requires Truncating(sb, start, Now(), i, k) && k < NDIRECT
      modifies this`blocks, this`inodes, this`owner, this`logged
      ensures k' == k + 1 && Truncating(sb, start, Now(), i, k')
      ensures old(Tracked(i)) ==> Tracked(i)
      ensures logged <= old(logged) + BitmapArea(sb)
    {
      k' := k + 1;
      ghost var im := Now();
      TruncShape(sb, start, im, i, k);
      var x := inodes[i].addrs[k];
      if x != 0 {
        TruncDirect(sb, start, im, i, k, x, k');
        Bfree(x, i);
        SetInode(i, WithAddr(inodes[i], k, 0));
        owner := owner - {x};
      } else {
        TruncEmpty(sb, start, im, i, k, k');
      }
    }

    /** One turn of itrunc's loop over the entries of the indirect block. */
    method FreeEntry(i: nat, ind: nat, j: nat, ghost start: Image, ghost k: nat) returns (ghost k': nat)
      requires HasIndirect(inodes, i, ind) && k == NDIRECT + 1 + j && j < NINDIRECT
      requires Truncating(sb, start, Now(), i, k)
      modifies this`blocks, this`owner, this`logged
      ensures k' == k + 1 && Truncating(sb, start, Now(), i, k')
      ensures old(Tracked(i)) ==> Tracked(i)
      ensures logged <= old(logged) + BitmapArea(sb)
    {
      k' := k + 1;
      ghost var im := Now();
      TruncShape(sb, start, im, i, k);
      IndirectEntry(sb, start, im, i, k, ind, j);
      var x := WordAt(blocks[ind], j);
      if x != 0 {
        TruncEntry(sb, start, im, i, k, x, k');
        Bfree(x, i);
        owner := owner - {x};
      } else {
        TruncEmpty(sb, start, im, i, k, k');
      }
    }

    /** Everything below the indirect block, and the indirect block itself. */
    method FreeIndirect(i: nat, ghost start: Image)
      requires Truncating(sb, start, Now(), i, SLOTS)
      requires i < |inodes| && |inodes[i].addrs| == NDIRECT + 1 && inodes[i].addrs[NDIRECT] != 0
      modifies this`blocks, this`inodes, this`owner, this`logged
      ensures Emptied(sb, start, Now(), i)
      ensures old(Tracked(i)) ==> Tracked(i)
      ensures logged <= old(logged) + BitmapArea(sb)
    {
      TruncShape(sb, start, Now(), i, SLOTS);
      var x := inodes[i].addrs[NDIRECT];
      EmptiedWithIndirect(sb, start, Now(), i);
      Bfree(x, i);
      SetInode(i, WithAddr(inodes[i], NDIRECT, 0));
      owner := owner - {x};
    }

    /** itrunc's loop over the entries of the indirect block. */
    method FreeEntries(i: nat, ind: nat, ghost start: Image)
      requires Truncating(sb, start, Now(), i, NDIRECT + 1) && HasIndirect(inodes, i, ind)
      modifies this`blocks, this`owner, this`logged
      ensures Truncating(sb, start, Now(), i, SLOTS)
      ensures old(Tracked(i)) ==> Tracked(i)
      ensures logged <= old(logged) + BitmapArea(sb)
    {
      var j := 0;
      ghost var k := NDIRECT + 1;
      while j < NINDIRECT
        invariant 0 <= j <= NINDIRECT && k == NDIRECT + 1 + j && (old(Tracked(i)) ==> Tracked(i))
        invariant logged <= old(logged) + BitmapArea(sb)
        invariant Truncating(sb, start, Now(), i, k)
      {
        k := FreeEntry(i, ind, j, start, k);
        j := j + 1;
      }
      assert k == SLOTS;
    }

    method FreeAll(i: nat)
      requires Valid() && i < |inodes|
      modifies this`blocks, this`inodes, this`owner, this`logged
      ensures Emptied(sb, old(Now()), Now(), i)
      ensures old(Tracked(i)) ==> Tracked(i)
      ensures logged <= old(logged) + BitmapArea(sb)
    {
      ghost var start := Now();
      TruncStart(sb, start, i);
      var k := 0;
      while k < NDIRECT
        invariant 0 <= k <= NDIRECT && Truncating(sb, start, Now(), i, k) && (old(Tracked(i)) ==> Tracked(i))
        invariant logged <= old(logged) + BitmapArea(sb)
      {
        k := FreeDirect(i, k, start);
      }
      assert k == NDIRECT;
      TruncShape(sb, start, Now(), i, NDIRECT);
      if inodes[i].addrs[NDIRECT] != 0 {
        TruncToEntries(sb, start, Now(), i);
        FreeEntries(i, inodes[i].addrs[NDIRECT], start);
        FreeIndirect(i, start);
      } else {
        TruncNoEntries(sb, start, Now(), i, NDIRECT);
        EmptiedWithoutIndirect(sb, start, Now(), i);
      }
    }

    /** itrunc: the file becomes empty, exactly its blocks are freed, other files are untouched. */
    method Itrunc(i: nat)
      requires Valid() && i < |inodes|
      modifies this`blocks, this`inodes, this`owner, this`logged
      ensures Truncated(sb, old(Now()), Now(), i)
      ensures old(Tracked(i)) ==> Tracked(i)
      ensures logged <= old(logged) + BitmapArea(sb) + {IBlock(sb, i)} && IBlock(sb, i) in logged
    {
      FreeAll(i);
      TruncDone(sb, old(Now()), Now(), i);
      EmptiedShape(sb, old(Now()), Now(), i);
      ghost var done := Now();
      Iupdate(i, inodes[i].(size := 0));
      assert Now() == Resized(done, i, 0);
    }

    /** open with O_TRUNC: begin_op, itrunc, end_op. */
    method Truncate(i: nat)
      requires Valid() && i < |inodes|
      modifies this`blocks, this`inodes, this`owner, this`logged, this`base
      ensures Truncated(sb, old(Now()), Now(), i) && Untouched(sb, old(Now()), Now(), i, logged)
      ensures |logged| <= sb.datastart - sb.bmapstart + 1 && IBlock(sb, i) in logged
    {
      logged, base := {}, Now();
      GoodShape(sb, Now());
      UntouchedRefl(sb, Now(), i);
      Itrunc(i);
      TruncateCost(sb, logged, IBlock(sb, i));
    }

    /** What a result of writei says about the bytes written. */
    static function Written(r: int): nat { if r < 0 then 0 else r }

    /** One chunk of filewrite: begin_op, writei, end_op.  off' is f->off after it. */
    method WriteChunk(i: nat, data: seq<Byte>, off: nat, copyOk: nat -> bool)
      returns (r: int, off': nat, ghost cost: nat)
      requires Valid() && i < |inodes| && off < UINT && 0 < |data| <= CHUNK
      modifies this`blocks, this`inodes, this`owner, this`logged, this`base
      ensures Valid() && |inodes| == |old(inodes)| && cost <= MAXOPBLOCKS && -1 <= r <= |data|
      ensures r >= 0 ==> off' <= MAXFILE * BSIZE
      ensures off' == off + Written(r) && SplicedSoFar(old(Now()), Now(), i, off, off', data)
      ensures r == |data| ==> cost == ExactCost(sb, old(Now()), i, off, |data|)
      ensures r == |data| ==> (cost == MAXOPBLOCKS <==> Worst(sb, old(Now()), i, off, |data|))
      ensures r == -1 <==> off > old(inodes)[i].size || off + |data| > MAXFILE * BSIZE
      ensures 0 <= r < |data| ==> Full() || !copyOk(r)
      ensures r > 0 ==> off' <= inodes[i].size
      ensures Untouched(sb, old(Now()), Now(), i, logged) && cost == |logged|
      ensures r != -1 ==> IBlock(sb, i) in logged
      ensures r == -1 ==> Now() == old(Now()) && logged == {}
    {
      logged, base := {}, Now();
      GoodShape(sb, Now());
      UntouchedRefl(sb, Now(), i);
      r := Writei(i, data, off, |data|, copyOk);
      off' := off;
      if r > 0 {
        off' := off' + r;
      }
      ChunkCost(off, |data|);
      cost := |logged|;
      if r == |data| {
        ChunkCostsTen(sb, old(Now()), i, off, |data|);
      }
      SplicedEnd(old(Now()), Now(), i, off, off', data);
      GoodFile(sb, Now(), i);
    }

    /** A write at off0 of n bytes that writei does not take: it begins past the end, or ends past the largest size. */
    static predicate Refused(size: nat, off0: nat, n: int) { off0 > size || off0 + n > MAXFILE * BSIZE }

    /** The copy of the byte after the first t failed, which belongs to chunk t / CHUNK. */
    static predicate CopyFailed(t: nat, copyOk: (nat, nat) -> bool) { !copyOk(t / CHUNK * CHUNK, t % CHUNK) }

    /** A turn of filewrite's loop. */
    method NextChunk(i: nat, src: seq<Byte>, ghost start: Image, ghost off0: nat, off: nat, done: nat, n1: nat,
                     copyOk: (nat, nat) -> bool)
      returns (r: int, off': nat, ghost cost: nat)
      requires Valid() && i < |inodes| && off < UINT && off == off0 + done && 0 < n1 <= CHUNK && done + n1 <= |src|
      requires SplicedSoFar(start, Now(), i, off0, off, src)
      modifies this`blocks, this`inodes, this`owner, this`logged, this`base
      ensures Valid() && |inodes| == |old(inodes)| && cost <= MAXOPBLOCKS && -1 <= r <= n1 && off' == off + Written(r)
      ensures SplicedSoFar(start, Now(), i, off0, off', src)
      ensures r == -1 <==> off > old(inodes)[i].size || off + n1 > MAXFILE * BSIZE
      ensures 0 <= r < n1 ==> Full() || !copyOk(done, r)
      ensures r > 0 ==> off' <= inodes[i].size && off' <= MAXFILE * BSIZE
    {
      ghost var before := Now();
      var data := src[done..done + n1];
      assert off - off0 == done && data == src[off - off0..off - off0 + |data|];
      r, off', cost := WriteChunk(i, data, off, (t: nat) => copyOk(done, t));
      SplicedTrans(start, before, Now(), i, off0, off, off', src, data);
    }

    /** filewrite's loop. */
    method WriteChunks(i: nat, src: seq<Byte>, off0: nat, n: int, copyOk: (nat, nat) -> bool)
      returns (done: nat, off: nat, ghost worst: nat)
      requires Valid() && i < |inodes| && off0 < UINT && n <= |src|
      modifies this`blocks, this`inodes, this`owner, this`logged, this`base
      ensures Valid() && worst <= MAXOPBLOCKS && SplicedSoFar(old(Now()), Now(), i, off0, off, src)
      ensures off0 + done <= off <= off0 + Written(n)
      ensures done == n || (n < 0 && done == 0 && off == off0) || (done < n && off < off0 + n)
      ensures done < n ==> Refused(old(inodes)[i].size, off0, n) || Full() || CopyFailed(off - off0, copyOk)
      ensures done == n > 0 ==> !Refused(old(inodes)[i].size, off0, n)
    {
      var max := ((MAXOPBLOCKS - 1 - 1 - 2) / 2) * BSIZE;
      done, off, worst := 0, off0, 0;
      SplicedEnd(Now(), Now(), i, off0, off0, src);
      while done < n
        invariant Valid() && i < |inodes| && worst <= MAXOPBLOCKS
        invariant done <= |src| && (done <= n || (n < 0 && done == 0)) && off == off0 + done && off < UINT
        invariant SplicedSoFar(old(Now()), Now(), i, off0, off, src)
        invariant if done == 0 then Now() == old(Now()) else off <= inodes[i].size && off0 <= old(inodes)[i].size
        invariant done > 0 ==> off <= MAXFILE * BSIZE
        invariant done < n ==> done % CHUNK == 0
        decreases n - done
      {
        var n1 := if n - done > max then max else n - done;
        ChunkPlace(done, n1);
        var r, off'; ghost var cost;
        r, off', cost := NextChunk(i, src, old(Now()), off0, off, done, n1, copyOk);
        worst := if cost > worst then cost else worst;
        off := off';
        if r != n1 {
          if r >= 0 {
            ChunkPlace(done, r);
          }
          break;
        }
        done := done + r;
      }
    }

    /** filewrite on an inode: chunk by chunk, each chunk its own transaction of at most MAXOPBLOCKS
        blocks.  `off` is f->off; the new f->off says how much was written. */
    method FileWrite(i: nat, src: seq<Byte>, off0: nat, n: int, copyOk: (nat, nat) -> bool)
      returns (ret: int, off: nat, ghost worst: nat)
      requires Valid() && i < |inodes| && off0 < UINT && n <= |src|
      modifies this`blocks, this`inodes, this`owner, this`logged, this`base
      ensures Valid() && worst <= MAXOPBLOCKS
      ensures Spliced(old(Now()), Now(), i, off0, off, src)
      ensures off0 <= off <= off0 + Written(n)
      ensures ret == if off == off0 + n then n else -1
      ensures ret != n ==> n < 0 || Refused(old(inodes)[i].size, off0, n) || Full() || CopyFailed(off - off0, copyOk)
      ensures n > 0 && Refused(old(inodes)[i].size, off0, n) ==> ret == -1
    {
      var done;
      done, off, worst := WriteChunks(i, src, off0, n, copyOk);
      SplicedEnd(old(Now()), Now(), i, off0, off, src);
      ret := if done == n then n else -1;
    }
  }
}
