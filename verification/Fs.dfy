/**
  The block layer of kernel/fs.c: the free bitmap, the direct and indirect block
  map of an inode, and who owns which data block.

  `blocks` is the disk as file-system code sees it through the buffer cache, and
  `inodes` the in-memory inodes.  `Table(blocks, inodes)` reads all block maps off
  them: entry [i][k] is addrs[k] of inode i for k <= NDIRECT, and then come the
  entries of its indirect block.  `owner` is a ghost inverse of the table: it
  names, for each block in use, the one slot that refers to it.
 */
module Fs {
  import opened Base
  import opened Bits
  import opened Fold

  // tags of folded definitions
  const OWN := 1
  const BITMAP := 2
  const MAPPED := 3

  const NDIRECT: nat := 12
  const MAXFILE: nat := NDIRECT + NINDIRECT
  const IPB: nat := 16
  const SLOTS: nat := NDIRECT + 1 + NINDIRECT

  datatype Super = Super(size: nat, ninodes: nat, inodestart: nat, bmapstart: nat, datastart: nat)

  datatype Inode = Inode(size: nat, addrs: seq<nat>)

  datatype Slot = Slot(inum: nat, k: nat)

  predicate GoodSuper(sb: Super) {
    && 2 <= sb.inodestart && sb.inodestart + sb.ninodes / IPB < sb.bmapstart
    && sb.bmapstart + sb.size / BPB < sb.datastart <= sb.size < UINT
  }

  function BBlock(sb: Super, b: nat): nat { sb.bmapstart + b / BPB }
  function IBlock(sb: Super, inum: nat): nat { sb.inodestart + inum / IPB }

  function SlotOf(bn: nat): (k: nat)
    requires bn < MAXFILE
    ensures k < SLOTS && k != NDIRECT
  {
    if bn < NDIRECT then bn else bn + 1
  }

  function At(blocks: seq<Block>, ip: Inode, k: nat): (a: nat)
    requires |ip.addrs| == NDIRECT + 1 && k < SLOTS
  {
    if k <= NDIRECT then ip.addrs[k]
    else if 0 < ip.addrs[NDIRECT] < |blocks| then WordAt(blocks[ip.addrs[NDIRECT]], k - NDIRECT - 1)
    else 0
  }

  ghost function RowUpTo(blocks: seq<Block>, ip: Inode, n: nat): (r: seq<nat>)
    requires |ip.addrs| == NDIRECT + 1 && n <= SLOTS
    ensures |r| == n && forall k :: 0 <= k < n ==> r[k] == At(blocks, ip, k)
  {
    if n == 0 then [] else RowUpTo(blocks, ip, n - 1) + [At(blocks, ip, n - 1)]
  }

  ghost function Row(blocks: seq<Block>, ip: Inode): (r: seq<nat>)
    requires |ip.addrs| == NDIRECT + 1
    ensures |r| == SLOTS && forall k :: 0 <= k < SLOTS ==> r[k] == At(blocks, ip, k)
  {
    RowUpTo(blocks, ip, SLOTS)
  }

  type BlockMap = seq<seq<nat>>

  ghost predicate Sized(inodes: seq<Inode>) {
    forall i :: 0 <= i < |inodes| ==> |inodes[i].addrs| == NDIRECT + 1
  }

  ghost function Table(blocks: seq<Block>, inodes: seq<Inode>): (t: BlockMap)
    requires Sized(inodes)
    ensures |t| == |inodes| && forall i :: 0 <= i < |inodes| ==> t[i] == Row(blocks, inodes[i])
  {
    if inodes == [] then []
    else Table(blocks, inodes[..|inodes| - 1]) + [Row(blocks, inodes[|inodes| - 1])]
  }

  // ------------------------------------------------------------ who owns what

  ghost predicate Rectangular(sb: Super, t: BlockMap) {
    |t| == sb.ninodes && forall i :: 0 <= i < |t| ==> |t[i]| == SLOTS
  }

  /** Owned blocks are data blocks, and each is in the slot that is said to own it. */
  ghost predicate Held(sb: Super, t: BlockMap, owner: map<nat, Slot>)
    requires Rectangular(sb, t)
  {
    forall b :: b in owner ==>
      && sb.datastart <= b < sb.size && owner[b].inum < |t| && owner[b].k < SLOTS
      && t[owner[b].inum][owner[b].k] == b
  }

  /** Every slot in use owns its block.  Entries before `lim` of inode i0's indirect block are
      exempt: itrunc frees them one by one and only then drops the indirect block. */
  ghost predicate Recorded(sb: Super, t: BlockMap, owner: map<nat, Slot>, i0: nat, lim: nat)
    requires Rectangular(sb, t)
  {
    forall i, k :: 0 <= i < |t| && 0 <= k < SLOTS && t[i][k] != 0 && !(i == i0 && NDIRECT < k < lim) ==>
      t[i][k] in owner && owner[t[i][k]] == Slot(i, k)
  }

  ghost predicate Dropped(owner: map<nat, Slot>, i0: nat, lim: nat) {
    forall b :: b in owner ==> !(owner[b].inum == i0 && NDIRECT < owner[b].k < lim)
  }

  ghost predicate Own(sb: Super, t: BlockMap, owner: map<nat, Slot>, i0: nat, lim: nat) {
    && GoodSuper(sb) && Rectangular(sb, t)
    && forall u {:trigger Unfold(OWN, u)} :: Unfold(OWN, u) ==>
         Held(sb, t, owner) && Recorded(sb, t, owner, i0, lim) && Dropped(owner, i0, lim)
  }

  lemma {:induction false} SlotOwns(sb: Super, t: BlockMap, owner: map<nat, Slot>, i0: nat, lim: nat, i: nat, k: nat)
    requires Own(sb, t, owner, i0, lim)
    requires i < |t| && k < SLOTS && t[i][k] != 0 && !(i == i0 && NDIRECT < k < lim)
    ensures t[i][k] in owner && owner[t[i][k]] == Slot(i, k) && sb.datastart <= t[i][k] < sb.size
  {
    assert Unfold(OWN, 0);
  }

  lemma {:induction false} OwnedInRange(sb: Super, t: BlockMap, owner: map<nat, Slot>, i0: nat, lim: nat)
    requires Own(sb, t, owner, i0, lim)
    ensures forall b :: b in owner ==> sb.datastart <= b < sb.size
  {
    assert Unfold(OWN, 0);
  }

  function Put(t: BlockMap, i: nat, k: nat, b: nat): (r: BlockMap)
    requires i < |t| && k < |t[i]|
  {
    var row: seq<nat> := t[i][k := b];
    t[i := row]
  }

  lemma {:induction false} GiveSlotRecorded(sb: Super, t: BlockMap, owner: map<nat, Slot>, i: nat, k: nat, b: nat)
    requires Rectangular(sb, t) && Held(sb, t, owner) && Recorded(sb, t, owner, 0, 0)
    requires i < |t| && k < SLOTS && t[i][k] == 0
    requires sb.datastart <= b < sb.size && b !in owner
    ensures Recorded(sb, Put(t, i, k, b), owner[b := Slot(i, k)], 0, 0)
  {
    var t' := Put(t, i, k, b);
    var owner' := owner[b := Slot(i, k)];
    forall h, j | 0 <= h < |t'| && 0 <= j < SLOTS && t'[h][j] != 0
      ensures t'[h][j] in owner' && owner'[t'[h][j]] == Slot(h, j)
    {
      if !(h == i && j == k) {
        assert t'[h][j] == t[h][j];
      }
    }
  }

  lemma {:induction false} GiveSlotHeld(sb: Super, t: BlockMap, owner: map<nat, Slot>, i: nat, k: nat, b: nat)
    requires Rectangular(sb, t) && Held(sb, t, owner)
    requires i < |t| && k < SLOTS && t[i][k] == 0
    requires 0 < sb.datastart <= b < sb.size && b !in owner
    ensures Held(sb, Put(t, i, k, b), owner[b := Slot(i, k)])
  {
  }

  /** An empty slot receives an unowned block. */
  lemma {:induction false} GiveSlot(sb: Super, t: BlockMap, owner: map<nat, Slot>, i: nat, k: nat, b: nat)
    requires Own(sb, t, owner, 0, 0)
    requires i < |t| && k < SLOTS && t[i][k] == 0
    requires sb.datastart <= b < sb.size && b !in owner
    ensures Own(sb, Put(t, i, k, b), owner[b := Slot(i, k)], 0, 0)
  {
    assert Unfold(OWN, 0);
    GiveSlotHeld(sb, t, owner, i, k, b);
    GiveSlotRecorded(sb, t, owner, i, k, b);
  }

  /** A slot gives its block back. */
  lemma {:induction false} TakeSlot(sb: Super, t: BlockMap, owner: map<nat, Slot>, i: nat, k: nat)
    requires Own(sb, t, owner, i, 0)
    requires i < |t| && k < SLOTS && t[i][k] != 0
    ensures t[i][k] in owner && owner[t[i][k]] == Slot(i, k)
    ensures Own(sb, Put(t, i, k, 0), owner - {t[i][k]}, i, 0)
  {
    assert Unfold(OWN, 0);
  }

  /** itrunc frees entry k of the indirect block but leaves it in place. */
  lemma {:induction false} TakeEntry(sb: Super, t: BlockMap, owner: map<nat, Slot>, i: nat, k: nat)
    requires Own(sb, t, owner, i, k)
    requires i < |t| && NDIRECT < k < SLOTS
    ensures t[i][k] != 0 ==> t[i][k] in owner && owner[t[i][k]] == Slot(i, k)
    ensures Own(sb, t, owner - {t[i][k]}, i, k + 1)
  {
    assert Unfold(OWN, 0);
  }

  function ClearedRow(row: seq<nat>, n: nat): (r: seq<nat>)
    requires n <= |row|
    ensures |r| == |row| && forall k :: 0 <= k < |row| ==> r[k] == if k < n then row[k] else 0
    decreases |row| - n
  {
    if n == |row| then row else ClearedRow(row, n + 1)[n := 0]
  }

  /** Once its entries are freed the indirect block itself can go, and the entries with it. */
  lemma {:induction false} TakeIndirect(sb: Super, t: BlockMap, owner: map<nat, Slot>, i: nat)
    requires Own(sb, t, owner, i, SLOTS)
    requires i < |t| && t[i][NDIRECT] != 0
    ensures t[i][NDIRECT] in owner && owner[t[i][NDIRECT]] == Slot(i, NDIRECT)
    ensures Own(sb, t[i := ClearedRow(t[i], NDIRECT)], owner - {t[i][NDIRECT]}, i, 0)
  {
    assert Unfold(OWN, 0);
  }

  // ------------------------------- how the code's assignments change the table

  function WithAddr(ip: Inode, k: nat, b: nat): (r: Inode)
    requires |ip.addrs| == NDIRECT + 1 && k <= NDIRECT
    ensures |r.addrs| == NDIRECT + 1
  {
    ip.(addrs := ip.addrs[k := b])
  }

  lemma {:induction false} SetAddrRow(blocks: seq<Block>, ip: Inode, k: nat, b: nat)
    requires |ip.addrs| == NDIRECT + 1 && k <= NDIRECT
    requires k == NDIRECT ==> ip.addrs[k] == 0 && b < |blocks| && blocks[b] == ZeroBlock()
    ensures Row(blocks, WithAddr(ip, k, b)) == Row(blocks, ip)[k := b]
  {
    forall j | 0 <= j < SLOTS
      ensures At(blocks, WithAddr(ip, k, b), j) == if j == k then b else At(blocks, ip, j)
    {
      if k == NDIRECT < j {
        ZeroWord(j - NDIRECT - 1);
      }
    }
  }

  lemma {:induction false} SetAddrTable(blocks: seq<Block>, inodes: seq<Inode>, i: nat, k: nat, b: nat)
    requires Sized(inodes) && i < |inodes| && k <= NDIRECT
    requires k == NDIRECT ==> inodes[i].addrs[k] == 0 && b < |blocks| && blocks[b] == ZeroBlock()
    ensures Table(blocks, inodes[i := WithAddr(inodes[i], k, b)]) == Put(Table(blocks, inodes), i, k, b)
  {
    SetAddrRow(blocks, inodes[i], k, b);
  }

  lemma {:induction false} ClearIndirectTable(blocks: seq<Block>, inodes: seq<Inode>, i: nat)
    requires Sized(inodes) && i < |inodes|
    ensures Table(blocks, inodes[i := WithAddr(inodes[i], NDIRECT, 0)]) ==
            Table(blocks, inodes)[i := ClearedRow(Table(blocks, inodes)[i], NDIRECT)]
  {
    assert Row(blocks, WithAddr(inodes[i], NDIRECT, 0)) == ClearedRow(Row(blocks, inodes[i]), NDIRECT);
  }

  lemma {:induction false} RowFrame(blocks: seq<Block>, blocks': seq<Block>, ip: Inode)
    requires |ip.addrs| == NDIRECT + 1 && |blocks'| == |blocks|
    requires 0 < ip.addrs[NDIRECT] < |blocks| ==> blocks'[ip.addrs[NDIRECT]] == blocks[ip.addrs[NDIRECT]]
    ensures Row(blocks', ip) == Row(blocks, ip)
  {
    assert forall k :: 0 <= k < SLOTS ==> At(blocks', ip, k) == At(blocks, ip, k);
  }

  lemma {:induction false} IndirectOwned(sb: Super, blocks: seq<Block>, inodes: seq<Inode>, owner: map<nat, Slot>,
                                         i0: nat, lim: nat, h: nat)
    requires Sized(inodes) && Own(sb, Table(blocks, inodes), owner, i0, lim) && h < |inodes|
    ensures var x := inodes[h].addrs[NDIRECT];
            x != 0 ==> x in owner && owner[x] == Slot(h, NDIRECT) && sb.datastart <= x < sb.size
  {
    var t := Table(blocks, inodes);
    assert t[h][NDIRECT] == At(blocks, inodes[h], NDIRECT) == inodes[h].addrs[NDIRECT];
    if t[h][NDIRECT] != 0 {
      SlotOwns(sb, t, owner, i0, lim, h, NDIRECT);
    }
  }

  lemma {:induction false} TableByRows(blocks: seq<Block>, blocks': seq<Block>, inodes: seq<Inode>)
    requires Sized(inodes)
    requires forall h :: 0 <= h < |inodes| ==> Row(blocks', inodes[h]) == Row(blocks, inodes[h])
    ensures Table(blocks', inodes) == Table(blocks, inodes)
  {
  }

  /** Blocks other than indirect blocks do not matter. */
  lemma {:induction false} SameTable(sb: Super, blocks: seq<Block>, blocks': seq<Block>, inodes: seq<Inode>,
                                     owner: map<nat, Slot>, i0: nat, lim: nat)
    requires Sized(inodes) && Own(sb, Table(blocks, inodes), owner, i0, lim)
    requires |blocks'| == |blocks| == sb.size
    requires forall b :: b in owner && b < sb.size && owner[b].k == NDIRECT ==> blocks'[b] == blocks[b]
    ensures Table(blocks', inodes) == Table(blocks, inodes)
  {
    forall h | 0 <= h < |inodes| ensures Row(blocks', inodes[h]) == Row(blocks, inodes[h]) {
      IndirectOwned(sb, blocks, inodes, owner, i0, lim, h);
      RowFrame(blocks, blocks', inodes[h]);
    }
    TableByRows(blocks, blocks', inodes);
  }

  function PutEntry(blocks: seq<Block>, x: nat, j: nat, b: nat): (r: seq<Block>)
    requires x < |blocks| && j < NINDIRECT
    ensures |r| == |blocks| && forall c :: 0 <= c < |blocks| && c != x ==> r[c] == blocks[c]
  {
    blocks[x := PutWord(blocks[x], j, b)]
  }

  lemma {:induction false} SetEntryTable(sb: Super, blocks: seq<Block>, inodes: seq<Inode>, owner: map<nat, Slot>,
                                         i: nat, j: nat, b: nat)
    requires Sized(inodes) && Own(sb, Table(blocks, inodes), owner, 0, 0) && |blocks| == sb.size
    requires i < |inodes| && j < NINDIRECT && inodes[i].addrs[NDIRECT] != 0 && b < UINT
    ensures var x := inodes[i].addrs[NDIRECT];
            && x in owner && owner[x] == Slot(i, NDIRECT) && x < |blocks|
            && Table(PutEntry(blocks, x, j, b), inodes) ==
               Put(Table(blocks, inodes), i, NDIRECT + 1 + j, b)
  {
    var x := inodes[i].addrs[NDIRECT];
    var t := Table(blocks, inodes);
    IndirectOwned(sb, blocks, inodes, owner, 0, 0, i);
    var blocks' := PutEntry(blocks, x, j, b);
    forall h | 0 <= h < |inodes| && h != i ensures Row(blocks', inodes[h]) == Row(blocks, inodes[h]) {
      IndirectOwned(sb, blocks, inodes, owner, 0, 0, h);
      RowFrame(blocks, blocks', inodes[h]);
    }
    forall k | 0 <= k < SLOTS
      ensures At(blocks', inodes[i], k) == if k == NDIRECT + 1 + j then b else At(blocks, inodes[i], k)
    {
      if k > NDIRECT {
        PutWordChangesOne(blocks[x], j, b, k - NDIRECT - 1);
      }
    }
    assert Row(blocks', inodes[i]) == Row(blocks, inodes[i])[NDIRECT + 1 + j := b];
  }

  // -------------------------------------------------------- balloc and bfree

  predicate Bit(sb: Super, blocks: seq<Block>, b: nat)
    requires GoodSuper(sb) && |blocks| == sb.size && b < sb.size
  {
    BitOf(blocks[BBlock(sb, b)], b % BPB)
  }

  /** A bit is set exactly for the metadata blocks and the owned data blocks. */
  ghost predicate Bitmap(sb: Super, blocks: seq<Block>, owner: map<nat, Slot>) {
    && GoodSuper(sb) && |blocks| == sb.size
    && forall u {:trigger Unfold(BITMAP, u)} :: Unfold(BITMAP, u) ==> BitsMatch(sb, blocks, owner)
  }

  ghost predicate BitsMatch(sb: Super, blocks: seq<Block>, owner: map<nat, Slot>)
    requires GoodSuper(sb) && |blocks| == sb.size
  {
    forall b :: 0 <= b < sb.size ==> (Bit(sb, blocks, b) <==> b < sb.datastart || b in owner)
  }

  function Marked(sb: Super, blocks: seq<Block>, b: nat, used: bool): (r: seq<Block>)
    requires GoodSuper(sb) && |blocks| == sb.size && b < sb.size
    ensures |r| == |blocks|
  {
    blocks[BBlock(sb, b) := WithBit(blocks[BBlock(sb, b)], b % BPB, used)]
  }

  function Allocated(sb: Super, blocks: seq<Block>, b: nat): (r: seq<Block>)
    requires GoodSuper(sb) && |blocks| == sb.size && b < sb.size
    ensures |r| == |blocks|
  {
    Marked(sb, blocks, b, true)[b := ZeroBlock()]
  }

  lemma {:induction false} AllocatedElsewhere(sb: Super, blocks: seq<Block>, b: nat)
    requires GoodSuper(sb) && |blocks| == sb.size && b < sb.size
    ensures forall c :: sb.datastart <= c < sb.size && c != b ==> Allocated(sb, blocks, b)[c] == blocks[c]
    ensures Allocated(sb, blocks, b)[b] == ZeroBlock()
  {
    assert BBlock(sb, b) < sb.datastart;
  }

  /** The bit that balloc's inner loop looks at. */
  lemma {:induction false} BitInBlock(sb: Super, g: nat, b: nat, bi: nat)
    requires b == g * BPB && bi < BPB
    ensures BBlock(sb, b + bi) == BBlock(sb, b) == sb.bmapstart + g && (b + bi) % BPB == bi
  {
  }

  lemma {:induction false} MarkedBit(sb: Super, blocks: seq<Block>, b: nat, used: bool, c: nat)
    requires GoodSuper(sb) && |blocks| == sb.size && b < sb.size && c < sb.size
    ensures Bit(sb, Marked(sb, blocks, b, used), c) == if b == c then used else Bit(sb, blocks, c)
  {
    if BBlock(sb, b) == BBlock(sb, c) {
      WithBitChangesOne(blocks[BBlock(sb, b)], b % BPB, used, c % BPB);
    }
  }

  lemma {:induction false} BitmapFrame(sb: Super, blocks: seq<Block>, blocks': seq<Block>, owner: map<nat, Slot>)
    requires Bitmap(sb, blocks, owner) && |blocks'| == |blocks|
    requires forall m :: sb.bmapstart <= m < sb.datastart ==> blocks'[m] == blocks[m]
    ensures Bitmap(sb, blocks', owner)
  {
    assert Unfold(BITMAP, 0);
    forall c | 0 <= c < sb.size
      ensures Bit(sb, blocks', c) == Bit(sb, blocks, c)
    {
      assert BBlock(sb, c) < sb.datastart;
    }
  }

  lemma {:induction false} AllocatedBitmap(sb: Super, blocks: seq<Block>, owner: map<nat, Slot>, b: nat, s: Slot)
    requires Bitmap(sb, blocks, owner) && sb.datastart <= b < sb.size
    ensures Bitmap(sb, Allocated(sb, blocks, b), owner[b := s])
  {
    assert Unfold(BITMAP, 0);
    var marked := Marked(sb, blocks, b, true);
    forall c | 0 <= c < sb.size
      ensures Bit(sb, marked, c) <==> c < sb.datastart || c in owner[b := s]
    {
      MarkedBit(sb, blocks, b, true, c);
    }
    BitmapFrame(sb, marked, Allocated(sb, blocks, b), owner[b := s]);
  }

  lemma {:induction false} FreedBitmap(sb: Super, blocks: seq<Block>, owner: map<nat, Slot>, b: nat)
    requires Bitmap(sb, blocks, owner) && sb.datastart <= b < sb.size
    ensures Bitmap(sb, Marked(sb, blocks, b, false), owner - {b})
  {
    assert Unfold(BITMAP, 0);
    forall c | 0 <= c < sb.size
      ensures Bit(sb, Marked(sb, blocks, b, false), c) <==> c < sb.datastart || c in owner - {b}
    {
      MarkedBit(sb, blocks, b, false, c);
    }
  }

  // ------------------------------------------------------ the file's contents

  /** Every block index below ceil(size / BSIZE) is mapped. */
  ghost predicate NoHoles(row: seq<nat>, size: nat) {
    && |row| == SLOTS && size <= MAXFILE * BSIZE
    && forall bn :: 0 <= bn < MAXFILE && bn * BSIZE < size ==> row[SlotOf(bn)] != 0
  }

  // ------------------------------------------------------- the whole invariant

  /** The state between file-system operations. */
  ghost predicate Consistent(sb: Super, blocks: seq<Block>, inodes: seq<Inode>, owner: map<nat, Slot>) {
    && Sized(inodes) && Own(sb, Table(blocks, inodes), owner, 0, 0)
    && Bitmap(sb, blocks, owner)
    && forall u {:trigger Unfold(MAPPED, u)} :: Unfold(MAPPED, u) ==> AllMapped(Table(blocks, inodes), inodes)
  }

  ghost predicate AllMapped(t: BlockMap, inodes: seq<Inode>) {
    |t| == |inodes| && forall h :: 0 <= h < |inodes| ==> NoHoles(t[h], inodes[h].size)
  }

  lemma {:induction false} FileMapped(sb: Super, blocks: seq<Block>, inodes: seq<Inode>, owner: map<nat, Slot>, i: nat)
    requires Consistent(sb, blocks, inodes, owner) && i < |inodes|
    ensures NoHoles(Table(blocks, inodes)[i], inodes[i].size)
  {
    assert Unfold(MAPPED, 0);
  }

  /** Mapped slots stay mapped to the same blocks. */
  ghost predicate Extends(t: BlockMap, t': BlockMap) {
    && |t'| == |t|
    && (forall h :: 0 <= h < |t| ==> |t[h]| == SLOTS && |t'[h]| == SLOTS)
    && (forall h, k :: 0 <= h < |t| && 0 <= k < SLOTS && t[h][k] != 0 ==> t'[h][k] == t[h][k])
  }

  /** Blocks that hold file data do not change. */
  ghost predicate KeepsData(blocks: seq<Block>, blocks': seq<Block>, owner: map<nat, Slot>) {
    && |blocks'| == |blocks|
    && forall b :: b in owner && b < |blocks| && owner[b].k != NDIRECT ==> blocks'[b] == blocks[b]
  }

  ghost predicate SameSizes(inodes: seq<Inode>, inodes': seq<Inode>) {
    |inodes'| == |inodes| && forall h :: 0 <= h < |inodes| ==> inodes'[h].size == inodes[h].size
  }

  lemma {:induction false} ExtendsNoHoles(t: BlockMap, t': BlockMap, h: nat, size: nat)
    requires Extends(t, t') && h < |t| && NoHoles(t[h], size)
    ensures NoHoles(t'[h], size)
  {
    forall bn | 0 <= bn < MAXFILE && bn * BSIZE < size ensures t'[h][SlotOf(bn)] != 0 {
      assert t[h][SlotOf(bn)] != 0;
    }
  }

  /** balloc touches no owned block. */
  lemma {:induction false} AllocatedKeeps(sb: Super, blocks: seq<Block>, inodes: seq<Inode>, owner: map<nat, Slot>,
                                          b: nat)
    requires Sized(inodes) && Own(sb, Table(blocks, inodes), owner, 0, 0) && |blocks| == sb.size
    requires sb.datastart <= b < sb.size && b !in owner
    ensures var blocks' := Allocated(sb, blocks, b);
            && blocks'[b] == ZeroBlock() && Table(blocks', inodes) == Table(blocks, inodes)
            && (forall c :: c in owner ==> c < |blocks| && blocks'[c] == blocks[c])
  {
    var blocks' := Allocated(sb, blocks, b);
    OwnedInRange(sb, Table(blocks, inodes), owner, 0, 0);
    AllocatedElsewhere(sb, blocks, b);
    SameTable(sb, blocks, blocks', inodes, owner, 0, 0);
  }

  lemma {:induction false} MapDirectOwn(sb: Super, blocks: seq<Block>, inodes: seq<Inode>, owner: map<nat, Slot>,
                                        i: nat, k: nat, b: nat)
    requires Sized(inodes) && Own(sb, Table(blocks, inodes), owner, 0, 0) && |blocks| == sb.size
    requires i < |inodes| && k <= NDIRECT && inodes[i].addrs[k] == 0
    requires sb.datastart <= b < sb.size && b !in owner
    ensures var t := Table(blocks, inodes);
            && t[i][k] == 0 && Rectangular(sb, t)
            && Table(Allocated(sb, blocks, b), inodes[i := WithAddr(inodes[i], k, b)]) == Put(t, i, k, b)
            && Own(sb, Put(t, i, k, b), owner[b := Slot(i, k)], 0, 0)
            && KeepsData(blocks, Allocated(sb, blocks, b), owner)
  {
    var t := Table(blocks, inodes);
    AllocatedKeeps(sb, blocks, inodes, owner, b);
    SetAddrTable(Allocated(sb, blocks, b), inodes, i, k, b);
    assert t[i][k] == At(blocks, inodes[i], k) == 0;
    GiveSlot(sb, t, owner, i, k, b);
  }

  lemma {:induction false} PutExtends(t: BlockMap, i: nat, k: nat, b: nat)
    requires i < |t| && k < SLOTS && (forall h :: 0 <= h < |t| ==> |t[h]| == SLOTS) && t[i][k] == 0
    ensures Extends(t, Put(t, i, k, b))
  {
  }

  /** bmap allocates a block for addrs[k]. */
  lemma {:induction false} MapDirect(sb: Super, blocks: seq<Block>, inodes: seq<Inode>, owner: map<nat, Slot>, i: nat,
                                     k: nat, b: nat)
    requires Consistent(sb, blocks, inodes, owner)
    requires i < |inodes| && k <= NDIRECT && inodes[i].addrs[k] == 0
    requires sb.datastart <= b < sb.size && b !in owner
    ensures var inodes' := inodes[i := WithAddr(inodes[i], k, b)];
            var blocks' := Allocated(sb, blocks, b);
            && Consistent(sb, blocks', inodes', owner[b := Slot(i, k)])
            && Table(blocks', inodes') == Put(Table(blocks, inodes), i, k, b)
            && SameSizes(inodes, inodes') && KeepsData(blocks, blocks', owner)
  {
    var blocks' := Allocated(sb, blocks, b);
    var inodes' := inodes[i := WithAddr(inodes[i], k, b)];
    MapDirectOwn(sb, blocks, inodes, owner, i, k, b);
    PutExtends(Table(blocks, inodes), i, k, b);
    AllocatedBitmap(sb, blocks, owner, b, Slot(i, k));
    ExtendedStaysConsistent(sb, blocks, inodes, owner, blocks', inodes', owner[b := Slot(i, k)]);
  }

  lemma {:induction false} ExtendedStaysConsistent(sb: Super, blocks: seq<Block>, inodes: seq<Inode>,
                                                   owner: map<nat, Slot>,
                                                   blocks': seq<Block>, inodes': seq<Inode>, owner': map<nat, Slot>)
    requires Consistent(sb, blocks, inodes, owner) && Sized(inodes') && SameSizes(inodes, inodes')
    requires Extends(Table(blocks, inodes), Table(blocks', inodes'))
    requires Own(sb, Table(blocks', inodes'), owner', 0, 0) && Bitmap(sb, blocks', owner')
    ensures Consistent(sb, blocks', inodes', owner')
  {
    forall h | 0 <= h < |inodes'| ensures NoHoles(Table(blocks', inodes')[h], inodes'[h].size) {
      FileMapped(sb, blocks, inodes, owner, h);
      ExtendsNoHoles(Table(blocks, inodes), Table(blocks', inodes'), h, inodes[h].size);
    }
  }

  lemma {:induction false} MapIndirectOwn(sb: Super, blocks: seq<Block>, inodes: seq<Inode>, owner: map<nat, Slot>,
                                          i: nat, j: nat, b: nat)
    requires Sized(inodes) && Own(sb, Table(blocks, inodes), owner, 0, 0) && |blocks| == sb.size
    requires i < |inodes| && j < NINDIRECT && inodes[i].addrs[NDIRECT] != 0
    requires At(blocks, inodes[i], NDIRECT + 1 + j) == 0
    requires sb.datastart <= b < sb.size && b !in owner
    ensures var x := inodes[i].addrs[NDIRECT];
            && x in owner && owner[x] == Slot(i, NDIRECT) && sb.datastart <= x < |blocks|
            && var m := Allocated(sb, blocks, b);
            var t := Table(blocks, inodes);
            && m[x] == blocks[x]
            && Table(PutEntry(m, x, j, b), inodes) == Put(t, i, NDIRECT + 1 + j, b)
            && Own(sb, Put(t, i, NDIRECT + 1 + j, b), owner[b := Slot(i, NDIRECT + 1 + j)], 0, 0)
  {
    var t := Table(blocks, inodes);
    AllocatedKeeps(sb, blocks, inodes, owner, b);
    IndirectOwned(sb, blocks, inodes, owner, 0, 0, i);
    SetEntryTable(sb, Allocated(sb, blocks, b), inodes, owner, i, j, b);
    assert t[i][NDIRECT + 1 + j] == At(blocks, inodes[i], NDIRECT + 1 + j) == 0;
    GiveSlot(sb, t, owner, i, NDIRECT + 1 + j, b);
  }

  lemma {:induction false} MapIndirectData(sb: Super, blocks: seq<Block>, owner: map<nat, Slot>, x: nat, j: nat,
                                           b: nat, s: Slot)
    requires GoodSuper(sb) && |blocks| == sb.size && Bitmap(sb, blocks, owner)
    requires forall c :: c in owner ==> sb.datastart <= c < sb.size
    requires x in owner && owner[x].k == NDIRECT && j < NINDIRECT
    requires sb.datastart <= b < sb.size && b !in owner
    ensures var blocks' := PutEntry(Allocated(sb, blocks, b), x, j, b);
            KeepsData(blocks, blocks', owner) && Bitmap(sb, blocks', owner[b := s])
  {
    var m := Allocated(sb, blocks, b);
    AllocatedElsewhere(sb, blocks, b);
    AllocatedBitmap(sb, blocks, owner, b, s);
    BitmapFrame(sb, m, PutEntry(m, x, j, b), owner[b := s]);
  }

  /** bmap allocates a block for entry j of the indirect block. */
  lemma {:induction false} MapIndirect(sb: Super, blocks: seq<Block>, inodes: seq<Inode>, owner: map<nat, Slot>,
                                       i: nat, j: nat, b: nat)
    requires Consistent(sb, blocks, inodes, owner)
    requires i < |inodes| && j < NINDIRECT && inodes[i].addrs[NDIRECT] != 0
    requires At(blocks, inodes[i], NDIRECT + 1 + j) == 0
    requires sb.datastart <= b < sb.size && b !in owner
    ensures var x := inodes[i].addrs[NDIRECT];
            && x in owner && sb.datastart <= x < |blocks|
            && var blocks' := PutEntry(Allocated(sb, blocks, b), x, j, b);
            && Allocated(sb, blocks, b)[x] == blocks[x]
            && Consistent(sb, blocks', inodes, owner[b := Slot(i, NDIRECT + 1 + j)])
            && Table(blocks', inodes) == Put(Table(blocks, inodes), i, NDIRECT + 1 + j, b)
            && KeepsData(blocks, blocks', owner)
  {
    var t := Table(blocks, inodes);
    var k := NDIRECT + 1 + j;
    MapIndirectOwn(sb, blocks, inodes, owner, i, j, b);
    OwnedInRange(sb, t, owner, 0, 0);
    MapIndirectData(sb, blocks, owner, inodes[i].addrs[NDIRECT], j, b, Slot(i, k));
    assert t[i][k] == At(blocks, inodes[i], k) == 0;
    PutExtends(t, i, k, b);
    var blocks' := PutEntry(Allocated(sb, blocks, b), inodes[i].addrs[NDIRECT], j, b);
    ExtendedStaysConsistent(sb, blocks, inodes, owner, blocks', inodes, owner[b := Slot(i, k)]);
  }

  lemma {:induction false} OwnerHolds(sb: Super, t: BlockMap, owner: map<nat, Slot>, b: nat)
    requires Own(sb, t, owner, 0, 0) && b in owner
    ensures owner[b].inum < |t| && owner[b].k < SLOTS && t[owner[b].inum][owner[b].k] == b != 0
  {
    assert Unfold(OWN, 0);
  }
}
