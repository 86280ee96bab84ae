/**
  What one file-system operation may do to the whole image: grow the block map of
  one file (bmap), replace bytes of one file (writei), or drop a file's blocks
  (itrunc).  Each relation is closed under the steps of the code in module FsCode.
 */
module FsImage {
  import opened Base
  import opened Bits
  import opened Fold
  import opened Fs

  // tags of folded definitions
  const SLOT := 10
  const GOOD := 11
  const GREW := 12
  const LOGGED := 13
  const WROTE := 14
  const SPENT := 15
  const FRUGAL := 16
  const SPLICED := 17
  const CONTENTS := 18
  const UNTOUCHED := 19

  /** The file system at one moment: the disk, the inodes and who owns what. */
  datatype Image = Image(blocks: seq<Block>, inodes: seq<Inode>, owner: map<nat, Slot>)

  ghost predicate Good(sb: Super, im: Image) {
    forall u {:trigger Unfold(GOOD, u)} :: Unfold(GOOD, u) ==> Consistent(sb, im.blocks, im.inodes, im.owner)
  }

  lemma {:induction false} GoodConsistent(sb: Super, im: Image)
    ensures Good(sb, im) <==> Consistent(sb, im.blocks, im.inodes, im.owner)
  {
    assert Unfold(GOOD, 0);
  }

  lemma {:induction false} GoodShape(sb: Super, im: Image)
    requires Good(sb, im)
    ensures GoodSuper(sb) && |im.blocks| == sb.size && |im.inodes| == sb.ninodes && Sized(im.inodes)
    ensures Own(sb, Table(im.blocks, im.inodes), im.owner, 0, 0) && Bitmap(sb, im.blocks, im.owner)
  {
    assert Unfold(GOOD, 0);
  }

  ghost function TableSlot(im: Image, h: nat, k: nat): nat {
    if Sized(im.inodes) && h < |im.inodes| && k < SLOTS then Table(im.blocks, im.inodes)[h][k] else 0
  }

  ghost predicate IsSlot(im: Image, h: nat, k: nat, x: nat) {
    forall u {:trigger Unfold(SLOT, u)} :: Unfold(SLOT, u) ==> x == TableSlot(im, h, k)
  }

  /** The block number in slot k of inode h; 0 if there is none. */
  ghost function SlotAt(im: Image, h: nat, k: nat): nat {
    assert IsSlot(im, h, k, TableSlot(im, h, k));
    var x: nat :| IsSlot(im, h, k, x);
    x
  }

  lemma {:induction false} SlotAtTable(im: Image, h: nat, k: nat)
    ensures SlotAt(im, h, k) == TableSlot(im, h, k)
  {
    assert IsSlot(im, h, k, TableSlot(im, h, k));
    assert Unfold(SLOT, 0);
  }

  lemma {:induction false} SlotAtIs(im: Image, h: nat, k: nat)
    requires Sized(im.inodes) && h < |im.inodes| && k < SLOTS
    ensures SlotAt(im, h, k) == At(im.blocks, im.inodes[h], k)
  {
    SlotAtTable(im, h, k);
  }

  lemma {:induction false} SameSlots(a: Image, b: Image)
    requires Sized(a.inodes) && Sized(b.inodes) && Table(b.blocks, b.inodes) == Table(a.blocks, a.inodes)
    ensures forall h, k :: SlotAt(b, h, k) == SlotAt(a, h, k)
  {
    assert |b.inodes| == |a.inodes|;
    forall h, k: nat ensures SlotAt(b, h, k) == SlotAt(a, h, k) {
      SlotAtTable(a, h, k);
      SlotAtTable(b, h, k);
    }
  }

  lemma {:induction false} SlotBlock(sb: Super, im: Image, h: nat, k: nat)
    requires Good(sb, im) && SlotAt(im, h, k) != 0
    ensures sb.datastart <= SlotAt(im, h, k) < |im.blocks|
    ensures SlotAt(im, h, k) in im.owner && im.owner[SlotAt(im, h, k)] == Slot(h, k)
  {
    GoodShape(sb, im);
    SlotAtTable(im, h, k);
    SlotOwns(sb, Table(im.blocks, im.inodes), im.owner, 0, 0, h, k);
  }

  lemma {:induction false} OwnerSlot(sb: Super, im: Image, b: nat)
    requires Good(sb, im) && b in im.owner
    ensures var s := im.owner[b]; s.inum < |im.inodes| && s.k < SLOTS && SlotAt(im, s.inum, s.k) == b != 0
  {
    GoodShape(sb, im);
    OwnerHolds(sb, Table(im.blocks, im.inodes), im.owner, b);
    SlotAtTable(im, im.owner[b].inum, im.owner[b].k);
  }

  // ------------------------------------------------ nothing changes unlogged

  /** From `a` to `b` only blocks of the set l have changed, none of them below the inode blocks, and of the
      inodes only those in these blocks and inode i. */
  ghost predicate Untouched(sb: Super, a: Image, b: Image, i: nat, l: set<nat>) {
    forall u {:trigger Unfold(UNTOUCHED, u)} :: Unfold(UNTOUCHED, u) ==>
      && |b.blocks| == |a.blocks| == sb.size && |b.inodes| == |a.inodes| && GoodSuper(sb)
      && (forall x :: x in l ==> sb.inodestart <= x < sb.size)
      && (forall x :: 0 <= x < |a.blocks| && x !in l ==> b.blocks[x] == a.blocks[x])
      && (forall h :: 0 <= h < |a.inodes| && h != i && IBlock(sb, h) !in l ==> b.inodes[h] == a.inodes[h])
  }

  lemma {:induction false} UntouchedRefl(sb: Super, a: Image, i: nat)
    requires |a.blocks| == sb.size && GoodSuper(sb)
    ensures Untouched(sb, a, a, i, {})
  {
  }

  /** A step from b to c that changes blocks of `more`, and logs them. */
  lemma {:induction false} UntouchedStep(sb: Super, a: Image, b: Image, c: Image, i: nat, l: set<nat>, more: set<nat>)
    requires Untouched(sb, a, b, i, l) && |c.blocks| == |b.blocks| && |c.inodes| == |b.inodes|
    requires forall x :: x in more ==> sb.inodestart <= x < sb.size
    requires forall x :: 0 <= x < |b.blocks| && x !in more ==> c.blocks[x] == b.blocks[x]
    requires forall h :: 0 <= h < |b.inodes| && h != i ==> c.inodes[h] == b.inodes[h]
    ensures Untouched(sb, a, c, i, l + more)
  {
    assert Unfold(UNTOUCHED, 0);
  }

  /** One more block x changed, and logged. */
  lemma {:induction false} TrackedStore(sb: Super, a: Image, b: Image, c: Image, i: nat, l: set<nat>, x: nat, d: Block)
    requires sb.inodestart <= x < sb.size && x < |b.blocks| && c.blocks == b.blocks[x := d] && c.inodes == b.inodes
    ensures Untouched(sb, a, b, i, l) ==> Untouched(sb, a, c, i, l + {x})
  {
    if Untouched(sb, a, b, i, l) {
      UntouchedStep(sb, a, b, c, i, l, {x});
    }
  }

  /** A block of a file can be logged. */
  lemma {:induction false} SlotPlace(sb: Super, im: Image, h: nat, k: nat)
    requires Good(sb, im) && SlotAt(im, h, k) != 0
    ensures GoodSuper(sb) && |im.blocks| == sb.size && sb.inodestart <= SlotAt(im, h, k) < sb.size
  {
    GoodShape(sb, im);
    SlotBlock(sb, im, h, k);
  }

  /** The blocks of the free bitmap. */
  function BitmapArea(sb: Super): set<nat> { Area(sb.bmapstart, sb.datastart) }

  function Area(lo: nat, hi: nat): (s: set<nat>)
    ensures forall x :: x in s <==> lo <= x < hi
    decreases hi
  {
    if hi <= lo then {} else Area(lo, hi - 1) + {hi - 1}
  }

  lemma {:induction false} AreaSize(lo: nat, hi: nat)
    requires lo <= hi
    ensures |Area(lo, hi)| == hi - lo
    decreases hi
  {
    if lo < hi {
      AreaSize(lo, hi - 1);
    }
  }

  lemma {:induction false} TruncateCost(sb: Super, l: set<nat>, x: nat)
    requires GoodSuper(sb) && l <= {} + BitmapArea(sb) + {x}
    ensures |l| <= sb.datastart - sb.bmapstart + 1
  {
    AreaSize(sb.bmapstart, sb.datastart);
    CardLe(l, BitmapArea(sb) + {x});
  }

  /** Inode i changed. */
  lemma {:induction false} TrackedInode(sb: Super, a: Image, b: Image, c: Image, i: nat, l: set<nat>, ip: Inode)
    requires i < |b.inodes| && c.blocks == b.blocks && c.inodes == b.inodes[i := ip]
    ensures Untouched(sb, a, b, i, l) ==> Untouched(sb, a, c, i, l)
  {
    if Untouched(sb, a, b, i, l) {
      UntouchedStep(sb, a, b, c, i, l, {});
      assert l + {} == l;
    }
  }

  /** iupdate. */
  lemma {:induction false} TrackedUpdate(sb: Super, a: Image, b: Image, c: Image, i: nat, l: set<nat>, ip: Inode)
    requires GoodSuper(sb) && i < sb.ninodes == |b.inodes| && c.blocks == b.blocks && c.inodes == b.inodes[i := ip]
    ensures Untouched(sb, a, b, i, l) ==> Untouched(sb, a, c, i, l + {IBlock(sb, i)})
  {
    if Untouched(sb, a, b, i, l) {
      assert IBlock(sb, i) < sb.bmapstart;
      UntouchedStep(sb, a, b, c, i, l, {IBlock(sb, i)});
    }
  }

  // -------------------------------------------- what a good image looks like

  /** Block b stands in slot k of inode h. */
  predicate InSlot(blocks: seq<Block>, inodes: seq<Inode>, h: nat, k: nat, b: nat) {
    h < |inodes| && |inodes[h].addrs| == NDIRECT + 1 && k < SLOTS && At(blocks, inodes[h], k) == b
  }

  ghost predicate InUse(blocks: seq<Block>, inodes: seq<Inode>, b: nat) {
    exists h, k :: InSlot(blocks, inodes, h, k, b)
  }

  /** Slots hold data blocks, and no block is in two slots. */
  ghost predicate TidySlots(sb: Super, blocks: seq<Block>, inodes: seq<Inode>) {
    && (forall h, k, b: nat :: InSlot(blocks, inodes, h, k, b) && b != 0 ==> sb.datastart <= b < sb.size)
    && (forall h, k, g, l, b: nat {:trigger InSlot(blocks, inodes, h, k, b), InSlot(blocks, inodes, g, l, b)} ::
          InSlot(blocks, inodes, h, k, b) && InSlot(blocks, inodes, g, l, b) && b != 0 ==> h == g && k == l)
  }

  /** A bitmap bit is set exactly for metadata and for blocks in a slot. */
  ghost predicate TidyBits(sb: Super, blocks: seq<Block>, inodes: seq<Inode>)
    requires GoodSuper(sb) && |blocks| == sb.size
  {
    forall b :: 0 <= b < sb.size ==> (Bit(sb, blocks, b) <==> b < sb.datastart || InUse(blocks, inodes, b))
  }

  /** Every block of a file below its size is there. */
  ghost predicate TidyFiles(blocks: seq<Block>, inodes: seq<Inode>) {
    forall h :: 0 <= h < |inodes| ==>
      && inodes[h].size <= MAXFILE * BSIZE
      && forall bn :: 0 <= bn < MAXFILE && bn * BSIZE < inodes[h].size ==> !InSlot(blocks, inodes, h, SlotOf(bn), 0)
  }

  /** What a consistent disk is, read off the blocks and inodes alone. */
  ghost predicate Tidy(sb: Super, blocks: seq<Block>, inodes: seq<Inode>) {
    && GoodSuper(sb) && |blocks| == sb.size && |inodes| == sb.ninodes && Sized(inodes)
    && TidySlots(sb, blocks, inodes) && TidyBits(sb, blocks, inodes) && TidyFiles(blocks, inodes)
  }

  lemma {:induction false} InSlotAt(im: Image, h: nat, k: nat, b: nat)
    requires Sized(im.inodes) && b != 0
    ensures InSlot(im.blocks, im.inodes, h, k, b) <==> SlotAt(im, h, k) == b
  {
    SlotAtTable(im, h, k);
  }

  lemma {:induction false} GoodSlot(sb: Super, im: Image, h: nat, k: nat, b: nat)
    requires Good(sb, im) && InSlot(im.blocks, im.inodes, h, k, b) && b != 0
    ensures b in im.owner && im.owner[b] == Slot(h, k) && sb.datastart <= b < sb.size
  {
    GoodShape(sb, im);
    InSlotAt(im, h, k, b);
    SlotBlock(sb, im, h, k);
  }

  lemma {:induction false} GoodInUse(sb: Super, im: Image, b: nat)
    requires Good(sb, im) && b != 0
    ensures InUse(im.blocks, im.inodes, b) <==> b in im.owner
  {
    GoodShape(sb, im);
    if b in im.owner {
      OwnerSlot(sb, im, b);
      InSlotAt(im, im.owner[b].inum, im.owner[b].k, b);
    } else if InUse(im.blocks, im.inodes, b) {
      var h, k :| InSlot(im.blocks, im.inodes, h, k, b);
      GoodSlot(sb, im, h, k, b);
    }
  }

  lemma {:induction false} GoodTidySlots(sb: Super, im: Image)
    requires Good(sb, im)
    ensures TidySlots(sb, im.blocks, im.inodes)
  {
    forall h, k, b: nat | InSlot(im.blocks, im.inodes, h, k, b) && b != 0 ensures sb.datastart <= b < sb.size {
      GoodSlot(sb, im, h, k, b);
    }
    forall h, k, g, l, b: nat | InSlot(im.blocks, im.inodes, h, k, b) && InSlot(im.blocks, im.inodes, g, l, b) && b != 0
      ensures h == g && k == l
    {
      GoodSlot(sb, im, h, k, b);
      GoodSlot(sb, im, g, l, b);
    }
  }

  lemma {:induction false} GoodTidyBits(sb: Super, im: Image)
    requires Good(sb, im) && GoodSuper(sb) && |im.blocks| == sb.size && Sized(im.inodes)
    ensures TidyBits(sb, im.blocks, im.inodes)
  {
    GoodShape(sb, im);
    forall b | 0 <= b < sb.size ensures Bit(sb, im.blocks, b) <==> b < sb.datastart || InUse(im.blocks, im.inodes, b) {
      assert Bit(sb, im.blocks, b) <==> b < sb.datastart || b in im.owner by { assert Unfold(BITMAP, 0); }
      if b >= sb.datastart {
        GoodInUse(sb, im, b);
      }
    }
  }

  lemma {:induction false} GoodTidyFiles(sb: Super, im: Image)
    requires Good(sb, im) && Sized(im.inodes)
    ensures TidyFiles(im.blocks, im.inodes)
  {
    forall h | 0 <= h < |im.inodes|
      ensures im.inodes[h].size <= MAXFILE * BSIZE
      ensures forall bn ::
                0 <= bn < MAXFILE && bn * BSIZE < im.inodes[h].size ==> !InSlot(im.blocks, im.inodes, h, SlotOf(bn), 0)
    {
      GoodFile(sb, im, h);
      forall bn | 0 <= bn < MAXFILE && bn * BSIZE < im.inodes[h].size
        ensures !InSlot(im.blocks, im.inodes, h, SlotOf(bn), 0) {
        assert IsMapped(im, h, bn * BSIZE);
        SlotAtIs(im, h, SlotOf(bn));
      }
    }
  }

  lemma {:induction false} GoodTidy(sb: Super, im: Image)
    requires Good(sb, im)
    ensures Tidy(sb, im.blocks, im.inodes)
  {
    GoodShape(sb, im);
    GoodTidySlots(sb, im);
    GoodTidyBits(sb, im);
    GoodTidyFiles(sb, im);
  }

  ghost function SlotHolding(blocks: seq<Block>, inodes: seq<Inode>, b: nat): (s: Slot)
    requires InUse(blocks, inodes, b)
    ensures InSlot(blocks, inodes, s.inum, s.k, b)
  {
    var h, k :| InSlot(blocks, inodes, h, k, b);
    Slot(h, k)
  }

  ghost function OwnersOf(sb: Super, blocks: seq<Block>, inodes: seq<Inode>): map<nat, Slot> {
    map b: nat | 0 < b < sb.size && InUse(blocks, inodes, b) :: SlotHolding(blocks, inodes, b)
  }

  lemma {:induction false} TidyOwn(sb: Super, blocks: seq<Block>, inodes: seq<Inode>)
    requires Tidy(sb, blocks, inodes)
    ensures Own(sb, Table(blocks, inodes), OwnersOf(sb, blocks, inodes), 0, 0)
  {
    var t, owner := Table(blocks, inodes), OwnersOf(sb, blocks, inodes);
    forall i, k | 0 <= i < |t| && 0 <= k < SLOTS && t[i][k] != 0
      ensures t[i][k] in owner && owner[t[i][k]] == Slot(i, k) {
      assert InSlot(blocks, inodes, i, k, t[i][k]);
      assert InUse(blocks, inodes, t[i][k]);
      var s := SlotHolding(blocks, inodes, t[i][k]);
      assert InSlot(blocks, inodes, s.inum, s.k, t[i][k]);
    }
    forall b | b in owner
      ensures sb.datastart <= b < sb.size && owner[b].inum < |t| && owner[b].k < SLOTS
              && t[owner[b].inum][owner[b].k] == b
    {
      assert InSlot(blocks, inodes, owner[b].inum, owner[b].k, b);
    }
  }

  lemma {:induction false} TidyGood(sb: Super, blocks: seq<Block>, inodes: seq<Inode>)
    requires Tidy(sb, blocks, inodes)
    ensures Good(sb, Image(blocks, inodes, OwnersOf(sb, blocks, inodes)))
  {
    var im := Image(blocks, inodes, OwnersOf(sb, blocks, inodes));
    var t := Table(blocks, inodes);
    TidyOwn(sb, blocks, inodes);
    assert Bitmap(sb, blocks, im.owner);
    forall h | 0 <= h < |inodes| ensures NoHoles(t[h], inodes[h].size) {
      forall bn | 0 <= bn < MAXFILE && bn * BSIZE < inodes[h].size ensures t[h][SlotOf(bn)] != 0 {
        assert !InSlot(blocks, inodes, h, SlotOf(bn), 0);
      }
    }
    GoodConsistent(sb, im);
  }

  /** Block ownership and no holes, said without the ghost owners: there are owners that make an image good
      exactly when its blocks and inodes are tidy. */
  lemma {:induction false} GoodIsTidy(sb: Super, blocks: seq<Block>, inodes: seq<Inode>)
    ensures (exists owner :: Good(sb, Image(blocks, inodes, owner))) <==> Tidy(sb, blocks, inodes)
  {
    if Tidy(sb, blocks, inodes) {
      TidyGood(sb, blocks, inodes);
    } else if exists owner :: Good(sb, Image(blocks, inodes, owner)) {
      var owner :| Good(sb, Image(blocks, inodes, owner));
      GoodTidy(sb, Image(blocks, inodes, owner));
    }
  }

  // --------------------------------------------- one step of growing a file

  ghost predicate SlotsKept(a: Image, b: Image) {
    forall h, k {:trigger SlotAt(a, h, k)} {:trigger SlotAt(b, h, k)} ::
      SlotAt(a, h, k) != 0 ==> SlotAt(b, h, k) == SlotAt(a, h, k)
  }

  ghost predicate OnlySlots(a: Image, b: Image, i: nat, ks: set<nat>) {
    forall h, k {:trigger SlotAt(a, h, k)} {:trigger SlotAt(b, h, k)} ::
      !(h == i && k in ks) ==> SlotAt(b, h, k) == SlotAt(a, h, k)
  }

  /** From `a` to `b` the slots `ks` of inode i may have received blocks; nothing else changed. */
  ghost predicate Grew(sb: Super, a: Image, b: Image, i: nat, ks: set<nat>) {
    forall u {:trigger Unfold(GREW, u)} :: Unfold(GREW, u) ==>
      && Good(sb, a) && Good(sb, b) && a.owner.Keys <= b.owner.Keys
      && SameSizes(a.inodes, b.inodes) && KeepsData(a.blocks, b.blocks, a.owner)
      && SlotsKept(a, b) && OnlySlots(a, b, i, ks)
  }

  lemma {:induction false} GrewShape(sb: Super, a: Image, b: Image, i: nat, ks: set<nat>)
    requires Grew(sb, a, b, i, ks)
    ensures Good(sb, a) && Good(sb, b) && |b.inodes| == |a.inodes| && a.owner.Keys <= b.owner.Keys
  {
    assert Unfold(GREW, 0);
  }

  lemma {:induction false} GrewRefl(sb: Super, a: Image, i: nat, ks: set<nat>)
    requires Good(sb, a)
    ensures Grew(sb, a, a, i, ks)
  {
  }

  lemma {:induction false} GrewWiden(sb: Super, a: Image, b: Image, i: nat, ks: set<nat>, js: set<nat>)
    requires Grew(sb, a, b, i, ks) && ks <= js
    ensures Grew(sb, a, b, i, js)
  {
    assert Unfold(GREW, 0);
  }

  lemma {:induction false} KeepsDataTrans(sb: Super, a: Image, b: Image, c: Image)
    requires Good(sb, a) && Good(sb, b) && SlotsKept(a, b)
    requires KeepsData(a.blocks, b.blocks, a.owner) && KeepsData(b.blocks, c.blocks, b.owner)
    ensures KeepsData(a.blocks, c.blocks, a.owner)
  {
    forall x | x in a.owner && x < |a.blocks| && a.owner[x].k != NDIRECT
      ensures c.blocks[x] == a.blocks[x]
    {
      var s := a.owner[x];
      OwnerSlot(sb, a, x);
      SlotBlock(sb, b, s.inum, s.k);
    }
  }

  lemma {:induction false} GrewTrans(sb: Super, a: Image, b: Image, c: Image, i: nat, ks: set<nat>, js: set<nat>)
    requires Grew(sb, a, b, i, ks) && Grew(sb, b, c, i, js)
    ensures Grew(sb, a, c, i, ks + js)
  {
    assert Unfold(GREW, 0);
    KeepsDataTrans(sb, a, b, c);
    assert SlotsKept(a, c);
    assert OnlySlots(a, c, i, ks + js);
  }

  /** A slot outside `ks` is as before, and a used slot anywhere is. */
  lemma {:induction false} GrewSlot(sb: Super, a: Image, b: Image, i: nat, ks: set<nat>, h: nat, k: nat)
    requires Grew(sb, a, b, i, ks) && (!(h == i && k in ks) || SlotAt(a, h, k) != 0)
    ensures SlotAt(b, h, k) == SlotAt(a, h, k)
  {
    assert SlotsKept(a, b) && OnlySlots(a, b, i, ks) by { assert Unfold(GREW, 0); }
  }

  lemma {:induction false} PutIsGrowth(a: Image, b: Image, i: nat, k: nat, x: nat)
    requires Sized(a.inodes) && Sized(b.inodes) && i < |a.inodes| && k < SLOTS
    requires SlotAt(a, i, k) == 0
    requires Table(b.blocks, b.inodes) == Put(Table(a.blocks, a.inodes), i, k, x)
    ensures SlotsKept(a, b) && OnlySlots(a, b, i, {k}) && SlotAt(b, i, k) == x
  {
    assert |b.inodes| == |a.inodes|;
    forall h, j: nat ensures SlotAt(b, h, j) == if h == i && j == k then x else SlotAt(a, h, j) {
      SlotAtTable(a, h, j);
      SlotAtTable(b, h, j);
    }
  }

  lemma {:induction false} GrewDirect(sb: Super, a: Image, i: nat, k: nat, b: nat)
    requires Good(sb, a) && Sized(a.inodes) && |a.blocks| == sb.size && GoodSuper(sb)
    requires i < |a.inodes| && k <= NDIRECT && a.inodes[i].addrs[k] == 0
    requires sb.datastart <= b < sb.size && b !in a.owner
    ensures var c := Image(Allocated(sb, a.blocks, b), a.inodes[i := WithAddr(a.inodes[i], k, b)],
                           a.owner[b := Slot(i, k)]);
            Grew(sb, a, c, i, {k}) && SlotAt(c, i, k) == b
  {
    var c := Image(Allocated(sb, a.blocks, b), a.inodes[i := WithAddr(a.inodes[i], k, b)], a.owner[b := Slot(i, k)]);
    GoodConsistent(sb, a);
    GoodConsistent(sb, c);
    MapDirect(sb, a.blocks, a.inodes, a.owner, i, k, b);
    SlotAtIs(a, i, k);
    GrewByPut(sb, a, c, i, k, b);
  }

  lemma {:induction false} GrewByPut(sb: Super, a: Image, c: Image, i: nat, k: nat, x: nat)
    requires Good(sb, a) && Good(sb, c) && Sized(a.inodes) && Sized(c.inodes) && i < |a.inodes| && k < SLOTS
    requires SlotAt(a, i, k) == 0 && Table(c.blocks, c.inodes) == Put(Table(a.blocks, a.inodes), i, k, x)
    requires a.owner.Keys <= c.owner.Keys && SameSizes(a.inodes, c.inodes) && KeepsData(a.blocks, c.blocks, a.owner)
    ensures Grew(sb, a, c, i, {k}) && SlotAt(c, i, k) == x
  {
    PutIsGrowth(a, c, i, k, x);
  }

  lemma {:induction false} GrewIndirect(sb: Super, a: Image, i: nat, j: nat, b: nat)
    requires Good(sb, a) && Sized(a.inodes) && |a.blocks| == sb.size && GoodSuper(sb)
    requires i < |a.inodes| && j < NINDIRECT && a.inodes[i].addrs[NDIRECT] != 0
    requires SlotAt(a, i, NDIRECT + 1 + j) == 0
    requires sb.datastart <= b < sb.size && b !in a.owner
    ensures var x := a.inodes[i].addrs[NDIRECT];
            && x < |a.blocks|
            && var c := Image(PutEntry(Allocated(sb, a.blocks, b), x, j, b), a.inodes,
                              a.owner[b := Slot(i, NDIRECT + 1 + j)]);
            Grew(sb, a, c, i, {NDIRECT + 1 + j}) && SlotAt(c, i, NDIRECT + 1 + j) == b
  {
    GoodConsistent(sb, a);
    SlotAtIs(a, i, NDIRECT + 1 + j);
    MapIndirect(sb, a.blocks, a.inodes, a.owner, i, j, b);
    var x := a.inodes[i].addrs[NDIRECT];
    var c := Image(PutEntry(Allocated(sb, a.blocks, b), x, j, b), a.inodes, a.owner[b := Slot(i, NDIRECT + 1 + j)]);
    GoodConsistent(sb, c);
    GrewByPut(sb, a, c, i, NDIRECT + 1 + j, b);
  }

  // ------------------------------------------------------- what was logged

  /** What log_write sees while the blocks `got` are allocated: the blocks, zeroed, and their bitmap blocks. */
  ghost function AllocLog(sb: Super, got: set<nat>): set<nat> {
    got + set b | b in got :: BBlock(sb, b)
  }

  /** Going from `a` to `b`, log_write saw the blocks allocated on the way, their bitmap blocks, and `more`. */
  ghost predicate Logs(sb: Super, was: set<nat>, a: Image, now: set<nat>, b: Image, more: set<nat>) {
    forall u {:trigger Unfold(LOGGED, u)} :: Unfold(LOGGED, u) ==>
      now == was + AllocLog(sb, b.owner.Keys - a.owner.Keys) + more
  }

  lemma {:induction false} LogsNothing(sb: Super, was: set<nat>, a: Image)
    ensures Logs(sb, was, a, was, a, {})
  {
    assert a.owner.Keys - a.owner.Keys == {};
  }

  lemma {:induction false} LogsOne(sb: Super, was: set<nat>, a: Image, b: Image, x: nat, more: set<nat>)
    requires b.owner.Keys == a.owner.Keys + {x} && x !in a.owner
    ensures Logs(sb, was, a, was + {BBlock(sb, x), x} + more, b, more)
  {
    assert b.owner.Keys - a.owner.Keys == {x};
  }

  lemma {:induction false} LogsMore(sb: Super, was: set<nat>, a: Image, now: set<nat>, b: Image, more: set<nat>,
                                    c: Image, x: nat)
    requires Logs(sb, was, a, now, b, more) && c.owner.Keys == b.owner.Keys
    ensures Logs(sb, was, a, now + {x}, c, more + {x})
  {
    assert Unfold(LOGGED, 0);
  }

  lemma {:induction false} LogsTrans(sb: Super, l0: set<nat>, a: Image, l1: set<nat>, b: Image, l2: set<nat>, c: Image,
                                     e: set<nat>, f: set<nat>)
    requires Logs(sb, l0, a, l1, b, e) && Logs(sb, l1, b, l2, c, f)
    requires a.owner.Keys <= b.owner.Keys <= c.owner.Keys
    ensures Logs(sb, l0, a, l2, c, e + f)
  {
    assert Unfold(LOGGED, 0);
    assert c.owner.Keys - a.owner.Keys == (b.owner.Keys - a.owner.Keys) + (c.owner.Keys - b.owner.Keys);
  }

  // --------------------------------------------------------- bytes of a file

  ghost predicate IsMapped(im: Image, h: nat, p: nat) {
    p < MAXFILE * BSIZE && SlotAt(im, h, SlotOf(p / BSIZE)) != 0
  }

  ghost function ByteOf(im: Image, h: nat, p: nat): Byte {
    if p < MAXFILE * BSIZE then
      var x := SlotAt(im, h, SlotOf(p / BSIZE));
      if 0 < x < |im.blocks| then im.blocks[x][p % BSIZE] else Binary(0, 8)
    else Binary(0, 8)
  }

  ghost function Contents(im: Image, h: nat): (f: seq<Byte>) {
    if h < |im.inodes| then BytesOf(im, h, im.inodes[h].size) else []
  }

  ghost predicate IsFile(im: Image, h: nat, f: seq<Byte>) {
    forall u {:trigger Unfold(CONTENTS, u)} :: Unfold(CONTENTS, u) ==> f == Contents(im, h)
  }

  /** The contents of file h. */
  ghost function FileOf(im: Image, h: nat): (f: seq<Byte>) {
    assert IsFile(im, h, Contents(im, h));
    var f :| IsFile(im, h, f);
    f
  }

  lemma {:induction false} FileIs(im: Image, h: nat)
    ensures FileOf(im, h) == Contents(im, h)
  {
    assert IsFile(im, h, Contents(im, h));
    assert Unfold(CONTENTS, 0);
  }

  ghost function BytesOf(im: Image, h: nat, n: nat): (f: seq<Byte>)
    ensures |f| == n && forall p :: 0 <= p < n ==> f[p] == ByteOf(im, h, p)
  {
    if n == 0 then [] else BytesOf(im, h, n - 1) + [ByteOf(im, h, n - 1)]
  }

  /** Every byte below the size is in a mapped block. */
  lemma {:induction false} GoodFile(sb: Super, im: Image, h: nat)
    requires Good(sb, im) && h < |im.inodes|
    ensures |FileOf(im, h)| == im.inodes[h].size <= MAXFILE * BSIZE
    ensures forall p :: 0 <= p < im.inodes[h].size ==> IsMapped(im, h, p)
  {
    FileIs(im, h);
    GoodShape(sb, im);
    assert NoHoles(Table(im.blocks, im.inodes)[h], im.inodes[h].size) by {
      assert Unfold(GOOD, 0);
      FileMapped(sb, im.blocks, im.inodes, im.owner, h);
    }
    forall p | 0 <= p < im.inodes[h].size ensures IsMapped(im, h, p) {
      assert p / BSIZE * BSIZE <= p;
      SlotAtTable(im, h, SlotOf(p / BSIZE));
    }
  }

  lemma {:induction false} GrewBytes(sb: Super, a: Image, b: Image, i: nat, ks: set<nat>, h: nat, p: nat)
    requires Grew(sb, a, b, i, ks) && IsMapped(a, h, p)
    ensures IsMapped(b, h, p) && ByteOf(b, h, p) == ByteOf(a, h, p)
  {
    var k := SlotOf(p / BSIZE);
    GrewSlot(sb, a, b, i, ks, h, k);
    assert Unfold(GREW, 0);
    SlotBlock(sb, a, h, k);
  }

  // ------------------------------------------------------------ writing a file

  /** From `a` to `b`, bytes off0..off of file i became src, in mapped blocks, and no other mapped
      byte of any file changed.  Sizes are as before. */
  ghost predicate Wrote(sb: Super, a: Image, b: Image, i: nat, off0: nat, off: nat, src: seq<Byte>) {
    forall u {:trigger Unfold(WROTE, u)} :: Unfold(WROTE, u) ==>
      && Good(sb, a) && Good(sb, b) && i < |a.inodes| && SameSizes(a.inodes, b.inodes)
      && off0 <= off <= MAXFILE * BSIZE && off - off0 <= |src|
      && KeptElsewhere(a, b, i, off0, off)
      && (forall p :: off0 <= p < off ==> IsMapped(b, i, p) && ByteOf(b, i, p) == src[p - off0])
  }

  ghost predicate KeptElsewhere(a: Image, b: Image, i: nat, off0: nat, off: nat) {
    forall h, p: nat :: IsMapped(a, h, p) ==>
      && IsMapped(b, h, p)
      && (!(h == i && off0 <= p < off) ==> ByteOf(b, h, p) == ByteOf(a, h, p))
  }

  lemma {:induction false} WroteShape(sb: Super, a: Image, b: Image, i: nat, off0: nat, off: nat, src: seq<Byte>)
    requires Wrote(sb, a, b, i, off0, off, src)
    ensures Good(sb, a) && Good(sb, b) && i < |a.inodes| == |b.inodes| && b.inodes[i].size == a.inodes[i].size
    ensures off0 <= off <= MAXFILE * BSIZE && off - off0 <= |src|
  {
    assert Unfold(WROTE, 0);
  }

  lemma {:induction false} WroteNothing(sb: Super, a: Image, i: nat, off0: nat, src: seq<Byte>)
    requires Good(sb, a) && i < |a.inodes| && off0 <= MAXFILE * BSIZE
    ensures Wrote(sb, a, a, i, off0, off0, src)
  {
  }

  /** bmap in the middle of a write. */
  lemma {:induction false} WroteGrew(sb: Super, a: Image, b: Image, c: Image, i: nat, ks: set<nat>, off0: nat,
                                     off: nat, src: seq<Byte>)
    requires Wrote(sb, a, b, i, off0, off, src) && Grew(sb, b, c, i, ks)
    ensures Wrote(sb, a, c, i, off0, off, src)
  {
    assert Unfold(WROTE, 0);
    assert SameSizes(b.inodes, c.inodes) && Good(sb, c) by { assert Unfold(GREW, 0); }
    forall h, p | IsMapped(b, h, p)
      ensures IsMapped(c, h, p) && ByteOf(c, h, p) == ByteOf(b, h, p)
    {
      GrewBytes(sb, b, c, i, ks, h, p);
    }
  }

  /** A buffer after `data` was copied in at byte `at`. */
  function Patched(d: Block, at: nat, data: seq<Byte>): (r: Block)
    requires at + |data| <= BSIZE
  {
    d[..at] + data + d[at + |data|..]
  }

  function Stored(im: Image, x: nat, at: nat, data: seq<Byte>): (r: Image)
    requires x < |im.blocks| && at + |data| <= BSIZE
  {
    im.(blocks := im.blocks[x := Patched(im.blocks[x], at, data)])
  }

  lemma {:induction false} StoreGood(sb: Super, im: Image, i: nat, k: nat, at: nat, data: seq<Byte>)
    requires Good(sb, im) && SlotAt(im, i, k) != 0 && k != NDIRECT && at + |data| <= BSIZE
    ensures var x := SlotAt(im, i, k);
            && x < |im.blocks|
            && Good(sb, Stored(im, x, at, data))
            && forall h, j :: SlotAt(Stored(im, x, at, data), h, j) == SlotAt(im, h, j)
  {
    GoodShape(sb, im);
    SlotBlock(sb, im, i, k);
    var x := SlotAt(im, i, k);
    var blocks' := Stored(im, x, at, data).blocks;
    SameTable(sb, im.blocks, blocks', im.inodes, im.owner, 0, 0);
    SameSlots(im, Stored(im, x, at, data));
    BitmapFrame(sb, im.blocks, blocks', im.owner);
    assert AllMapped(Table(im.blocks, im.inodes), im.inodes) by {
      assert Unfold(GOOD, 0) && Unfold(MAPPED, 0);
    }
  }

  lemma {:induction false} StoredByte(sb: Super, b: Image, c: Image, i: nat, off: nat, data: seq<Byte>, h: nat, p: nat)
    requires Good(sb, b) && IsMapped(b, i, off) && off % BSIZE + |data| <= BSIZE
    requires SlotAt(b, i, SlotOf(off / BSIZE)) < |b.blocks|
    requires c == Stored(b, SlotAt(b, i, SlotOf(off / BSIZE)), off % BSIZE, data)
    requires forall g, k :: SlotAt(c, g, k) == SlotAt(b, g, k)
    ensures ByteOf(c, h, p) == if h == i && off <= p < off + |data| then data[p - off] else ByteOf(b, h, p)
  {
    var x := SlotAt(b, i, SlotOf(off / BSIZE));
    SlotBlock(sb, b, i, SlotOf(off / BSIZE));
    if p < MAXFILE * BSIZE && SlotAt(b, h, SlotOf(p / BSIZE)) == x {
      SlotBlock(sb, b, h, SlotOf(p / BSIZE));
      assert h == i && p / BSIZE == off / BSIZE;
    }
    assert off <= p < off + |data| ==> p / BSIZE == off / BSIZE;
  }

  /** Copying bytes into a mapped block changes those bytes of that file, and no others. */
  lemma {:induction false} StoreBytes(sb: Super, b: Image, i: nat, off: nat, data: seq<Byte>)
    requires Good(sb, b) && IsMapped(b, i, off) && off % BSIZE + |data| <= BSIZE
    ensures var x := SlotAt(b, i, SlotOf(off / BSIZE));
            && x < |b.blocks|
            && var c := Stored(b, x, off % BSIZE, data);
            && Good(sb, c) && (forall h, k :: SlotAt(c, h, k) == SlotAt(b, h, k))
            && (forall h, p: nat ::
                  ByteOf(c, h, p) == if h == i && off <= p < off + |data| then data[p - off] else ByteOf(b, h, p))
  {
    StoreGood(sb, b, i, SlotOf(off / BSIZE), off % BSIZE, data);
    var c := Stored(b, SlotAt(b, i, SlotOf(off / BSIZE)), off % BSIZE, data);
    forall h, p: nat
      ensures ByteOf(c, h, p) == if h == i && off <= p < off + |data| then data[p - off] else ByteOf(b, h, p)
    {
      StoredByte(sb, b, c, i, off, data, h, p);
    }
  }

  /** One turn of writei's loop after bmap: m bytes go into the block of offset `off`. */
  lemma {:induction false} WroteMore(sb: Super, a: Image, b: Image, i: nat, off0: nat, off: nat, src: seq<Byte>, m: nat)
    requires Wrote(sb, a, b, i, off0, off, src) && off0 <= off
    requires off + m <= MAXFILE * BSIZE && off - off0 + m <= |src| && off % BSIZE + m <= BSIZE
    requires IsMapped(b, i, off)
    ensures var x := SlotAt(b, i, SlotOf(off / BSIZE));
            && x < |b.blocks|
            && var c := Stored(b, x, off % BSIZE, src[off - off0..off - off0 + m]);
            && Wrote(sb, a, c, i, off0, off + m, src)
            && SlotAt(c, i, NDIRECT) == SlotAt(b, i, NDIRECT)
  {
    assert Unfold(WROTE, 0);
    StoreBytes(sb, b, i, off, src[off - off0..off - off0 + m]);
    var x := SlotAt(b, i, SlotOf(off / BSIZE));
    var c := Stored(b, x, off % BSIZE, src[off - off0..off - off0 + m]);
    forall p | off0 <= p < off + m
      ensures IsMapped(c, i, p) && ByteOf(c, i, p) == src[p - off0]
    {
      if p < off {
        assert IsMapped(b, i, p);
      } else {
        assert p / BSIZE == off / BSIZE;
      }
    }
  }

  // ------------------------------------------------- files as byte sequences

  /** f with the bytes from `off` on replaced by s, and longer if s goes past its end. */
  function Splice(f: seq<Byte>, off: nat, s: seq<Byte>): (r: seq<Byte>)
    requires off <= |f|
    ensures |r| == if off + |s| > |f| then off + |s| else |f|
  {
    f[..off] + s + (if off + |s| < |f| then f[off + |s|..] else [])
  }

  function Resized(im: Image, i: nat, size: nat): (r: Image)
    requires i < |im.inodes|
  {
    im.(inodes := im.inodes[i := im.inodes[i].(size := size)])
  }

  lemma {:induction false} ResizedTable(im: Image, i: nat, size: nat)
    requires Sized(im.inodes) && i < |im.inodes|
    ensures Sized(Resized(im, i, size).inodes)
    ensures Table(im.blocks, Resized(im, i, size).inodes) == Table(im.blocks, im.inodes)
  {
    var r := Resized(im, i, size);
    forall h | 0 <= h < |im.inodes| ensures Row(r.blocks, r.inodes[h]) == Row(im.blocks, im.inodes[h]) {
      assert forall k :: 0 <= k < SLOTS ==> At(r.blocks, r.inodes[h], k) == At(im.blocks, im.inodes[h], k);
    }
  }

  lemma {:induction false} ResizedGood(sb: Super, im: Image, i: nat, size: nat)
    requires Good(sb, im) && i < |im.inodes| && size <= MAXFILE * BSIZE
    requires forall bn :: 0 <= bn < MAXFILE && bn * BSIZE < size ==> SlotAt(im, i, SlotOf(bn)) != 0
    ensures Good(sb, Resized(im, i, size))
    ensures forall h, k :: SlotAt(Resized(im, i, size), h, k) == SlotAt(im, h, k)
  {
    GoodShape(sb, im);
    ResizedTable(im, i, size);
    SameSlots(im, Resized(im, i, size));
    var t := Table(im.blocks, im.inodes);
    forall bn | 0 <= bn < MAXFILE && bn * BSIZE < size ensures t[i][SlotOf(bn)] != 0 {
      SlotAtTable(im, i, SlotOf(bn));
    }
    assert AllMapped(t, Resized(im, i, size).inodes) by {
      assert Unfold(GOOD, 0) && Unfold(MAPPED, 0);
    }
  }

  /** The size after writei: it covers what was written and never shrinks. */
  function NewSize(b: Image, i: nat, off: nat): nat
    requires i < |b.inodes|
  {
    if off > b.inodes[i].size then off else b.inodes[i].size
  }

  lemma {:induction false} WroteResized(sb: Super, a: Image, b: Image, i: nat, off0: nat, off: nat, src: seq<Byte>)
    requires Wrote(sb, a, b, i, off0, off, src) && i < |b.inodes| && off0 <= b.inodes[i].size
    ensures var c := Resized(b, i, NewSize(b, i, off));
            Good(sb, c) && forall h, k :: SlotAt(c, h, k) == SlotAt(b, h, k)
  {
    var size := NewSize(b, i, off);
    WroteShape(sb, a, b, i, off0, off, src);
    GoodFile(sb, b, i);
    forall bn | 0 <= bn < MAXFILE && bn * BSIZE < size ensures SlotAt(b, i, SlotOf(bn)) != 0 {
      assert IsMapped(b, i, bn * BSIZE) by {
        if bn * BSIZE >= b.inodes[i].size { assert Unfold(WROTE, 0); }
      }
    }
    ResizedGood(sb, b, i, size);
  }

  lemma {:induction false} WroteOther(sb: Super, a: Image, b: Image, c: Image, i: nat, off0: nat, off: nat,
                                      src: seq<Byte>, h: nat)
    requires Wrote(sb, a, b, i, off0, off, src) && h < |a.inodes| && h != i && i < |b.inodes|
    requires c == Resized(b, i, NewSize(b, i, off)) && forall g, k :: SlotAt(c, g, k) == SlotAt(b, g, k)
    ensures FileOf(c, h) == FileOf(a, h)
  {
    assert Unfold(WROTE, 0);
    GoodFile(sb, a, h);
    FileIs(a, h);
    FileIs(c, h);
    forall p | 0 <= p < a.inodes[h].size ensures ByteOf(c, h, p) == ByteOf(a, h, p) {
      assert IsMapped(a, h, p);
      assert ByteOf(c, h, p) == ByteOf(b, h, p);
    }
  }

  lemma {:induction false} WroteFile(sb: Super, a: Image, b: Image, c: Image, i: nat, off0: nat, off: nat,
                                     src: seq<Byte>)
    requires Wrote(sb, a, b, i, off0, off, src) && i < |b.inodes| == |a.inodes| && off0 <= a.inodes[i].size
    requires c == Resized(b, i, NewSize(b, i, off)) && forall g, k :: SlotAt(c, g, k) == SlotAt(b, g, k)
    requires off0 <= off && off - off0 <= |src|
    ensures |FileOf(a, i)| == a.inodes[i].size
    ensures FileOf(c, i) == Splice(FileOf(a, i), off0, src[..off - off0])
  {
    assert Unfold(WROTE, 0);
    GoodFile(sb, a, i);
    FileIs(a, i);
    FileIs(c, i);
    var want := Splice(FileOf(a, i), off0, src[..off - off0]);
    forall p | 0 <= p < NewSize(b, i, off) ensures ByteOf(c, i, p) == want[p] {
      assert ByteOf(c, i, p) == ByteOf(b, i, p);
      if !(off0 <= p < off) {
        assert IsMapped(a, i, p);
      }
    }
  }

  /** The end of writei: the file is the old one with the new bytes spliced in, and no other file changes. */
  lemma {:induction false} WroteDone(sb: Super, a: Image, b: Image, i: nat, off0: nat, off: nat, src: seq<Byte>)
    requires Wrote(sb, a, b, i, off0, off, src) && i < |a.inodes| == |b.inodes| && off0 <= a.inodes[i].size
    ensures off0 <= off && off - off0 <= |src| && |FileOf(a, i)| == a.inodes[i].size
    ensures var c := Resized(b, i, NewSize(b, i, off));
            && Good(sb, c) && FileOf(c, i) == Splice(FileOf(a, i), off0, src[..off - off0])
            && (forall h :: 0 <= h < |a.inodes| && h != i ==> FileOf(c, h) == FileOf(a, h))
  {
    var c := Resized(b, i, NewSize(b, i, off));
    WroteShape(sb, a, b, i, off0, off, src);
    WroteResized(sb, a, b, i, off0, off, src);
    WroteFile(sb, a, b, c, i, off0, off, src);
    forall h | 0 <= h < |a.inodes| && h != i ensures FileOf(c, h) == FileOf(a, h) {
      WroteOther(sb, a, b, c, i, off0, off, src, h);
    }
  }

  // ------------------------------------------------------------ reading a file

  /** `off + n < off` in 32 bits: the sum wrapped around. */
  lemma {:induction false} Wraps(off: nat, n: nat)
    requires off < UINT && n < UINT
    ensures (off + n) % UINT < off <==> off + n >= UINT
  {
  }

  /** How much of a transfer goes into the block of offset o. */
  function Piece(o: nat, left: nat): (m: nat)
    requires left > 0
    ensures 0 < m <= left && o % BSIZE + m <= BSIZE
    ensures m == left || (o + m) % BSIZE == 0
  {
    if left < BSIZE - o % BSIZE then left else BSIZE - o % BSIZE
  }

  lemma {:induction false} SameBlock(o: nat, q: nat)
    requires o % BSIZE + q < BSIZE
    ensures (o + q) / BSIZE == o / BSIZE && (o + q) % BSIZE == o % BSIZE + q
  {
  }

  /** m bytes of a block are the m bytes of the file at that offset. */
  lemma {:induction false} ReadBlock(sb: Super, im: Image, i: nat, o: nat, m: nat)
    requires Good(sb, im) && i < |im.inodes| && o + m <= im.inodes[i].size && 0 < m && o % BSIZE + m <= BSIZE
    ensures |FileOf(im, i)| == im.inodes[i].size <= MAXFILE * BSIZE && IsMapped(im, i, o)
    ensures var a := SlotAt(im, i, SlotOf(o / BSIZE));
            && 0 < a < |im.blocks|
            && im.blocks[a][o % BSIZE..o % BSIZE + m] == FileOf(im, i)[o..o + m]
  {
    GoodFile(sb, im, i);
    FileIs(im, i);
    assert IsMapped(im, i, o);
    SlotBlock(sb, im, i, SlotOf(o / BSIZE));
    var part := im.blocks[SlotAt(im, i, SlotOf(o / BSIZE))][o % BSIZE..o % BSIZE + m];
    var want := FileOf(im, i)[o..o + m];
    forall q | 0 <= q < m ensures part[q] == want[q] {
      SameBlock(o, q);
      assert want[q] == ByteOf(im, i, o + q);
    }
  }

  // ---------------------------------------------------------- the log budget

  /** {x}, or nothing if there is no block. */
  function Opt(x: nat): set<nat> { if x == 0 then {} else {x} }

  /** The log account of a write: `data` are the file's blocks looked at so far, at most `cnt` of
      them; `more` was logged besides the allocations; at most `allocs` data blocks were new. */
  datatype Account = Account(data: set<nat>, more: set<nat>, cnt: nat, allocs: nat)

  /** `acc` accounts for what writing to file i logged on the way from `a` to `b`. */
  ghost predicate Spent(sb: Super, l0: set<nat>, a: Image, l: set<nat>, b: Image, i: nat, acc: Account) {
    forall u {:trigger Unfold(SPENT, u)} :: Unfold(SPENT, u) ==>
      && Logs(sb, l0, a, l, b, acc.more) && a.owner.Keys <= b.owner.Keys
      && (SlotAt(a, i, NDIRECT) != 0 ==> SlotAt(b, i, NDIRECT) == SlotAt(a, i, NDIRECT))
      && |acc.data| <= acc.cnt && acc.more <= acc.data + Opt(SlotAt(b, i, NDIRECT))
      && b.owner.Keys <= a.owner.Keys + acc.data + Opt(SlotAt(b, i, NDIRECT))
      && |b.owner.Keys - a.owner.Keys| <=
           acc.allocs + if SlotAt(a, i, NDIRECT) == 0 && SlotAt(b, i, NDIRECT) != 0 then 1 else 0
  }

  lemma {:induction false} SpentNothing(sb: Super, l0: set<nat>, a: Image, i: nat)
    ensures Spent(sb, l0, a, l0, a, i, Account({}, {}, 0, 0))
  {
    LogsNothing(sb, l0, a);
    assert a.owner.Keys - a.owner.Keys == {};
  }

  lemma {:induction false} CardOfTwo(a: set<nat>, b: set<nat>, x: nat, y: nat)
    requires a <= b <= a + Opt(x) + Opt(y)
    ensures |b - a| <= |Opt(x)| + |Opt(y)|
  {
    assert b - a <= Opt(x) + Opt(y);
    CardLe(b - a, Opt(x) + Opt(y));
    CardUnion(Opt(x), Opt(y));
  }

  lemma {:induction false} CardLe(a: set<nat>, b: set<nat>)
    requires a <= b
    ensures |a| <= |b|
  {
    assert b == a + (b - a);
  }

  lemma {:induction false} CardUnion(a: set<nat>, b: set<nat>)
    ensures |a + b| <= |a| + |b|
  {
    assert a + b == a + (b - a);
    CardLe(b - a, b);
  }

  /** Counting the blocks that bmap added: the data block if there was none, the indirect block if it is new. */
  lemma {:induction false} BmapCard(a: set<nat>, b: set<nat>, c: set<nat>, addr: nat, was: nat, indB: nat, indC: nat)
    requires a <= b <= c <= b + Opt(addr) + Opt(indC)
    requires indB != 0 ==> indC == indB && c <= b + Opt(addr)
    requires was != 0 ==> c == b
    ensures |c - a| <= |b - a| + (if was == 0 then 1 else 0) + (if indB == 0 && indC != 0 then 1 else 0)
  {
    assert c - a == (b - a) + (c - b);
    CardUnion(b - a, c - b);
    if was != 0 {
      assert c - b == {};
    } else {
      CardOfTwo(b, c, addr, if indB != 0 then 0 else indC);
    }
  }

  /** The account after bmap found `was` in the slot, returned `addr` and logged `extra`. */
  function Looked(acc: Account, addr: nat, was: nat, extra: set<nat>): Account {
    Account(acc.data + Opt(addr), acc.more + extra, acc.cnt + 1, acc.allocs + if was == 0 then 1 else 0)
  }

  /** bmap in the middle of a write: from `b` to `c` it returned `addr` and logged `extra`. */
  lemma {:induction false} SpentBmap(sb: Super, l0: set<nat>, a: Image, l: set<nat>, b: Image, l': set<nat>, c: Image,
                                     i: nat, acc: Account, addr: nat, was: nat, extra: set<nat>)
    requires Spent(sb, l0, a, l, b, i, acc) && Logs(sb, l, b, l', c, extra)
    requires b.owner.Keys <= c.owner.Keys <= b.owner.Keys + Opt(addr) + Opt(SlotAt(c, i, NDIRECT))
    requires SlotAt(b, i, NDIRECT) != 0 ==>
               SlotAt(c, i, NDIRECT) == SlotAt(b, i, NDIRECT) && c.owner.Keys <= b.owner.Keys + Opt(addr)
    requires was != 0 ==> c == b
    requires extra <= Opt(SlotAt(c, i, NDIRECT))
    ensures Spent(sb, l0, a, l', c, i, Looked(acc, addr, was, extra))
  {
    assert Unfold(SPENT, 0);
    LogsTrans(sb, l0, a, l, b, l', c, acc.more, extra);
    CardUnion(acc.data, Opt(addr));
    BmapCard(a.owner.Keys, b.owner.Keys, c.owner.Keys, addr, was, SlotAt(b, i, NDIRECT), SlotAt(c, i, NDIRECT));
  }

  /** log_write of a data block that is already in the account. */
  lemma {:induction false} SpentStore(sb: Super, l0: set<nat>, a: Image, l: set<nat>, b: Image, c: Image, i: nat,
                                      acc: Account, addr: nat)
    requires Spent(sb, l0, a, l, b, i, acc) && addr in acc.data
    requires c.owner == b.owner && SlotAt(c, i, NDIRECT) == SlotAt(b, i, NDIRECT)
    ensures Spent(sb, l0, a, l + {addr}, c, i, acc.(more := acc.more + {addr}))
  {
    assert Unfold(SPENT, 0);
    LogsMore(sb, l0, a, l, b, acc.more, c, addr);
  }

  ghost function BitmapBlocks(sb: Super, got: set<nat>): set<nat> { set b | b in got :: BBlock(sb, b) }

  lemma BitmapBlocksCard(sb: Super, got: set<nat>)
    ensures |BitmapBlocks(sb, got)| <= |got|
  {
    if got != {} {
      var b :| b in got;
      BitmapBlocksCard(sb, got - {b});
      assert BitmapBlocks(sb, got) == BitmapBlocks(sb, got - {b}) + {BBlock(sb, b)};
      CardUnion(BitmapBlocks(sb, got - {b}), {BBlock(sb, b)});
    }
  }

  /** Data blocks, the indirect block, one bitmap block for each new block, and the inode. */
  lemma {:induction false} SpentTotal(sb: Super, l0: set<nat>, a: Image, l: set<nat>, b: Image, i: nat,
                                      acc: Account, iblock: nat)
    requires Spent(sb, l0, a, l, b, i, acc)
    ensures |l + {iblock}| <= |l0| + acc.cnt + acc.allocs + 3
    ensures forall off0, n :: Affordable(acc, off0, n) ==> |l + {iblock}| <= |l0| + WriteCost(off0, n)
  {
    assert Unfold(SPENT, 0);
    assert Unfold(LOGGED, 0);
    assert Unfold(FRUGAL, 0);
    var got := b.owner.Keys - a.owner.Keys;
    var ind := Opt(SlotAt(b, i, NDIRECT));
    BitmapBlocksCard(sb, got);
    var fixed := acc.data + ind + {iblock};
    CardUnion(acc.data + ind, {iblock});
    CardUnion(acc.data, ind);
    assert l + {iblock} <= l0 + (fixed + BitmapBlocks(sb, got));
    CardLe(l + {iblock}, l0 + (fixed + BitmapBlocks(sb, got)));
    CardUnion(l0, fixed + BitmapBlocks(sb, got));
    CardUnion(fixed, BitmapBlocks(sb, got));
  }

  /** How many blocks of a file the bytes off..off+n touch. */
  function Spanned(off: nat, n: nat): nat
    requires n > 0
  {
    (off + n - 1) / BSIZE - off / BSIZE + 1
  }

  /** The most that writei of n bytes at `off` can add to the log. */
  function WriteCost(off: nat, n: nat): nat {
    if n == 0 then 3
    else 2 * Spanned(off, n) + 3 - (if off % BSIZE != 0 then 1 else 0)
  }

  /** What keeps the account small: bmap is asked for each block once, and the first block of an
      unaligned write is mapped already, because files have no holes. */
  ghost predicate Frugal(acc: Account, off0: nat, off: nat) {
    forall u {:trigger Unfold(FRUGAL, u)} :: Unfold(FRUGAL, u) ==>
      && off / BSIZE == off0 / BSIZE + acc.cnt
      && acc.allocs <= acc.cnt - (if off0 % BSIZE != 0 && acc.cnt > 0 then 1 else 0)
  }

  /** The next block starts where the last one ended. */
  lemma {:induction false} FrugalNext(acc: Account, acc': Account, off0: nat, off: nat, m: nat, left: nat)
    requires Frugal(acc, off0, off) && acc'.cnt == acc.cnt + 1 && acc'.allocs <= acc.allocs + 1
    requires acc.cnt == 0 && off0 % BSIZE != 0 ==> acc'.allocs == acc.allocs
    requires m < left && m == Piece(off, left)
    ensures Frugal(acc', off0, off + m)
  {
    assert Unfold(FRUGAL, 0);
    assert (off + m) / BSIZE == off / BSIZE + 1;
  }

  /** The account of a finished or interrupted write fits the bound. */
  ghost predicate Affordable(acc: Account, off0: nat, n: nat) {
    forall u {:trigger Unfold(FRUGAL, u)} :: Unfold(FRUGAL, u) ==> acc.cnt + acc.allocs + 3 <= WriteCost(off0, n)
  }

  lemma {:induction false} NothingAffordable(off0: nat, n: nat)
    ensures Affordable(Account({}, {}, 0, 0), off0, n) && Frugal(Account({}, {}, 0, 0), off0, off0)
  {
    if n > 0 {
      assert off0 / BSIZE <= (off0 + n - 1) / BSIZE;
    }
  }

  lemma {:induction false} FrugalCost(acc: Account, off0: nat, off: nat, n: nat, acc': Account)
    requires Frugal(acc, off0, off) && off0 <= off < off0 + n
    requires acc'.cnt == acc.cnt + 1 && acc'.allocs <= acc.allocs + 1
    requires acc.cnt == 0 && off0 % BSIZE != 0 ==> acc'.allocs == acc.allocs
    ensures Affordable(acc', off0, n)
  {
    assert Unfold(FRUGAL, 0);
    assert off / BSIZE <= (off0 + n - 1) / BSIZE;
  }

  /** filewrite's chunk size: ((MAXOPBLOCKS-1-1-2) / 2) * BSIZE. */
  const CHUNK: nat := 3 * BSIZE

  /** Byte r of the chunk at `done`. */
  lemma {:induction false} ChunkPlace(done: nat, r: nat)
    requires done % CHUNK == 0 && r <= CHUNK
    ensures r < CHUNK ==> (done + r) / CHUNK * CHUNK == done && (done + r) % CHUNK == r
    ensures r == CHUNK ==> (done + r) % CHUNK == 0
  {
    var q := done / CHUNK;
    assert done == CHUNK * q;
    if r < CHUNK {
      IsRemainder(CHUNK, q, r, done + r);
    } else {
      IsRemainder(CHUNK, q + 1, 0, done + r);
    }
  }

  lemma {:induction false} ChunkCost(off: nat, n: nat)
    requires n <= CHUNK
    ensures WriteCost(off, n) <= 10
  {
    if n > 0 {
      assert (off + n - 1) / BSIZE <= off / BSIZE + 3;
    }
  }

  /** An unaligned write starts in a block that the file already has. */
  lemma {:induction false} FirstMapped(sb: Super, im: Image, i: nat, off: nat)
    requires Good(sb, im) && i < |im.inodes| && off <= im.inodes[i].size
    ensures off % BSIZE != 0 ==> IsMapped(im, i, off)
  {
    GoodFile(sb, im, i);
    if off % BSIZE != 0 {
      assert IsMapped(im, i, off - 1);
      assert (off - 1) / BSIZE == off / BSIZE;
      assert off < MAXFILE * BSIZE;
    }
  }

  /** Two writes in a row, the second where the first one stopped, are one write. */
  lemma {:induction false} SpliceTwice(f: seq<Byte>, off: nat, a: seq<Byte>, b: seq<Byte>)
    requires off <= |f|
    ensures Splice(Splice(f, off, a), off + |a|, b) == Splice(f, off, a + b)
  {
    var g := Splice(f, off, a);
    var whole := Splice(f, off, a + b);
    var r := Splice(g, off + |a|, b);
    forall p | 0 <= p < |r| ensures r[p] == whole[p] {
    }
  }

  lemma {:induction false} SpliceNothing(f: seq<Byte>, off: nat)
    requires off <= |f|
    ensures Splice(f, off, []) == f
  {
  }

  /** From `a` to `b` the bytes off0..off of file i became src, and every other file kept its contents. */
  ghost predicate Spliced(a: Image, b: Image, i: nat, off0: nat, off: nat, src: seq<Byte>) {
    && |b.inodes| == |a.inodes| && off0 <= off && off - off0 <= |src|
    && (off > off0 ==> off0 <= |FileOf(a, i)| && FileOf(b, i) == Splice(FileOf(a, i), off0, src[..off - off0]))
    && (off == off0 ==> FileOf(b, i) == FileOf(a, i))
    && forall h :: 0 <= h < |a.inodes| && h != i ==> FileOf(b, h) == FileOf(a, h)
  }

  ghost predicate SplicedSoFar(a: Image, b: Image, i: nat, off0: nat, off: nat, src: seq<Byte>) {
    forall u {:trigger Unfold(SPLICED, u)} :: Unfold(SPLICED, u) ==> Spliced(a, b, i, off0, off, src)
  }

  lemma {:induction false} SplicedEnd(a: Image, b: Image, i: nat, off0: nat, off: nat, src: seq<Byte>)
    ensures SplicedSoFar(a, b, i, off0, off, src) <==> Spliced(a, b, i, off0, off, src)
  {
    assert Unfold(SPLICED, 0);
  }

  lemma {:induction false} SpliceChain(f: seq<Byte>, g: seq<Byte>, e: seq<Byte>, off0: nat, off: nat, src: seq<Byte>,
                                       data: seq<Byte>, r: nat)
    requires off0 <= off && off - off0 + |data| <= |src| && r <= |data|
    requires data == src[off - off0..off - off0 + |data|]
    requires off > off0 ==> off0 <= |f| && g == Splice(f, off0, src[..off - off0])
    requires off == off0 ==> g == f
    requires r > 0 ==> off <= |g| && e == Splice(g, off, data[..r])
    requires r == 0 ==> e == g
    ensures off + r > off0 ==> off0 <= |f| && e == Splice(f, off0, src[..off + r - off0])
    ensures off + r == off0 ==> e == f
  {
    if r > 0 && off > off0 {
      SpliceTwice(f, off0, src[..off - off0], data[..r]);
      assert src[..off - off0] + data[..r] == src[..off - off0 + r];
    } else if r > 0 {
      assert data[..r] == src[..r];
    }
  }

  /** Chunks of a write add up: `data` was offered at `off` and r bytes of it were written. */
  lemma {:induction false} SplicedTrans(a: Image, b: Image, c: Image, i: nat, off0: nat, off: nat, off': nat,
                                        src: seq<Byte>, data: seq<Byte>)
    requires SplicedSoFar(a, b, i, off0, off, src) && SplicedSoFar(b, c, i, off, off', data)
    requires off0 <= off <= off' && off - off0 + |data| <= |src| && off' - off <= |data|
    requires data == src[off - off0..off - off0 + |data|]
    ensures SplicedSoFar(a, c, i, off0, off', src)
  {
    var r := off' - off;
    assert Unfold(SPLICED, 0);
    SpliceChain(FileOf(a, i), FileOf(b, i), FileOf(c, i), off0, off, src, data, r);
  }

  lemma {:induction false} WroteSpliced(a: Image, b: Image, i: nat, off0: nat, tot: nat, src: seq<Byte>)
    requires |b.inodes| == |a.inodes| && tot <= |src| && off0 <= |FileOf(a, i)|
    requires FileOf(b, i) == Splice(FileOf(a, i), off0, src[..tot])
    requires forall h :: 0 <= h < |a.inodes| && h != i ==> FileOf(b, h) == FileOf(a, h)
    ensures Spliced(a, b, i, off0, off0 + tot, src)
  {
    SpliceNothing(FileOf(a, i), off0);
    assert src[..0] == [];
  }
}
