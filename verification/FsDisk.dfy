/**
  The file system as the log sees it: blocks of words.  An inode block holds sixteen
  inodes of sixteen words, of which the model knows the size and the block numbers;
  every other block holds its bytes, four to a word.
 */
module FsDisk {
  import opened Base
  import opened Bits
  import opened Fold
  import opened Fs
  import opened FsImage
  import Log

  const IWORDS: nat := 16   // sizeof(struct dinode) / sizeof(uint)

  // ------------------------------------------------------------ bytes and words

  function Nat(x: int): nat { if x < 0 then 0 else x }

  function ByteAt(w: Log.Block, k: nat): Byte
    requires k < BSIZE
  {
    Bytes(Nat(w[k / 4]), 4)[k % 4]
  }

  /** The bytes of a block of words. */
  function Unwords(w: Log.Block): (d: Block)
    ensures forall k :: 0 <= k < BSIZE ==> d[k] == ByteAt(w, k)
  {
    seq(BSIZE, k requires 0 <= k < BSIZE => ByteAt(w, k))
  }

  /** The bytes that were there before are there again. */
  lemma {:induction false} UnwordsBack(d: Block, w: Log.Block)
    requires forall j :: 0 <= j < Log.WORDS ==> w[j] == WordAt(d, j)
    ensures Unwords(w) == d
  {
    forall k | 0 <= k < BSIZE ensures ByteAt(w, k) == d[k] {
      var j := k / 4;
      assert w[j] == WordAt(d, j);
      NumberBytes(d[4 * j..4 * j + 4]);
      assert d[4 * j..4 * j + 4][k % 4] == d[k];
    }
  }

  // ------------------------------------------------------------------ the disk

  /** Word k of an inode on disk, from the third on. */
  function InodeWord(ip: Inode, k: nat): int {
    if k == 2 then ip.size else if 3 <= k < |ip.addrs| + 3 then ip.addrs[k - 3] else 0
  }

  /** Word j of block b is word j % IWORDS of this inode, if b is an inode block. */
  function InodeAt(sb: Super, b: nat, j: nat): nat {
    if b < sb.inodestart then 0 else (b - sb.inodestart) * IPB + j / IWORDS
  }

  function DiskWord(sb: Super, blocks: seq<Block>, inodes: seq<Inode>, b: nat, j: nat): int
    requires b < |blocks| && j < Log.WORDS
  {
    if sb.inodestart <= b < sb.bmapstart && InodeAt(sb, b, j) < |inodes| && j % IWORDS >= 2
    then InodeWord(inodes[InodeAt(sb, b, j)], j % IWORDS)
    else WordAt(blocks[b], j)
  }

  function DiskBlock(sb: Super, blocks: seq<Block>, inodes: seq<Inode>, b: nat): (w: Log.Block)
    requires b < |blocks|
    ensures forall j :: 0 <= j < Log.WORDS ==> w[j] == DiskWord(sb, blocks, inodes, b, j)
  {
    seq(Log.WORDS, j requires 0 <= j < Log.WORDS => DiskWord(sb, blocks, inodes, b, j))
  }

  /** The disk that holds these blocks and inodes. */
  function DiskOf(sb: Super, blocks: seq<Block>, inodes: seq<Inode>): (d: seq<Log.Block>)
    ensures |d| == |blocks| && forall b :: 0 <= b < |d| ==> d[b] == DiskBlock(sb, blocks, inodes, b)
  {
    seq(|blocks|, b requires 0 <= b < |blocks| => DiskBlock(sb, blocks, inodes, b))
  }

  /** Word k of inode h on disk. */
  function WordOn(sb: Super, d: seq<Log.Block>, h: nat, k: nat): nat
    requires IBlock(sb, h) < |d| && k < IWORDS
  {
    Nat(d[IBlock(sb, h)][IWORDS * (h % IPB) + k])
  }

  function AddrsOn(sb: Super, d: seq<Log.Block>, h: nat, n: nat): (addrs: seq<nat>)
    requires IBlock(sb, h) < |d| && n <= NDIRECT + 1
    ensures |addrs| == n && forall k :: 0 <= k < n ==> addrs[k] == WordOn(sb, d, h, 3 + k)
  {
    if n == 0 then [] else AddrsOn(sb, d, h, n - 1) + [WordOn(sb, d, h, 3 + (n - 1))]
  }

  /** What ilock reads: inode h on disk. */
  function InodeOn(sb: Super, d: seq<Log.Block>, h: nat): Inode
    requires IBlock(sb, h) < |d|
  {
    Inode(WordOn(sb, d, h, 2), AddrsOn(sb, d, h, NDIRECT + 1))
  }

  function BlocksOn(d: seq<Log.Block>): (blocks: seq<Block>)
    ensures |blocks| == |d| && forall b :: 0 <= b < |d| ==> blocks[b] == Unwords(d[b])
  {
    seq(|d|, b requires 0 <= b < |d| => Unwords(d[b]))
  }

  function InodesOn(sb: Super, d: seq<Log.Block>, n: nat): (inodes: seq<Inode>)
    requires forall h :: 0 <= h < n ==> IBlock(sb, h) < |d|
    ensures |inodes| == n && forall h :: 0 <= h < n ==> inodes[h] == InodeOn(sb, d, h)
  {
    if n == 0 then [] else InodesOn(sb, d, n - 1) + [InodeOn(sb, d, n - 1)]
  }

  /** The file system on disk d, its blocks as bytes and its inodes. */
  ghost function ImageOn(sb: Super, d: seq<Log.Block>, owner: map<nat, Slot>): (im: Image)
    requires forall h :: 0 <= h < sb.ninodes ==> IBlock(sb, h) < |d|
  {
    Image(BlocksOn(d), InodesOn(sb, d, sb.ninodes), owner)
  }

  // ------------------------------------------------------------- reading it back

  lemma {:induction false} InodePlace(sb: Super, h: nat, k: nat)
    requires GoodSuper(sb) && h < sb.ninodes && k < IWORDS
    ensures var b, j := IBlock(sb, h), IWORDS * (h % IPB) + k;
            && sb.inodestart <= b < sb.bmapstart && j < Log.WORDS && j % IWORDS == k && InodeAt(sb, b, j) == h
  {
    var j := IWORDS * (h % IPB) + k;
    IsRemainder(IWORDS, h % IPB, k, j);
    assert h == IPB * (h / IPB) + h % IPB;
  }

  lemma {:induction false} InodeBack(sb: Super, blocks: seq<Block>, inodes: seq<Inode>, h: nat)
    requires GoodSuper(sb) && |blocks| == sb.size && |inodes| == sb.ninodes && h < sb.ninodes
    requires |inodes[h].addrs| == NDIRECT + 1
    ensures IBlock(sb, h) < |blocks| && InodeOn(sb, DiskOf(sb, blocks, inodes), h) == inodes[h]
  {
    InodePlace(sb, h, 2);
    var d := DiskOf(sb, blocks, inodes);
    WordBack(sb, blocks, inodes, h, 2);
    forall k | 0 <= k <= NDIRECT ensures WordOn(sb, d, h, 3 + k) == inodes[h].addrs[k] {
      WordBack(sb, blocks, inodes, h, 3 + k);
    }
    assert AddrsOn(sb, d, h, NDIRECT + 1) == inodes[h].addrs;
  }

  lemma {:induction false} WordBack(sb: Super, blocks: seq<Block>, inodes: seq<Inode>, h: nat, k: nat)
    requires GoodSuper(sb) && |blocks| == sb.size && |inodes| == sb.ninodes && h < sb.ninodes && 2 <= k < IWORDS
    ensures IBlock(sb, h) < |blocks| && WordOn(sb, DiskOf(sb, blocks, inodes), h, k) == Nat(InodeWord(inodes[h], k))
  {
    InodePlace(sb, h, k);
    var b, j := IBlock(sb, h), IWORDS * (h % IPB) + k;
    assert DiskOf(sb, blocks, inodes)[b][j] == DiskWord(sb, blocks, inodes, b, j);
  }

  /** Disk d is one of image im: its inodes are there, and its blocks from the bitmap on. */
  ghost predicate Holds(sb: Super, d: seq<Log.Block>, im: Image) {
    && GoodSuper(sb) && |d| == sb.size == |im.blocks| && |im.inodes| == sb.ninodes
    && (forall h :: 0 <= h < sb.ninodes ==> IBlock(sb, h) < |d| && InodeOn(sb, d, h) == im.inodes[h])
    && (forall b :: sb.bmapstart <= b < sb.size ==> Unwords(d[b]) == im.blocks[b])
  }

  lemma {:induction false} DiskHolds(sb: Super, im: Image)
    requires Good(sb, im)
    ensures Holds(sb, DiskOf(sb, im.blocks, im.inodes), im)
  {
    GoodShape(sb, im);
    var d := DiskOf(sb, im.blocks, im.inodes);
    forall h | 0 <= h < sb.ninodes ensures IBlock(sb, h) < |d| && InodeOn(sb, d, h) == im.inodes[h] {
      InodeBack(sb, im.blocks, im.inodes, h);
    }
    forall b | sb.bmapstart <= b < sb.size ensures Unwords(d[b]) == im.blocks[b] {
      UnwordsBack(im.blocks[b], d[b]);
    }
  }

  /** The log area lies before the inode blocks, so equal home blocks hold the same file system. */
  lemma {:induction false} SameHomeHolds(sb: Super, start: int, d: seq<Log.Block>, e: seq<Log.Block>, im: Image)
    requires Log.SameHome(start, d, e) && Holds(sb, e, im) && 0 <= start && start + Log.LOGBLOCKS < sb.inodestart
    ensures Holds(sb, d, im)
  {
    assert forall b :: sb.inodestart <= b < sb.size ==> d[b] == e[b] by {
      assert Unfold(Log.HOME, 0);
      assert forall b :: sb.inodestart <= b < sb.size ==> Log.Home(start, |d|, b);
    }
  }

  // ---------------------------------------------------- a good image on the disk

  /** A good image is good whatever is in the blocks before the bitmap, and its files are the same. */
  lemma {:induction false} GoodFromBitmap(sb: Super, im: Image, c: Image)
    requires Good(sb, im) && |c.blocks| == |im.blocks| && c.inodes == im.inodes && c.owner == im.owner
    requires forall b :: sb.bmapstart <= b < |im.blocks| ==> c.blocks[b] == im.blocks[b]
    ensures Good(sb, c) && forall h :: FileOf(c, h) == FileOf(im, h)
  {
    GoodShape(sb, im);
    TableFromBitmap(sb, im, c);
    BitmapFrame(sb, im.blocks, c.blocks, im.owner);
    assert Good(sb, c) by { assert Unfold(GOOD, 0); }
    SameSlots(im, c);
    forall h: nat ensures FileOf(c, h) == FileOf(im, h) {
      FileFromBitmap(sb, im, c, h);
    }
  }

  lemma {:induction false} TableFromBitmap(sb: Super, im: Image, c: Image)
    requires Good(sb, im) && |c.blocks| == |im.blocks|
    requires forall b :: sb.bmapstart <= b < |im.blocks| ==> c.blocks[b] == im.blocks[b]
    ensures Sized(im.inodes) && Table(c.blocks, im.inodes) == Table(im.blocks, im.inodes)
  {
    GoodShape(sb, im);
    OwnedInRange(sb, Table(im.blocks, im.inodes), im.owner, 0, 0);
    SameTable(sb, im.blocks, c.blocks, im.inodes, im.owner, 0, 0);
  }

  lemma {:induction false} FileFromBitmap(sb: Super, im: Image, c: Image, h: nat)
    requires Good(sb, im) && |c.blocks| == |im.blocks| && c.inodes == im.inodes
    requires forall b :: sb.bmapstart <= b < |im.blocks| ==> c.blocks[b] == im.blocks[b]
    requires forall g, k :: SlotAt(c, g, k) == SlotAt(im, g, k)
    ensures FileOf(c, h) == FileOf(im, h)
  {
    GoodShape(sb, im);
    FileIs(im, h);
    FileIs(c, h);
    forall p: nat ensures ByteOf(c, h, p) == ByteOf(im, h, p) {
      if p < MAXFILE * BSIZE && SlotAt(im, h, SlotOf(p / BSIZE)) != 0 {
        SlotBlock(sb, im, h, SlotOf(p / BSIZE));
      }
    }
    assert Contents(c, h) == Contents(im, h);
  }

  /** A disk that holds a good image is a good image itself, with the same files. */
  lemma {:induction false} HoldsGood(sb: Super, d: seq<Log.Block>, im: Image)
    requires Good(sb, im) && Holds(sb, d, im)
    ensures Good(sb, ImageOn(sb, d, im.owner)) && forall h :: FileOf(ImageOn(sb, d, im.owner), h) == FileOf(im, h)
  {
    var c := ImageOn(sb, d, im.owner);
    assert c.inodes == im.inodes;
    GoodFromBitmap(sb, im, c);
  }
}
