/**
  Exactly what a write puts into the log.  balloc takes the lowest free block, so
  which blocks and bitmap blocks a write will log can be told from the image before
  it: `ExactCost` counts them, and `Worst` is when there are ten.
 */
module FsBudget {
  import opened Bits
  import opened Fold
  import opened Fs
  import opened FsImage

  // tag of a folded definition
  const EXACT := 19

  // ---------------------------------------------------- the lowest free blocks

  function FirstFree(sb: Super, keys: set<nat>, from: nat): (r: nat)
    requires from > 0
    ensures r == 0 ==> forall b :: from <= b < sb.size ==> b in keys
    ensures r != 0 ==> from <= r < sb.size && r !in keys && forall b :: from <= b < r ==> b in keys
    decreases sb.size - from
  {
    if from >= sb.size then 0 else if from !in keys then from else FirstFree(sb, keys, from + 1)
  }

  /** The block that balloc finds when `keys` are in use; 0 if there is none. */
  function NextFree(sb: Super, keys: set<nat>): nat {
    if sb.datastart > 0 then FirstFree(sb, keys, sb.datastart) else 0
  }

  lemma {:induction false} NextFreeIs(sb: Super, keys: set<nat>, r: nat)
    requires 0 < sb.datastart
    requires r == 0 ==> forall b :: sb.datastart <= b < sb.size ==> b in keys
    requires r != 0 ==> sb.datastart <= r < sb.size && r !in keys && forall b :: sb.datastart <= b < r ==> b in keys
    ensures NextFree(sb, keys) == r
  {
    var f := FirstFree(sb, keys, sb.datastart);
    if f != 0 && r != 0 {
      assert !(f < r) && !(r < f);
    }
  }

  /** The blocks in use after n more allocations. */
  ghost function Taken(sb: Super, keys: set<nat>, n: nat): set<nat> {
    if n == 0 then keys else Taken(sb, keys, n - 1) + Opt(NextFree(sb, Taken(sb, keys, n - 1)))
  }

  /** The n lowest free blocks, or all there are. */
  ghost function Lowest(sb: Super, keys: set<nat>, n: nat): set<nat> { Taken(sb, keys, n) - keys }

  lemma {:induction false} TakenOne(sb: Super, keys: set<nat>)
    ensures Taken(sb, keys, 0) == keys && Taken(sb, keys, 1) == keys + Opt(NextFree(sb, keys))
  {
    assert Taken(sb, keys, 0) == keys;
  }

  lemma {:induction false} TakenMore(sb: Super, keys: set<nat>, m: nat, n: nat, s: nat)
    requires s == m + n
    ensures Taken(sb, Taken(sb, keys, m), n) == Taken(sb, keys, s)
  {
    if n > 0 {
      TakenMore(sb, keys, m, n - 1, s - 1);
    }
  }

  lemma {:induction false} CardMinus(keys: set<nat>, t: set<nat>, o: set<nat>)
    ensures |(t + o) - keys| <= |t - keys| + |o|
  {
    assert (t + o) - keys == (t - keys) + (o - keys);
    CardUnion(t - keys, o - keys);
    CardLe(o - keys, o);
  }

  lemma {:induction false} TakenKeeps(sb: Super, keys: set<nat>, n: nat)
    ensures keys <= Taken(sb, keys, n)
  {
    if n > 0 {
      TakenKeeps(sb, keys, n - 1);
    }
  }

  lemma {:induction false} TakenCount(sb: Super, keys: set<nat>, n: nat)
    ensures |Taken(sb, keys, n) - keys| <= n
  {
    if n > 0 {
      TakenCount(sb, keys, n - 1);
      var t := Taken(sb, keys, n - 1);
      var f := NextFree(sb, t);
      assert Taken(sb, keys, n) == t + Opt(f);
      CardMinus(keys, t, Opt(f));
    }
  }

  // -------------------------------------------------- what a write will need

  /** How many blocks of a file the bytes off..off+n touch, none if there are no bytes. */
  function Touches(off: nat, n: nat): nat { if n == 0 then 0 else Spanned(off, n) }

  /** How many of cnt blocks of file i from `first` on are not there yet. */
  ghost function Fresh(im: Image, i: nat, first: nat, cnt: nat): nat
    requires first + cnt <= MAXFILE
  {
    if cnt == 0 then 0
    else Fresh(im, i, first, cnt - 1) + if SlotAt(im, i, SlotOf(first + cnt - 1)) == 0 then 1 else 0
  }

  /** One of them is an entry of the indirect block. */
  ghost predicate NeedsIndirect(im: Image, i: nat, first: nat, cnt: nat)
    requires first + cnt <= MAXFILE
  {
    exists bn :: first <= bn < first + cnt && NDIRECT <= bn && SlotAt(im, i, SlotOf(bn)) == 0
  }

  /** How many blocks bmap allocates for block bn. */
  ghost function AllocsAt(im: Image, i: nat, bn: nat): nat
    requires bn < MAXFILE
  {
    if SlotAt(im, i, SlotOf(bn)) != 0 then 0 else if NDIRECT <= bn && SlotAt(im, i, NDIRECT) == 0 then 2 else 1
  }

  /** How many blocks a write allocates. */
  ghost function Allocs(im: Image, i: nat, first: nat, cnt: nat): nat
    requires first + cnt <= MAXFILE
  {
    Fresh(im, i, first, cnt) + if NeedsIndirect(im, i, first, cnt) && SlotAt(im, i, NDIRECT) == 0 then 1 else 0
  }

  ghost function NewBlocks(sb: Super, im: Image, i: nat, first: nat, cnt: nat): set<nat>
    requires first + cnt <= MAXFILE
  {
    Lowest(sb, im.owner.Keys, Allocs(im, i, first, cnt))
  }

  /** The blocks that a write of n bytes at `off` logs: the file's blocks it touches, the indirect block if it
      gets an entry, the bitmap blocks of the allocated blocks, and the inode's block. */
  ghost function ExactCost(sb: Super, im: Image, i: nat, off: nat, n: nat): nat
    requires off + n <= MAXFILE * BSIZE
  {
    TouchesFits(off, n);
    var first, cnt := off / BSIZE, Touches(off, n);
    cnt + (if NeedsIndirect(im, i, first, cnt) then 1 else 0) + |BitmapBlocks(sb, NewBlocks(sb, im, i, first, cnt))| + 1
  }

  lemma {:induction false} TouchesFits(off: nat, n: nat)
    requires off + n <= MAXFILE * BSIZE
    ensures off / BSIZE + Touches(off, n) <= MAXFILE
  {
    if n > 0 {
      assert (off + n - 1) / BSIZE < MAXFILE;
    } else {
      assert off / BSIZE <= MAXFILE;
    }
  }

  // --------------------------------------------------------- during the write

  /** The blocks of the file that a write has touched. */
  ghost function DataOf(im: Image, i: nat, first: nat, cnt: nat): set<nat>
    requires first + cnt <= MAXFILE
  {
    set bn | first <= bn < first + cnt :: SlotAt(im, i, SlotOf(bn))
  }

  ghost function SlotsOf(first: nat, cnt: nat): set<nat>
    requires first + cnt <= MAXFILE
  {
    (set bn | first <= bn < first + cnt :: SlotOf(bn)) + {NDIRECT}
  }

  ghost function IndirectOf(a: Image, b: Image, i: nat, first: nat, cnt: nat): set<nat>
    requires first + cnt <= MAXFILE
  {
    if NeedsIndirect(a, i, first, cnt) then {SlotAt(b, i, NDIRECT)} else {}
  }

  /** On the way from `a` to `b` a write has gone through cnt blocks of file i, and logged exactly this. */
  ghost predicate Exact(sb: Super, l0: set<nat>, a: Image, l: set<nat>, b: Image, i: nat, first: nat, cnt: nat) {
    forall u {:trigger Unfold(EXACT, u)} :: Unfold(EXACT, u) ==>
      && Good(sb, a) && Good(sb, b) && first + cnt <= MAXFILE
      && b.owner.Keys == Taken(sb, a.owner.Keys, Allocs(a, i, first, cnt))
      && SlotsKept(a, b) && OnlySlots(a, b, i, SlotsOf(first, cnt))
      && (forall bn :: first <= bn < first + cnt ==> SlotAt(b, i, SlotOf(bn)) != 0)
      && (SlotAt(b, i, NDIRECT) != 0 <==> SlotAt(a, i, NDIRECT) != 0 || NeedsIndirect(a, i, first, cnt))
      && l == l0 + AllocLog(sb, b.owner.Keys - a.owner.Keys) + DataOf(b, i, first, cnt)
              + IndirectOf(a, b, i, first, cnt)
  }

  lemma {:induction false} ExactNothing(sb: Super, l0: set<nat>, a: Image, i: nat, first: nat)
    requires Good(sb, a) && first <= MAXFILE
    ensures Exact(sb, l0, a, l0, a, i, first, 0)
  {
    assert a.owner.Keys - a.owner.Keys == {};
  }

  lemma {:induction false} NeedsMore(a: Image, i: nat, first: nat, cnt: nat, bn: nat)
    requires bn == first + cnt < MAXFILE
    ensures NeedsIndirect(a, i, first, cnt + 1) <==>
              NeedsIndirect(a, i, first, cnt) || (NDIRECT <= bn && SlotAt(a, i, SlotOf(bn)) == 0)
  {
    if NeedsIndirect(a, i, first, cnt + 1) {
      var b :| first <= b < first + cnt + 1 && NDIRECT <= b && SlotAt(a, i, SlotOf(b)) == 0;
      assert b == bn || (first <= b < first + cnt);
    }
  }

  lemma {:induction false} AllocsMore(a: Image, b: Image, i: nat, first: nat, cnt: nat, bn: nat)
    requires bn == first + cnt < MAXFILE && SlotAt(b, i, SlotOf(bn)) == SlotAt(a, i, SlotOf(bn))
    requires SlotAt(b, i, NDIRECT) != 0 <==> SlotAt(a, i, NDIRECT) != 0 || NeedsIndirect(a, i, first, cnt)
    ensures Allocs(a, i, first, cnt + 1) == Allocs(a, i, first, cnt) + AllocsAt(b, i, bn)
  {
    NeedsMore(a, i, first, cnt, bn);
  }

  lemma {:induction false} DataMore(b: Image, c: Image, i: nat, first: nat, cnt: nat, bn: nat)
    requires bn == first + cnt < MAXFILE && SlotsKept(b, c)
    requires forall k :: first <= k < first + cnt ==> SlotAt(b, i, SlotOf(k)) != 0
    ensures DataOf(c, i, first, cnt + 1) == DataOf(b, i, first, cnt) + {SlotAt(c, i, SlotOf(bn))}
  {
    forall k | first <= k < first + cnt ensures SlotAt(c, i, SlotOf(k)) == SlotAt(b, i, SlotOf(k)) {
      assert SlotAt(b, i, SlotOf(k)) != 0;
    }
    var more := DataOf(c, i, first, cnt + 1);
    forall x | x in more ensures x in DataOf(b, i, first, cnt) + {SlotAt(c, i, SlotOf(bn))} {
      var k :| first <= k < first + cnt + 1 && x == SlotAt(c, i, SlotOf(k));
      if k < bn {
        assert x == SlotAt(b, i, SlotOf(k));
      }
    }
    forall x | x in DataOf(b, i, first, cnt) ensures x in more {
      var k :| first <= k < first + cnt && x == SlotAt(b, i, SlotOf(k));
      assert x == SlotAt(c, i, SlotOf(k));
    }
    assert SlotAt(c, i, SlotOf(bn)) in more;
  }

  lemma {:induction false} SlotsMore(first: nat, cnt: nat, bn: nat)
    requires bn == first + cnt < MAXFILE
    ensures SlotsOf(first, cnt + 1) == SlotsOf(first, cnt) + {SlotOf(bn), NDIRECT} && SlotOf(bn) !in SlotsOf(first, cnt)
  {
    forall k | first <= k < first + cnt ensures SlotOf(k) in SlotsOf(first, cnt) && SlotOf(k) != SlotOf(bn) {
    }
    forall x | x in SlotsOf(first, cnt + 1) ensures x in SlotsOf(first, cnt) + {SlotOf(bn), NDIRECT} {
      if x != NDIRECT {
        var k :| first <= k < first + cnt + 1 && x == SlotOf(k);
        assert k == bn || SlotOf(k) in SlotsOf(first, cnt);
      }
    }
    assert SlotOf(bn) in SlotsOf(first, cnt + 1);
  }

  lemma {:induction false} LogMore(sb: Super, l0: set<nat>, ka: set<nat>, kb: set<nat>, kc: set<nat>, d: set<nat>,
                                   e: set<nat>, f: set<nat>, x: nat)
    requires ka <= kb <= kc
    ensures l0 + AllocLog(sb, kb - ka) + d + e + AllocLog(sb, kc - kb) + f + {x} ==
            l0 + AllocLog(sb, kc - ka) + (d + {x}) + (e + f)
  {
    assert kc - ka == (kb - ka) + (kc - kb);
  }

  /** bmap of the next block, and log_write of the block it found. */
  lemma {:induction false} ExactBmap(sb: Super, l0: set<nat>, a: Image, l: set<nat>, b: Image, l': set<nat>, c: Image,
                                     i: nat, first: nat, cnt: nat, bn: nat, addr: nat, extra: set<nat>, cnt': nat)
    requires Exact(sb, l0, a, l, b, i, first, cnt) && bn == first + cnt < MAXFILE && cnt' == cnt + 1
    requires Grew(sb, b, c, i, {SlotOf(bn), NDIRECT}) && addr == SlotAt(c, i, SlotOf(bn)) != 0
    requires c.owner.Keys == Taken(sb, b.owner.Keys, AllocsAt(b, i, bn)) && Logs(sb, l, b, l', c, extra)
    requires bn < NDIRECT ==> SlotAt(c, i, NDIRECT) == SlotAt(b, i, NDIRECT)
    requires bn >= NDIRECT ==> SlotAt(c, i, NDIRECT) != 0
    requires bn >= NDIRECT && SlotAt(b, i, SlotOf(bn)) != 0 ==> c == b
    requires extra == if bn >= NDIRECT && addr != SlotAt(b, i, SlotOf(bn)) then {SlotAt(c, i, NDIRECT)} else {}
    ensures Exact(sb, l0, a, l' + {addr}, c, i, first, cnt')
  {
    SlotsMore(first, cnt, bn);
    NeedsMore(a, i, first, cnt, bn);
    GrewShape(sb, b, c, i, {SlotOf(bn), NDIRECT});
    assert SlotsKept(b, c) && OnlySlots(b, c, i, {SlotOf(bn), NDIRECT}) by { assert Unfold(GREW, 0); }
    assert Good(sb, a) && SlotsKept(a, b) && OnlySlots(a, b, i, SlotsOf(first, cnt)) by { assert Unfold(EXACT, 0); }
    assert SlotAt(b, i, SlotOf(bn)) == SlotAt(a, i, SlotOf(bn));
    ExactOwners(sb, l0, a, l, b, c, i, first, cnt, bn);
    ExactLog(sb, l0, a, l, b, l', c, i, first, cnt, bn, addr, extra);
    assert SlotsKept(a, c);
    assert OnlySlots(a, c, i, SlotsOf(first, cnt'));
    forall k | first <= k < first + cnt' ensures SlotAt(c, i, SlotOf(k)) != 0 {
      if k < bn {
        assert SlotAt(b, i, SlotOf(k)) != 0 by { assert Unfold(EXACT, 0); }
      }
    }
    assert SlotAt(b, i, NDIRECT) != 0 <==>
             SlotAt(a, i, NDIRECT) != 0 || NeedsIndirect(a, i, first, cnt) by { assert Unfold(EXACT, 0); }
  }

  lemma {:induction false} ExactOwners(sb: Super, l0: set<nat>, a: Image, l: set<nat>, b: Image, c: Image, i: nat,
                                       first: nat, cnt: nat, bn: nat)
    requires Exact(sb, l0, a, l, b, i, first, cnt) && bn == first + cnt < MAXFILE
    requires SlotAt(b, i, SlotOf(bn)) == SlotAt(a, i, SlotOf(bn))
    requires c.owner.Keys == Taken(sb, b.owner.Keys, AllocsAt(b, i, bn))
    ensures c.owner.Keys == Taken(sb, a.owner.Keys, Allocs(a, i, first, cnt + 1))
    ensures a.owner.Keys <= b.owner.Keys <= c.owner.Keys
  {
    var n, k, s := Allocs(a, i, first, cnt), AllocsAt(b, i, bn), Allocs(a, i, first, cnt + 1);
    assert b.owner.Keys == Taken(sb, a.owner.Keys, n) by { assert Unfold(EXACT, 0); }
    assert s == n + k by {
      assert Unfold(EXACT, 0);
      AllocsMore(a, b, i, first, cnt, bn);
    }
    TakenMore(sb, a.owner.Keys, n, k, s);
    TakenKeeps(sb, a.owner.Keys, n);
    TakenKeeps(sb, b.owner.Keys, k);
  }

  lemma {:induction false} ExactLog(sb: Super, l0: set<nat>, a: Image, l: set<nat>, b: Image, l': set<nat>, c: Image,
                                    i: nat, first: nat, cnt: nat, bn: nat, addr: nat, extra: set<nat>)
    requires Exact(sb, l0, a, l, b, i, first, cnt) && bn == first + cnt < MAXFILE && SlotsKept(b, c)
    requires a.owner.Keys <= b.owner.Keys <= c.owner.Keys && Logs(sb, l, b, l', c, extra)
             && addr == SlotAt(c, i, SlotOf(bn)) != 0
    requires SlotAt(b, i, SlotOf(bn)) == SlotAt(a, i, SlotOf(bn))
    requires extra == if bn >= NDIRECT && addr != SlotAt(b, i, SlotOf(bn)) then {SlotAt(c, i, NDIRECT)} else {}
    ensures l' + {addr} ==
            l0 + AllocLog(sb, c.owner.Keys - a.owner.Keys) + DataOf(c, i, first, cnt + 1)
              + IndirectOf(a, c, i, first, cnt + 1)
  {
    var d, e := DataOf(b, i, first, cnt), IndirectOf(a, b, i, first, cnt);
    assert l == l0 + AllocLog(sb, b.owner.Keys - a.owner.Keys) + d + e by { assert Unfold(EXACT, 0); }
    assert l' == l + AllocLog(sb, c.owner.Keys - b.owner.Keys) + extra by { assert Unfold(LOGGED, 0); }
    assert (forall k :: first <= k < first + cnt ==> SlotAt(b, i, SlotOf(k)) != 0)
        && (SlotAt(b, i, NDIRECT) != 0 <==> SlotAt(a, i, NDIRECT) != 0 || NeedsIndirect(a, i, first, cnt))
    by { assert Unfold(EXACT, 0); }
    DataMore(b, c, i, first, cnt, bn);
    NeedsMore(a, i, first, cnt, bn);
    assert IndirectOf(a, c, i, first, cnt + 1) == e + extra;
    LogMore(sb, l0, a.owner.Keys, b.owner.Keys, c.owner.Keys, d, e, extra, addr);
  }

  /** Copying bytes into a block changes no slot. */
  lemma {:induction false} ExactStored(sb: Super, l0: set<nat>, a: Image, l: set<nat>, b: Image, c: Image, i: nat,
                                       first: nat, cnt: nat)
    requires Exact(sb, l0, a, l, b, i, first, cnt) && Good(sb, c) && c.owner == b.owner
    requires forall h, k :: SlotAt(c, h, k) == SlotAt(b, h, k)
    ensures Exact(sb, l0, a, l, c, i, first, cnt)
  {
    assert Unfold(EXACT, 0);
    assert DataOf(c, i, first, cnt) == DataOf(b, i, first, cnt);
  }

  // ------------------------------------------------------------ after the write

  lemma {:induction false} DataCard(sb: Super, b: Image, i: nat, first: nat, cnt: nat)
    requires Good(sb, b) && first + cnt <= MAXFILE
             && forall k :: first <= k < first + cnt ==> SlotAt(b, i, SlotOf(k)) != 0
    ensures |DataOf(b, i, first, cnt)| == cnt
  {
    if cnt > 0 {
      var d, x := DataOf(b, i, first, cnt - 1), SlotAt(b, i, SlotOf(first + cnt - 1));
      DataCard(sb, b, i, first, cnt - 1);
      DataMore(b, b, i, first, cnt - 1, first + cnt - 1);
      SlotBlock(sb, b, i, SlotOf(first + cnt - 1));
      forall y | y in d ensures y != x {
        var k :| first <= k < first + cnt - 1 && y == SlotAt(b, i, SlotOf(k));
        SlotBlock(sb, b, i, SlotOf(k));
      }
    } else {
      assert DataOf(b, i, first, cnt) == {};
    }
  }

  /** Every new block is one of the touched blocks, or the indirect block. */
  lemma {:induction false} NewInside(sb: Super, l0: set<nat>, a: Image, l: set<nat>, b: Image, i: nat, first: nat,
                                     cnt: nat, x: nat)
    requires Exact(sb, l0, a, l, b, i, first, cnt) && first + cnt <= MAXFILE && x in b.owner.Keys - a.owner.Keys
    ensures x in DataOf(b, i, first, cnt) + IndirectOf(a, b, i, first, cnt)
  {
    assert Unfold(EXACT, 0);
    OwnerSlot(sb, b, x);
    var h, k := b.owner[x].inum, b.owner[x].k;
    if SlotAt(a, h, k) != 0 {
      SlotBlock(sb, a, h, k);
    } else {
      assert h == i && k in SlotsOf(first, cnt);
      if k != NDIRECT {
        var bn :| first <= bn < first + cnt && k == SlotOf(bn);
        assert x == SlotAt(b, i, SlotOf(bn));
      }
    }
  }

  lemma {:induction false} CardApart(a: set<nat>, b: set<nat>)
    requires a !! b
    ensures |a + b| == |a| + |b|
  {
  }

  predicate Within(s: set<nat>, lo: nat, hi: nat) { forall x :: x in s ==> lo <= x < hi }

  /** Inode blocks, bitmap blocks and data blocks are different blocks. */
  lemma {:induction false} CardOfLog(d: set<nat>, e: set<nat>, bits: set<nat>, ib: nat, bmapstart: nat,
                                     datastart: nat, size: nat)
    requires Within(d, datastart, size) && Within(e, datastart, size) && Within(bits, bmapstart, datastart)
             && ib < bmapstart <= datastart
    requires d !! e
    ensures |d + e + bits + {ib}| == |d| + |e| + |bits| + 1
  {
    CardApart(d, e);
    CardApart(d + e, bits);
    CardApart(d + e + bits, {ib});
  }

  lemma {:induction false} DataWithin(sb: Super, b: Image, i: nat, first: nat, cnt: nat)
    requires Good(sb, b) && first + cnt <= MAXFILE
             && forall k :: first <= k < first + cnt ==> SlotAt(b, i, SlotOf(k)) != 0
    ensures Within(DataOf(b, i, first, cnt), sb.datastart, sb.size)
            && SlotAt(b, i, NDIRECT) !in DataOf(b, i, first, cnt)
    ensures SlotAt(b, i, NDIRECT) != 0 ==> sb.datastart <= SlotAt(b, i, NDIRECT) < sb.size
  {
    GoodShape(sb, b);
    if SlotAt(b, i, NDIRECT) != 0 {
      SlotBlock(sb, b, i, NDIRECT);
    }
    forall x | x in DataOf(b, i, first, cnt) ensures sb.datastart <= x < sb.size && x != SlotAt(b, i, NDIRECT) {
      var k :| first <= k < first + cnt && x == SlotAt(b, i, SlotOf(k));
      SlotBlock(sb, b, i, SlotOf(k));
    }
  }

  lemma {:induction false} IBlockWithin(sb: Super, i: nat)
    requires GoodSuper(sb) && i < sb.ninodes
    ensures IBlock(sb, i) < sb.bmapstart <= sb.datastart
  {
  }

  lemma {:induction false} BBlockWithin(sb: Super, x: nat)
    requires GoodSuper(sb) && x < sb.size
    ensures sb.bmapstart <= BBlock(sb, x) < sb.datastart
  {
  }

  lemma {:induction false} BitsWithin(sb: Super, got: set<nat>)
    requires GoodSuper(sb) && Within(got, sb.datastart, sb.size)
    ensures Within(BitmapBlocks(sb, got), sb.bmapstart, sb.datastart)
  {
    forall x | x in got ensures sb.bmapstart <= BBlock(sb, x) < sb.datastart {
      BBlockWithin(sb, x);
    }
  }

  lemma {:induction false} SameLog(sb: Super, got: set<nat>, d: set<nat>, e: set<nat>)
    requires got <= d + e
    ensures {} + AllocLog(sb, got) + d + e == d + e + BitmapBlocks(sb, got)
  {
  }

  /** The log of a write that went through all its blocks, counted. */
  lemma {:induction false} ExactTotal(sb: Super, a: Image, l: set<nat>, b: Image, i: nat, first: nat, cnt: nat)
    requires Exact(sb, {}, a, l, b, i, first, cnt) && i < |a.inodes| && first + cnt <= MAXFILE
    ensures |l + {IBlock(sb, i)}| ==
            cnt + (if NeedsIndirect(a, i, first, cnt) then 1 else 0)
              + |BitmapBlocks(sb, NewBlocks(sb, a, i, first, cnt))| + 1
  {
    var d, e, got := DataOf(b, i, first, cnt), IndirectOf(a, b, i, first, cnt), NewBlocks(sb, a, i, first, cnt);
    var bits := BitmapBlocks(sb, got);
    assert got == b.owner.Keys - a.owner.Keys && l == {} + AllocLog(sb, got) + d + e by { assert Unfold(EXACT, 0); }
    assert Good(sb, a) && Good(sb, b) && (forall k :: first <= k < first + cnt ==> SlotAt(b, i, SlotOf(k)) != 0)
        && (NeedsIndirect(a, i, first, cnt) ==> SlotAt(b, i, NDIRECT) != 0) by { assert Unfold(EXACT, 0); }
    GoodShape(sb, a);
    forall x | x in got ensures x in d + e {
      NewInside(sb, {}, a, l, b, i, first, cnt, x);
    }
    DataWithin(sb, b, i, first, cnt);
    assert Within(e, sb.datastart, sb.size) && d !! e;
    BitsWithin(sb, got);
    SameLog(sb, got, d, e);
    DataCard(sb, b, i, first, cnt);
    IBlockWithin(sb, i);
    CardOfLog(d, e, bits, IBlock(sb, i), sb.bmapstart, sb.datastart, sb.size);
  }

  // -------------------------------------------------------------- ten blocks

  ghost predicate Apart(sb: Super, got: set<nat>) {
    forall f, g :: f in got && g in got && f != g ==> BBlock(sb, f) != BBlock(sb, g)
  }

  /** There are four free blocks, and the four lowest have their bits in four different bitmap blocks. */
  ghost predicate FourApart(sb: Super, keys: set<nat>) { |Lowest(sb, keys, 4)| == 4 && Apart(sb, Lowest(sb, keys, 4)) }

  /** A write at `off` of n bytes starts in the middle of block 9, 10 or 11, counting from 0, of a file
      that has none after it and no indirect block, reaches three blocks further, and will find its four
      new blocks in the range of four different bitmap blocks. */
  ghost predicate Worst(sb: Super, im: Image, i: nat, off: nat, n: nat) {
    && off % BSIZE != 0 && n > 0 && (off + n - 1) / BSIZE == off / BSIZE + 3
    && NDIRECT - 3 <= off / BSIZE && SlotAt(im, i, NDIRECT) == 0
    && (forall k :: off / BSIZE < k < NDIRECT ==> SlotAt(im, i, k) == 0)
    && FourApart(sb, im.owner.Keys)
  }

  /** Bitmap blocks are as many as the blocks they stand for exactly if no two of these share one. */
  lemma {:induction false} BitmapsApart(sb: Super, got: set<nat>)
    ensures |BitmapBlocks(sb, got)| <= |got|
    ensures |BitmapBlocks(sb, got)| == |got| <==> Apart(sb, got)
  {
    if got != {} {
      var b :| b in got;
      var rest := got - {b};
      BitmapsApart(sb, rest);
      BitmapsSplit(sb, got, b);
      if BBlock(sb, b) in BitmapBlocks(sb, rest) {
        var c :| c in rest && BBlock(sb, c) == BBlock(sb, b);
        assert !Apart(sb, got);
      } else {
        forall f, g | f in got && g in got && f != g && Apart(sb, rest) ensures BBlock(sb, f) != BBlock(sb, g) {
          assert f == b || f in rest;
          assert g == b || g in rest;
        }
        assert Apart(sb, got) ==> Apart(sb, rest);
      }
    }
  }

  lemma {:induction false} BitmapsSplit(sb: Super, got: set<nat>, b: nat)
    requires b in got
    ensures BitmapBlocks(sb, got) == BitmapBlocks(sb, got - {b}) + {BBlock(sb, b)} && |got| == |got - {b}| + 1
    ensures |BitmapBlocks(sb, got)| ==
            |BitmapBlocks(sb, got - {b})| + (if BBlock(sb, b) in BitmapBlocks(sb, got - {b}) then 0 else 1)
  {
    var r := BitmapBlocks(sb, got - {b});
    assert got == (got - {b}) + {b};
    assert BitmapBlocks(sb, got) == r + {BBlock(sb, b)};
    if BBlock(sb, b) in r {
      assert r + {BBlock(sb, b)} == r;
    }
  }

  /** Four allocations log four bitmap blocks exactly when the four lowest free blocks are apart. */
  lemma {:induction false} FourBitmaps(sb: Super, keys: set<nat>)
    ensures |BitmapBlocks(sb, Lowest(sb, keys, 4))| == 4 <==> FourApart(sb, keys)
  {
    BitmapsApart(sb, Lowest(sb, keys, 4));
    TakenCount(sb, keys, 4);
  }

  lemma {:induction false} NoEntry(sb: Super, im: Image, i: nat, bn: nat)
    requires Good(sb, im) && i < |im.inodes| && NDIRECT <= bn < MAXFILE && SlotAt(im, i, NDIRECT) == 0
    ensures SlotAt(im, i, SlotOf(bn)) == 0
  {
    GoodShape(sb, im);
    SlotAtIs(im, i, NDIRECT);
    SlotAtIs(im, i, SlotOf(bn));
  }

  lemma {:induction false} FreshBound(im: Image, i: nat, first: nat, cnt: nat)
    requires first + cnt <= MAXFILE
    ensures Fresh(im, i, first, cnt) <= cnt
    ensures cnt > 0 && SlotAt(im, i, SlotOf(first)) != 0 ==>
              (Fresh(im, i, first, cnt) <= cnt - 1 &&
               (Fresh(im, i, first, cnt) == cnt - 1 <==>
                  forall bn :: first < bn < first + cnt ==> SlotAt(im, i, SlotOf(bn)) == 0))
  {
    if cnt > 0 {
      var bn := first + cnt - 1;
      FreshBound(im, i, first, cnt - 1);
    }
  }

  /** Where a write stands, and how many blocks it has touched when it is done. */
  lemma {:induction false} FrugalAt(acc: Account, off0: nat, off: nat, n: nat, m: nat)
    requires Frugal(acc, off0, off) && off0 <= off && n > 0 && m > 0 && off % BSIZE + m <= BSIZE
    ensures off / BSIZE == off0 / BSIZE + acc.cnt
    ensures off + m == off0 + n ==> Touches(off0, n) == acc.cnt + 1
  {
    assert Unfold(FRUGAL, 0);
    if off + m == off0 + n {
      SameBlock(off, m - 1);
    }
  }

  lemma {:induction false} ChunkTouches(off: nat, n: nat)
    requires 0 < n <= CHUNK
    ensures 1 <= Touches(off, n) <= 4 && (Touches(off, n) == 4 ==> off % BSIZE != 0)
    ensures Touches(off, n) == 4 <==> (off + n - 1) / BSIZE == off / BSIZE + 3
  {
    assert (off + n - 1) / BSIZE <= off / BSIZE + 3;
  }

  lemma {:induction false} NewBitmaps(sb: Super, im: Image, i: nat, first: nat, cnt: nat)
    requires first + cnt <= MAXFILE
    ensures |BitmapBlocks(sb, NewBlocks(sb, im, i, first, cnt))| <= Allocs(im, i, first, cnt)
  {
    BitmapsApart(sb, NewBlocks(sb, im, i, first, cnt));
    TakenCount(sb, im.owner.Keys, Allocs(im, i, first, cnt));
  }

  /** The write budget is tight.  A chunk at any offset of any file of any good image logs at most ten
      blocks, and ten exactly in the worst case. */
  lemma {:induction false} ChunkCostsTen(sb: Super, im: Image, i: nat, off: nat, n: nat)
    requires Good(sb, im) && i < |im.inodes| && off <= im.inodes[i].size && 0 < n <= CHUNK && off + n <= MAXFILE * BSIZE
    ensures ExactCost(sb, im, i, off, n) <= 10
    ensures ExactCost(sb, im, i, off, n) == 10 <==> Worst(sb, im, i, off, n)
  {
    var first, cnt := off / BSIZE, Touches(off, n);
    TouchesFits(off, n);
    ChunkTouches(off, n);
    FreshBound(im, i, first, cnt);
    NewBitmaps(sb, im, i, first, cnt);
    if cnt == 4 {
      FirstMapped(sb, im, i, off);
      FourCost(sb, im, i, off, n, first);
    }
  }

  /** Four blocks, the first of them mapped: ten exactly if all the others and the indirect block are new. */
  lemma {:induction false} FourCost(sb: Super, im: Image, i: nat, off: nat, n: nat, first: nat)
    requires Good(sb, im) && i < |im.inodes| && first == off / BSIZE && first + 4 <= MAXFILE && off % BSIZE != 0
             && n > 0
    requires Touches(off, n) == 4 && SlotAt(im, i, SlotOf(first)) != 0 && (off + n - 1) / BSIZE == first + 3
    ensures Worst(sb, im, i, off, n) <==>
            NeedsIndirect(im, i, first, 4) && |BitmapBlocks(sb, NewBlocks(sb, im, i, first, 4))| == 4
  {
    FreshBound(im, i, first, 4);
    NewBitmaps(sb, im, i, first, 4);
    FourBitmaps(sb, im.owner.Keys);
    if NeedsIndirect(im, i, first, 4) && |BitmapBlocks(sb, NewBlocks(sb, im, i, first, 4))| == 4 {
      assert Allocs(im, i, first, 4) == 4;
      forall k | off / BSIZE < k < NDIRECT ensures SlotAt(im, i, k) == 0 {
        assert SlotOf(k) == k;
      }
    }
    if Worst(sb, im, i, off, n) {
      if first >= NDIRECT {
        NoEntry(sb, im, i, first);
      }
      forall bn | first < bn < first + 4 ensures SlotAt(im, i, SlotOf(bn)) == 0 {
        if bn >= NDIRECT {
          NoEntry(sb, im, i, bn);
        }
      }
      assert SlotAt(im, i, SlotOf(first + 3)) == 0 && NDIRECT <= first + 3;
      assert Allocs(im, i, first, 4) == 4;
    }
  }
}
