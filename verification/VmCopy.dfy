/**
  What copyin and copyout may do to a process's memory, said of what the process
  sees: a page that is not mapped yet but lies below the size of the process is
  seen as a zeroed page, so that lazy allocation does not show.
 */
module VmCopy {
  import opened Bits
  import opened Fold
  import opened Vm
  import opened VmSpace
  import opened VmOps

  // tags of folded definitions
  const CALM := 51
  const WROTE := 52
  const FORKED := 53
  const RESIZED := 54

  predicate UserFlags(flags: nat) { flags / 16 % 2 == 1 }
  predicate WriteFlags(flags: nat) { flags / 4 % 2 == 1 }

  /** The pages above the process are not for the user. */
  ghost predicate Private(m: Mem, r: nat) {
    !IsUser(Entry(m, r, TRAPFRAME)) && !IsUser(Entry(m, r, TRAMPOLINE))
  }

  /** The trapframe and the trampoline are mapped, as proc_pagetable maps them. */
  ghost predicate Topped(m: Mem, r: nat) { IsValid(Entry(m, r, TRAPFRAME)) && IsValid(Entry(m, r, TRAMPOLINE)) }

  /** A process with its fixed pages may have any size; a tree without them, only sizes below them. */
  ghost predicate Fits(m: Mem, r: nat, sz: nat) { PagesOf(sz) <= TRAPFRAME || Topped(m, r) }

  lemma {:induction false} NearFits(was: Mem, m: Mem, r: nat, lo: nat, hi: nat, hs: set<nat>, sz: nat)
    requires Near(was, m, r, lo, hi, hs) && Root(was, r) && hi <= TRAPFRAME && Fits(was, r, sz)
    ensures Fits(m, r, sz)
  {
    NearEntry(was, m, r, lo, hi, hs, r, TRAPFRAME);
    NearEntry(was, m, r, lo, hi, hs, r, TRAMPOLINE);
  }

  ghost predicate Readable(m: Mem, r: nat, sz: nat, v: nat) {
    v < TRAPFRAME && View(m, r, sz, v).Page? && UserFlags(View(m, r, sz, v).flags)
  }

  ghost predicate Writable(m: Mem, r: nat, sz: nat, v: nat) {
    Readable(m, r, sz, v) && WriteFlags(View(m, r, sz, v).flags)
  }

  lemma {:induction false} ViewBytes(m: Mem, r: nat, sz: nat, v: nat)
    requires Sane(m) && Root(m, r) && v < TRAPFRAME && View(m, r, sz, v).Page?
    ensures |View(m, r, sz, v).bytes| == PGSIZE
  {
    if IsValid(Entry(m, r, v)) {
      LeafOwned(m, r, v);
      HeldHasData(m, Ppn(Entry(m, r, v)));
    }
  }

  /** The byte a process sees at address a; a zero byte where it sees none. */
  ghost function ByteSeen(m: Mem, r: nat, sz: nat, a: nat): Byte {
    var pg := View(m, r, sz, a / PGSIZE);
    if pg.Page? && |pg.bytes| == PGSIZE then pg.bytes[a % PGSIZE] else Binary(0, 8)
  }

  // ------------------------------------------------- changes nobody can see

  /** The process sees in m what it saw in `was`, and no other address space has changed. */
  ghost predicate Calm(was: Mem, m: Mem, r: nat, sz: nat) {
    forall u {:trigger Unfold(CALM, u)} :: Unfold(CALM, u) ==>
      Root(was, r) && Near(was, m, r, 0, TRAPFRAME, {}) && Private(was, r) && SameView(was, m, r, sz)
  }

  lemma {:induction false} CalmShape(was: Mem, m: Mem, r: nat, sz: nat)
    requires Calm(was, m, r, sz)
    ensures Near(was, m, r, 0, TRAPFRAME, {}) && Root(was, r) && Sane(m) && Root(m, r) && Private(was, r)
            && Private(m, r)
  {
    assert Unfold(CALM, 0);
    NearShape(was, m, r, 0, TRAPFRAME, {});
    NearEntry(was, m, r, 0, TRAPFRAME, {}, r, TRAPFRAME);
    NearEntry(was, m, r, 0, TRAPFRAME, {}, r, TRAMPOLINE);
  }

  lemma {:induction false} CalmView(was: Mem, m: Mem, r: nat, sz: nat, v: nat)
    requires Calm(was, m, r, sz) && v < TRAPFRAME
    ensures View(m, r, sz, v) == View(was, r, sz, v)
  {
    assert Unfold(CALM, 0);
  }

  lemma {:induction false} CalmRefl(m: Mem, r: nat, sz: nat)
    requires Sane(m) && Root(m, r) && Private(m, r)
    ensures Calm(m, m, r, sz)
  {
    NearRefl(m, r, 0, TRAPFRAME, {});
  }

  lemma {:induction false} CalmTrans(a: Mem, b: Mem, c: Mem, r: nat, sz: nat)
    requires Calm(a, b, r, sz) && Calm(b, c, r, sz)
    ensures Calm(a, c, r, sz)
  {
    CalmShape(a, b, r, sz);
    CalmShape(b, c, r, sz);
    NearTrans(a, b, c, r, 0, TRAPFRAME, {});
    forall v | 0 <= v < TRAPFRAME ensures View(c, r, sz, v) == View(a, r, sz, v) {
      CalmView(a, b, r, sz, v);
      CalmView(b, c, r, sz, v);
    }
  }

  lemma {:induction false} CalmFault(was: Mem, m: Mem, r: nat, sz: nat, v: nat)
    requires Placed(was, m, r, v, 23, ZeroPage()) && !IsValid(Entry(was, r, v)) && v < PagesOf(sz) && Private(was, r)
    ensures Calm(was, m, r, sz)
  {
    FaultUnseen(was, m, r, sz, v);
    NearWiden(was, m, r, v, v + 1, {}, 0, TRAPFRAME, {});
  }

  lemma {:induction false} CalmNear(was: Mem, m: Mem, r: nat, sz: nat)
    requires Near(was, m, r, 0, 0, {}) && Root(was, r) && Private(was, r)
    ensures Calm(was, m, r, sz)
  {
    NearUnseen(was, m, r, sz);
    NearWiden(was, m, r, 0, 0, {}, 0, TRAPFRAME, {});
  }

  lemma {:induction false} CalmReads(was: Mem, m: Mem, r: nat, sz: nat, v: nat)
    requires Calm(was, m, r, sz)
    ensures Readable(m, r, sz, v) <==> Readable(was, r, sz, v)
  {
    if v < TRAPFRAME {
      CalmView(was, m, r, sz, v);
    }
  }

  lemma {:induction false} CalmByte(was: Mem, m: Mem, r: nat, sz: nat, a: nat)
    requires Calm(was, m, r, sz) && a / PGSIZE < TRAPFRAME
    ensures ByteSeen(m, r, sz, a) == ByteSeen(was, r, sz, a)
  {
    CalmView(was, m, r, sz, a / PGSIZE);
  }

  lemma {:induction false} SamePage(a: nat, i: nat)
    requires a % PGSIZE + i < PGSIZE
    ensures (a + i) / PGSIZE == a / PGSIZE && (a + i) % PGSIZE == a % PGSIZE + i
  {
  }

  ghost predicate ReadsAs(m: Mem, r: nat, sz: nat, a: nat, b: Byte) {
    Readable(m, r, sz, a / PGSIZE) && b == ByteSeen(m, r, sz, a)
  }

  /** The process may read |bs| bytes at address a, and sees bs there. */
  ghost predicate Reads(m: Mem, r: nat, sz: nat, a: nat, bs: seq<Byte>) {
    forall i :: 0 <= i < |bs| ==> ReadsAs(m, r, sz, a + i, bs[i])
  }

  lemma {:induction false} ReadsMore(was: Mem, m: Mem, r: nat, sz: nat, a: nat, bs: seq<Byte>, piece: seq<Byte>)
    requires Calm(was, m, r, sz) && Reads(was, r, sz, a, bs) && Reads(m, r, sz, a + |bs|, piece)
    ensures Reads(was, r, sz, a, bs + piece)
  {
    forall i | 0 <= i < |bs + piece| ensures ReadsAs(was, r, sz, a + i, (bs + piece)[i]) {
      if i < |bs| {
        assert ReadsAs(was, r, sz, a + i, bs[i]);
      } else {
        var j := i - |bs|;
        assert ReadsAs(m, r, sz, a + |bs| + j, piece[j]);
        CalmReads(was, m, r, sz, (a + i) / PGSIZE);
        CalmByte(was, m, r, sz, a + i);
      }
    }
  }

  /** Every page from address a to b is in the page table. */
  ghost predicate Present(m: Mem, r: nat, a: nat, b: nat) {
    forall x :: a <= x < b ==> Seen(m, r, x / PGSIZE).Page?
  }

  /** What a process of size sz sees and what the page table alone shows are the same exactly where all is mapped. */
  lemma {:induction false} SeenIfPresent(m: Mem, r: nat, sz: nat, a: nat, bs: seq<Byte>)
    ensures Reads(m, r, 0, a, bs) <==> Reads(m, r, sz, a, bs) && Present(m, r, a, a + |bs|)
  {
    if Reads(m, r, 0, a, bs) {
      forall x | a <= x < a + |bs| ensures Seen(m, r, x / PGSIZE).Page? && ReadsAs(m, r, sz, a + (x - a), bs[x - a]) {
        assert ReadsAs(m, r, 0, a + (x - a), bs[x - a]);
      }
      forall i | 0 <= i < |bs| ensures ReadsAs(m, r, sz, a + i, bs[i]) {
        assert ReadsAs(m, r, 0, a + i, bs[i]);
      }
    } else if Reads(m, r, sz, a, bs) && Present(m, r, a, a + |bs|) {
      forall i | 0 <= i < |bs| ensures ReadsAs(m, r, 0, a + i, bs[i]) {
        assert ReadsAs(m, r, sz, a + i, bs[i]);
        assert Seen(m, r, (a + i) / PGSIZE).Page?;
      }
    }
  }

  /** A process of size sz sees the string bs, and the NUL after it, at address a. */
  ghost predicate IsString(m: Mem, r: nat, sz: nat, a: nat, bs: seq<Byte>) {
    Reads(m, r, sz, a, bs) && NUL !in bs && ReadsAs(m, r, sz, a + |bs|, NUL)
  }

  /** The page table alone shows a string exactly when the process sees it and all its pages are mapped. */
  lemma {:induction false} StringIfPresent(m: Mem, r: nat, sz: nat, a: nat, bs: seq<Byte>)
    ensures IsString(m, r, 0, a, bs) <==> IsString(m, r, sz, a, bs) && Present(m, r, a, a + |bs| + 1)
  {
    SeenIfPresent(m, r, sz, a, bs + [NUL]);
    ReadsSnoc(m, r, 0, a, bs, NUL);
    ReadsSnoc(m, r, sz, a, bs, NUL);
  }

  lemma {:induction false} ReadsSnoc(m: Mem, r: nat, sz: nat, a: nat, bs: seq<Byte>, b: Byte)
    ensures Reads(m, r, sz, a, bs + [b]) <==> Reads(m, r, sz, a, bs) && ReadsAs(m, r, sz, a + |bs|, b)
  {
    var cs := bs + [b];
    if Reads(m, r, sz, a, cs) {
      forall i | 0 <= i < |bs| ensures ReadsAs(m, r, sz, a + i, bs[i]) {
        assert ReadsAs(m, r, sz, a + i, cs[i]);
      }
      assert ReadsAs(m, r, sz, a + |bs|, cs[|bs|]);
    }
  }

  /** Where reading has come to a page that may not be read, or to max bytes, without a NUL, there is no string. */
  lemma {:induction false} NoString(m: Mem, r: nat, sz: nat, a: nat, max: nat, dst: seq<Byte>)
    requires Reads(m, r, sz, a, dst) && NUL !in dst && (|dst| >= max || !Readable(m, r, sz, (a + |dst|) / PGSIZE))
    ensures forall bs :: |bs| < max ==> !IsString(m, r, sz, a, bs)
  {
    forall bs: seq<Byte> | |bs| < max ensures !IsString(m, r, sz, a, bs) {
      if |bs| < |dst| {
        assert ReadsAs(m, r, sz, a + |bs|, dst[|bs|]);
      } else if |bs| > |dst| {
        assert Reads(m, r, sz, a, bs) ==> ReadsAs(m, r, sz, a + |dst|, bs[|dst|]);
      }
    }
  }

  /** A page below sz that is not mapped yet: the process sees the empty string there, and the page table shows
      nothing. */
  lemma {:induction false} LazyString(m: Mem, r: nat, sz: nat, v: nat)
    requires !IsValid(Entry(m, r, v)) && v < PagesOf(sz) && v < TRAPFRAME
    ensures IsString(m, r, sz, v * PGSIZE, []) && forall bs :: !IsString(m, r, 0, v * PGSIZE, bs)
  {
    assert v * PGSIZE / PGSIZE == v && v * PGSIZE % PGSIZE == 0;
    assert ZeroPage()[0] == NUL;
    forall bs: seq<Byte> ensures !IsString(m, r, 0, v * PGSIZE, bs) {
      NoString(m, r, 0, v * PGSIZE, |bs| + 1, []);
    }
  }

  ghost predicate WritableAt(m: Mem, r: nat, sz: nat, a: nat) { Writable(m, r, sz, a / PGSIZE) }

  /** The process may write all addresses from a to b. */
  ghost predicate MayWrite(m: Mem, r: nat, sz: nat, a: nat, b: nat) {
    forall x :: a <= x < b ==> WritableAt(m, r, sz, x)
  }

  lemma {:induction false} MayWriteMore(m: Mem, r: nat, sz: nat, a: nat, b: nat, n: nat)
    requires MayWrite(m, r, sz, a, b) && WritableAt(m, r, sz, b) && n <= PGSIZE - b % PGSIZE
    ensures MayWrite(m, r, sz, a, b + n)
  {
    forall x | a <= x < b + n ensures WritableAt(m, r, sz, x) {
      if b <= x {
        SamePage(b, x - b);
      }
    }
  }

  // ---------------------------------------------------------------- writing

  /** pg' is pg with bs written from address a on, for the page v. */
  predicate Patched(pg: Page, pg': Page, v: nat, a: nat, bs: seq<Byte>) {
    && (pg.NoPage? <==> pg'.NoPage?)
    && (pg.Page? ==>
          && pg'.flags == pg.flags && |pg.bytes| == |pg'.bytes| == PGSIZE
          && forall i :: 0 <= i < PGSIZE ==>
               pg'.bytes[i] == if a <= v * PGSIZE + i < a + |bs| then bs[v * PGSIZE + i - a] else pg.bytes[i])
  }

  /** From `was` on, bs has been written at address a, and the process and all others see no other change. */
  ghost predicate Wrote(was: Mem, m: Mem, r: nat, sz: nat, a: nat, bs: seq<Byte>) {
    forall u {:trigger Unfold(WROTE, u)} :: Unfold(WROTE, u) ==>
      && Root(was, r) && Near(was, m, r, 0, TRAPFRAME, {}) && Private(was, r)
      && (forall v :: 0 <= v < TRAPFRAME ==> Patched(View(was, r, sz, v), View(m, r, sz, v), v, a, bs))
  }

  lemma {:induction false} WroteShape(was: Mem, m: Mem, r: nat, sz: nat, a: nat, bs: seq<Byte>)
    requires Wrote(was, m, r, sz, a, bs)
    ensures Near(was, m, r, 0, TRAPFRAME, {}) && Root(was, r) && Sane(m) && Root(m, r) && Private(was, r)
            && Private(m, r)
  {
    assert Unfold(WROTE, 0);
    NearShape(was, m, r, 0, TRAPFRAME, {});
    NearEntry(was, m, r, 0, TRAPFRAME, {}, r, TRAPFRAME);
    NearEntry(was, m, r, 0, TRAPFRAME, {}, r, TRAMPOLINE);
  }

  lemma {:induction false} WroteView(was: Mem, m: Mem, r: nat, sz: nat, a: nat, bs: seq<Byte>, v: nat)
    requires Wrote(was, m, r, sz, a, bs) && v < TRAPFRAME
    ensures Patched(View(was, r, sz, v), View(m, r, sz, v), v, a, bs)
  {
    assert Unfold(WROTE, 0);
  }

  lemma {:induction false} WroteNothing(was: Mem, m: Mem, r: nat, sz: nat, a: nat)
    requires Calm(was, m, r, sz) && Sane(was)
    ensures Wrote(was, m, r, sz, a, [])
  {
    CalmShape(was, m, r, sz);
    forall v | 0 <= v < TRAPFRAME ensures Patched(View(was, r, sz, v), View(m, r, sz, v), v, a, []) {
      CalmView(was, m, r, sz, v);
      if View(was, r, sz, v).Page? {
        ViewBytes(was, r, sz, v);
      }
    }
  }

  lemma {:induction false} PatchedTwice(p: Page, q: Page, s: Page, v: nat, a: nat, bs: seq<Byte>, cs: seq<Byte>)
    requires Patched(p, q, v, a, bs) && Patched(q, s, v, a + |bs|, cs)
    ensures Patched(p, s, v, a, bs + cs)
  {
  }

  lemma {:induction false} WroteMore(was: Mem, a: Mem, b: Mem, r: nat, sz: nat, x: nat, bs: seq<Byte>, y: nat,
                                     cs: seq<Byte>)
    requires Wrote(was, a, r, sz, x, bs) && Wrote(a, b, r, sz, y, cs) && y == x + |bs|
    ensures Wrote(was, b, r, sz, x, bs + cs)
  {
    WroteShape(was, a, r, sz, x, bs);
    WroteShape(a, b, r, sz, y, cs);
    NearTrans(was, a, b, r, 0, TRAPFRAME, {});
    forall v | 0 <= v < TRAPFRAME ensures Patched(View(was, r, sz, v), View(b, r, sz, v), v, x, bs + cs) {
      WroteView(was, a, r, sz, x, bs, v);
      WroteView(a, b, r, sz, y, cs, v);
      PatchedTwice(View(was, r, sz, v), View(a, r, sz, v), View(b, r, sz, v), v, x, bs, cs);
    }
  }

  lemma {:induction false} WroteAllows(was: Mem, m: Mem, r: nat, sz: nat, a: nat, bs: seq<Byte>, v: nat)
    requires Wrote(was, m, r, sz, a, bs)
    ensures Readable(m, r, sz, v) <==> Readable(was, r, sz, v)
    ensures Writable(m, r, sz, v) <==> Writable(was, r, sz, v)
  {
    if v < TRAPFRAME {
      WroteView(was, m, r, sz, a, bs, v);
    }
  }

  /** memmove of bs to offset off of the page d. */
  function Overwritten(d: seq<Byte>, off: nat, bs: seq<Byte>): (d': seq<Byte>)
    requires off + |bs| <= |d| == PGSIZE
    ensures |d'| == PGSIZE
    ensures forall i :: 0 <= i < PGSIZE ==> d'[i] == if off <= i < off + |bs| then bs[i - off] else d[i]
  {
    d[..off] + bs + d[off + |bs|..]
  }

  /** Writing into the mapped page v. */
  lemma {:induction false} WroteInPage(m: Mem, r: nat, sz: nat, a: nat, bs: seq<Byte>, p: nat)
    requires Sane(m) && Root(m, r) && Private(m, r) && a / PGSIZE < TRAPFRAME && a % PGSIZE + |bs| <= PGSIZE
    requires IsValid(Entry(m, r, a / PGSIZE)) && p == Ppn(Entry(m, r, a / PGSIZE)) && p in m.data
             && |m.data[p]| == PGSIZE
    ensures Wrote(m, WithData(m, p, Overwritten(m.data[p], a % PGSIZE, bs)), r, sz, a, bs)
  {
    var w := a / PGSIZE;
    var d := Overwritten(m.data[p], a % PGSIZE, bs);
    var m' := WithData(m, p, d);
    LeafOwned(m, r, w);
    NearWithData(m, p, d, r, w, w + 1);
    NearSettled(m, m', r, w, w + 1, p);
    NearWiden(m, m', r, w, w + 1, {}, 0, TRAPFRAME, {});
    forall v | 0 <= v < TRAPFRAME ensures Patched(View(m, r, sz, v), View(m', r, sz, v), v, a, bs) {
      if v == w {
        SameTabsEntry(m, m', r, w);
      } else {
        SeenKept(m, m', r, w, w + 1, {}, r, v);
        if View(m, r, sz, v).Page? {
          ViewBytes(m, r, sz, v);
        }
      }
    }
  }

  lemma {:induction false} WroteAfterCalm(was: Mem, a: Mem, b: Mem, r: nat, sz: nat, x: nat, bs: seq<Byte>)
    requires Calm(was, a, r, sz) && Wrote(a, b, r, sz, x, bs)
    ensures Wrote(was, b, r, sz, x, bs)
  {
    CalmShape(was, a, r, sz);
    NearShape(was, a, r, 0, TRAPFRAME, {});
    WroteNothing(was, a, r, sz, x);
    WroteMore(was, a, b, r, sz, x, [], x, bs);
    assert [] + bs == bs;
  }

  lemma {:induction false} WroteThenCalm(was: Mem, a: Mem, b: Mem, r: nat, sz: nat, x: nat, bs: seq<Byte>)
    requires Wrote(was, a, r, sz, x, bs) && Calm(a, b, r, sz)
    ensures Wrote(was, b, r, sz, x, bs)
  {
    WroteShape(was, a, r, sz, x, bs);
    WroteNothing(a, b, r, sz, x + |bs|);
    WroteMore(was, a, b, r, sz, x, bs, x + |bs|, []);
    assert bs + [] == bs;
  }

  lemma {:induction false} PieceAt(src: seq<Byte>, done: nat, n: nat)
    requires done + n <= |src|
    ensures src[..done] + src[done..][..n] == src[..done + n] && src[done..][n..] == src[done + n..]
  {
  }

  /** copyout has written the first `done` bytes of src at x; now it has written n more, at y. */
  lemma {:induction false} WroteOn(was: Mem, a: Mem, b: Mem, r: nat, sz: nat, x: nat, src: seq<Byte>, done: nat,
                                   y: nat, n: nat)
    requires done + n <= |src| && y == x + done && Wrote(was, a, r, sz, x, src[..done])
             && Wrote(a, b, r, sz, y, src[done..][..n])
    ensures Wrote(was, b, r, sz, x, src[..done + n]) && src[done..][n..] == src[done + n..]
  {
    PieceAt(src, done, n);
    WroteMore(was, a, b, r, sz, x, src[..done], y, src[done..][..n]);
  }

  /** What copyout has written, copyin reads. */
  lemma {:induction false} ReadBack(was: Mem, m: Mem, r: nat, sz: nat, a: nat, bs: seq<Byte>)
    requires Wrote(was, m, r, sz, a, bs) && MayWrite(was, r, sz, a, a + |bs|)
    ensures Reads(m, r, sz, a, bs)
  {
    forall i | 0 <= i < |bs| ensures ReadsAs(m, r, sz, a + i, bs[i]) {
      var v := (a + i) / PGSIZE;
      assert WritableAt(was, r, sz, a + i);
      WroteAllows(was, m, r, sz, a, bs, v);
      WroteView(was, m, r, sz, a, bs, v);
      assert v * PGSIZE + (a + i) % PGSIZE == a + i;
    }
  }

  // -------------------------------------------------------------------- fork

  /** From `was` on, pages 0..n of tree q are copies of those of tree r, and nothing else changed. */
  ghost predicate Forked(was: Mem, m: Mem, r: nat, q: nat, n: nat) {
    forall u {:trigger Unfold(FORKED, u)} :: Unfold(FORKED, u) ==>
      && Root(was, r) && Root(was, q) && r != q && n <= TRAPFRAME && Near(was, m, q, 0, n, {})
      && (forall v :: 0 <= v < n ==> Seen(m, q, v) == Seen(was, r, v))
  }

  lemma {:induction false} ForkedShape(was: Mem, m: Mem, r: nat, q: nat, n: nat)
    requires Forked(was, m, r, q, n)
    ensures Near(was, m, q, 0, n, {}) && Root(was, r) && Root(was, q) && Sane(m) && Root(m, r) && Root(m, q)
    ensures r != q && n <= TRAPFRAME
  {
    assert Unfold(FORKED, 0);
    NearShape(was, m, q, 0, n, {});
  }

  lemma {:induction false} ForkedNothing(m: Mem, r: nat, q: nat)
    requires Sane(m) && Root(m, r) && Root(m, q) && r != q
    ensures Forked(m, m, r, q, 0)
  {
    NearRefl(m, q, 0, 0, {});
  }

  lemma {:induction false} ForkedMore(was: Mem, a: Mem, b: Mem, r: nat, q: nat, n: nat) returns (n': nat)
    requires Forked(was, a, r, q, n) && Near(a, b, q, n, n + 1, {}) && Seen(b, q, n) == Seen(a, r, n) && n < TRAPFRAME
    ensures n' == n + 1 && Forked(was, b, r, q, n')
  {
    n' := n + 1;
    ForkedShape(was, a, r, q, n);
    SeenKept(was, a, q, 0, n, {}, r, n);
    forall v | 0 <= v < n + 1 ensures Seen(b, q, v) == Seen(was, r, v) {
      if v < n {
        assert Seen(a, q, v) == Seen(was, r, v) by { assert Unfold(FORKED, 0); }
        SeenKept(a, b, q, n, n + 1, {}, q, v);
      }
    }
    var none: set<nat> := {};
    assert none + none == none;
    NearJoin(was, a, b, q, 0, n, n', none, none);
  }

  /** The child of a process of size sz sees what its parent sees; what the parent sees has not changed. */
  lemma {:induction false} ForkedView(was: Mem, m: Mem, r: nat, q: nat, sz: nat, v: nat)
    requires Forked(was, m, r, q, PagesOf(sz)) && v < TRAPFRAME
    requires AllUnmapped(was, r, PagesOf(sz), TRAPFRAME) && AllUnmapped(was, q, 0, TRAPFRAME)
    ensures View(m, q, sz, v) == View(was, r, sz, v) == View(m, r, sz, v)
  {
    ForkedShape(was, m, r, q, PagesOf(sz));
    SeenKept(was, m, q, 0, PagesOf(sz), {}, r, v);
    if v < PagesOf(sz) {
      assert Seen(m, q, v) == Seen(was, r, v) by { assert Unfold(FORKED, 0); }
    } else {
      SeenKept(was, m, q, 0, PagesOf(sz), {}, q, v);
    }
  }

  // -------------------------------------------------------------------- sbrk

  /** A process of size sz becomes one of size sz2: pages past the smaller size are gone, new ones are seen as
      zeroed. */
  ghost predicate Resized(was: Mem, m: Mem, r: nat, sz: nat, sz2: nat) {
    forall u {:trigger Unfold(RESIZED, u)} :: Unfold(RESIZED, u) ==>
      && Root(was, r) && Near(was, m, r, 0, TRAPFRAME, {})
      && (forall v :: 0 <= v < TRAPFRAME ==> View(m, r, sz2, v) == ResizedPage(was, r, sz, sz2, v))
  }

  ghost function ResizedPage(was: Mem, r: nat, sz: nat, sz2: nat, v: nat): Page {
    if v >= PagesOf(sz2) then NoPage else if v < PagesOf(sz) then View(was, r, sz, v) else Page(23, ZeroPage())
  }

  lemma {:induction false} ResizedByGrowing(was: Mem, m: Mem, r: nat, sz: nat, sz2: nat)
    requires Grown(was, m, r, PagesOf(sz), PagesOf(sz2), 23) && sz <= sz2 && AllUnmapped(was, r, PagesOf(sz), TRAPFRAME)
    ensures Resized(was, m, r, sz, sz2)
  {
    var lo, hi := PagesOf(sz), PagesOf(sz2);
    GrownShape(was, m, r, lo, hi, 23);
    NearWiden(was, m, r, lo, hi, {}, 0, TRAPFRAME, {});
    forall v | 0 <= v < TRAPFRAME ensures View(m, r, sz2, v) == ResizedPage(was, r, sz, sz2, v) {
      if lo <= v < hi {
        assert Seen(m, r, v) == Page(23, ZeroPage()) by { assert Unfold(GROWN, 0); }
      } else {
        SeenKept(was, m, r, lo, hi, {}, r, v);
      }
    }
  }

  lemma {:induction false} ResizedByShrinking(was: Mem, m: Mem, r: nat, sz: nat, sz2: nat)
    requires Unmapped(was, m, r, PagesOf(sz2), PagesOf(sz)) && sz2 <= sz && PagesOf(sz) <= TRAPFRAME
    requires AllUnmapped(was, r, PagesOf(sz), TRAPFRAME)
    ensures Resized(was, m, r, sz, sz2)
  {
    var lo, hi := PagesOf(sz2), PagesOf(sz);
    UnmappedShape(was, m, r, lo, hi);
    NearWiden(was, m, r, lo, hi, {}, 0, TRAPFRAME, {});
    forall v | 0 <= v < TRAPFRAME ensures View(m, r, sz2, v) == ResizedPage(was, r, sz, sz2, v) {
      if !(lo <= v < hi) {
        SeenKept(was, m, r, lo, hi, {}, r, v);
      }
    }
  }

  /** Moving the size alone, with no memory allocated, is seen as the same growth. */
  lemma {:induction false} ResizedLazily(m: Mem, r: nat, sz: nat, sz2: nat)
    requires Sane(m) && Root(m, r) && sz <= sz2 && AllUnmapped(m, r, PagesOf(sz), TRAPFRAME)
    ensures Resized(m, m, r, sz, sz2)
  {
    NearRefl(m, r, 0, TRAPFRAME, {});
  }

  lemma {:induction false} ResizedShape(was: Mem, m: Mem, r: nat, sz: nat, sz2: nat)
    requires Resized(was, m, r, sz, sz2)
    ensures Near(was, m, r, 0, TRAPFRAME, {}) && Sane(m) && Root(m, r)
    ensures AllUnmapped(m, r, PagesOf(sz2), TRAPFRAME)
    ensures forall v :: 0 <= v < TRAPFRAME ==> View(m, r, sz2, v) == ResizedPage(was, r, sz, sz2, v)
  {
    assert Unfold(RESIZED, 0);
    NearShape(was, m, r, 0, TRAPFRAME, {});
    forall v | PagesOf(sz2) <= v < TRAPFRAME ensures !IsValid(Entry(m, r, v)) {
      assert View(m, r, sz2, v) == ResizedPage(was, r, sz, sz2, v);
    }
  }
}
