/**
  Processes over one pool of physical pages, and what each of them sees.  An
  operation is said to do something only in terms of what the processes see, so
  that whether memory is there or comes with the next page fault makes no difference.
 */
module VmWorld {
  import opened Base
  import opened Bits
  import opened Fold
  import opened Vm
  import opened VmSpace
  import opened VmOps
  import opened VmCopy
  import opened VmFree

  // tags of folded definitions
  const WORLD := 66
  const LOOKS := 67

  /** The page table and the size of a process. */
  datatype Space = Space(root: nat, sz: nat)

  datatype World = World(m: Mem, procs: seq<Space>)

  datatype Op =
    | Create                                     // uvmcreate
    | Exit(i: nat)                               // uvmfree
    | Grow(i: nat, n: int)                       // sbrk
    | Fault(i: nat, va: nat)                     // vmfault
    | CopyIn(i: nat, a: nat, len: nat)
    | CopyOut(i: nat, a: nat, bs: seq<Byte>)
    | Fork(i: nat)                               // uvmcreate and uvmcopy

  /** What the caller learns: the bytes that were read, and whether all bytes were. */
  datatype Res = Done | Read(ok: bool, bytes: seq<Byte>) | Put(ok: bool)

  // --------------------------------------------------------------- invariant

  /** Nothing of a process is mapped past its size. */
  ghost predicate SpaceOk(m: Mem, p: Space) {
    Root(m, p.root) && PagesOf(p.sz) <= TRAPFRAME && AllUnmapped(m, p.root, PagesOf(p.sz), MAXV)
  }

  predicate Apart(procs: seq<Space>) { forall i, j :: 0 <= i < j < |procs| ==> procs[i].root != procs[j].root }

  predicate HasRoot(procs: seq<Space>, r: nat) { exists i :: 0 <= i < |procs| && procs[i].root == r }

  /** Memory is sane, and its trees are exactly those of the processes. */
  ghost predicate WorldOk(w: World) {
    forall u {:trigger Unfold(WORLD, u)} :: Unfold(WORLD, u) ==>
      && Sane(w.m) && Apart(w.procs)
      && (forall i :: 0 <= i < |w.procs| ==> SpaceOk(w.m, w.procs[i]))
      && (forall r :: Root(w.m, r) ==> HasRoot(w.procs, r))
  }

  /** The pool is the same, and the caller holds the pages it held: none is lost. */
  ghost predicate Conserved(m: Mem, m': Mem) {
    && m'.owner.Keys == m.owner.Keys
    && forall p :: p in m.owner ==> (m'.owner[p].Held? <==> m.owner[p].Held?)
  }

  lemma {:induction false} WorldSpace(w: World, i: nat)
    requires WorldOk(w) && i < |w.procs|
    ensures Sane(w.m) && SpaceOk(w.m, w.procs[i]) && Root(w.m, w.procs[i].root) && Private(w.m, w.procs[i].root)
    ensures PagesOf(w.procs[i].sz) <= TRAPFRAME && AllUnmapped(w.m, w.procs[i].root, PagesOf(w.procs[i].sz), TRAPFRAME)
  {
    assert Unfold(WORLD, 0);
    var r := w.procs[i].root;
    InvalidIsZero(w.m, r, TRAPFRAME);
    InvalidIsZero(w.m, r, TRAMPOLINE);
  }

  lemma {:induction false} RootsDiffer(w: World, i: nat, j: nat)
    requires WorldOk(w) && i < j < |w.procs|
    ensures w.procs[i].root != w.procs[j].root
  {
    assert Unfold(WORLD, 0);
  }

  lemma {:induction false} WorldSane(w: World)
    requires WorldOk(w)
    ensures Sane(w.m)
  {
    assert Unfold(WORLD, 0);
  }

  /** With no process left and nothing in the caller's hands, every page is on the free list, once. */
  lemma {:induction false} AllFree(w: World)
    requires WorldOk(w) && w.procs == [] && forall p :: p in w.m.owner ==> !w.m.owner[p].Held?
    ensures forall p :: p in w.m.owner <==> p in w.m.free
    ensures Distinct(w.m.free)
  {
    assert Sane(w.m) && forall r :: !Root(w.m, r) by { assert Unfold(WORLD, 0); }
    forall p | p in w.m.owner ensures w.m.owner[p].Free? {
      if w.m.owner[p].Table? {
        TableLooked(w.m, p);
      } else if w.m.owner[p].Leaf? {
        LeafMapped(w.m, p);
      }
    }
    assert Unfold(PAGES, 0);
  }

  // ------------------------------------------------------ what processes see

  /** p' in m' sees what p in m sees. */
  ghost predicate Looks(m: Mem, p: Space, m': Mem, p': Space) {
    forall u {:trigger Unfold(LOOKS, u)} :: Unfold(LOOKS, u) ==>
      p'.sz == p.sz && forall v :: 0 <= v < TRAPFRAME ==> View(m', p'.root, p'.sz, v) == View(m, p.root, p.sz, v)
  }

  lemma {:induction false} LooksAt(m: Mem, p: Space, m': Mem, p': Space, v: nat)
    requires Looks(m, p, m', p')
    ensures p'.sz == p.sz && (v < TRAPFRAME ==> View(m', p'.root, p'.sz, v) == View(m, p.root, p.sz, v))
    ensures Readable(m', p'.root, p'.sz, v) <==> Readable(m, p.root, p.sz, v)
    ensures Writable(m', p'.root, p'.sz, v) <==> Writable(m, p.root, p.sz, v)
  {
    assert Unfold(LOOKS, 0);
  }

  lemma {:induction false} LooksByte(m: Mem, p: Space, m': Mem, p': Space, a: nat, b: Byte)
    requires Looks(m, p, m', p')
    ensures ReadsAs(m', p'.root, p'.sz, a, b) <==> ReadsAs(m, p.root, p.sz, a, b)
  {
    LooksAt(m, p, m', p', a / PGSIZE);
  }

  /** Whoever looks like p on one side looks, on the other, like whoever looks like p. */
  lemma {:induction false} LooksAcross(m: Mem, p: Space, m': Mem, p': Space, n: Mem, q: Space, n': Mem, q': Space)
    requires Looks(m, p, n, q) && Looks(m, p, m', p') && Looks(n, q, n', q')
    ensures Looks(m', p', n', q')
  {
    assert Unfold(LOOKS, 0);
  }

  lemma {:induction false} LooksNear(m: Mem, m': Mem, r: nat, lo: nat, hi: nat, p: Space)
    requires Near(m, m', r, lo, hi, {}) && Root(m, p.root) && (p.root != r || lo >= hi)
    ensures Looks(m, p, m', p)
  {
    forall v | 0 <= v < TRAPFRAME ensures View(m', p.root, p.sz, v) == View(m, p.root, p.sz, v) {
      SeenKept(m, m', r, lo, hi, {}, p.root, v);
    }
  }

  lemma {:induction false} LooksCalm(m: Mem, m': Mem, p: Space)
    requires Calm(m, m', p.root, p.sz)
    ensures Looks(m, p, m', p)
  {
    forall v | 0 <= v < TRAPFRAME ensures View(m', p.root, p.sz, v) == View(m, p.root, p.sz, v) {
      CalmView(m, m', p.root, p.sz, v);
    }
  }

  lemma {:induction false} SeenSame(m: Mem, m': Mem, q: nat, v: nat)
    requires Sane(m) && Root(m, q) && v < TRAPFRAME && Entry(m', q, v) == Entry(m, q, v)
    requires forall p ::
               p in m.owner && m.owner[p] == Leaf(q, v) && p in m.data ==> p in m'.data && m'.data[p] == m.data[p]
    ensures Seen(m', q, v) == Seen(m, q, v)
  {
    if IsValid(Entry(m, q, v)) {
      LeafOwned(m, q, v);
      HeldHasData(m, Ppn(Entry(m, q, v)));
    }
  }

  lemma {:induction false} LooksCreated(m: Mem, m': Mem, r: nat, p: Space)
    requires Sane(m) && Created(m, m', r) && Root(m, p.root)
    ensures Looks(m, p, m', p)
  {
    forall v | 0 <= v < TRAPFRAME ensures View(m', p.root, p.sz, v) == View(m, p.root, p.sz, v) {
      SeenSame(m, m', p.root, v);
    }
  }

  lemma {:induction false} VanishedEntry(m: Mem, m': Mem, r: nat, q: nat, v: nat)
    requires Vanished(m, m', r) && Root(m, q) && q != r && v < VPNS
    ensures Root(m', q) && Entry(m', q, v) == Entry(m, q, v)
    ensures forall p :: p in m.owner && m.owner[p] == Leaf(q, v) ==> PageKept(m, m', p)
  {
    assert Unfold(VANISHED, 0);
  }

  lemma {:induction false} LooksVanished(m: Mem, m': Mem, r: nat, p: Space)
    requires Sane(m) && Vanished(m, m', r) && Root(m, p.root) && p.root != r
    ensures Looks(m, p, m', p)
  {
    forall v | 0 <= v < TRAPFRAME ensures View(m', p.root, p.sz, v) == View(m, p.root, p.sz, v) {
      VanishedEntry(m, m', r, p.root, v);
      SeenSame(m, m', p.root, v);
    }
  }

  lemma {:induction false} LooksTrans(m: Mem, p: Space, n: Mem, q: Space, o: Mem, s: Space)
    requires Looks(m, p, n, q) && Looks(n, q, o, s)
    ensures Looks(m, p, o, s)
  {
    assert Unfold(LOOKS, 0);
  }

  // ------------------------------------------------- what the operations do

  predicate CanGrow(procs: seq<Space>, i: nat, n: int) {
    i < |procs| && -0x8000_0000 <= n < 0x8000_0000 && (n > 0 ==> PagesOf(procs[i].sz + n) <= TRAPFRAME)
  }

  predicate Enabled(procs: seq<Space>, op: Op) {
    match op
    case Create => true
    case Grow(i, n) => CanGrow(procs, i, n)
    case Exit(i) => i < |procs|
    case Fault(i, va) => i < |procs|
    case CopyIn(i, a, len) => i < |procs|
    case CopyOut(i, a, bs) => i < |procs|
    case Fork(i) => i < |procs|
  }

  /** With so many pages free the operation finds all it needs. */
  function Need(procs: seq<Space>, op: Op): nat {
    match op
    case Create => 1
    case Exit(i) => 0
    case Grow(i, n) =>
      if CanGrow(procs, i, n) && n > 0 then 3 * (PagesOf(procs[i].sz + n) - PagesOf(procs[i].sz)) else 0
    case Fault(i, va) => 3
    case CopyIn(i, a, len) => 3 * Touched(a, len)
    case CopyOut(i, a, bs) => 3 * Touched(a, |bs|)
    case Fork(i) => if i < |procs| then 3 * PagesOf(procs[i].sz) + 1 else 0
  }

  ghost predicate Lacks(w: World, op: Op) { |w.m.free| < Need(w.procs, op) }

  /** Every process but i sees what it saw. */
  ghost predicate OthersLook(w: World, w': World, i: nat) {
    |w.procs| <= |w'.procs| && forall j {:trigger w.procs[j]} {:trigger w'.procs[j]} :: 0 <= j < |w.procs| && j != i ==>
      Looks(w.m, w.procs[j], w'.m, w'.procs[j])
  }

  /** copyin read `bytes` of the len bytes at a: all of them, or all up to a page that may not be read. */
  ghost predicate DoesRead(m: Mem, p: Space, a: nat, len: nat, ok: bool, bytes: seq<Byte>) {
    && |bytes| <= len && (ok <==> |bytes| == len) && Reads(m, p.root, p.sz, a, bytes)
    && (!ok ==> !Readable(m, p.root, p.sz, (a + |bytes|) / PGSIZE))
  }

  /** copyout wrote the first n bytes of bs at a: all of them, or all up to a page that may not be written. */
  ghost predicate DoesWrite(m: Mem, p: Space, m': Mem, p': Space, a: nat, bs: seq<Byte>, ok: bool, n: nat) {
    && n <= |bs| && (ok <==> n == |bs|) && MayWrite(m, p.root, p.sz, a, a + n) && p'.sz == p.sz
    && (!ok ==> !Writable(m, p.root, p.sz, (a + n) / PGSIZE))
    && forall v :: 0 <= v < TRAPFRAME ==> Patched(View(m, p.root, p.sz, v), View(m', p'.root, p'.sz, v), v, a, bs[..n])
  }

  ghost predicate DoesGrow(m: Mem, p: Space, m': Mem, p': Space, n: int) {
    && p'.sz == NewSize(p.sz, n)
    && forall v :: 0 <= v < TRAPFRAME ==> View(m', p'.root, p'.sz, v) == ResizedPage(m, p.root, p.sz, p'.sz, v)
  }

  ghost predicate Blank(m: Mem, p: Space) {
    p.sz == 0 && forall v :: 0 <= v < TRAPFRAME ==> View(m, p.root, p.sz, v) == NoPage
  }

  /** What an operation that finds the memory it needs does to what the processes see, and what it returns. */
  ghost predicate Does(w: World, op: Op, res: Res, w': World) {
    if !Enabled(w.procs, op) then w' == w && res == Done else
    match op
    case Create =>
      res == Done && |w'.procs| == |w.procs| + 1 && OthersLook(w, w', |w.procs|) && Blank(w'.m, w'.procs[|w.procs|])
    case Exit(i) =>
      && res == Done && |w'.procs| == |w.procs| - 1
      && (forall j {:trigger w'.procs[j]} :: 0 <= j < |w'.procs| ==>
            Looks(w.m, w.procs[if j < i then j else j + 1], w'.m, w'.procs[j]))
    case Grow(i, n) =>
      res == Done && |w'.procs| == |w.procs| && OthersLook(w, w', i) && DoesGrow(w.m, w.procs[i], w'.m, w'.procs[i], n)
    case Fault(i, va) =>
      res == Done && |w'.procs| == |w.procs| && OthersLook(w, w', |w.procs|)
    case CopyIn(i, a, len) =>
      && res.Read? && |w'.procs| == |w.procs| && OthersLook(w, w', |w.procs|)
      && DoesRead(w.m, w.procs[i], a, len, res.ok, res.bytes)
    case CopyOut(i, a, bs) =>
      && res.Put? && |w'.procs| == |w.procs| && OthersLook(w, w', i)
      && exists n :: DoesWrite(w.m, w.procs[i], w'.m, w'.procs[i], a, bs, res.ok, n)
    case Fork(i) =>
      && res == Done && |w'.procs| == |w.procs| + 1 && OthersLook(w, w', |w.procs|)
      && Looks(w.m, w.procs[i], w'.m, w'.procs[|w.procs|])
  }

  // ---------------------------------------------------- lazy and eager memory

  /** The processes of both worlds see the same. */
  ghost predicate Alike(w: World, x: World) {
    |w.procs| == |x.procs| && forall i {:trigger w.procs[i]} {:trigger x.procs[i]} :: 0 <= i < |w.procs| ==>
      Looks(w.m, w.procs[i], x.m, x.procs[i])
  }

  lemma {:induction false} SameRead(m: Mem, p: Space, n: Mem, q: Space, a: nat, len: nat, ok: bool, bs: seq<Byte>,
                                    ok': bool, bs': seq<Byte>)
    requires Looks(m, p, n, q) && DoesRead(m, p, a, len, ok, bs) && DoesRead(n, q, a, len, ok', bs')
    ensures ok == ok' && bs == bs'
  {
    forall i | 0 <= i < |bs| && i < |bs'| ensures bs[i] == bs'[i] {
      assert ReadsAs(m, p.root, p.sz, a + i, bs[i]) && ReadsAs(n, q.root, q.sz, a + i, bs'[i]);
      LooksByte(m, p, n, q, a + i, bs[i]);
    }
    if |bs| < |bs'| {
      assert ReadsAs(n, q.root, q.sz, a + |bs|, bs'[|bs|]);
      LooksAt(m, p, n, q, (a + |bs|) / PGSIZE);
    } else if |bs'| < |bs| {
      assert ReadsAs(m, p.root, p.sz, a + |bs'|, bs[|bs'|]);
      LooksAt(m, p, n, q, (a + |bs'|) / PGSIZE);
    }
  }

  lemma {:induction false} SameCount(m: Mem, p: Space, m': Mem, p': Space, n: Mem, q: Space, n': Mem, q': Space,
                                     a: nat, bs: seq<Byte>, ok: bool, k: nat, ok': bool, k': nat)
    requires Looks(m, p, n, q) && DoesWrite(m, p, m', p', a, bs, ok, k) && DoesWrite(n, q, n', q', a, bs, ok', k')
    ensures ok == ok' && k == k'
  {
    if k < k' {
      assert WritableAt(n, q.root, q.sz, a + k);
      LooksAt(m, p, n, q, (a + k) / PGSIZE);
    } else if k' < k {
      assert WritableAt(m, p.root, p.sz, a + k');
      LooksAt(m, p, n, q, (a + k') / PGSIZE);
    }
  }

  lemma {:induction false} PatchedSame(g: Page, g1: Page, g2: Page, v: nat, a: nat, bs: seq<Byte>)
    requires Patched(g, g1, v, a, bs) && Patched(g, g2, v, a, bs)
    ensures g1 == g2
  {
    if g.Page? {
      assert g1.bytes == g2.bytes;
    }
  }

  lemma {:induction false} SameWrite(m: Mem, p: Space, m': Mem, p': Space, n: Mem, q: Space, n': Mem, q': Space,
                                     a: nat, bs: seq<Byte>, ok: bool, k: nat, ok': bool, k': nat)
    requires Looks(m, p, n, q) && DoesWrite(m, p, m', p', a, bs, ok, k) && DoesWrite(n, q, n', q', a, bs, ok', k')
    ensures ok == ok' && k == k' && Looks(m', p', n', q')
  {
    SameCount(m, p, m', p', n, q, n', q', a, bs, ok, k, ok', k');
    forall v | 0 <= v < TRAPFRAME ensures View(n', q'.root, q'.sz, v) == View(m', p'.root, p'.sz, v) {
      LooksAt(m, p, n, q, v);
      PatchedSame(View(m, p.root, p.sz, v), View(m', p'.root, p'.sz, v), View(n', q'.root, q'.sz, v), v, a, bs[..k]);
    }
    LooksAt(m, p, n, q, 0);
  }

  lemma {:induction false} SameGrow(m: Mem, p: Space, m': Mem, p': Space, n: Mem, q: Space, n': Mem, q': Space, d: int)
    requires Looks(m, p, n, q) && DoesGrow(m, p, m', p', d) && DoesGrow(n, q, n', q', d)
    ensures Looks(m', p', n', q')
  {
    LooksAt(m, p, n, q, 0);
    forall v | 0 <= v < TRAPFRAME ensures View(n', q'.root, q'.sz, v) == View(m', p'.root, p'.sz, v) {
      LooksAt(m, p, n, q, v);
    }
  }

  lemma {:induction false} OthersAlike(w: World, w': World, x: World, x': World, i: nat, j: nat)
    requires Alike(w, x) && OthersLook(w, w', i) && OthersLook(x, x', i) && j < |w.procs| && j != i
    ensures Looks(w'.m, w'.procs[j], x'.m, x'.procs[j])
  {
    LooksAcross(w.m, w.procs[j], w'.m, w'.procs[j], x.m, x.procs[j], x'.m, x'.procs[j]);
  }

  /** The operation is possible in both worlds or in neither. */
  lemma {:induction false} SameEnabled(w: World, x: World, op: Op)
    requires Alike(w, x)
    ensures Enabled(w.procs, op) <==> Enabled(x.procs, op)
  {
    if op.Grow? && op.i < |w.procs| {
      LooksAt(w.m, w.procs[op.i], x.m, x.procs[op.i], 0);
    }
  }

  /** Worlds that look alike before an operation look alike after it, and it returns the same in both. */
  lemma {:induction false} SameStep(w: World, x: World, op: Op, res: Res, res': Res, w': World, x': World)
    requires Alike(w, x) && Does(w, op, res, w') && Does(x, op, res', x')
    ensures res == res' && Alike(w', x')
  {
    SameEnabled(w, x, op);
    if Enabled(w.procs, op) {
      var n := |w.procs|;
      match op
      case Create =>
        OthersAllAlike(w, w', x, x', n);
        assert Looks(w'.m, w'.procs[n], x'.m, x'.procs[n]);
      case Exit(i) =>
        forall j | 0 <= j < |w'.procs| ensures Looks(w'.m, w'.procs[j], x'.m, x'.procs[j]) {
          var k := if j < i then j else j + 1;
          LooksAcross(w.m, w.procs[k], w'.m, w'.procs[j], x.m, x.procs[k], x'.m, x'.procs[j]);
        }
      case Grow(i, d) =>
        OthersAllAlike(w, w', x, x', i);
        SameGrow(w.m, w.procs[i], w'.m, w'.procs[i], x.m, x.procs[i], x'.m, x'.procs[i], d);
      case Fault(i, va) =>
        OthersAllAlike(w, w', x, x', n);
      case CopyIn(i, a, len) =>
        OthersAllAlike(w, w', x, x', n);
        SameRead(w.m, w.procs[i], x.m, x.procs[i], a, len, res.ok, res.bytes, res'.ok, res'.bytes);
      case CopyOut(i, a, bs) =>
        OthersAllAlike(w, w', x, x', i);
        var k :| DoesWrite(w.m, w.procs[i], w'.m, w'.procs[i], a, bs, res.ok, k);
        var k' :| DoesWrite(x.m, x.procs[i], x'.m, x'.procs[i], a, bs, res'.ok, k');
        SameWrite(w.m, w.procs[i], w'.m, w'.procs[i], x.m, x.procs[i], x'.m, x'.procs[i], a, bs, res.ok, k, res'.ok,
                  k');
      case Fork(i) =>
        OthersAllAlike(w, w', x, x', n);
        LooksAcross(w.m, w.procs[i], w'.m, w'.procs[n], x.m, x.procs[i], x'.m, x'.procs[n]);
    }
  }

  lemma {:induction false} OthersAllAlike(w: World, w': World, x: World, x': World, i: nat)
    requires Alike(w, x) && OthersLook(w, w', i) && OthersLook(x, x', i)
    ensures forall j {:trigger w'.procs[j]} {:trigger x'.procs[j]} :: 0 <= j < |w.procs| && j != i ==>
              Looks(w'.m, w'.procs[j], x'.m, x'.procs[j])
  {
    forall j {:trigger w'.procs[j]} {:trigger x'.procs[j]} | 0 <= j < |w.procs| && j != i
      ensures Looks(w'.m, w'.procs[j], x'.m, x'.procs[j])
    {
      OthersAlike(w, w', x, x', i, j);
    }
  }

  /** ws are the worlds of a run of ops that returned rs. */
  ghost predicate Ran(ws: seq<World>, ops: seq<Op>, rs: seq<Res>) {
    && |ws| == |ops| + 1 && |rs| == |ops|
    && forall k :: 0 <= k < |ops| ==> Does(ws[k], ops[k], rs[k], ws[k + 1])
  }

  /** The two runs of LazyRefinesEager after k steps, and the result of the next. */
  lemma {:induction false} AlikeSoFar(ws: seq<World>, xs: seq<World>, ops: seq<Op>, rs: seq<Res>, ss: seq<Res>, k: nat)
    requires Ran(ws, ops, rs) && Ran(xs, ops, ss) && Alike(ws[0], xs[0]) && k <= |ops|
    ensures Alike(ws[k], xs[k]) && (k < |ops| ==> rs[k] == ss[k])
  {
    if k > 0 {
      var j := k - 1;
      AlikeSoFar(ws, xs, ops, rs, ss, j);
      SameStep(ws[j], xs[j], ops[j], rs[j], ss[j], ws[j + 1], xs[j + 1]);
    }
    if k < |ops| {
      SameStep(ws[k], xs[k], ops[k], rs[k], ss[k], ws[k + 1], xs[k + 1]);
    }
  }

  /** Lazy memory refines eager memory.  Two runs of the same operations from worlds that look alike, each
      growing its processes lazily or eagerly at every step as it likes, read the same bytes, return the
      same results, and look alike at every step. */
  lemma {:induction false} LazyRefinesEager(ws: seq<World>, xs: seq<World>, ops: seq<Op>, rs: seq<Res>, ss: seq<Res>)
    requires Ran(ws, ops, rs) && Ran(xs, ops, ss) && Alike(ws[0], xs[0])
    ensures rs == ss && forall k :: 0 <= k <= |ops| ==> Alike(ws[k], xs[k])
  {
    forall k | 0 <= k <= |ops| ensures Alike(ws[k], xs[k]) && (k < |ops| ==> rs[k] == ss[k]) {
      AlikeSoFar(ws, xs, ops, rs, ss, k);
    }
  }

  // -------------------------------------------------------- keeping the world

  /** An operation on process i, which now has size sz. */
  ghost predicate Changed(w: World, m': Mem, i: nat, sz: nat) {
    && WorldOk(w) && i < |w.procs| && Near(w.m, m', w.procs[i].root, 0, TRAPFRAME, {})
    && PagesOf(sz) <= TRAPFRAME && AllUnmapped(m', w.procs[i].root, PagesOf(sz), TRAPFRAME)
  }

  lemma {:induction false} ChangedSpace(w: World, m': Mem, i: nat, sz: nat, j: nat)
    requires Changed(w, m', i, sz) && j < |w.procs|
    ensures SpaceOk(m', if j == i then Space(w.procs[i].root, sz) else w.procs[j])
  {
    var r, p := w.procs[i].root, w.procs[j];
    WorldSpace(w, i);
    WorldSpace(w, j);
    assert j != i ==> p.root != r by { assert Unfold(WORLD, 0); }
    NearShape(w.m, m', r, 0, TRAPFRAME, {});
    forall v | PagesOf(if j == i then sz else p.sz) <= v < MAXV ensures !IsValid(Entry(m', p.root, v)) {
      if j != i || v >= TRAPFRAME {
        NearEntry(w.m, m', r, 0, TRAPFRAME, {}, p.root, v);
      }
    }
  }

  lemma {:induction false} ChangedOk(w: World, m': Mem, i: nat, sz: nat)
    requires Changed(w, m', i, sz)
    ensures WorldOk(World(m', w.procs[i := Space(w.procs[i].root, sz)])) && Conserved(w.m, m')
  {
    var procs := w.procs[i := Space(w.procs[i].root, sz)];
    NearShape(w.m, m', w.procs[i].root, 0, TRAPFRAME, {});
    NearHolds(w.m, m', w.procs[i].root, 0, TRAPFRAME);
    forall j | 0 <= j < |procs| ensures SpaceOk(m', procs[j]) {
      ChangedSpace(w, m', i, sz, j);
    }
    assert Apart(w.procs) && (forall r :: Root(w.m, r) ==> HasRoot(w.procs, r)) by { assert Unfold(WORLD, 0); }
    forall r | Root(m', r) ensures HasRoot(procs, r) {
      var k :| 0 <= k < |w.procs| && w.procs[k].root == r;
      assert procs[k].root == r;
    }
  }

  lemma {:induction false} ChangedLooks(w: World, m': Mem, i: nat, sz: nat)
    requires Changed(w, m', i, sz)
    ensures OthersLook(w, World(m', w.procs[i := Space(w.procs[i].root, sz)]), i)
  {
    forall j | 0 <= j < |w.procs| && j != i ensures Looks(w.m, w.procs[j], m', w.procs[j]) {
      WorldSpace(w, j);
      assert w.procs[j].root != w.procs[i].root by { assert Unfold(WORLD, 0); }
      LooksNear(w.m, m', w.procs[i].root, 0, TRAPFRAME, w.procs[j]);
    }
  }

  /** Process i sees no change. */
  lemma {:induction false} CalmOk(w: World, m': Mem, i: nat)
    requires WorldOk(w) && i < |w.procs| && Calm(w.m, m', w.procs[i].root, w.procs[i].sz)
    ensures WorldOk(World(m', w.procs)) && Conserved(w.m, m') && OthersLook(w, World(m', w.procs), |w.procs|)
  {
    var p := w.procs[i];
    WorldSpace(w, i);
    CalmShape(w.m, m', p.root, p.sz);
    forall v | PagesOf(p.sz) <= v < TRAPFRAME ensures !IsValid(Entry(m', p.root, v)) {
      CalmView(w.m, m', p.root, p.sz, v);
    }
    ChangedOk(w, m', i, p.sz);
    ChangedLooks(w, m', i, p.sz);
    LooksCalm(w.m, m', p);
    assert w.procs[i := Space(p.root, p.sz)] == w.procs;
  }

  lemma {:induction false} WroteOk(w: World, m': Mem, i: nat, a: nat, bs: seq<Byte>)
    requires WorldOk(w) && i < |w.procs| && Wrote(w.m, m', w.procs[i].root, w.procs[i].sz, a, bs)
    ensures WorldOk(World(m', w.procs)) && Conserved(w.m, m') && OthersLook(w, World(m', w.procs), i)
  {
    var p := w.procs[i];
    WorldSpace(w, i);
    WroteShape(w.m, m', p.root, p.sz, a, bs);
    forall v | PagesOf(p.sz) <= v < TRAPFRAME ensures !IsValid(Entry(m', p.root, v)) {
      WroteView(w.m, m', p.root, p.sz, a, bs, v);
    }
    ChangedOk(w, m', i, p.sz);
    ChangedLooks(w, m', i, p.sz);
    assert w.procs[i := Space(p.root, p.sz)] == w.procs;
  }

  lemma {:induction false} ResizedOk(w: World, m': Mem, i: nat, sz: nat)
    requires WorldOk(w) && i < |w.procs| && Resized(w.m, m', w.procs[i].root, w.procs[i].sz, sz)
             && PagesOf(sz) <= TRAPFRAME
    ensures var w' := World(m', w.procs[i := Space(w.procs[i].root, sz)]);
            WorldOk(w') && Conserved(w.m, m') && OthersLook(w, w', i)
  {
    ResizedShape(w.m, m', w.procs[i].root, w.procs[i].sz, sz);
    ChangedOk(w, m', i, sz);
    ChangedLooks(w, m', i, sz);
  }

  /** An operation on process i that found no memory and changed nothing. */
  lemma {:induction false} UndoneOk(w: World, m': Mem, i: nat)
    requires WorldOk(w) && i < |w.procs| && Near(w.m, m', w.procs[i].root, 0, 0, {})
    ensures WorldOk(World(m', w.procs)) && Conserved(w.m, m')
  {
    var p := w.procs[i];
    WorldSpace(w, i);
    CalmNear(w.m, m', p.root, p.sz);
    CalmOk(w, m', i);
  }

  lemma {:induction false} CreatedSpace(w: World, m': Mem, r: nat, j: nat)
    requires WorldOk(w) && Created(w.m, m', r) && j < |w.procs|
    ensures SpaceOk(m', w.procs[j]) && w.procs[j].root != r && Looks(w.m, w.procs[j], m', w.procs[j])
  {
    WorldSpace(w, j);
    LooksCreated(w.m, m', r, w.procs[j]);
  }

  lemma {:induction false} CreatedOk(w: World, m': Mem, r: nat)
    requires WorldOk(w) && Created(w.m, m', r)
    ensures var w' := World(m', w.procs + [Space(r, 0)]);
            WorldOk(w') && Conserved(w.m, m') && OthersLook(w, w', |w.procs|) && Blank(m', Space(r, 0))
            && AllUnmapped(m', r, 0, MAXV)
  {
    var procs := w.procs + [Space(r, 0)];
    PteParts(0, 0);
    forall j | 0 <= j < |w.procs|
      ensures SpaceOk(m', w.procs[j]) && w.procs[j].root != r && Looks(w.m, w.procs[j], m', w.procs[j]) {
      CreatedSpace(w, m', r, j);
    }
    assert Apart(w.procs) && (forall x :: Root(w.m, x) ==> HasRoot(w.procs, x)) by { assert Unfold(WORLD, 0); }
    forall x | Root(m', x) ensures HasRoot(procs, x) {
      if x == r {
        assert procs[|w.procs|].root == x;
      } else {
        assert Root(w.m, x);
        var k :| 0 <= k < |w.procs| && w.procs[k].root == x;
        assert procs[k].root == x;
      }
    }
  }

  /** Where process j of w is without process i. */
  function Without(procs: seq<Space>, i: nat): (s: seq<Space>)
    requires i < |procs|
    ensures |s| == |procs| - 1 && forall j :: 0 <= j < |s| ==> s[j] == procs[if j < i then j else j + 1]
  {
    procs[..i] + procs[i + 1..]
  }

  lemma {:induction false} VanishedSpace(w: World, m': Mem, i: nat, j: nat)
    requires WorldOk(w) && i < |w.procs| && j < |w.procs| && i != j && Vanished(w.m, m', w.procs[i].root)
    ensures SpaceOk(m', w.procs[j]) && Looks(w.m, w.procs[j], m', w.procs[j])
  {
    var r, p := w.procs[i].root, w.procs[j];
    WorldSpace(w, j);
    assert p.root != r by { assert Unfold(WORLD, 0); }
    VanishedEntry(w.m, m', r, p.root, 0);
    forall v | PagesOf(p.sz) <= v < MAXV ensures !IsValid(Entry(m', p.root, v)) {
      VanishedEntry(w.m, m', r, p.root, v);
    }
    LooksVanished(w.m, m', r, p);
  }

  lemma {:induction false} VanishedOwner(m: Mem, m': Mem, r: nat)
    requires Vanished(m, m', r)
    ensures Sane(m') && Conserved(m, m') && !Root(m', r) && forall x :: Root(m', x) ==> Root(m, x)
  {
    assert Unfold(VANISHED, 0);
  }

  lemma {:induction false} VanishedOk(w: World, m': Mem, i: nat)
    requires WorldOk(w) && i < |w.procs| && Vanished(w.m, m', w.procs[i].root)
    ensures WorldOk(World(m', Without(w.procs, i))) && Conserved(w.m, m')
    ensures forall j :: 0 <= j < |w.procs| && j != i ==> Looks(w.m, w.procs[j], m', w.procs[j])
  {
    var procs := Without(w.procs, i);
    VanishedOwner(w.m, m', w.procs[i].root);
    forall j | 0 <= j < |w.procs| && j != i ensures SpaceOk(m', w.procs[j]) && Looks(w.m, w.procs[j], m', w.procs[j]) {
      VanishedSpace(w, m', i, j);
    }
    assert Apart(w.procs) && (forall x :: Root(w.m, x) ==> HasRoot(w.procs, x)) by { assert Unfold(WORLD, 0); }
    forall x | Root(m', x) ensures HasRoot(procs, x) {
      var k :| 0 <= k < |w.procs| && w.procs[k].root == x;
      assert procs[if k < i then k else k - 1].root == x;
    }
  }

  lemma {:induction false} ConservedTrans(a: Mem, b: Mem, c: Mem)
    requires Conserved(a, b) && Conserved(b, c)
    ensures Conserved(a, c)
  {
    assert forall p :: p in a.owner ==> p in b.owner;
  }

  /** A new tree q (mid) that became a copy of the tree of process i. */
  lemma {:induction false} ForkedOk(w: World, mid: Mem, m': Mem, i: nat, q: nat)
    requires WorldOk(w) && i < |w.procs| && Created(w.m, mid, q)
             && Forked(mid, m', w.procs[i].root, q, PagesOf(w.procs[i].sz))
    ensures var w' := World(m', w.procs + [Space(q, w.procs[i].sz)]);
            && WorldOk(w') && Conserved(w.m, m') && OthersLook(w, w', |w.procs|)
            && Looks(w.m, w.procs[i], m', Space(q, w.procs[i].sz))
  {
    var p, k := w.procs[i], |w.procs|;
    var x := World(mid, w.procs + [Space(q, 0)]);
    CreatedOk(w, mid, q);
    WorldSpace(x, i);
    ForkedShape(mid, m', p.root, q, PagesOf(p.sz));
    NearWiden(mid, m', q, 0, PagesOf(p.sz), {}, 0, TRAPFRAME, {});
    forall v | PagesOf(p.sz) <= v < TRAPFRAME ensures !IsValid(Entry(m', q, v)) {
      NearEntry(mid, m', q, 0, PagesOf(p.sz), {}, q, v);
    }
    ChangedOk(x, m', k, p.sz);
    ChangedLooks(x, m', k, p.sz);
    assert x.procs[k := Space(q, p.sz)] == w.procs + [Space(q, p.sz)];
    ConservedTrans(w.m, mid, m');
    forall j | 0 <= j < k ensures Looks(w.m, w.procs[j], m', w.procs[j]) {
      CreatedSpace(w, mid, q, j);
      assert x.procs[j] == w.procs[j];
      LooksTrans(w.m, w.procs[j], mid, w.procs[j], m', w.procs[j]);
    }
    forall v | 0 <= v < TRAPFRAME ensures View(m', q, p.sz, v) == View(w.m, p.root, p.sz, v) {
      CreatedSpace(w, mid, q, i);
      LooksAt(w.m, p, mid, p, v);
      ForkedView(mid, m', p.root, q, p.sz, v);
    }
  }

  // -------------------------------------------------- what copyinstr refuses

  /** A process of one page, granted by sbrk and not touched yet: it sees the empty string at address 0, and
      copyinstr, which looks at the page table alone, finds nothing to read there. */
  lemma {:induction false} LazyStringRefused() returns (w: World)
    ensures WorldOk(w) && w.procs == [Space(1, PGSIZE)]
    ensures IsString(w.m, 1, PGSIZE, 0, []) && forall bs :: !IsString(w.m, 1, 0, 0, bs)
  {
    var m := OneRoot();
    w := World(m, [Space(1, PGSIZE)]);
    PteParts(0, 0);
    LazyString(m, 1, PGSIZE, 0);
    forall r | Root(m, r) ensures HasRoot(w.procs, r) {
      assert w.procs[0].root == r;
    }
  }
}
