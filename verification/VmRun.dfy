/**
  Processes that share the memory of one machine, as the system calls use kernel/vm.c:
  any sequence of creating, growing, faulting, copying, forking and freeing address
  spaces, with memory running out at any point.
 */
module VmRun {
  import opened Bits
  import opened Vm
  import opened VmSpace
  import opened VmOps
  import opened VmCopy
  import opened VmWorld
  import opened VmCode

  class Kernel {
    const mc: Machine
    var procs: seq<Space>

    ghost function Now(): World
      reads this, mc
    {
      World(mc.Now(), procs)
    }

    /** kinit: all n pages from `first` on are free, and there is no process. */
    constructor (first: nat, n: nat)
      requires first > 0
      ensures WorldOk(Now()) && procs == [] && fresh(mc)
      ensures mc.owner.Keys == PageRange(first, n) && forall p :: p in mc.owner ==> mc.owner[p] == Free
    {
      mc := new Machine(first, n);
      procs := [];
    }

    /** uvmcreate */
    method DoCreate() returns (ghost short: bool)
      requires WorldOk(Now())
      modifies this, mc
      ensures WorldOk(Now()) && Conserved(old(mc.Now()), mc.Now())
      ensures !short ==> Does(old(Now()), Create, Done, Now())
      ensures short ==> mc.free == old(mc.free) == []
    {
      WorldSane(Now());
      var r := mc.Uvmcreate();
      if r == 0 {
        return true;
      }
      CreatedOk(old(Now()), mc.Now(), r);
      procs := procs + [Space(r, 0)];
      return false;
    }

    /** uvmfree */
    method DoExit(i: nat)
      requires WorldOk(Now()) && i < |procs|
      modifies this, mc
      ensures WorldOk(Now()) && Conserved(old(mc.Now()), mc.Now())
      ensures Does(old(Now()), Exit(i), Done, Now())
    {
      WorldSpace(Now(), i);
      var _ := mc.Uvmfree(procs[i].root, procs[i].sz);
      VanishedOk(old(Now()), mc.Now(), i);
      procs := Without(procs, i);
    }

    /** sbrk, lazy or eager */
    method DoGrow(i: nat, n: int, eager: bool) returns (ghost short: bool)
      requires WorldOk(Now()) && CanGrow(procs, i, n)
      modifies this, mc
      ensures WorldOk(Now()) && Conserved(old(mc.Now()), mc.Now())
      ensures !short ==> Does(old(Now()), Grow(i, n), Done, Now())
      ensures short ==> |old(mc.free)| < Need(old(procs), Grow(i, n))
    {
      WorldSpace(Now(), i);
      var p := procs[i];
      var ok, _, sz := mc.Sbrk(p.root, p.sz, n, eager);
      if !ok {
        UndoneOk(old(Now()), mc.Now(), i);
        return true;
      }
      ResizedOk(old(Now()), mc.Now(), i, sz);
      ResizedShape(old(mc.Now()), mc.Now(), p.root, p.sz, sz);
      procs := procs[i := Space(p.root, sz)];
      return false;
    }

    /** vmfault */
    method DoFault(i: nat, va: nat)
      requires WorldOk(Now()) && i < |procs|
      modifies this, mc
      ensures WorldOk(Now()) && Conserved(old(mc.Now()), mc.Now())
      ensures Does(old(Now()), Fault(i, va), Done, Now())
    {
      WorldSpace(Now(), i);
      var _, _ := mc.Vmfault(procs[i].root, procs[i].sz, va);
      CalmOk(old(Now()), mc.Now(), i);
    }

    method DoCopyIn(i: nat, a: nat, len: nat) returns (ghost short: bool, res: Res)
      requires WorldOk(Now()) && i < |procs|
      modifies this, mc
      ensures WorldOk(Now()) && Conserved(old(mc.Now()), mc.Now())
      ensures !short ==> Does(old(Now()), CopyIn(i, a, len), res, Now())
      ensures short ==> |old(mc.free)| < Need(old(procs), CopyIn(i, a, len))
    {
      WorldSpace(Now(), i);
      var p := procs[i];
      var ok, _, bytes := mc.Copyin(p.root, p.sz, a, len);
      CalmOk(old(Now()), mc.Now(), i);
      if !ok {
        TouchedGrows(a, |bytes| + 1, len);
      }
      return !ok && Readable(old(mc.Now()), p.root, p.sz, (a + |bytes|) / PGSIZE), Read(ok, bytes);
    }

    method DoCopyOut(i: nat, a: nat, bs: seq<Byte>) returns (ghost short: bool, res: Res)
      requires WorldOk(Now()) && i < |procs|
      modifies this, mc
      ensures WorldOk(Now()) && Conserved(old(mc.Now()), mc.Now())
      ensures !short ==> Does(old(Now()), CopyOut(i, a, bs), res, Now())
      ensures short ==> |old(mc.free)| < Need(old(procs), CopyOut(i, a, bs))
    {
      WorldSpace(Now(), i);
      var p := procs[i];
      var ok, n := mc.Copyout(p.root, p.sz, a, bs);
      WroteOk(old(Now()), mc.Now(), i, a, bs[..n]);
      forall v | 0 <= v < TRAPFRAME
        ensures Patched(View(old(mc.Now()), p.root, p.sz, v), View(mc.Now(), p.root, p.sz, v), v, a, bs[..n])
      {
        WroteView(old(mc.Now()), mc.Now(), p.root, p.sz, a, bs[..n], v);
      }
      if !ok {
        TouchedGrows(a, n + 1, |bs|);
      }
      short := !ok && Writable(old(mc.Now()), p.root, p.sz, (a + n) / PGSIZE);
      assert !short ==> DoesWrite(old(mc.Now()), p, mc.Now(), p, a, bs, ok, n);
      return short, Put(ok);
    }

    /** uvmcreate and uvmcopy, as fork does; without memory for the copy the new address space goes away again. */
    method DoFork(i: nat) returns (ghost short: bool)
      requires WorldOk(Now()) && i < |procs|
      modifies this, mc
      ensures WorldOk(Now()) && Conserved(old(mc.Now()), mc.Now())
      ensures !short ==> Does(old(Now()), Fork(i), Done, Now())
      ensures short ==> |old(mc.free)| < Need(old(procs), Fork(i))
    {
      var p := procs[i];
      ghost var k := |procs|;
      WorldSane(Now());
      var q := mc.Uvmcreate();
      if q == 0 {
        return true;
      }
      ghost var mid := World(mc.Now(), procs + [Space(q, 0)]);
      CreatedOk(old(Now()), mid.m, q);
      WorldSpace(mid, i);
      WorldSpace(mid, k);
      RootsDiffer(mid, i, k);
      var ok := mc.Uvmcopy(p.root, q, p.sz);
      if !ok {
        UndoneOk(mid, mc.Now(), k);
        ghost var back := World(mc.Now(), mid.procs);
        WorldSpace(back, k);
        var _ := mc.Uvmfree(q, 0);
        VanishedOk(back, mc.Now(), k);
        assert Without(mid.procs, k) == procs;
        ConservedTrans(old(mc.Now()), mid.m, back.m);
        ConservedTrans(old(mc.Now()), back.m, mc.Now());
        return true;
      }
      ForkedOk(old(Now()), mid.m, mc.Now(), i, q);
      procs := procs + [Space(q, p.sz)];
      return false;
    }

    /** One operation; sbrk is eager or lazy as asked.  `short` says that memory ran out. */
    method Do(op: Op, eager: bool) returns (res: Res, ghost short: bool)
      requires WorldOk(Now())
      modifies this, mc
      ensures WorldOk(Now()) && Conserved(old(mc.Now()), mc.Now())
      ensures !short ==> Does(old(Now()), op, res, Now())
      ensures short ==> Lacks(old(Now()), op)
    {
      res, short := Done, false;
      if !Enabled(procs, op) {
        return;
      }
      match op
      case Create => short := DoCreate();
      case Exit(i) => DoExit(i);
      case Grow(i, n) => short := DoGrow(i, n, eager);
      case Fault(i, va) => DoFault(i, va);
      case CopyIn(i, a, len) => short, res := DoCopyIn(i, a, len);
      case CopyOut(i, a, bs) => short, res := DoCopyOut(i, a, bs);
      case Fork(i) => short := DoFork(i);
    }

    /** Any sequence of operations, whatever fails on the way: memory stays sane, its trees are those of the
        processes, and no page is lost.  If none ran out of memory this is a run of what the operations do. */
    method Run(ops: seq<Op>, eager: seq<bool>) returns (rs: seq<Res>, ghost ws: seq<World>, ghost short: bool)
      requires WorldOk(Now()) && |eager| == |ops|
      modifies this, mc
      ensures WorldOk(Now()) && Conserved(old(mc.Now()), mc.Now())
      ensures |ws| == |ops| + 1 && ws[0] == old(Now()) && ws[|ops|] == Now() && |rs| == |ops|
      ensures !short ==> Ran(ws, ops, rs)
      ensures short ==> exists k :: 0 <= k < |ops| && Lacks(ws[k], ops[k])
    {
      rs, ws, short := [], [Now()], false;
      while |rs| < |ops|
        invariant |rs| <= |ops| && |ws| == |rs| + 1 && ws[0] == old(Now()) && ws[|rs|] == Now()
        invariant WorldOk(Now()) && Conserved(old(mc.Now()), mc.Now())
        invariant !short ==> forall k :: 0 <= k < |rs| ==> Does(ws[k], ops[k], rs[k], ws[k + 1])
        invariant short ==> exists k :: 0 <= k < |rs| && Lacks(ws[k], ops[k])
      {
        ghost var before, k := Now(), |rs|;
        ghost var lack;
        var res;
        res, lack := Do(ops[|rs|], eager[|rs|]);
        ConservedTrans(old(mc.Now()), before.m, mc.Now());
        rs, ws := rs + [res], ws + [Now()];
        assert lack ==> Lacks(ws[k], ops[k]);
        short := short || lack;
      }
    }
  }

  /** Two kernels whose processes see the same and that run the same operations, one growing them lazily and
      one eagerly: unless one of them runs out of memory, all results are the same, and the processes see the
      same afterwards.  Neither loses a page. */
  method LazyBesideEager(k: Kernel, e: Kernel, ops: seq<Op>)
    returns (rs: seq<Res>, ss: seq<Res>, ghost kShort: bool, ghost eShort: bool)
    requires k != e && k.mc != e.mc && WorldOk(k.Now()) && WorldOk(e.Now()) && Alike(k.Now(), e.Now())
    modifies k, k.mc, e, e.mc
    ensures WorldOk(k.Now()) && Conserved(old(k.mc.Now()), k.mc.Now())
    ensures WorldOk(e.Now()) && Conserved(old(e.mc.Now()), e.mc.Now())
    ensures !kShort && !eShort ==> rs == ss && Alike(k.Now(), e.Now())
  {
    ghost var ws, xs;
    rs, ws, kShort := k.Run(ops, seq(|ops|, _ => false));
    ss, xs, eShort := e.Run(ops, seq(|ops|, _ => true));
    if !kShort && !eShort {
      LazyRefinesEager(ws, xs, ops, rs, ss);
    }
  }
}
