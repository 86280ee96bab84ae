/**
  The code of kernel/log.c over its own variables.  Every method is proved to be
  a run of the step system of module Log: it extends the ghost `steps` by one
  step for each critical section and each bwrite, so the theorems of that module
  speak about every point at which this code can be interrupted by a crash.
 */
module LogDevice {
  import opened Base
  import opened Fold
  import opened Log

  const RUN := 1

  function Times(n: nat, step: Step): (r: seq<Step>)
    ensures |r| == n && forall i :: 0 <= i < n ==> r[i] == step
  {
    if n == 0 then [] else Times(n - 1, step) + [step]
  }

  /** `steps` lead from `s0` to `s`. */
  ghost predicate Reached(s0: State, steps: seq<Step>, s: State) {
    Initial(s0) && forall u {:trigger Unfold(RUN, u)} :: Unfold(RUN, u) ==> s == Exec(s0, steps)
  }

  lemma ReachedSnoc(s0: State, steps: seq<Step>, s: State, step: Step)
    requires Reached(s0, steps, s)
    ensures Wf(s) && Reached(s0, steps + [step], Apply(s, step))
  {
    assert Unfold(RUN, 0);
    ExecSnoc(s0, steps, step);
  }

  lemma ReachedInv(s0: State, steps: seq<Step>, s: State)
    requires Reached(s0, steps, s)
    ensures Inv(s) && |s.disk| == |s0.disk|
  {
    assert Unfold(RUN, 0);
    InitialInv(s0);
    RunInv(s0, steps);
  }

  class Device {
    const start: int
    var disk: seq<Block>
    var cache: seq<Block>   // what bread returns for a home block
    var lh: seq<int>        // log.lh: lh.n is |lh|
    var outstanding: nat
    var committing: bool
    var halted: bool        // a panic was reached

    ghost const s0: State
    ghost var steps: seq<Step>
    ghost var s: State      // where those steps lead

    ghost predicate Valid()
      reads this
    {
      && Reached(s0, steps, s)
      && s.start == start && s.disk == disk && s.cache == cache && s.lh == lh
      && |s.ops| == outstanding && s.panicked == halted
      && committing == (s.phase.Writing? || s.phase.Installing? || s.phase.Erased?)
      && s.init == s0.init
    }

    /** A machine that has just been switched on, with a disk whose log is empty. */
    constructor (start: int, disk: seq<Block>)
      requires GoodLayout(start, |disk|) && disk[start][0] == 0
      ensures Valid() && s.phase == Booting && !halted && this.start == start && this.disk == disk && steps == []
      ensures s0.init == disk && s.committed == []
    {
      this.start := start;
      this.disk, this.cache, this.lh := disk, disk, [];
      this.outstanding, this.committing, this.halted := 0, false, false;
      var boot := State(start, disk, disk, [], [], Booting, false, disk, [], [], 0);
      s0 := boot;
      s := boot;
      steps := [];
    }

    /** Records one step of the step system. */
    ghost method Took(step: Step)
      requires Wf(s) && Reached(s0, steps, s)
      modifies this`steps, this`s
      ensures steps == old(steps) + [step]
      ensures Reached(s0, steps, s) && s == Apply(old(s), step)
    {
      ReachedSnoc(s0, steps, s, step);
      steps := steps + [step];
      s := Apply(s, step);
    }

    lemma Facts()
      requires Valid()
      ensures Wf(s) && GoodLayout(start, |disk|) && |cache| == |disk| && |lh| <= LOGBLOCKS
      ensures forall i :: 0 <= i < |lh| ==> Home(start, |disk|, lh[i])
      ensures outstanding > 0 ==> s.phase.Running?
      ensures 0 <= disk[start][0] <= LOGBLOCKS && |disk| == |s0.disk|
    {
      ReachedInv(s0, steps, s);
      InvShape(s);
    }

    /** write_head: one bwrite of the header, built over the old header block. */
    method WriteHead()
      requires 0 <= start < |disk| && |lh| <= LOGBLOCKS
      modifies this`disk
      ensures disk == old(disk)[start := EncodeHead(old(disk)[start], lh)]
    {
      var hb: seq<int> := disk[start];
      hb := hb[0 := |lh|];
      var i := 0;
      while i < |lh|
        invariant 0 <= i <= |lh| && |hb| == WORDS
        invariant hb == [|lh|] + lh[..i] + disk[start][1 + i..]
      {
        hb := hb[1 + i := lh[i]];
        i := i + 1;
      }
      assert lh[..|lh|] == lh;
      disk := disk[start := hb];
    }

    method ReadHead()
      requires Valid() && s.phase == Booting && !halted
      modifies this
      ensures Valid() && !halted && s.phase == Recovering(0)
      ensures steps == old(steps) + [Step.ReadHead]
      ensures disk == old(disk) && 0 <= start < |disk| && lh == DecodeHead(disk[start]) && |lh| == disk[start][0]
      ensures s.committed == old(s).committed
    {
      Facts();
      var b := disk[start];
      lh := [];
      var i := 0;
      while i < b[0]
        invariant 0 <= i <= b[0]
        invariant lh == b[1..1 + i]
        modifies this`lh
      {
        lh := lh + [b[1 + i]];
        i := i + 1;
      }
      Took(Step.ReadHead);
    }

    /** A turn of install_trans. */
    method CopyOneHome(tail: nat)
      requires Valid() && !halted && tail < |lh| && (s.phase == Installing(tail) || s.phase == Recovering(tail))
      modifies this`disk, this`cache, this`steps, this`s
      ensures Valid() && !halted && s.committed == old(s).committed && steps == old(steps) + [CopyHome]
      ensures s.phase == if old(s).phase.Installing? then Installing(tail + 1) else Recovering(tail + 1)
    {
      Facts();
      var lbuf := disk[start + tail + 1];
      disk := disk[lh[tail] := lbuf];
      cache := cache[lh[tail] := lbuf];
      Took(CopyHome);
    }

    /** install_trans, called from commit and from recovery. */
    method InstallTrans()
      requires Valid() && !halted && (s.phase == Installing(0) || s.phase == Recovering(0))
      modifies this`disk, this`cache, this`steps, this`s
      ensures Valid() && !halted && lh == old(lh) && s.committed == old(s).committed
      ensures s.phase == if old(s).phase.Installing? then Installing(|lh|) else Recovering(|lh|)
      ensures steps == old(steps) + Times(|lh|, CopyHome)
    {
      var tail := 0;
      while tail < |lh|
        invariant 0 <= tail <= |lh| && lh == old(lh)
        invariant Valid() && !halted && s.committed == old(s).committed
        invariant s.phase == if old(s).phase.Installing? then Installing(tail) else Recovering(tail)
        invariant steps == old(steps) + Times(tail, CopyHome)
      {
        CopyOneHome(tail);
        tail := tail + 1;
      }
    }

    /** A turn of write_log. */
    method CopyOneToLog(tail: nat)
      requires Valid() && !halted && tail < |lh| && s.phase == Writing(tail)
      modifies this`disk, this`steps, this`s
      ensures Valid() && !halted && s.phase == Writing(tail + 1) && steps == old(steps) + [CopyToLog]
      ensures s.committed == old(s).committed && s.pending == old(s).pending
    {
      Facts();
      disk := disk[start + tail + 1 := cache[lh[tail]]];
      Took(CopyToLog);
    }

    method WriteLog()
      requires Valid() && !halted && s.phase == Writing(0)
      modifies this`disk, this`steps, this`s
      ensures Valid() && !halted && lh == old(lh) && s.phase == Writing(|lh|)
      ensures steps == old(steps) + Times(|lh|, CopyToLog)
      ensures s.committed == old(s).committed && s.pending == old(s).pending
    {
      var tail := 0;
      while tail < |lh|
        invariant 0 <= tail <= |lh| && lh == old(lh) && s.committed == old(s).committed && s.pending == old(s).pending
        invariant Valid() && !halted && s.phase == Writing(tail)
        invariant steps == old(steps) + Times(tail, CopyToLog)
      {
        CopyOneToLog(tail);
        tail := tail + 1;
      }
    }

    /** The write_head that commits. */
    method CommitHead()
      requires Valid() && !halted && s.phase == Writing(|lh|)
      modifies this`disk, this`steps, this`s
      ensures Valid() && !halted && s.phase == Installing(0) && steps == old(steps) + [Step.Commit]
      ensures s.committed == old(s).committed + [old(s).pending]
    {
      Facts();
      WriteHead();
      Took(Step.Commit);
    }

    /** The write_head that erases the log. */
    method EraseHead()
      requires Valid() && !halted && (s.phase == Installing(|lh|) || s.phase == Recovering(|lh|))
      modifies this`disk, this`lh, this`steps, this`s
      ensures Valid() && !halted && lh == [] && steps == old(steps) + [Erase] && s.committed == old(s).committed
      ensures s.phase == if old(s).phase.Installing? then Erased else Running
    {
      Facts();
      lh := [];
      WriteHead();
      Took(Erase);
    }

    /** The bwrites of commit(), in order, when n blocks are logged. */
    static ghost function CommitSteps(n: nat): seq<Step> {
      if n == 0 then []
      else Times(n, CopyToLog) + [Step.Commit] + Times(n, CopyHome) + [Erase]
    }

    method Commit()
      requires Valid() && !halted
      requires s.phase == if lh == [] then Erased else Writing(0)
      modifies this
      ensures Valid() && !halted && s.phase == Erased && lh == []
      ensures steps == old(steps) + CommitSteps(|old(lh)|)
      ensures s.committed == old(s).committed + if old(lh) == [] then [] else [old(s).pending]
    {
      Facts();
      if |lh| > 0 {
        WriteLog();
        CommitHead();
        InstallTrans();
        EraseHead();
        assert steps == old(steps) + CommitSteps(|old(lh)|);
      } else {
        assert old(steps) + [] == old(steps);
      }
    }

    /** The machine loses power: the disk is all that is left, and bread finds what is on it. */
    method Crash()
      requires Valid()
      modifies this
      ensures Valid() && !halted && s.phase == Booting && disk == old(disk) && lh == [] && outstanding == 0
      ensures steps == old(steps) + [Step.Crash] && s.committed == old(s).committed
    {
      Facts();
      cache, lh, outstanding, committing, halted := disk, [], 0, false, false;
      Took(Step.Crash);
    }

    /** commit() with a power failure after `cut` of its bwrites, and the recovery at the next boot: the group
        is there, whole, if its header was among them, and otherwise nothing of it is. */
    method CommitCut(cut: nat)
      requires Valid() && !halted && s.phase == Writing(0)
      modifies this
      ensures Valid() && !halted && s.phase == Running && lh == [] && outstanding == 0
      ensures SameHome(start, disk, if cut > |old(lh)| then Volatile(old(s)) else Durable(old(s)))
      ensures SameHome(start, cache, if cut > |old(lh)| then Volatile(old(s)) else Durable(old(s)))
    {
      var n := |lh|;
      var k := 0;
      while k < n && k < cut
        invariant 0 <= k <= n && k <= cut && lh == old(lh) && Valid() && !halted && s.phase == Writing(k)
        invariant s.committed == old(s).committed && s.pending == old(s).pending && s.init == old(s).init
      {
        CopyOneToLog(k);
        k := k + 1;
      }
      if cut > n {
        ReplayGroupsSnoc(s.init, s.committed, s.pending);
        CommitHead();
        k := 0;
        while k < n && n + 1 + k < cut
          invariant 0 <= k <= n && lh == old(lh) && Valid() && !halted && s.phase == Installing(k)
          invariant s.committed == old(s).committed + [old(s).pending] && s.init == old(s).init
        {
          CopyOneHome(k);
          k := k + 1;
        }
        if k == n && n + 1 + k < cut {
          EraseHead();
        }
      }
      Crash();
      RecoverFromLog();
    }

    /** recover_from_log at boot: afterwards the disk holds exactly the committed groups. */
    method RecoverFromLog()
      requires Valid() && s.phase == Booting && !halted
      modifies this
      ensures Valid() && !halted && s.phase == Running && outstanding == 0 && lh == [] && |disk| == |old(disk)|
      ensures 0 <= start < |old(disk)|
      ensures steps == old(steps) + [Step.ReadHead] + Times(|DecodeHead(old(disk)[start])|, CopyHome) + [Erase]
      ensures s.committed == old(s).committed
      ensures SameHome(start, disk, Durable(s)) && SameHome(start, cache, Durable(s))
    {
      Facts();
      ReadHead();
      InstallTrans();
      Facts();
      EraseHead();
      ReachedInv(s0, steps, s);
      InvShape(s);
      EmptyLogIsClean(s);
    }

    /** One pass of begin_op's loop: either the call is admitted or it has to sleep. */
    method BeginOp() returns (admitted: bool)
      requires Valid() && !halted && !s.phase.Booting? && !s.phase.Recovering?
      modifies this
      ensures Valid() && !halted
      ensures s.committed == old(s).committed && s.phase == old(s).phase
      ensures admitted == (!old(committing) && |old(lh)| + (old(outstanding) + 1) * MAXOPBLOCKS <= LOGBLOCKS)
      ensures steps == if admitted then old(steps) + [Begin] else old(steps)
      ensures outstanding == if admitted then old(outstanding) + 1 else old(outstanding)
      ensures disk == old(disk) && cache == old(cache) && lh == old(lh)
    {
      Facts();
      if committing || |lh| + (outstanding + 1) * MAXOPBLOCKS > LOGBLOCKS {
        admitted := false;
      } else {
        outstanding := outstanding + 1;
        Took(Begin);
        admitted := true;
      }
    }

    /** log_write(b) by outstanding call i, after the call stored `data` in the buffer. */
    method LogWrite(ghost i: nat, b: int, data: Block)
      requires Valid() && !halted && i < outstanding && Home(start, |disk|, b)
      modifies this
      ensures Valid() && steps == old(steps) + [Step.LogWrite(i, b, data)]
      ensures halted <==> |old(lh)| >= LOGBLOCKS
      ensures !halted ==> lh == (if b in old(lh) then old(lh) else old(lh) + [b])
      ensures 0 <= b < |old(cache)|
      ensures !halted ==> cache == old(cache)[b := data]
      ensures disk == old(disk) && outstanding == old(outstanding)
      ensures s.committed == old(s).committed && s.phase == old(s).phase
    {
      Facts();
      if |lh| >= LOGBLOCKS {
        halted := true;
      } else {
        var k := 0;
        while k < |lh| && lh[k] != b
          invariant 0 <= k <= |lh| && b !in lh[..k]
        {
          k := k + 1;
        }
        cache := cache[b := data];
        if k == |lh| {
          assert lh[..k] == lh;
          lh := lh + [b];
        } else {
          lh := lh[k := b];
        }
      }
      Took(Step.LogWrite(i, b, data));
    }

    /** end_op of outstanding call i; the last one out commits the whole group. */
    method EndOp(ghost i: nat)
      requires Valid() && !halted && i < outstanding
      modifies this
      ensures Valid() && !halted && outstanding == old(outstanding) - 1 && s.phase == Running
      ensures outstanding > 0 ==> steps == old(steps) + [End(i)] && disk == old(disk) && lh == old(lh)
      ensures outstanding == 0 ==>
                && steps == old(steps) + [End(i)] + CommitSteps(|old(lh)|) + [Resume]
                && lh == [] && s.pending == []
                && SameHome(start, disk, Durable(s)) && SameHome(start, cache, Durable(s))
                && s.committed == old(s).committed + if old(lh) == [] then [] else [old(s).pending]
    {
      Facts();
      outstanding := outstanding - 1;
      var doCommit := outstanding == 0;
      if doCommit {
        committing := true;
      }
      Took(End(i));
      if doCommit {
        Commit();
        Facts();
        committing := false;
        Took(Resume);
        ReachedInv(s0, steps, s);
        EmptyLogIsClean(s);
      }
    }

    /** end_op of the last call, with a power failure after `cut` bwrites of its commit, and the next boot. */
    method EndOpCut(cut: nat)
      requires Valid() && !halted && outstanding == 1 && lh != []
      modifies this
      ensures Valid() && !halted && s.phase == Running && lh == [] && outstanding == 0
      ensures SameHome(start, disk, if cut > |old(lh)| then Volatile(old(s)) else Durable(old(s)))
      ensures SameHome(start, cache, if cut > |old(lh)| then Volatile(old(s)) else Durable(old(s)))
    {
      Facts();
      outstanding, committing := 0, true;
      Took(End(0));
      CommitCut(cut);
    }
  }
}
