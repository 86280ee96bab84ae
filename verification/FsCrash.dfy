/**
  The file system over the log: system calls that change files, each between begin_op
  and end_op, on a machine that may lose power between any two steps of the log.
 */
module FsCrash {
  import opened Base
  import opened Bits
  import opened Fold
  import opened Fs
  import opened FsImage
  import opened FsTrunc
  import opened FsCode
  import opened FsDisk
  import Log
  import opened LogDevice

  // tags of folded definitions
  const MIXED := 111
  const HISTORY := 112

  ghost function Disk(sb: Super, im: Image): seq<Log.Block> { DiskOf(sb, im.blocks, im.inodes) }

  // --------------------------------------------------- what a call changes on disk

  lemma {:induction false} InodeInBlock(sb: Super, x: nat, j: nat)
    requires sb.inodestart <= x && j < Log.WORDS
    ensures IBlock(sb, InodeAt(sb, x, j)) == x
  {
    IsRemainder(IPB, x - sb.inodestart, j / IWORDS, InodeAt(sb, x, j));
  }

  /** A block that is not logged is the same on disk. */
  lemma {:induction false} UnloggedSame(sb: Super, a: Image, b: Image, i: nat, l: set<nat>, x: nat)
    requires Untouched(sb, a, b, i, l) && IBlock(sb, i) in l && x < sb.size && x !in l
    ensures |a.blocks| == |b.blocks| == sb.size && Disk(sb, b)[x] == Disk(sb, a)[x]
  {
    assert Unfold(UNTOUCHED, 0);
    forall j | 0 <= j < Log.WORDS
      ensures DiskWord(sb, b.blocks, b.inodes, x, j) == DiskWord(sb, a.blocks, a.inodes, x, j)
    {
      if sb.inodestart <= x {
        InodeInBlock(sb, x, j);
      }
    }
    assert DiskBlock(sb, b.blocks, b.inodes, x) == DiskBlock(sb, a.blocks, a.inodes, x);
  }

  /** The home blocks of `cache` are those of e, but for the blocks in todo, which are still those of d. */
  ghost predicate Mixed(start: int, cache: seq<Log.Block>, d: seq<Log.Block>, e: seq<Log.Block>, todo: set<nat>) {
    && |cache| == |d| == |e|
    && forall u {:trigger Unfold(MIXED, u)} :: Unfold(MIXED, u) ==>
         forall b :: Log.Home(start, |cache|, b) ==> cache[b] == if b in todo then d[b] else e[b]
  }

  lemma {:induction false} MixedStart(sb: Super, start: int, cache: seq<Log.Block>, a: Image, b: Image, i: nat,
                                      l: set<nat>)
    requires Log.SameHome(start, cache, Disk(sb, a)) && Untouched(sb, a, b, i, l) && IBlock(sb, i) in l
    ensures Mixed(start, cache, Disk(sb, a), Disk(sb, b), l)
  {
    assert |Disk(sb, a)| == |Disk(sb, b)| by { assert Unfold(UNTOUCHED, 0); }
    forall x | Log.Home(start, |cache|, x) ensures cache[x] == if x in l then Disk(sb, a)[x] else Disk(sb, b)[x] {
      assert cache[x] == Disk(sb, a)[x] by { assert Unfold(Log.HOME, 0); }
      if x !in l {
        assert |a.blocks| == sb.size by { assert Unfold(UNTOUCHED, 0); }
        UnloggedSame(sb, a, b, i, l, x);
      }
    }
  }

  lemma {:induction false} MixedStep(start: int, cache: seq<Log.Block>, d: seq<Log.Block>, e: seq<Log.Block>,
                                     todo: set<nat>, b: nat)
    requires Mixed(start, cache, d, e, todo) && b < |e|
    ensures Mixed(start, cache[b := e[b]], d, e, todo - {b})
  {
    assert Unfold(MIXED, 0);
  }

  lemma {:induction false} MixedEnd(start: int, cache: seq<Log.Block>, d: seq<Log.Block>, e: seq<Log.Block>)
    requires Mixed(start, cache, d, e, {})
    ensures Log.SameHome(start, cache, e)
  {
    assert Unfold(MIXED, 0);
  }

  // ------------------------------------------------------------------- history

  /** The file system after these committed groups. */
  ghost predicate Moment(sb: Super, start: int, init: seq<Log.Block>, groups: seq<seq<Log.Update>>, im: Image) {
    Good(sb, im) && Log.SameHome(start, Log.ReplayGroups(init, groups), Disk(sb, im))
  }

  /** After each group that was committed the disk holds a good file system: images are these, the first one
      being what there was at the beginning. */
  ghost predicate History(sb: Super, start: int, init: seq<Log.Block>, groups: seq<seq<Log.Update>>,
                          images: seq<Image>) {
    && |images| == |groups| + 1
    && forall u {:trigger Unfold(HISTORY, u)} :: Unfold(HISTORY, u) ==>
         forall k :: 0 <= k <= |groups| ==> Moment(sb, start, init, groups[..k], images[k])
  }

  lemma {:induction false} HistoryMore(sb: Super, start: int, init: seq<Log.Block>, groups: seq<seq<Log.Update>>,
                                       images: seq<Image>, g: seq<Log.Update>, im: Image)
    requires History(sb, start, init, groups, images) && Moment(sb, start, init, groups + [g], im)
    ensures History(sb, start, init, groups + [g], images + [im])
  {
    assert Unfold(HISTORY, 0);
    forall k | 0 <= k <= |groups| + 1 ensures Moment(sb, start, init, (groups + [g])[..k], (images + [im])[k]) {
      if k <= |groups| {
        assert (groups + [g])[..k] == groups[..k];
      } else {
        assert (groups + [g])[..k] == groups + [g];
      }
    }
  }

  lemma {:induction false} LastMoment(sb: Super, start: int, init: seq<Log.Block>, groups: seq<seq<Log.Update>>,
                                      images: seq<Image>)
    requires History(sb, start, init, groups, images)
    ensures Moment(sb, start, init, groups, images[|groups|])
  {
    assert Unfold(HISTORY, 0);
    assert groups[..|groups|] == groups;
  }

  lemma {:induction false} FirstMoment(sb: Super, start: nat, disk: seq<Log.Block>, im: Image)
    requires Good(sb, im) && |disk| == |im.blocks| && Log.GoodLayout(start, |disk|)
    requires forall b :: 0 <= b < |disk| && b != start ==> disk[b] == Disk(sb, im)[b]
    ensures Log.SameHome(start, disk, Disk(sb, im)) && History(sb, start, disk, [], [im])
  {
    var none: seq<seq<Log.Update>> := [];
    assert none[..0] == none && Log.ReplayGroups(disk, none) == disk;
    assert Moment(sb, start, disk, none, im);
  }

  lemma {:induction false} SameHomeFlip(start: int, d: seq<Log.Block>, e: seq<Log.Block>)
    requires Log.SameHome(start, d, e)
    ensures Log.SameHome(start, e, d)
  {
    assert Unfold(Log.HOME, 0);
  }

  /** What end_op is about to commit, given what is in the cache. */
  lemma {:induction false} NextMoment(sb: Super, s: Log.State, im: Image)
    requires Log.Inv(s) && s.phase == Log.Running && Good(sb, im) && Log.SameHome(s.start, s.cache, Disk(sb, im))
    ensures Moment(sb, s.start, s.init, s.committed + [s.pending], im)
  {
    assert Log.SameHome(s.start, s.cache, Log.Volatile(s)) by { assert Unfold(Log.INV, 0); }
    SameHomeFlip(s.start, s.cache, Log.Volatile(s));
    Log.SameHomeTrans(s.start, Log.Volatile(s), s.cache, Disk(sb, im));
    Log.ReplayGroupsSnoc(s.init, s.committed, s.pending);
  }

  lemma {:induction false} NoCommit(s: Log.State, more: seq<Log.Step>)
    requires Log.Wf(s) && Log.Commit !in more
    ensures Log.Exec(s, more).committed == s.committed
  {
    if more != [] {
      NoCommit(s, more[..|more| - 1]);
    }
  }

  /** Disk d is a good file system, and its files are those of im. */
  ghost predicate Survives(sb: Super, d: seq<Log.Block>, im: Image) {
    && (forall h :: 0 <= h < sb.ninodes ==> IBlock(sb, h) < |d|)
    && Good(sb, ImageOn(sb, d, im.owner))
    && forall h :: FileOf(ImageOn(sb, d, im.owner), h) == FileOf(im, h)
  }

  class Journal {
    const fs: FileSystem
    const dev: Device
    ghost var images: seq<Image>

    ghost predicate Ready()
      reads this, fs, dev
    {
      && fs.Valid() && dev.Valid() && !dev.halted && dev.s.phase == Log.Running && dev.lh == []
      && 0 <= dev.start && dev.start + Log.LOGBLOCKS < fs.sb.inodestart && |dev.disk| == fs.sb.size
      && History(fs.sb, dev.start, dev.s0.init, dev.s.committed, images)
    }

    /** Between two calls. */
    ghost predicate Valid()
      reads this, fs, dev
    {
      && Ready() && dev.outstanding == 0 && images[|dev.s.committed|] == fs.Now()
      && Log.SameHome(dev.start, dev.cache, Disk(fs.sb, fs.Now()))
    }

    /** An empty file system on a disk with an empty log that starts at block `start`. */
    constructor (sb: Super, start: nat)
      requires GoodSuper(sb) && start + Log.LOGBLOCKS < sb.inodestart
      ensures Valid() && fs.sb == sb && dev.start == start && images == [fs.Now()] && fresh(fs) && fresh(dev)
      ensures forall i :: 0 <= i < |fs.inodes| ==> fs.File(i) == []
    {
      var f := new FileSystem(sb);
      GoodShape(sb, f.Now());
      var disk := DiskOf(sb, f.blocks, f.inodes);
      disk := disk[start := seq(Log.WORDS, _ => 0)];
      var d := new Device(start, disk);
      d.RecoverFromLog();
      fs, dev, images := f, d, [f.Now()];
      new;
      FirstMoment(sb, start, disk, f.Now());
      assert [] == d.s.committed;
      Log.SameHomeTrans(start, dev.cache, disk, Disk(sb, fs.Now()));
    }

    /** begin_op. */
    method Begin()
      requires Valid()
      modifies dev
      ensures Ready() && dev.outstanding == 1 && dev.s.committed == old(dev.s.committed) && dev.cache == old(dev.cache)
      ensures dev.steps == old(dev.steps) + [Log.Begin]
    {
      var admitted := dev.BeginOp();
      assert admitted;
    }

    /** The log_writes of a call, with the blocks as the call leaves them. */
    method LogAll(ghost was: Image, ghost i: nat)
      requires Ready() && dev.outstanding == 1 && Log.SameHome(dev.start, dev.cache, Disk(fs.sb, was))
      requires Untouched(fs.sb, was, fs.Now(), i, fs.logged) && IBlock(fs.sb, i) in fs.logged
      requires |fs.logged| <= Log.LOGBLOCKS
      modifies dev
      ensures dev.Valid() && !dev.halted && dev.outstanding == 1 && dev.s.phase == Log.Running && dev.lh != []
      ensures dev.s.committed == old(dev.s.committed) && Log.SameHome(dev.start, dev.cache, Disk(fs.sb, fs.Now()))
      ensures |dev.disk| == |old(dev.disk)| && old(dev.steps) <= dev.steps
    {
      ghost var d, e := Disk(fs.sb, was), Disk(fs.sb, fs.Now());
      MixedStart(fs.sb, dev.start, dev.cache, was, fs.Now(), i, fs.logged);
      var todo := fs.logged;
      while todo != {}
        invariant todo <= fs.logged && |dev.lh| + |todo| <= |fs.logged| && (todo != fs.logged ==> dev.lh != [])
        invariant dev.Valid() && !dev.halted && dev.outstanding == 1 && dev.s.phase == Log.Running
        invariant dev.s.committed == old(dev.s.committed) && Mixed(dev.start, dev.cache, d, e, todo)
        invariant |dev.disk| == fs.sb.size && old(dev.steps) <= dev.steps
        decreases |todo|
      {
        var b :| b in todo;
        assert fs.sb.inodestart <= b < fs.sb.size by { assert Unfold(UNTOUCHED, 0); }
        assert |fs.blocks| == fs.sb.size by { assert Unfold(UNTOUCHED, 0); }
        MixedStep(dev.start, dev.cache, d, e, todo, b);
        dev.LogWrite(0, b, DiskBlock(fs.sb, fs.blocks, fs.inodes, b));
        todo := todo - {b};
      }
      MixedEnd(dev.start, dev.cache, d, e);
    }

    /** The rest of a call that has changed files: its log_writes, and end_op, which commits them. */
    method End(ghost was: Image, ghost i: nat)
      requires Ready() && dev.outstanding == 1 && Log.SameHome(dev.start, dev.cache, Disk(fs.sb, was))
      requires Untouched(fs.sb, was, fs.Now(), i, fs.logged) && IBlock(fs.sb, i) in fs.logged
      requires |fs.logged| <= Log.LOGBLOCKS
      modifies dev, this`images
      ensures Valid() && images == old(images) + [fs.Now()] && old(dev.steps) <= dev.steps
    {
      LogAll(was, i);
      ReachedInv(dev.s0, dev.steps, dev.s);
      ghost var s := dev.s;
      NextMoment(fs.sb, s, fs.Now());
      HistoryMore(fs.sb, dev.start, dev.s0.init, s.committed, images, s.pending, fs.Now());
      dev.EndOp(0);
      images := images + [fs.Now()];
      Log.SameHomeTrans(dev.start, dev.cache, Log.Durable(dev.s), Disk(fs.sb, fs.Now()));
    }

    /** end_op of a call that has changed nothing: nothing is committed. */
    method EndUnchanged()
      requires Ready() && dev.outstanding == 1 && images[|dev.s.committed|] == fs.Now()
      modifies dev
      ensures Valid() && old(dev.steps) <= dev.steps
    {
      ghost var groups := dev.s.committed;
      dev.EndOp(0);
      assert groups + [] == groups;
      GoodShape(fs.sb, fs.Now());
      LastMoment(fs.sb, dev.start, dev.s0.init, dev.s.committed, images);
      Log.SameHomeTrans(dev.start, dev.cache, Log.Durable(dev.s), Disk(fs.sb, fs.Now()));
    }

    /** A chunk of filewrite as a system call: what it writes is in one transaction, and there is a new moment of
        history unless writei refuses it. */
    method Write(i: nat, data: seq<Byte>, off: nat, copyOk: nat -> bool) returns (r: int, off': nat)
      requires Valid() && i < |fs.inodes| && off < UINT && 0 < |data| <= CHUNK
      modifies this`images, fs, dev
      ensures Valid() && old(dev.steps) <= dev.steps
      ensures images == if r == -1 then old(images) else old(images) + [fs.Now()]
      ensures off' == off + FileSystem.Written(r) && Spliced(old(fs.Now()), fs.Now(), i, off, off', data)
      ensures r == -1 <==> off > old(fs.inodes)[i].size || off + |data| > MAXFILE * BSIZE
      ensures r == -1 ==> fs.Now() == old(fs.Now())
      ensures 0 <= r < |data| ==> fs.Full() || !copyOk(r)
    {
      Begin();
      ghost var was, cost := fs.Now(), 0;
      r, off', cost := fs.WriteChunk(i, data, off, copyOk);
      SplicedEnd(was, fs.Now(), i, off, off', data);
      if r == -1 {
        EndUnchanged();
      } else {
        End(was, i);
      }
    }

    /** open with O_TRUNC as a system call. */
    method Truncate(i: nat)
      requires Valid() && i < |fs.inodes| && fs.sb.datastart - fs.sb.bmapstart + 1 <= MAXOPBLOCKS
      modifies this`images, fs, dev
      ensures Valid() && old(dev.steps) <= dev.steps && images == old(images) + [fs.Now()]
      ensures Truncated(fs.sb, old(fs.Now()), fs.Now(), i)
    {
      Begin();
      ghost var was := fs.Now();
      fs.Truncate(i);
      End(was, i);
    }

    /** Crash consistency.  Wherever power fails in any sequence of calls, and whatever steps follow that
        commit nothing, such as a recovery that is itself cut short, recovery leaves a good file system on the
        disk.  Its files are those after a whole number of calls, and after all of them if all had returned. */
    lemma {:induction false} CrashConsistent(k: nat, more: seq<Log.Step>)
      requires Valid() && k <= |dev.steps| && Log.Commit !in more
      ensures var s := Log.Exec(dev.s0, dev.steps[..k] + more);
              && Log.HasHead(s) && |s.committed| < |images| && (k == |dev.steps| ==> |s.committed| == |images| - 1)
              && Survives(fs.sb, Log.Recovered(s), images[|s.committed|])
    {
      var s0, groups := dev.s0, dev.s.committed;
      var a, s := Log.Exec(s0, dev.steps[..k]), Log.Exec(s0, dev.steps[..k] + more);
      Log.ExecConcat(s0, dev.steps[..k], more);
      NoCommit(a, more);
      assert a.committed <= groups by {
        assert Unfold(RUN, 0);
        Log.ExecConcat(s0, dev.steps[..k], dev.steps[k..]);
        assert dev.steps[..k] + dev.steps[k..] == dev.steps;
        Log.CommittedGrows(a, dev.steps[k..]);
      }
      assert k == |dev.steps| ==> a.committed == groups by {
        assert Unfold(RUN, 0);
        assert k == |dev.steps| ==> dev.steps[..k] == dev.steps;
      }
      Log.CrashAtomicity(s0, dev.steps[..k] + more);
      var j := |s.committed|;
      assert s.committed == groups[..j];
      assert Moment(fs.sb, dev.start, s0.init, groups[..j], images[j]) by { assert Unfold(HISTORY, 0); }
      Log.SameHomeTrans(dev.start, Log.Recovered(s), Log.ReplayGroups(s0.disk, s.committed), Disk(fs.sb, images[j]));
      DiskHolds(fs.sb, images[j]);
      SameHomeHolds(fs.sb, dev.start, Log.Recovered(s), Disk(fs.sb, images[j]), images[j]);
      HoldsGood(fs.sb, Log.Recovered(s), images[j]);
    }
  }
}
