/**
  The write-ahead log of kernel/log.c as a step system.

  One `Step` is one atomic action: a critical section under `log.lock`, or one
  `bwrite`.  A `Crash` may come between any two steps, including steps of the
  recovery that follows an earlier crash.  A step that is not enabled leaves
  the state alone, so every sequence of steps is a run and a theorem about all
  sequences is a theorem about all interleavings.

  `init`, `committed`, `pending` and `nextId` are history: no step looks at
  them to decide what to do.
 */
module Log {
  import opened Base
  import opened Fold

  // tags of folded definitions
  const INV := 91
  const HOME := 92
  const RECOVER := 93
  const INSTALLED := 94
  const OTHERS := 95
  const LOGAREA := 96

  const LOGBLOCKS: nat := MAXOPBLOCKS * 3
  const WORDS: nat := 256   // BSIZE / sizeof(int)

  type Block = b: seq<int> | |b| == WORDS witness seq(WORDS, i => 0)

  /** A system call between begin_op and end_op. */
  datatype Op = Op(id: nat, appended: nat, calls: nat)

  /** A log_write: which call made it, and what it left in the buffer. */
  datatype Update = Update(op: nat, blockno: int, data: Block)

  datatype Phase =
    | Running
    | Writing(tail: nat)      // in write_log
    | Installing(tail: nat)   // in install_trans(0)
    | Erased                  // commit() returned, log.committing still 1
    | Booting                 // before read_head
    | Recovering(tail: nat)   // in install_trans(1)

  datatype State = State(
    start: int, disk: seq<Block>,
    cache: seq<Block>, lh: seq<int>, ops: seq<Op>, phase: Phase, panicked: bool,
    init: seq<Block>, committed: seq<seq<Update>>, pending: seq<Update>, nextId: nat)

  datatype Step =
    | Begin
    | LogWrite(op: nat, blockno: int, data: Block)
    | End(op: nat)
    | CopyToLog
    | Commit
    | CopyHome
    | Erase
    | Resume
    | Crash
    | ReadHead

  // ---------------------------------------------------------------- layout

  predicate Home(start: int, size: int, b: int) {
    0 <= b < size && !(start <= b <= start + LOGBLOCKS)
  }

  predicate GoodLayout(start: int, size: int) {
    0 <= start && start + LOGBLOCKS < size
  }

  /** The header block: n, then n block numbers, then whatever was there before. */
  function EncodeHead(prev: Block, lh: seq<int>): (b: Block)
    requires |lh| <= LOGBLOCKS
  {
    [|lh|] + lh + prev[1 + |lh|..]
  }

  function DecodeHead(b: Block): (lh: seq<int>)
    ensures |lh| <= LOGBLOCKS
  {
    if 0 <= b[0] <= LOGBLOCKS then b[1..1 + b[0]] else []
  }

  lemma {:induction false} HeadRoundTrip(prev: Block, lh: seq<int>)
    requires |lh| <= LOGBLOCKS
    ensures DecodeHead(EncodeHead(prev, lh)) == lh
  {
    var b := EncodeHead(prev, lh);
    assert b[0] == |lh|;
    assert b[1..1 + |lh|] == lh;
  }

  predicate GoodHead(start: int, size: int, lh: seq<int>) {
    && |lh| <= LOGBLOCKS
    && (forall i :: 0 <= i < |lh| ==> Home(start, size, lh[i]))
    && (forall i, j :: 0 <= i < j < |lh| ==> lh[i] != lh[j])
  }

  // ----------------------------------------------------------- the program

  predicate Wf(s: State) {
    GoodLayout(s.start, |s.disk|) && |s.cache| == |s.disk| && |s.lh| <= LOGBLOCKS
  }

  predicate OnDisk(s: State, b: int) { 0 <= b < |s.disk| }

  function Apply(s: State, step: Step): (s': State)
    requires Wf(s)
    ensures Wf(s') && s'.start == s.start && |s'.disk| == |s.disk| && s'.init == s.init
    ensures s.committed <= s'.committed
  {
    if s.panicked && !step.Crash? then s else
    match step
    case Begin =>
      if s.phase.Running? && |s.lh| + (|s.ops| + 1) * MAXOPBLOCKS <= LOGBLOCKS then
        s.(ops := s.ops + [Op(s.nextId, 0, 0)], nextId := s.nextId + 1)
      else s
    case LogWrite(i, b, data) =>
      if s.phase.Running? && i < |s.ops| && Home(s.start, |s.disk|, b) then
        if |s.lh| >= LOGBLOCKS then
          s.(panicked := true)                      // "too big a transaction"
        else
          Absorb(s, i, b, data)
      else s
    case End(i) =>
      if s.phase.Running? && i < |s.ops| then
        var ops := s.ops[..i] + s.ops[i + 1..];
        s.(ops := ops, phase := if ops != [] then Running else if s.lh != [] then Writing(0) else Erased)
      else s
    case CopyToLog =>
      if s.phase.Writing? && s.phase.tail < |s.lh| && OnDisk(s, s.lh[s.phase.tail]) then
        s.(disk := s.disk[s.start + 1 + s.phase.tail := s.cache[s.lh[s.phase.tail]]],
           phase := Writing(s.phase.tail + 1))
      else s
    case Commit =>
      if s.phase == Writing(|s.lh|) then
        s.(disk := s.disk[s.start := EncodeHead(s.disk[s.start], s.lh)],
           phase := Installing(0),
           committed := s.committed + [s.pending], pending := [])
      else s
    case CopyHome =>
      if (s.phase.Installing? || s.phase.Recovering?) && s.phase.tail < |s.lh| && OnDisk(s, s.lh[s.phase.tail]) then
        var t := s.phase.tail;
        var data := s.disk[s.start + 1 + t];
        s.(disk := s.disk[s.lh[t] := data], cache := s.cache[s.lh[t] := data],
           phase := if s.phase.Installing? then Installing(t + 1) else Recovering(t + 1))
      else s
    case Erase =>
      if s.phase == Installing(|s.lh|) || s.phase == Recovering(|s.lh|) then
        s.(lh := [], disk := s.disk[s.start := EncodeHead(s.disk[s.start], [])],
           phase := if s.phase.Installing? then Erased else Running)
      else s
    case Resume =>
      if s.phase.Erased? then s.(phase := Running) else s
    case Crash =>
      s.(cache := s.disk, lh := [], ops := [], phase := Booting, panicked := false, pending := [])
    case ReadHead =>
      if s.phase.Booting? then
        s.(lh := DecodeHead(s.disk[s.start]), phase := Recovering(0))
      else s
  }

  /** The part of log_write after its checks: absorb or append. */
  function Absorb(s: State, i: nat, b: int, data: Block): (s': State)
    requires Wf(s) && Home(s.start, |s.disk|, b) && i < |s.ops| && |s.lh| < LOGBLOCKS
    ensures Wf(s') && s'.start == s.start && s'.disk == s.disk && s'.init == s.init
    ensures s'.committed == s.committed
  {
    var op := s.ops[i];
    var u := Update(op.id, b, data);
    if b in s.lh then
      s.(cache := s.cache[b := data], pending := s.pending + [u],
         ops := s.ops[i := op.(calls := op.calls + 1)])
    else
      s.(cache := s.cache[b := data], pending := s.pending + [u], lh := s.lh + [b],
         ops := s.ops[i := op.(calls := op.calls + 1, appended := op.appended + 1)])
  }

  // ------------------------------------------- reference: what it all means

  /** The block store after a list of writes made one by one, with no log at all. */
  function Replay(d: seq<Block>, us: seq<Update>): (r: seq<Block>)
    ensures |r| == |d|
  {
    if us == [] then d
    else
      var u := us[|us| - 1];
      var r := Replay(d, us[..|us| - 1]);
      if 0 <= u.blockno < |r| then r[u.blockno := u.data] else r
  }

  function ReplayGroups(d: seq<Block>, groups: seq<seq<Update>>): (r: seq<Block>)
    ensures |r| == |d|
  {
    if groups == [] then d
    else Replay(ReplayGroups(d, groups[..|groups| - 1]), groups[|groups| - 1])
  }

  function Durable(s: State): seq<Block> { ReplayGroups(s.init, s.committed) }
  function Volatile(s: State): seq<Block> { Replay(Durable(s), s.pending) }

  /** What recover_from_log leaves on a disk, starting at log entry t. */
  function Installed(d: seq<Block>, start: int, lh: seq<int>, t: nat): (r: seq<Block>)
    requires GoodLayout(start, |d|) && GoodHead(start, |d|, lh) && t <= |lh|
    ensures |r| == |d|
    decreases |lh| - t
  {
    if t == |lh| then d else Installed(d[lh[t] := d[start + 1 + t]], start, lh, t + 1)
  }

  /** The home blocks of d and e are the same. */
  ghost predicate SameHome(start: int, d: seq<Block>, e: seq<Block>) {
    && |d| == |e|
    && forall u {:trigger Unfold(HOME, u)} :: Unfold(HOME, u) ==> forall b :: Home(start, |d|, b) ==> d[b] == e[b]
  }

  // -------------------------------------------------------------- invariant

  /** Running recovery on `d` would produce `want`. */
  ghost predicate Recoverable(start: int, d: seq<Block>, want: seq<Block>) {
    && |want| == |d| && GoodLayout(start, |d|) && 0 <= d[start][0] <= LOGBLOCKS
    && GoodHead(start, |d|, DecodeHead(d[start]))
    && forall u {:trigger Unfold(RECOVER, u)} :: Unfold(RECOVER, u) ==>
         var h := DecodeHead(d[start]);
         && (forall j :: 0 <= j < |h| ==> d[start + 1 + j] == want[h[j]])
         && (forall b :: Home(start, |d|, b) && b !in h ==> d[b] == want[b])
  }

  ghost predicate Shape(s: State) {
    && Wf(s) && |s.init| == |s.disk|
    && GoodHead(s.start, |s.disk|, s.lh)
    && (s.ops != [] ==> s.phase.Running?)
  }

  ghost predicate InstalledUpTo(d: seq<Block>, want: seq<Block>, lh: seq<int>, t: nat)
    requires |want| == |d| && t <= |lh| && forall j :: 0 <= j < |lh| ==> 0 <= lh[j] < |d|
  {
    forall u {:trigger Unfold(INSTALLED, u)} ::
      Unfold(INSTALLED, u) ==> forall j :: 0 <= j < t ==> d[lh[j]] == want[lh[j]]
  }

  /** Home blocks that are not in the log are in the cache as they are durable. */
  ghost predicate OthersDurable(start: int, cache: seq<Block>, durable: seq<Block>, lh: seq<int>) {
    && |cache| == |durable|
    && forall u {:trigger Unfold(OTHERS, u)} :: Unfold(OTHERS, u) ==>
         forall b :: Home(start, |cache|, b) && b !in lh ==> cache[b] == durable[b]
  }

  /** The first t blocks of the log area hold what the cache holds for the first t logged blocks. */
  ghost predicate LoggedUpTo(start: int, d: seq<Block>, cache: seq<Block>, lh: seq<int>, t: nat)
    requires GoodLayout(start, |d|) && |cache| == |d| && t <= |lh| && GoodHead(start, |d|, lh)
  {
    forall u {:trigger Unfold(LOGAREA, u)} ::
      Unfold(LOGAREA, u) ==> forall j :: 0 <= j < t ==> d[start + 1 + j] == cache[lh[j]]
  }

  ghost predicate PhaseOk(s: State)
    requires Shape(s)
  {
    var h := DecodeHead(s.disk[s.start]);
    match s.phase
    case Running =>
      && h == [] && SameHome(s.start, s.cache, Volatile(s)) && OthersDurable(s.start, s.cache, Durable(s), s.lh)
      && (s.lh == [] ==> s.pending == [])
    case Writing(t) =>
      && h == [] && SameHome(s.start, s.cache, Volatile(s)) && OthersDurable(s.start, s.cache, Durable(s), s.lh)
      && s.lh != [] && t <= |s.lh| && LoggedUpTo(s.start, s.disk, s.cache, s.lh, t)
    case Installing(t) =>
      && h == s.lh && t <= |s.lh| && s.pending == []
      && SameHome(s.start, s.cache, Durable(s)) && InstalledUpTo(s.disk, Durable(s), s.lh, t)
    case Erased =>
      && h == [] && s.lh == [] && s.pending == [] && SameHome(s.start, s.cache, Durable(s))
    case Booting =>
      s.lh == [] && s.pending == [] && s.cache == s.disk
    case Recovering(t) =>
      && h == s.lh && t <= |s.lh| && s.pending == []
      && InstalledUpTo(s.disk, Durable(s), s.lh, t) && SameHome(s.start, s.cache, s.disk)
  }

  ghost predicate Inv(s: State) {
    Wf(s) && forall u {:trigger Unfold(INV, u)} :: Unfold(INV, u) ==>
      Shape(s) && Recoverable(s.start, s.disk, Durable(s)) && PhaseOk(s)
  }

  lemma {:induction false} InvShape(s: State)
    requires Inv(s)
    ensures Shape(s) && Recoverable(s.start, s.disk, Durable(s))
  {
    assert Unfold(INV, 0);
  }

  ghost predicate Initial(s: State) {
    && GoodLayout(s.start, |s.disk|)
    && s.disk[s.start][0] == 0
    && s.init == s.disk == s.cache
    && s.lh == [] && s.ops == [] && s.phase == Booting && !s.panicked
    && s.committed == [] && s.pending == [] && s.nextId == 0
  }

  // ------------------------------------------------------------- preservation

  lemma {:induction false} ReplaySnoc(d: seq<Block>, us: seq<Update>, u: Update)
    ensures Replay(d, us + [u]) ==
            (var r := Replay(d, us); if 0 <= u.blockno < |r| then r[u.blockno := u.data] else r)
  {
    assert (us + [u])[..|us|] == us;
  }

  lemma {:induction false} ReplayGroupsSnoc(d: seq<Block>, groups: seq<seq<Update>>, g: seq<Update>)
    ensures ReplayGroups(d, groups + [g]) == Replay(ReplayGroups(d, groups), g)
  {
    assert (groups + [g])[..|groups|] == groups;
  }

  // -------------------------------------------------------- block by block

  lemma {:induction false} SameHomeRefl(start: int, d: seq<Block>)
    ensures SameHome(start, d, d)
  {
  }

  lemma {:induction false} SameHomeTrans(start: int, d: seq<Block>, e: seq<Block>, f: seq<Block>)
    requires SameHome(start, d, e) && SameHome(start, e, f)
    ensures SameHome(start, d, f)
  {
    assert Unfold(HOME, 0);
  }

  lemma {:induction false} SameHomeUpdate(start: int, d: seq<Block>, e: seq<Block>, b: int, data: Block)
    requires SameHome(start, d, e) && Home(start, |d|, b)
    ensures SameHome(start, d[b := data], e[b := data])
    ensures data == e[b] ==> SameHome(start, d[b := data], e)
  {
    assert Unfold(HOME, 0);
  }

  lemma {:induction false} OthersUpdate(start: int, cache: seq<Block>, durable: seq<Block>, lh: seq<int>, b: int,
                                        data: Block)
    requires OthersDurable(start, cache, durable, lh) && Home(start, |cache|, b)
    ensures b in lh ==> OthersDurable(start, cache[b := data], durable, lh)
    ensures OthersDurable(start, cache[b := data], durable, lh + [b])
  {
    assert Unfold(OTHERS, 0);
  }

  lemma {:induction false} AllDurable(start: int, cache: seq<Block>, durable: seq<Block>)
    requires SameHome(start, cache, durable)
    ensures OthersDurable(start, cache, durable, [])
  {
    assert Unfold(HOME, 0);
  }

  /** While the header is empty the log area may hold anything. */
  lemma {:induction false} LogAreaFree(start: int, d: seq<Block>, want: seq<Block>, b: int, data: Block)
    requires Recoverable(start, d, want) && DecodeHead(d[start]) == [] && start < b <= start + LOGBLOCKS
    ensures Recoverable(start, d[b := data], want) && d[b := data][start] == d[start]
  {
    assert Unfold(RECOVER, 0);
    assert d[b := data][start] == d[start];
  }

  lemma {:induction false} LoggedMore(start: int, d: seq<Block>, cache: seq<Block>, lh: seq<int>, t: nat)
    requires GoodLayout(start, |d|) && |cache| == |d| && t < |lh| && GoodHead(start, |d|, lh)
             && LoggedUpTo(start, d, cache, lh, t)
    ensures LoggedUpTo(start, d[start + 1 + t := cache[lh[t]]], cache, lh, t + 1)
  {
    assert Unfold(LOGAREA, 0);
  }

  /** Once all blocks are in the log area, writing the header makes the disk recover to the new contents. */
  lemma {:induction false} CommitRecoverable(start: int, d: seq<Block>, cache: seq<Block>, lh: seq<int>, t: nat,
                                             was: seq<Block>, want: seq<Block>, e: seq<Block>)
    requires Recoverable(start, d, was) && DecodeHead(d[start]) == [] && GoodHead(start, |d|, lh) && |cache| == |d|
    requires SameHome(start, cache, want) && OthersDurable(start, cache, was, lh) && t == |lh|
             && LoggedUpTo(start, d, cache, lh, t)
    requires e == d[start := EncodeHead(d[start], lh)]
    ensures DecodeHead(e[start]) == lh && Recoverable(start, e, want)
  {
    HeadRoundTrip(d[start], lh);
    assert e[start][0] == |lh|;
    forall j | 0 <= j < |lh| ensures e[start + 1 + j] == want[lh[j]] {
      assert Unfold(HOME, 0) && Unfold(LOGAREA, 0);
      assert Home(start, |d|, lh[j]);
    }
    forall b | Home(start, |d|, b) && b !in lh ensures e[b] == want[b] {
      assert Unfold(HOME, 0) && Unfold(OTHERS, 0) && Unfold(RECOVER, 0);
    }
  }

  lemma {:induction false} CopyHomeRecoverable(start: int, d: seq<Block>, want: seq<Block>, h: seq<int>, t: nat,
                                               t': nat, e: seq<Block>)
    requires Recoverable(start, d, want) && h == DecodeHead(d[start]) && t < |h| && t' == t + 1
    requires InstalledUpTo(d, want, h, t) && e == d[h[t] := d[start + 1 + t]]
    ensures e[start] == d[start] && Recoverable(start, e, want) && d[start + 1 + t] == want[h[t]]
    ensures InstalledUpTo(e, want, h, t')
  {
    assert Unfold(RECOVER, 0) && Unfold(INSTALLED, 0);
  }

  /** When all is installed the home blocks are as wanted, and the header may go. */
  lemma {:induction false} EraseRecoverable(start: int, d: seq<Block>, want: seq<Block>, h: seq<int>, t: nat,
                                            e: seq<Block>)
    requires Recoverable(start, d, want) && h == DecodeHead(d[start]) && t == |h| && InstalledUpTo(d, want, h, t)
    requires e == d[start := EncodeHead(d[start], [])]
    ensures SameHome(start, d, want) && DecodeHead(e[start]) == [] && Recoverable(start, e, want)
  {
    HeadRoundTrip(d[start], []);
    forall b | Home(start, |d|, b) ensures d[b] == want[b] && e[b] == want[b] {
      assert Unfold(RECOVER, 0) && Unfold(INSTALLED, 0);
      if b in h {
        var j :| 0 <= j < |h| && h[j] == b;
      }
    }
  }

  // ------------------------------------------------------------- step by step

  /** An absorbed or appended log_write, in state s'. */
  lemma {:induction false} UpdateKeeps(s: State, s': State, u: Update)
    requires Inv(s) && s.phase.Running? && Home(s.start, |s.disk|, u.blockno)
    requires s'.start == s.start && s'.disk == s.disk && s'.init == s.init && s'.committed == s.committed
    requires s'.phase == s.phase
    requires s'.cache == s.cache[u.blockno := u.data] && s'.pending == s.pending + [u]
    requires s'.lh == (if u.blockno in s.lh then s.lh else s.lh + [u.blockno]) && |s'.lh| <= LOGBLOCKS
    ensures Inv(s')
  {
    assert Unfold(INV, 0);
    ReplaySnoc(Durable(s), s.pending, u);
    assert GoodHead(s.start, |s.disk|, s'.lh);
    SameHomeUpdate(s.start, s.cache, Volatile(s), u.blockno, u.data);
    OthersUpdate(s.start, s.cache, Durable(s), s.lh, u.blockno, u.data);
  }

  lemma {:induction false} PanicKeeps(s: State)
    requires Inv(s)
    ensures Inv(s.(panicked := true))
  {
    assert Unfold(INV, 0);
  }

  lemma {:induction false} LogWriteKeeps(s: State, i: nat, b: int, data: Block)
    requires Inv(s)
    ensures Inv(Apply(s, LogWrite(i, b, data)))
  {
    var s' := Apply(s, LogWrite(i, b, data));
    if s'.pending != s.pending {
      UpdateKeeps(s, s', Update(s.ops[i].id, b, data));
    } else {
      assert s' == s || s' == s.(panicked := true);
      PanicKeeps(s);
    }
  }

  lemma {:induction false} CopiedToLog(s: State, s': State, t: nat)
    requires Inv(s) && Shape(s) && t < |s.lh| && s.phase == Writing(t) && s'.phase == Writing(t + 1)
    requires s'.start == s.start && s'.lh == s.lh && s'.ops == s.ops && s'.cache == s.cache
    requires s'.init == s.init && s'.committed == s.committed && s'.pending == s.pending
    requires s'.disk == s.disk[s.start + 1 + t := s.cache[s.lh[t]]]
    ensures Inv(s')
  {
    assert Unfold(INV, 0);
    LogAreaFree(s.start, s.disk, Durable(s), s.start + 1 + t, s.cache[s.lh[t]]);
    LoggedMore(s.start, s.disk, s.cache, s.lh, t);
    assert Durable(s') == Durable(s) && Volatile(s') == Volatile(s);
  }

  lemma {:induction false} CopyToLogKeeps(s: State)
    requires Inv(s)
    ensures Inv(Apply(s, CopyToLog))
  {
    if s.phase.Writing? && s.phase.tail < |s.lh| && !s.panicked {
      InvShape(s);
      CopiedToLog(s, Apply(s, CopyToLog), s.phase.tail);
    }
  }

  lemma {:induction false} CommitKeeps(s: State)
    requires Inv(s)
    ensures Inv(Apply(s, Commit))
  {
    if s.phase == Writing(|s.lh|) && !s.panicked {
      Committed(s, Apply(s, Commit), s.phase.tail);
    }
  }

  lemma {:induction false} Committed(s: State, s': State, t: nat)
    requires Inv(s) && t == |s.lh| && s.phase == Writing(t) && s'.phase == Installing(0)
    requires s'.start == s.start && s'.lh == s.lh && s'.ops == s.ops && s'.cache == s.cache && s'.init == s.init
    requires s'.committed == s.committed + [s.pending] && s'.pending == []
    requires s'.disk == s.disk[s.start := EncodeHead(s.disk[s.start], s.lh)]
    ensures Inv(s')
  {
    assert Unfold(INV, 0);
    ReplayGroupsSnoc(s.init, s.committed, s.pending);
    assert Durable(s') == Volatile(s);
    CommitRecoverable(s.start, s.disk, s.cache, s.lh, t, Durable(s), Volatile(s), s'.disk);
  }

  /** The state after a home block has been written, in either phase. */
  ghost predicate CopiedOne(s: State, s': State, t: nat) {
    && Inv(s) && Shape(s) && t < |s.lh|
    && s'.start == s.start && s'.lh == s.lh && s'.ops == s.ops
    && s'.init == s.init && s'.committed == s.committed && s'.pending == s.pending
    && s'.disk == s.disk[s.lh[t] := s.disk[s.start + 1 + t]] && s'.cache == s.cache[s.lh[t] := s.disk[s.start + 1 + t]]
  }

  lemma {:induction false} CopiedWhenInstalling(s: State, s': State, t: nat)
    requires CopiedOne(s, s', t) && s.phase == Installing(t) && s'.phase == Installing(t + 1)
    ensures Inv(s')
  {
    assert Unfold(INV, 0);
    CopyHomeRecoverable(s.start, s.disk, Durable(s), s.lh, t, s'.phase.tail, s'.disk);
    assert Durable(s') == Durable(s);
    SameHomeUpdate(s.start, s.cache, Durable(s), s.lh[t], s.disk[s.start + 1 + t]);
  }

  lemma {:induction false} CopiedWhenRecovering(s: State, s': State, t: nat)
    requires CopiedOne(s, s', t) && s.phase == Recovering(t) && s'.phase == Recovering(t + 1)
    ensures Inv(s')
  {
    assert Unfold(INV, 0);
    SameHomeUpdate(s.start, s.cache, s.disk, s.lh[t], s.disk[s.start + 1 + t]);
    CopyHomeRecoverable(s.start, s.disk, Durable(s), s.lh, t, s'.phase.tail, s'.disk);
    assert Durable(s') == Durable(s);
  }

  /** CopyHome, when it is enabled. */
  lemma {:induction false} CopyHomeIs(s: State)
    requires Shape(s) && !s.panicked && (s.phase.Installing? || s.phase.Recovering?) && s.phase.tail < |s.lh|
    ensures Home(s.start, |s.disk|, s.lh[s.phase.tail])
    ensures var t := s.phase.tail;
            var data := s.disk[s.start + 1 + t];
            Apply(s, CopyHome) == s.(disk := s.disk[s.lh[t] := data], cache := s.cache[s.lh[t] := data],
                                     phase := if s.phase.Installing? then Installing(t + 1) else Recovering(t + 1))
  {
  }

  lemma {:induction false} CopyHomeKeeps(s: State)
    requires Inv(s)
    ensures Inv(Apply(s, CopyHome))
  {
    if !s.panicked && (s.phase.Installing? || s.phase.Recovering?) && s.phase.tail < |s.lh| {
      InvShape(s);
      CopyHomeIs(s);
      if s.phase.Installing? {
        CopiedWhenInstalling(s, Apply(s, CopyHome), s.phase.tail);
      } else {
        CopiedWhenRecovering(s, Apply(s, CopyHome), s.phase.tail);
      }
    }
  }

  lemma {:induction false} EraseKeeps(s: State)
    requires Inv(s)
    ensures Inv(Apply(s, Erase))
  {
    if !s.panicked && (s.phase == Installing(|s.lh|) || s.phase == Recovering(|s.lh|)) {
      assert Unfold(INV, 0);
      var s' := Apply(s, Erase);
      assert Durable(s') == Durable(s);
      EraseRecoverable(s.start, s.disk, Durable(s), s.lh, s.phase.tail, s'.disk);
      if s.phase.Recovering? {
        assert Volatile(s') == Durable(s);
        SameHomeTrans(s.start, s.cache, s.disk, Durable(s));
        AllDurable(s.start, s.cache, Durable(s));
      }
    }
  }

  lemma {:induction false} BeginKeeps(s: State)
    requires Inv(s)
    ensures Inv(Apply(s, Begin))
  {
    assert Unfold(INV, 0);
  }

  lemma {:induction false} EndKeeps(s: State, i: nat)
    requires Inv(s)
    ensures Inv(Apply(s, End(i)))
  {
    assert Unfold(INV, 0);
    if s.pending == [] {
      assert Volatile(s) == Durable(s);
    }
  }

  lemma {:induction false} ResumeKeeps(s: State)
    requires Inv(s)
    ensures Inv(Apply(s, Resume))
  {
    assert Unfold(INV, 0);
    if s.phase.Erased? {
      assert Volatile(s) == Durable(s);
      AllDurable(s.start, s.cache, Durable(s));
    }
  }

  lemma {:induction false} CrashKeeps(s: State)
    requires Inv(s)
    ensures var r := Apply(s, Crash);
            && Inv(r) && !r.panicked && r.phase == Booting && r.disk == s.disk && r.committed == s.committed
               && r.init == s.init
  {
    assert Unfold(INV, 0);
  }

  lemma {:induction false} ReadHeadKeeps(s: State)
    requires Inv(s)
    ensures var r := Apply(s, ReadHead);
            && Inv(r) && r.committed == s.committed && r.init == s.init
            && (!s.panicked && s.phase == Booting ==>
                  !r.panicked && r.phase == Recovering(0) && r.lh == DecodeHead(s.disk[s.start]))
  {
    assert Unfold(INV, 0);
    SameHomeRefl(s.start, s.disk);
  }

  lemma {:induction false} ApplyKeeps(s: State, step: Step)
    requires Inv(s)
    ensures Inv(Apply(s, step))
  {
    match step
    case Begin => BeginKeeps(s);
    case LogWrite(i, b, data) => LogWriteKeeps(s, i, b, data);
    case End(i) => EndKeeps(s, i);
    case CopyToLog => CopyToLogKeeps(s);
    case Commit => CommitKeeps(s);
    case CopyHome => CopyHomeKeeps(s);
    case Erase => EraseKeeps(s);
    case Resume => ResumeKeeps(s);
    case Crash => CrashKeeps(s);
    case ReadHead => ReadHeadKeeps(s);
  }

  // ------------------------------------------------------------------- runs

  lemma {:induction false} InitialInv(s: State)
    requires Initial(s)
    ensures Inv(s)
  {
    assert DecodeHead(s.disk[s.start]) == [];
  }

  /** The state after a run. */
  function Exec(s: State, steps: seq<Step>): (r: State)
    requires Wf(s)
    ensures Wf(r) && r.start == s.start && |r.disk| == |s.disk| && r.init == s.init
  {
    if steps == [] then s
    else Apply(Exec(s, steps[..|steps| - 1]), steps[|steps| - 1])
  }

  lemma {:induction false} RunInv(s: State, steps: seq<Step>)
    requires Inv(s)
    ensures Inv(Exec(s, steps))
  {
    if steps != [] {
      RunInv(s, steps[..|steps| - 1]);
      ApplyKeeps(Exec(s, steps[..|steps| - 1]), steps[|steps| - 1]);
    }
  }

  lemma {:induction false} ExecSnoc(s: State, steps: seq<Step>, step: Step)
    requires Wf(s)
    ensures Exec(s, steps + [step]) == Apply(Exec(s, steps), step)
  {
    assert (steps + [step])[..|steps|] == steps;
  }

  lemma {:induction false} ExecConcat(s: State, a: seq<Step>, b: seq<Step>)
    requires Wf(s)
    ensures Exec(s, a + b) == Exec(Exec(s, a), b)
  {
    if b == [] {
      assert a + b == a;
    } else {
      ExecConcat(s, a, b[..|b| - 1]);
      assert (a + b)[..|a + b| - 1] == a + b[..|b| - 1];
    }
  }

  /** Installing a good log gives exactly the wanted contents, whatever was half installed before. */
  lemma {:induction false} InstalledIs(start: int, d: seq<Block>, want: seq<Block>, t: nat)
    requires Recoverable(start, d, want)
    requires t <= |DecodeHead(d[start])|
    requires InstalledUpTo(d, want, DecodeHead(d[start]), t)
    ensures SameHome(start, Installed(d, start, DecodeHead(d[start]), t), want)
    decreases |DecodeHead(d[start])| - t
  {
    var h := DecodeHead(d[start]);
    if t < |h| {
      var e := d[h[t] := d[start + 1 + t]];
      CopyHomeRecoverable(start, d, want, h, t, t + 1, e);
      InstalledIs(start, e, want, t + 1);
    } else {
      EraseRecoverable(start, d, want, h, t, d[start := EncodeHead(d[start], [])]);
    }
  }

  /** Crash atomicity and durability.  After any run, at any crash point, recovery yields the
      initial contents with every committed group applied in order, each one whole, and nothing else. */
  lemma {:induction false} CrashAtomicity(s0: State, steps: seq<Step>)
    requires Initial(s0)
    ensures var s := Exec(s0, steps);
            && GoodHead(s.start, |s.disk|, DecodeHead(s.disk[s.start]))
            && SameHome(s.start, Installed(s.disk, s.start, DecodeHead(s.disk[s.start]), 0),
                        ReplayGroups(s0.disk, s.committed))
  {
    InitialInv(s0);
    RunInv(s0, steps);
    var s := Exec(s0, steps);
    InvShape(s);
    InstalledIs(s.start, s.disk, Durable(s), 0);
  }

  lemma {:induction false} CommittedGrows(s: State, steps: seq<Step>)
    requires Wf(s)
    ensures s.committed <= Exec(s, steps).committed
  {
    if steps != [] {
      CommittedGrows(s, steps[..|steps| - 1]);
    }
  }

  lemma {:induction false} ReplayGroupsConcat(d: seq<Block>, a: seq<seq<Update>>, b: seq<seq<Update>>)
    ensures ReplayGroups(d, a + b) == ReplayGroups(ReplayGroups(d, a), b)
  {
    if b == [] {
      assert a + b == a;
    } else {
      ReplayGroupsConcat(d, a, b[..|b| - 1]);
      assert (a + b)[..|a + b| - 1] == a + b[..|b| - 1];
    }
  }

  /** Durability.  Whatever steps and crashes follow, recovery leaves the home blocks as they were durable
      before, with later groups, whole, on top. */
  lemma {:induction false} Durability(s: State, steps: seq<Step>)
    requires Inv(s)
    ensures var r := Exec(s, steps);
            && s.committed <= r.committed && GoodHead(r.start, |r.disk|, DecodeHead(r.disk[r.start]))
            && SameHome(r.start, Installed(r.disk, r.start, DecodeHead(r.disk[r.start]), 0),
                        ReplayGroups(Durable(s), r.committed[|s.committed|..]))
  {
    var r := Exec(s, steps);
    RunInv(s, steps);
    CommittedGrows(s, steps);
    InvShape(r);
    InstalledIs(r.start, r.disk, Durable(r), 0);
    ReplayGroupsConcat(s.init, s.committed, r.committed[|s.committed|..]);
    assert s.committed + r.committed[|s.committed|..] == r.committed;
  }

  /** The header on disk is one that recovery can use. */
  predicate HasHead(s: State) {
    GoodLayout(s.start, |s.disk|) && GoodHead(s.start, |s.disk|, DecodeHead(s.disk[s.start]))
  }

  /** What recovery would leave on the disk if the machine crashed now. */
  function Recovered(s: State): seq<Block>
    requires HasHead(s)
  {
    Installed(s.disk, s.start, DecodeHead(s.disk[s.start]), 0)
  }

  /** The committing write_head. */
  predicate Commits(s: State, step: Step) { step == Commit && !s.panicked && s.phase == Writing(|s.lh|) }

  lemma {:induction false} RecoveredIs(s: State)
    requires Inv(s)
    ensures HasHead(s) && SameHome(s.start, Recovered(s), Durable(s)) && SameHome(s.start, Durable(s), Recovered(s))
  {
    InvShape(s);
    InstalledIs(s.start, s.disk, Durable(s), 0);
    assert Unfold(HOME, 0);
  }

  /** The group becomes durable at the committing write_head, and at no other step: what recovery would find
      on the disk is the same before and after any step but that one, and after that one it is what all calls
      have written. */
  lemma {:induction false} CommitPoint(s: State, step: Step)
    requires Inv(s)
    ensures var s' := Apply(s, step);
            && HasHead(s) && HasHead(s') && s'.start == s.start
            && (!Commits(s, step) ==> SameHome(s.start, Recovered(s'), Recovered(s)) && s'.committed == s.committed)
            && (Commits(s, step) ==> SameHome(s.start, Recovered(s'), Volatile(s)) && s.ops == []
                                     && s'.committed == s.committed + [s.pending])
  {
    var s' := Apply(s, step);
    InvShape(s);
    ApplyKeeps(s, step);
    RecoveredIs(s);
    RecoveredIs(s');
    if Commits(s, step) {
      ReplayGroupsSnoc(s.init, s.committed, s.pending);
    } else {
      SameHomeTrans(s.start, Recovered(s'), Durable(s), Recovered(s));
    }
  }

  /** The number of install steps that recovery still has to make. */
  function RecoverySteps(n: nat): (steps: seq<Step>)
    ensures |steps| == n + 1
  {
    if n == 0 then [Erase] else [CopyHome] + RecoverySteps(n - 1)
  }

  lemma {:induction false} ExecCons(s: State, step: Step, rest: seq<Step>)
    requires Wf(s)
    ensures Exec(s, [step] + rest) == Exec(Apply(s, step), rest)
  {
    assert [step][..0] == [];
    assert Exec(s, [step]) == Apply(s, step);
    ExecConcat(s, [step], rest);
  }

  /** The system runs with nothing logged, and disk and cache both hold `want`. */
  ghost predicate CleanWith(s: State, start: int, want: seq<Block>) {
    && s.phase == Running && s.ops == [] && s.lh == [] && s.pending == []
    && SameHome(start, s.disk, want) && SameHome(start, s.cache, want)
  }

  /** A running system with nothing in the log is clean. */
  lemma {:induction false} EmptyLogIsClean(s: State)
    requires Inv(s) && s.phase == Running && s.lh == []
    ensures s.pending == [] && SameHome(s.start, s.disk, Durable(s)) && SameHome(s.start, s.cache, Durable(s))
  {
    assert Unfold(INV, 0);
    assert Volatile(s) == Durable(s);
    assert SameHome(s.start, s.disk, Durable(s)) by { assert Unfold(RECOVER, 0); }
  }

  lemma {:induction false} RecoveryEnds(s: State)
    requires Inv(s) && !s.panicked && s.phase == Recovering(|s.lh|)
    ensures var r := Apply(s, Erase); CleanWith(r, s.start, Durable(s)) && r.committed == s.committed
  {
    var r := Apply(s, Erase);
    InvShape(s);
    EraseKeeps(s);
    assert Durable(r) == Durable(s);
    EmptyLogIsClean(r);
  }

  lemma {:induction false} RecoveryMoves(s: State) returns (r: State)
    requires Inv(s) && !s.panicked && s.phase.Recovering? && s.phase.tail < |s.lh|
    ensures r == Apply(s, CopyHome) && Inv(r) && !r.panicked && r.phase == Recovering(s.phase.tail + 1)
    ensures r.lh == s.lh && r.committed == s.committed && r.start == s.start && r.init == s.init
  {
    r := Apply(s, CopyHome);
    InvShape(s);
    CopyHomeKeeps(s);
    CopyHomeIs(s);
  }

  lemma {:induction false} RecoveryInstalls(s: State, n: nat)
    requires Inv(s) && !s.panicked && s.phase.Recovering? && s.phase.tail + n == |s.lh|
    ensures var r := Exec(s, RecoverySteps(n));
            CleanWith(r, s.start, Durable(s)) && r.committed == s.committed
    decreases n
  {
    if n == 0 {
      assert [Erase] + [] == [Erase];
      ExecCons(s, Erase, []);
      RecoveryEnds(s);
    } else {
      var r := RecoveryMoves(s);
      ExecCons(s, CopyHome, RecoverySteps(n - 1));
      RecoveryInstalls(r, n - 1);
    }
  }

  /** From any reachable state a crash and one uninterrupted recovery bring the running
      system back with exactly the committed contents, on disk and in the cache. */
  lemma {:induction false} RecoveryRestores(s: State)
    requires Inv(s)
    ensures var n := |DecodeHead(s.disk[s.start])|;
            var r := Exec(s, [Crash] + ([ReadHead] + RecoverySteps(n)));
            CleanWith(r, s.start, Durable(s)) && r.committed == s.committed
  {
    var rec := RecoverySteps(|DecodeHead(s.disk[s.start])|);
    var c := Apply(s, Crash);
    CrashKeeps(s);
    ReadHeadKeeps(c);
    ExecCons(s, Crash, [ReadHead] + rec);
    ExecCons(c, ReadHead, rec);
    RecoveryInstalls(Apply(c, ReadHead), |rec| - 1);
  }

  // ------------------------------------------------------------ reservation

  /** Log slots that outstanding calls may still append, at MAXOPBLOCKS a call. */
  function Unspent(ops: seq<Op>): (n: int) {
    if ops == [] then 0 else MAXOPBLOCKS - ops[0].appended + Unspent(ops[1..])
  }

  /** The same with every log_write charged, absorbed or not. */
  function UnspentCalls(ops: seq<Op>): (n: int) {
    if ops == [] then 0 else MAXOPBLOCKS - ops[0].calls + UnspentCalls(ops[1..])
  }

  lemma {:induction false} UnspentSplit(ops: seq<Op>, i: nat)
    requires i < |ops|
    ensures Unspent(ops) == Unspent(ops[..i] + ops[i + 1..]) + MAXOPBLOCKS - ops[i].appended
    ensures UnspentCalls(ops) == UnspentCalls(ops[..i] + ops[i + 1..]) + MAXOPBLOCKS - ops[i].calls
  {
    if i == 0 {
      assert ops[..0] + ops[1..] == ops[1..];
    } else {
      UnspentSplit(ops[1..], i - 1);
      var r := ops[..i] + ops[i + 1..];
      assert r[1..] == ops[1..][..i - 1] + ops[1..][i..];
    }
  }

  lemma {:induction false} UnspentUpdate(ops: seq<Op>, i: nat, op: Op)
    requires i < |ops|
    ensures Unspent(ops[i := op]) == Unspent(ops) + ops[i].appended - op.appended
    ensures UnspentCalls(ops[i := op]) == UnspentCalls(ops) + ops[i].calls - op.calls
  {
    UnspentSplit(ops, i);
    UnspentSplit(ops[i := op], i);
    assert ops[i := op][..i] + ops[i := op][i + 1..] == ops[..i] + ops[i + 1..];
  }

  lemma {:induction false} UnspentSnoc(ops: seq<Op>, op: Op)
    ensures Unspent(ops + [op]) == Unspent(ops) + MAXOPBLOCKS - op.appended
    ensures UnspentCalls(ops + [op]) == UnspentCalls(ops) + MAXOPBLOCKS - op.calls
  {
    UnspentSplit(ops + [op], |ops|);
    assert (ops + [op])[..|ops|] + (ops + [op])[|ops| + 1..] == ops;
  }

  predicate WithinBudget(ops: seq<Op>) {
    forall i :: 0 <= i < |ops| ==> ops[i].appended <= MAXOPBLOCKS && ops[i].appended <= ops[i].calls
  }

  lemma {:induction false} UnspentBounds(ops: seq<Op>)
    requires WithinBudget(ops)
    ensures 0 <= Unspent(ops) <= |ops| * MAXOPBLOCKS
    ensures UnspentCalls(ops) <= Unspent(ops)
  {
    if ops != [] {
      UnspentBounds(ops[1..]);
    }
  }

  /** Every outstanding call keeps room for all it may still append. */
  predicate Reserved(s: State) { Room(|s.lh|, s.ops) }

  predicate Room(n: nat, ops: seq<Op>) {
    && WithinBudget(ops)
    && (ops != [] ==> n + Unspent(ops) <= LOGBLOCKS)
  }

  lemma {:induction false} RoomForBegin(n: nat, ops: seq<Op>, id: nat)
    requires Room(n, ops) && n + (|ops| + 1) * MAXOPBLOCKS <= LOGBLOCKS
    ensures Room(n, ops + [Op(id, 0, 0)])
  {
    UnspentBounds(ops);
    UnspentSnoc(ops, Op(id, 0, 0));
  }

  lemma {:induction false} RoomForLogWrite(n: nat, ops: seq<Op>, i: nat, more: nat)
    requires Room(n, ops) && i < |ops| && more <= 1 && ops[i].appended + more <= MAXOPBLOCKS
    ensures Room(n + more, ops[i := ops[i].(calls := ops[i].calls + 1, appended := ops[i].appended + more)])
  {
    UnspentUpdate(ops, i, ops[i].(calls := ops[i].calls + 1, appended := ops[i].appended + more));
  }

  lemma {:induction false} RoomAfterEnd(n: nat, ops: seq<Op>, i: nat)
    requires Room(n, ops) && i < |ops|
    ensures Room(n, ops[..i] + ops[i + 1..])
  {
    UnspentSplit(ops, i);
  }

  /** A log_write within the budget of its call: its block is in the log, or one of the first MAXOPBLOCKS that
      the call adds. */
  predicate Affords(s: State, step: Step) {
    step.LogWrite? && step.op < |s.ops| ==> step.blockno in s.lh || s.ops[step.op].appended < MAXOPBLOCKS
  }

  predicate Budgeted(s: State, steps: seq<Step>)
    requires Wf(s)
  {
    steps != [] ==> Budgeted(s, steps[..|steps| - 1]) && Affords(Exec(s, steps[..|steps| - 1]), steps[|steps| - 1])
  }

  lemma {:induction false} LogWriteReserved(s: State, i: nat, b: int, data: Block)
    requires Shape(s) && Reserved(s) && Affords(s, LogWrite(i, b, data))
    ensures Reserved(Apply(s, LogWrite(i, b, data)))
  {
    if s.phase.Running? && i < |s.ops| && Home(s.start, |s.disk|, b) && !s.panicked && |s.lh| < LOGBLOCKS {
      RoomForLogWrite(|s.lh|, s.ops, i, if b in s.lh then 0 else 1);
    }
  }

  lemma {:induction false} ReservedKeeps(s: State, step: Step)
    requires Shape(s) && Reserved(s) && Affords(s, step)
    ensures Reserved(Apply(s, step))
  {
    match step
    case Begin =>
      if |s.lh| + (|s.ops| + 1) * MAXOPBLOCKS <= LOGBLOCKS {
        RoomForBegin(|s.lh|, s.ops, s.nextId);
      }
    case LogWrite(i, b, data) => LogWriteReserved(s, i, b, data);
    case End(i) =>
      if i < |s.ops| {
        RoomAfterEnd(|s.lh|, s.ops, i);
      }
    case _ =>
  }

  /** Over every run: logged block numbers stay distinct and no call is outstanding while a commit or recovery
      runs; and if the calls keep to their budgets the log never overflows and every call keeps its reservation. */
  lemma {:induction false} LogReservation(s0: State, steps: seq<Step>)
    requires Initial(s0)
    ensures var s := Exec(s0, steps);
            && (Budgeted(s0, steps) ==> Reserved(s) && |s.lh| + Unspent(s.ops) <= LOGBLOCKS)
            && (forall i, j :: 0 <= i < j < |s.lh| ==> s.lh[i] != s.lh[j])
            && (!s.phase.Running? ==> s.ops == [])
  {
    InitialInv(s0);
    if steps != [] && Budgeted(s0, steps) {
      var m := Exec(s0, steps[..|steps| - 1]);
      LogReservation(s0, steps[..|steps| - 1]);
      RunInv(s0, steps[..|steps| - 1]);
      InvShape(m);
      ReservedKeeps(m, steps[|steps| - 1]);
    }
    RunInv(s0, steps);
    InvShape(Exec(s0, steps));
  }

  /** When log_write panics.  Its size test comes before the absorption scan, so a call that keeps
      to its budget of distinct blocks panics exactly when the log is full, and then its block was
      already logged. */
  lemma {:induction false} PanicExactlyWhenFull(s: State, i: nat, b: int, data: Block)
    requires Shape(s) && Reserved(s) && !s.panicked
    requires s.phase.Running? && i < |s.ops| && Home(s.start, |s.disk|, b)
    ensures Apply(s, LogWrite(i, b, data)).panicked <==> |s.lh| == LOGBLOCKS
    ensures |s.lh| == LOGBLOCKS && Affords(s, LogWrite(i, b, data)) ==> b in s.lh
  {
    UnspentSplit(s.ops, i);
    var rest := s.ops[..i] + s.ops[i + 1..];
    assert WithinBudget(rest);
    UnspentBounds(rest);
  }

  /** Every log_write of the run is one of the first MAXOPBLOCKS log_writes of its call. */
  predicate FewCalls(s: State, steps: seq<Step>)
    requires Wf(s)
  {
    steps != [] ==>
      && FewCalls(s, steps[..|steps| - 1])
      && var m := Exec(s, steps[..|steps| - 1]);
      && var step := steps[|steps| - 1];
      (step.LogWrite? && step.op < |m.ops| ==> m.ops[step.op].calls < MAXOPBLOCKS)
  }

  predicate ReservedCalls(s: State) { !s.panicked && RoomForCalls(|s.lh|, s.ops) }

  predicate RoomForCalls(n: nat, ops: seq<Op>) {
    && WithinBudget(ops)
    && (forall i :: 0 <= i < |ops| ==> ops[i].calls <= MAXOPBLOCKS)
    && (ops != [] ==> n + UnspentCalls(ops) <= LOGBLOCKS)
  }

  lemma {:induction false} UnspentCallsNonneg(ops: seq<Op>)
    requires forall i :: 0 <= i < |ops| ==> ops[i].calls <= MAXOPBLOCKS
    ensures UnspentCalls(ops) >= 0
  {
    if ops != [] {
      UnspentCallsNonneg(ops[1..]);
    }
  }

  lemma {:induction false} CallsBegin(n: nat, ops: seq<Op>, id: nat)
    requires RoomForCalls(n, ops) && n + (|ops| + 1) * MAXOPBLOCKS <= LOGBLOCKS
    ensures RoomForCalls(n, ops + [Op(id, 0, 0)])
  {
    UnspentBounds(ops);
    UnspentSnoc(ops, Op(id, 0, 0));
  }

  lemma {:induction false} CallsLogWrite(n: nat, ops: seq<Op>, i: nat, more: nat)
    requires RoomForCalls(n, ops) && i < |ops| && more <= 1 && ops[i].calls < MAXOPBLOCKS
    ensures n < LOGBLOCKS
    ensures RoomForCalls(n + more, ops[i := ops[i].(calls := ops[i].calls + 1, appended := ops[i].appended + more)])
  {
    UnspentSplit(ops, i);
    UnspentCallsNonneg(ops[..i] + ops[i + 1..]);
    UnspentUpdate(ops, i, ops[i].(calls := ops[i].calls + 1, appended := ops[i].appended + more));
  }

  lemma {:induction false} CallsEnd(n: nat, ops: seq<Op>, i: nat)
    requires RoomForCalls(n, ops) && i < |ops|
    ensures RoomForCalls(n, ops[..i] + ops[i + 1..])
  {
    UnspentSplit(ops, i);
  }

  lemma {:induction false} FewCallsLogWrite(s: State, i: nat, b: int, data: Block)
    requires Shape(s) && ReservedCalls(s) && i < |s.ops| && s.ops[i].calls < MAXOPBLOCKS
    ensures ReservedCalls(Apply(s, LogWrite(i, b, data)))
  {
    CallsLogWrite(|s.lh|, s.ops, i, if b in s.lh then 0 else 1);
  }

  lemma {:induction false} ReservedCallsKeeps(s: State, step: Step)
    requires Shape(s) && ReservedCalls(s)
    requires step.LogWrite? && step.op < |s.ops| ==> s.ops[step.op].calls < MAXOPBLOCKS
    ensures ReservedCalls(Apply(s, step))
  {
    match step
    case Begin =>
      if |s.lh| + (|s.ops| + 1) * MAXOPBLOCKS <= LOGBLOCKS {
        CallsBegin(|s.lh|, s.ops, s.nextId);
      }
    case LogWrite(i, b, data) =>
      if i < |s.ops| {
        FewCallsLogWrite(s, i, b, data);
      }
    case End(i) =>
      if i < |s.ops| {
        CallsEnd(|s.lh|, s.ops, i);
      }
    case _ =>
  }

  /** With log_write calls charged instead of distinct blocks, the panic is unreachable. */
  lemma {:induction false} NoPanicWithFewCalls(s0: State, steps: seq<Step>)
    requires Initial(s0) && FewCalls(s0, steps)
    ensures ReservedCalls(Exec(s0, steps))
    ensures !Exec(s0, steps).panicked
  {
    InitialInv(s0);
    if steps != [] {
      NoPanicWithFewCalls(s0, steps[..|steps| - 1]);
      RunInv(s0, steps[..|steps| - 1]);
      InvShape(Exec(s0, steps[..|steps| - 1]));
      ReservedCallsKeeps(Exec(s0, steps[..|steps| - 1]), steps[|steps| - 1]);
    }
  }

  // ------------------------------------------------- the budget of distinct blocks is not enough

  /** Boot, admit three calls, and let them log k distinct blocks, ten a call. */
  function FillRun(k: nat, data: Block): seq<Step> {
    if k == 0 then [ReadHead] + ([Erase] + ([Begin] + ([Begin] + ([Begin] + []))))
    else FillRun(k - 1, data) + [LogWrite((k - 1) / MAXOPBLOCKS, 99 + k, data)]
  }

  function Spent(k: int): nat {
    if k <= 0 then 0 else if k <= MAXOPBLOCKS then k else MAXOPBLOCKS
  }

  predicate Filled(s: State, k: nat) {
    && Wf(s) && s.start == 2 && |s.disk| >= 130 && s.phase == Running && !s.panicked
    && |s.lh| == k && (forall j :: 0 <= j < k ==> s.lh[j] == 100 + j)
    && |s.ops| == 3 && (forall j :: 0 <= j < 3 ==> s.ops[j].appended == Spent(k - MAXOPBLOCKS * j))
  }

  predicate Admitted(s: State, n: nat) {
    && Wf(s) && s.start == 2 && |s.disk| >= 130 && s.phase == Running && !s.panicked
    && s.lh == [] && |s.ops| == n && (forall j :: 0 <= j < n ==> s.ops[j].appended == 0)
  }

  lemma {:induction false} AdmitOne(s: State, rest: seq<Step>) returns (r: State)
    requires Admitted(s, |s.ops|) && |s.ops| < 3
    ensures Admitted(r, |s.ops| + 1) && Exec(s, [Begin] + rest) == Exec(r, rest)
  {
    r := Apply(s, Begin);
    ExecCons(s, Begin, rest);
  }

  lemma {:induction false} FillStart(s0: State, data: Block)
    requires Initial(s0) && s0.start == 2 && |s0.disk| >= 130
    ensures Filled(Exec(s0, FillRun(0, data)), 0)
  {
    var begins := [Begin] + ([Begin] + ([Begin] + []));
    ExecCons(s0, ReadHead, [Erase] + begins);
    ExecCons(Apply(s0, ReadHead), Erase, begins);
    var s := AdmitOne(Apply(Apply(s0, ReadHead), Erase), [Begin] + ([Begin] + []));
    s := AdmitOne(s, [Begin] + []);
    s := AdmitOne(s, []);
  }

  lemma {:induction false} FillOne(m: State, k: nat, data: Block)
    requires Filled(m, k) && k < LOGBLOCKS
    ensures Filled(Apply(m, LogWrite(k / MAXOPBLOCKS, 100 + k, data)), k + 1)
  {
    var i := k / MAXOPBLOCKS;
    assert 0 <= i < 3 && MAXOPBLOCKS * i <= k < MAXOPBLOCKS * (i + 1);
    assert 100 + k !in m.lh;
  }

  lemma {:induction false} NoWritesBudgeted(s: State, steps: seq<Step>)
    requires Wf(s) && forall k :: 0 <= k < |steps| ==> !steps[k].LogWrite?
    ensures Budgeted(s, steps)
  {
    if steps != [] {
      NoWritesBudgeted(s, steps[..|steps| - 1]);
    }
  }

  lemma {:induction false} FillAffords(m: State, k: nat, data: Block)
    requires Filled(m, k) && k < LOGBLOCKS
    ensures Affords(m, LogWrite(k / MAXOPBLOCKS, 100 + k, data))
  {
    var i := k / MAXOPBLOCKS;
    assert 0 <= i < 3 && MAXOPBLOCKS * i <= k < MAXOPBLOCKS * (i + 1);
  }

  lemma {:induction false} BudgetedSnoc(s: State, steps: seq<Step>, step: Step)
    requires Wf(s) && Budgeted(s, steps) && Affords(Exec(s, steps), step)
    ensures Budgeted(s, steps + [step])
  {
    assert (steps + [step])[..|steps|] == steps;
  }

  lemma {:induction false} FillBudgeted(s0: State, k: nat, data: Block)
    requires Initial(s0) && s0.start == 2 && |s0.disk| >= 130
    requires k <= LOGBLOCKS
    ensures Budgeted(s0, FillRun(k, data))
  {
    if k == 0 {
      NoWritesBudgeted(s0, FillRun(0, data));
    } else {
      FillBudgeted(s0, k - 1, data);
      FillState(s0, k - 1, data);
      FillAffords(Exec(s0, FillRun(k - 1, data)), k - 1, data);
      BudgetedSnoc(s0, FillRun(k - 1, data), LogWrite((k - 1) / MAXOPBLOCKS, 99 + k, data));
    }
  }

  lemma {:induction false} FillState(s0: State, k: nat, data: Block)
    requires Initial(s0) && s0.start == 2 && |s0.disk| >= 130
    requires k <= LOGBLOCKS
    ensures Filled(Exec(s0, FillRun(k, data)), k)
  {
    if k == 0 {
      FillStart(s0, data);
    } else {
      FillState(s0, k - 1, data);
      ExecSnoc(s0, FillRun(k - 1, data), LogWrite((k - 1) / MAXOPBLOCKS, 99 + k, data));
      FillOne(Exec(s0, FillRun(k - 1, data)), k - 1, data);
    }
  }

  /** Three calls that log ten distinct blocks each, and then one of the blocks again, do panic. */
  lemma {:induction false} DistinctBudgetCanPanic(s0: State, data: Block)
    requires Initial(s0) && s0.start == 2 && |s0.disk| >= 130
    ensures var s := Exec(s0, FillRun(LOGBLOCKS, data));
            && Budgeted(s0, FillRun(LOGBLOCKS, data)) && Reserved(s) && !s.panicked && 100 in s.lh
            && Affords(s, LogWrite(2, 100, data)) && Apply(s, LogWrite(2, 100, data)).panicked
  {
    FillBudgeted(s0, LOGBLOCKS, data);
    FillState(s0, LOGBLOCKS, data);
    LogReservation(s0, FillRun(LOGBLOCKS, data));
    assert Exec(s0, FillRun(LOGBLOCKS, data)).lh[0] == 100;
  }

  // ---------------------------------------------------- whole system calls

  ghost function Callers(us: seq<Update>): set<nat> { set k | 0 <= k < |us| :: us[k].op }

  ghost function Outstanding(ops: seq<Op>): set<nat> { set k | 0 <= k < |ops| :: ops[k].id }

  ghost predicate Below(ids: set<nat>, n: nat) { forall id :: id in ids ==> id < n }

  /** No call is split: what one call logged is all in one group, or all still pending. */
  ghost predicate CallsWhole(s: State) {
    && Below(Outstanding(s.ops), s.nextId) && Below(Callers(s.pending), s.nextId)
    && (forall g :: 0 <= g < |s.committed| ==>
          && Below(Callers(s.committed[g]), s.nextId)
          && Callers(s.committed[g]) !! Outstanding(s.ops)
          && Callers(s.committed[g]) !! Callers(s.pending))
    && (forall g, h :: 0 <= g < h < |s.committed| ==> Callers(s.committed[g]) !! Callers(s.committed[h]))
  }

  lemma {:induction false} CallsWholeLogWrite(s: State, i: nat, b: int, data: Block)
    requires Shape(s) && CallsWhole(s)
    ensures CallsWhole(Apply(s, LogWrite(i, b, data)))
  {
    var s' := Apply(s, LogWrite(i, b, data));
    if s'.pending != s.pending {
      var id := s.ops[i].id;
      assert Outstanding(s'.ops) == Outstanding(s.ops) by {
        assert forall k :: 0 <= k < |s.ops| ==> s'.ops[k].id == s.ops[k].id;
      }
      assert id in Outstanding(s.ops);
      assert s'.pending == s.pending + [Update(id, b, data)];
      assert Callers(s'.pending) == Callers(s.pending) + {id} by {
        assert s'.pending[|s.pending|].op == id;
        assert forall k :: 0 <= k < |s.pending| ==> s'.pending[k] == s.pending[k];
      }
    }
  }

  lemma {:induction false} CallsWholeKeeps(s: State, step: Step)
    requires Shape(s) && CallsWhole(s)
    ensures CallsWhole(Apply(s, step))
  {
    var s' := Apply(s, step);
    match step
    case Begin =>
      assert Outstanding(s'.ops) <= Outstanding(s.ops) + {s.nextId};
    case LogWrite(i, b, data) =>
      CallsWholeLogWrite(s, i, b, data);
    case End(i) =>
      assert Outstanding(s'.ops) <= Outstanding(s.ops);
    case Commit =>
      assert Callers([]) == {};
    case Crash =>
      assert Callers([]) == {} && Outstanding([]) == {};
    case _ =>
  }

  /** The updates of one call. */
  function Of(us: seq<Update>, id: nat): (r: seq<Update>) {
    if us == [] then [] else Of(us[..|us| - 1], id) + if us[|us| - 1].op == id then [us[|us| - 1]] else []
  }

  /** What a step writes through log_write. */
  function Written(s: State, step: Step): (us: seq<Update>)
    requires Wf(s)
  {
    if step.LogWrite? && step.op < |s.ops| && Apply(s, step).pending != s.pending
    then [Update(s.ops[step.op].id, step.blockno, step.data)] else []
  }

  /** All that a run has written through log_write, committed or not. */
  function Writes(s: State, steps: seq<Step>): (us: seq<Update>)
    requires Wf(s)
  {
    if steps == [] then []
    else Writes(s, steps[..|steps| - 1]) + Written(Exec(s, steps[..|steps| - 1]), steps[|steps| - 1])
  }

  lemma {:induction false} OfSnoc(us: seq<Update>, u: Update, id: nat)
    ensures Of(us + [u], id) == Of(us, id) + if u.op == id then [u] else []
  {
    assert (us + [u])[..|us|] == us;
  }

  lemma {:induction false} OfNone(us: seq<Update>, id: nat)
    requires id !in Callers(us)
    ensures Of(us, id) == []
  {
    if us != [] {
      assert us[|us| - 1].op in Callers(us);
      var vs := us[..|us| - 1];
      forall k | 0 <= k < |vs| ensures vs[k].op in Callers(us) {
        assert us[k] == vs[k];
      }
      OfNone(vs, id);
    }
  }

  lemma {:induction false} CallersSnoc(us: seq<Update>, u: Update)
    ensures Callers(us + [u]) == Callers(us) + {u.op}
  {
    var vs := us + [u];
    assert vs[|us|].op == u.op;
    forall k | 0 <= k < |us| ensures us[k].op in Callers(vs) {
      assert vs[k] == us[k];
    }
  }

  /** us is all there is of a call: what it logged is complete in the pending updates while it is under way,
      and complete in its group once that is committed. */
  ghost predicate NothingDropped(s: State, us: seq<Update>) {
    && Below(Callers(us), s.nextId)
    && (forall id :: id in Outstanding(s.ops) || id in Callers(s.pending) ==> Of(s.pending, id) == Of(us, id))
    && (forall g, id ::
          0 <= g < |s.committed| && id in Callers(s.committed[g]) ==> Of(s.committed[g], id) == Of(us, id))
  }

  lemma {:induction false} NothingDroppedWrite(s: State, s': State, us: seq<Update>, u: Update)
    requires CallsWhole(s) && NothingDropped(s, us) && u.op in Outstanding(s.ops)
    requires s'.pending == s.pending + [u] && s'.committed == s.committed && s'.nextId == s.nextId
    requires Outstanding(s'.ops) == Outstanding(s.ops)
    ensures NothingDropped(s', us + [u])
  {
    CallersSnoc(us, u);
    CallersSnoc(s.pending, u);
    forall id | id in Outstanding(s'.ops) || id in Callers(s'.pending) ensures Of(s'.pending, id) == Of(us + [u], id) {
      OfSnoc(s.pending, u, id);
      OfSnoc(us, u, id);
    }
    forall g, id | 0 <= g < |s.committed| && id in Callers(s.committed[g])
      ensures Of(s.committed[g], id) == Of(us + [u], id) {
      OfSnoc(us, u, id);
    }
  }

  lemma {:induction false} LogWriteOf(s: State, i: nat, b: int, data: Block)
    requires Wf(s) && Apply(s, LogWrite(i, b, data)).pending != s.pending
    ensures i < |s.ops| && s.ops[i].id in Outstanding(s.ops)
    ensures var s' := Apply(s, LogWrite(i, b, data));
            && s'.pending == s.pending + [Update(s.ops[i].id, b, data)] && s'.committed == s.committed
            && s'.nextId == s.nextId && Outstanding(s'.ops) == Outstanding(s.ops)
  {
    var s' := Apply(s, LogWrite(i, b, data));
    assert forall k :: 0 <= k < |s.ops| ==> s'.ops[k].id == s.ops[k].id;
    assert |s'.ops| == |s.ops|;
  }

  lemma {:induction false} NothingDroppedKeeps(s: State, step: Step, us: seq<Update>)
    requires Shape(s) && CallsWhole(s) && NothingDropped(s, us)
    ensures NothingDropped(Apply(s, step), us + Written(s, step))
  {
    var s' := Apply(s, step);
    if Written(s, step) != [] {
      var u := Written(s, step)[0];
      LogWriteOf(s, step.op, step.blockno, step.data);
      NothingDroppedWrite(s, s', us, u);
    } else {
      assert us + [] == us;
      NothingDroppedOther(s, step, us);
    }
  }

  lemma {:induction false} NothingDroppedOther(s: State, step: Step, us: seq<Update>)
    requires Shape(s) && CallsWhole(s) && NothingDropped(s, us) && Written(s, step) == []
    ensures NothingDropped(Apply(s, step), us)
  {
    var s' := Apply(s, step);
    match step
    case Begin =>
      assert Outstanding(s'.ops) <= Outstanding(s.ops) + {s.nextId};
      OfNone(s.pending, s.nextId);
      OfNone(us, s.nextId);
    case LogWrite(i, b, data) =>
      assert Outstanding(s'.ops) <= Outstanding(s.ops);
    case End(i) =>
      assert Outstanding(s'.ops) <= Outstanding(s.ops);
    case Commit =>
      assert Callers([]) == {};
      assert s'.ops == [] || s' == s;
    case Crash =>
      assert Callers([]) == {} && Outstanding([]) == {};
    case _ =>
  }

  /** Over every run, each call is in one committed group or in none, and where it is, all that it ever
      passed to log_write is there, in order. */
  lemma {:induction false} SystemCallsAtomic(s0: State, steps: seq<Step>)
    requires Initial(s0)
    ensures var s := Exec(s0, steps);
            && CallsWhole(s) && NothingDropped(s, Writes(s0, steps))
            && (forall g, id :: 0 <= g < |s.committed| && id in Callers(s.committed[g]) ==>
                  Of(s.committed[g], id) == Of(Writes(s0, steps), id))
  {
    InitialInv(s0);
    if steps != [] {
      var m, step := Exec(s0, steps[..|steps| - 1]), steps[|steps| - 1];
      SystemCallsAtomic(s0, steps[..|steps| - 1]);
      RunInv(s0, steps[..|steps| - 1]);
      InvShape(m);
      CallsWholeKeeps(m, step);
      NothingDroppedKeeps(m, step, Writes(s0, steps[..|steps| - 1]));
    }
  }
}
