/**
  Processes, CPUs and their locks, as kernel/proc.c runs them: sleep, wakeup, the
  scheduler, kfork, kexit, kwait and kkill as a system of interleaved steps.

  A process's kernel thread is where its `pc` says, and takes a step only while a
  CPU runs it (`on` is that CPU, or -1).  A step acquires or releases a lock, or is
  a section that runs inside one lock; a step whose lock is taken does nothing.
  The lock of a process passes between its thread and a CPU's scheduler at swtch.
  Condition locks are numbered, wait_lock is number WAIT.
 */
module Proc {
  const WAIT: nat := 0
  const INIT: nat := 0

  datatype RunState = Unused | Used | Sleeping | Runnable | Running | Zombie

  /** The channel of a waiting process is its own; the others are numbered. */
  datatype Chan = NoChan | Wait(who: nat) | Other(n: nat)

  datatype After = ToCond | ToReparent(next: nat) | ToExit

  datatype Pc =
    | Unborn
    | User                                        // anywhere else, holding no lock of this model
    | Cond(lk: nat)                               // holding lk
    | SleepAcq(lk: nat, ch: Chan)                 // in sleep, holding lk; p->lock is wanted
    | SleepRel(lk: nat, ch: Chan)                 // holding lk and p->lock
    | SleepSet(lk: nat, ch: Chan)                 // holding p->lock, not SLEEPING yet
    | Asleep(lk: nat, ch: Chan)                   // in sched, and after it holding p->lock
    | Reacquire(lk: nat, ch: Chan)
    | Wake(lk: nat, ch: Chan, j: nat, k: After)   // in wakeup at slot j, holding lk
    | Resume                                      // in sched of yield or before forkret; after it holding p->lock
    | ForkNew(j: nat)                             // holding the lock of the new process
    | ForkFree(j: nat)
    | ForkReady(j: nat)
    | Reparent(j: nat)                            // holding wait_lock
    | ExitLock                                    // holding wait_lock; p->lock is wanted
    | ExitSched                                   // ZOMBIE, holding p->lock
    | Dead
    | WaitScan(j: nat, havekids: bool)            // holding wait_lock
    | WaitEnd(havekids: bool)

  datatype Proc = Proc(state: RunState, chan: Chan, parent: int, killed: bool, pid: nat, pc: Pc, on: int, forker: int)

  datatype Cpu = Scanning | Holding(j: nat) | InProc(j: nat) | Back(j: nat)

  datatype Holder = Nobody | ByCpu(c: nat) | ByThread(i: nat)

  datatype State = State(procs: seq<Proc>, cpus: seq<Cpu>, locks: seq<Holder>, held: map<nat, nat>, nextpid: nat,
                         exited: set<nat>, reaped: seq<nat>)

  datatype Step =
    | Pick(c: nat, j: nat)                  // scheduler: acquire the lock of slot j
    | Switch(c: nat)                        // run it if it is RUNNABLE, else release
    | Drop(c: nat)                          // back from swtch: release
    | Acquire(i: nat, lk: nat)
    | Release(i: nat)
    | CallSleep(i: nat, n: nat)
    | SleepOn(i: nat)
    | CallWakeup(i: nat, n: nat)
    | WakeOn(i: nat)
    | Yield(i: nat)
    | Resumed(i: nat)
    | CallFork(i: nat, j: nat)              // allocproc finds slot j
    | ForkFails(i: nat)
    | ForkOn(i: nat)
    | CallExit(i: nat)
    | ExitOn(i: nat)
    | CallWait(i: nat)
    | WaitOn(i: nat)
    | WaitFails(i: nat)                     // copyout of the status fails
    | Kill(i: nat, j: nat)                  // kkill finds the pid at slot j

  // ------------------------------------------------------------------ updates

  predicate Shape(s: State) { |s.locks| == |s.procs| && INIT < |s.procs| }

  predicate Active(s: State, i: nat) { i < |s.procs| && 0 <= s.procs[i].on < |s.cpus| }

  predicate At(s: State, i: nat, pc: Pc) { Active(s, i) && s.procs[i].pc == pc }

  predicate LockFree(s: State, j: nat) { j < |s.locks| && s.locks[j] == Nobody }

  function PutProc(s: State, i: nat, p: Proc): State
    requires i < |s.procs|
  {
    s.(procs := s.procs[i := p])
  }

  function Go(s: State, i: nat, pc: Pc): State
    requires i < |s.procs|
  {
    PutProc(s, i, s.procs[i].(pc := pc))
  }

  function SetLock(s: State, j: nat, h: Holder): State {
    if j < |s.locks| then s.(locks := s.locks[j := h]) else s
  }

  function Take(s: State, lk: nat, i: nat): State { s.(held := s.held[lk := i]) }
  function Give(s: State, lk: nat): State { s.(held := s.held - {lk}) }

  /** sched: the CPU is back in its scheduler, which now has p->lock. */
  function SwitchOut(s: State, i: nat, p: Proc): State
    requires Active(s, i)
  {
    var c: nat := s.procs[i].on;
    SetLock(PutProc(s, i, p.(on := -1)), i, ByCpu(c)).(cpus := s.cpus[c := Back(i)])
  }

  /** freeproc */
  const FREED := Proc(Unused, NoChan, -1, false, 0, Unborn, -1, -1)

  // -------------------------------------------------------------------- steps

  function CpuNext(s: State, step: Step): State
    requires Shape(s)
  {
    match step
    case Pick(c, j) =>
      if c < |s.cpus| && s.cpus[c] == Scanning && LockFree(s, j)
      then SetLock(s, j, ByCpu(c)).(cpus := s.cpus[c := Holding(j)]) else s
    case Switch(c) =>
      if c < |s.cpus| && s.cpus[c].Holding? && s.cpus[c].j < |s.procs| then
        var j := s.cpus[c].j;
        if s.procs[j].state == Runnable
        then SetLock(PutProc(s, j, s.procs[j].(state := Running, on := c)), j, ByThread(j))
             .(cpus := s.cpus[c := InProc(j)])
        else SetLock(s, j, Nobody).(cpus := s.cpus[c := Scanning])
      else s
    case Drop(c) =>
      if c < |s.cpus| && s.cpus[c].Back?
      then SetLock(s, s.cpus[c].j, Nobody).(cpus := s.cpus[c := Scanning]) else s
    case _ => s
  }

  function SleepNext(s: State, i: nat): State
    requires Shape(s) && Active(s, i)
  {
    var p := s.procs[i];
    match p.pc
    case SleepAcq(lk, ch) => if LockFree(s, i) then SetLock(Go(s, i, SleepRel(lk, ch)), i, ByThread(i)) else s
    case SleepRel(lk, ch) => Give(Go(s, i, SleepSet(lk, ch)), lk)
    case SleepSet(lk, ch) => SwitchOut(s, i, p.(chan := ch, state := Sleeping, pc := Asleep(lk, ch)))
    case Asleep(lk, ch) => SetLock(PutProc(s, i, p.(chan := NoChan, pc := Reacquire(lk, ch))), i, Nobody)
    case Reacquire(lk, ch) =>
      if lk in s.held then s else Take(Go(s, i, if lk == WAIT then WaitScan(0, false) else Cond(lk)), lk, i)
    case _ => s
  }

  function WakeNext(s: State, i: nat): State
    requires Shape(s) && Active(s, i)
  {
    match s.procs[i].pc
    case Wake(lk, ch, j, k) =>
      if j >= |s.procs| then
        Go(s, i, match k case ToCond => Cond(lk) case ToReparent(next) => Reparent(next) case ToExit => ExitLock)
      else if j == i then Go(s, i, Wake(lk, ch, j + 1, k))
      else if !LockFree(s, j) then s
      else
        var q := s.procs[j];
        Go(PutProc(s, j, q.(state := if q.state == Sleeping && q.chan == ch then Runnable else q.state)), i,
           Wake(lk, ch, j + 1, k))
    case _ => s
  }

  function ForkNext(s: State, i: nat): State
    requires Shape(s) && Active(s, i)
  {
    match s.procs[i].pc
    case ForkNew(j) => SetLock(Go(s, i, ForkFree(j)), j, Nobody)
    case ForkFree(j) =>
      if WAIT in s.held || j >= |s.procs| then s else Go(PutProc(s, j, s.procs[j].(parent := i)), i, ForkReady(j))
    case ForkReady(j) =>
      if LockFree(s, j) then Go(PutProc(s, j, s.procs[j].(state := Runnable, pc := Resume)), i, User) else s
    case _ => s
  }

  function ExitNext(s: State, i: nat): State
    requires Shape(s) && Active(s, i)
  {
    var p := s.procs[i];
    match p.pc
    case Reparent(j) =>
      if j >= |s.procs| then Go(s, i, Wake(WAIT, if p.parent >= 0 then Wait(p.parent) else NoChan, 0, ToExit))
      else if s.procs[j].parent == i
      then Go(PutProc(s, j, s.procs[j].(parent := INIT)), i, Wake(WAIT, Wait(INIT), 0, ToReparent(j + 1)))
      else Go(s, i, Reparent(j + 1))
    case ExitLock =>
      if LockFree(s, i)
      then Give(SetLock(PutProc(s, i, p.(state := Zombie, pc := ExitSched)), i, ByThread(i)), WAIT)
           .(exited := s.exited + {p.pid})
      else s
    case ExitSched => SwitchOut(s, i, p.(pc := Dead))
    case _ => s
  }

  function WaitNext(s: State, i: nat): State
    requires Shape(s) && Active(s, i)
  {
    var p := s.procs[i];
    match p.pc
    case WaitScan(j, have) =>
      if j >= |s.procs| then Go(s, i, WaitEnd(have))
      else if s.procs[j].parent != i then Go(s, i, WaitScan(j + 1, have))
      else if !LockFree(s, j) then s
      else if s.procs[j].state == Zombie
      then Give(Go(PutProc(s, j, FREED), i, User), WAIT).(reaped := s.reaped + [s.procs[j].pid])
      else Go(s, i, WaitScan(j + 1, true))
    case WaitEnd(have) =>
      if !LockFree(s, i) then s
      else if !have || p.killed then Give(Go(s, i, User), WAIT) else Go(s, i, SleepAcq(WAIT, Wait(i)))
    case _ => s
  }

  /** Calls from User or Cond, and kwait's early way out. */
  function CallNext(s: State, step: Step): State
    requires Shape(s)
  {
    match step
    case Acquire(i, lk) => if At(s, i, User) && lk != WAIT && lk !in s.held then Take(Go(s, i, Cond(lk)), lk, i) else s
    case Release(i) => if Active(s, i) && s.procs[i].pc.Cond? then Give(Go(s, i, User), s.procs[i].pc.lk) else s
    case CallSleep(i, n) =>
      if Active(s, i) && s.procs[i].pc.Cond? then Go(s, i, SleepAcq(s.procs[i].pc.lk, Other(n))) else s
    case CallWakeup(i, n) =>
      if Active(s, i) && s.procs[i].pc.Cond? then Go(s, i, Wake(s.procs[i].pc.lk, Other(n), 0, ToCond)) else s
    case CallExit(i) =>
      if At(s, i, User) && i != INIT && WAIT !in s.held then Take(Go(s, i, Reparent(0)), WAIT, i) else s
    case CallWait(i) => if At(s, i, User) && WAIT !in s.held then Take(Go(s, i, WaitScan(0, false)), WAIT, i) else s
    case WaitFails(i) => if Active(s, i) && s.procs[i].pc.WaitScan? then Give(Go(s, i, User), WAIT) else s
    case _ => s
  }

  /** kkill, which has found the pid at slot j. */
  function KillNext(s: State, i: nat, j: nat): State
    requires Shape(s)
  {
    if At(s, i, User) && LockFree(s, j)
    then PutProc(s, j, s.procs[j].(killed := true,
                                   state := if s.procs[j].state == Sleeping then Runnable else s.procs[j].state))
    else s
  }

  /** yield, and the return from it or to a new process; kfork's allocproc and its failure. */
  function PlainNext(s: State, step: Step): State
    requires Shape(s)
  {
    match step
    case Yield(i) =>
      if At(s, i, User) && LockFree(s, i) then SwitchOut(s, i, s.procs[i].(state := Runnable, pc := Resume)) else s
    case Resumed(i) => if At(s, i, Resume) then SetLock(Go(s, i, User), i, Nobody) else s
    case CallFork(i, j) =>
      if At(s, i, User) && j < |s.procs| && LockFree(s, j) && s.procs[j].state == Unused
      then SetLock(Go(PutProc(s, j, s.procs[j].(state := Used, pid := s.nextpid, forker := i)), i, ForkNew(j)), j,
                   ByThread(i))
           .(nextpid := s.nextpid + 1)
      else s
    case ForkFails(i) =>
      if Active(s, i) && s.procs[i].pc.ForkNew? && s.procs[i].pc.j < |s.procs|
      then SetLock(Go(PutProc(s, s.procs[i].pc.j, FREED), i, User), s.procs[i].pc.j, Nobody) else s
    case _ => s
  }

  predicate IsCpu(step: Step) { step.Pick? || step.Switch? || step.Drop? }

  predicate IsCall(step: Step) {
    step.Acquire? || step.Release? || step.CallSleep? || step.CallWakeup? || step.CallExit? || step.CallWait?
    || step.WaitFails?
  }

  predicate IsPlain(step: Step) { step.Yield? || step.Resumed? || step.CallFork? || step.ForkFails? }

  function Next(s: State, step: Step): State
    requires Shape(s)
  {
    if IsCpu(step) then CpuNext(s, step)
    else if !Active(s, step.i) then s
    else if IsCall(step) then CallNext(s, step)
    else if IsPlain(step) then PlainNext(s, step)
    else match step
      case SleepOn(i) => SleepNext(s, i)
      case WakeOn(i) => WakeNext(s, i)
      case ForkOn(i) => ForkNext(s, i)
      case ExitOn(i) => ExitNext(s, i)
      case WaitOn(i) => WaitNext(s, i)
      case Kill(i, j) => KillNext(s, i, j)
  }

  // --------------------------------------------------------------- invariants

  /** The thread holds its own p->lock when it runs here. */
  predicate OwnLock(pc: Pc) { pc.SleepRel? || pc.SleepSet? || pc.Asleep? || pc.Resume? || pc.ExitSched? }

  /** The thread holds condition lock lk here. */
  predicate HoldsLk(pc: Pc, lk: nat) {
    || ((pc.Cond? || pc.SleepAcq? || pc.SleepRel? || pc.Wake?) && pc.lk == lk)
    || ((pc.Reparent? || pc.ExitLock? || pc.WaitScan? || pc.WaitEnd?) && lk == WAIT)
  }

  /** State, place and CPU of one process agree. */
  predicate LocalOk(p: Proc) {
    match p.pc
    case Unborn => p.on == -1 && (p.state == Unused || p.state == Used)
    case Dead => p.on == -1 && p.state == Zombie
    case Asleep(_, ch) =>
      if p.on == -1 then (p.state == Sleeping || p.state == Runnable) && p.chan == ch
      else p.on >= 0 && p.state == Running
    case Resume => if p.on == -1 then p.state == Runnable else p.on >= 0 && p.state == Running
    case ExitSched => p.on >= 0 && p.state == Zombie
    case _ => p.on >= 0 && p.state == Running
  }

  /** Only kwait sleeps with wait_lock, on its own channel; kexit wakes init and its parent. */
  predicate ChanOk(p: Proc, i: nat) {
    if p.pc.SleepAcq? || p.pc.SleepRel? || p.pc.SleepSet? || p.pc.Asleep? || p.pc.Reacquire? then
      if p.pc.lk == WAIT then p.pc.ch == Wait(i) else p.pc.ch.Other?
    else if p.pc.Cond? then p.pc.lk != WAIT
    else if p.pc.Wake? then
      match p.pc.k
      case ToCond => p.pc.lk != WAIT && p.pc.ch.Other?
      case ToReparent(_) => p.pc.lk == WAIT && p.pc.ch == Wait(INIT)
      case ToExit => p.pc.lk == WAIT && p.parent >= 0 && p.pc.ch == Wait(p.parent)
    else true
  }

  /** The process that i has begun to fork is i's own, and has a parent once it is to be made RUNNABLE. */
  predicate ForkOk(s: State, i: nat, pc: Pc) {
    (pc.ForkNew? || pc.ForkFree? || pc.ForkReady?) ==>
      && pc.j < |s.procs| == |s.locks| && pc.j != i && s.procs[pc.j].state == Used && s.procs[pc.j].forker == i
      && (pc.ForkReady? <==> s.procs[pc.j].parent >= 0)
      && (pc.ForkNew? ==> s.locks[pc.j] == ByThread(i))
  }

  predicate PidOk(s: State, i: nat, p: Proc) {
    && (p.state != Unused ==> 0 < p.pid < s.nextpid && p.pid !in s.reaped && (p.pid in s.exited <==> p.state == Zombie))
    && -1 <= p.parent < |s.procs| && p.parent != i
    && (p.state == Unused ==> p.parent == -1)
    && (if i == INIT then p.parent == -1 && p.pc != Unborn && !Exiting(p.pc) else p.pc != Unborn ==> p.parent >= 0)
  }

  predicate Exiting(pc: Pc) { pc.Reparent? || (pc.Wake? && !pc.k.ToCond?) || ExitTail(pc) }

  /** In kexit, past reparent. */
  predicate ExitTail(pc: Pc) { (pc.Wake? && pc.k.ToExit?) || pc.ExitLock? || pc.ExitSched? || pc.Dead? }

  ghost predicate Loc(s: State, i: nat) { i < |s.procs| ==> LocalOk(s.procs[i]) && ChanOk(s.procs[i], i) }

  /** On a CPU that runs it; and its own lock is held where it should be. */
  ghost predicate OnCpu(s: State, i: nat) {
    i < |s.procs| == |s.locks| && s.procs[i].on != -1 ==>
      && 0 <= s.procs[i].on < |s.cpus| && s.cpus[s.procs[i].on] == InProc(i)
      && (OwnLock(s.procs[i].pc) ==> s.locks[i] == ByThread(i))
  }

  ghost predicate Holds(s: State, i: nat, lk: nat) {
    i < |s.procs| && HoldsLk(s.procs[i].pc, lk) ==> lk in s.held && s.held[lk] == i
  }

  ghost predicate Frk(s: State, i: nat) { i < |s.procs| ==> ForkOk(s, i, s.procs[i].pc) }

  ghost predicate Pid(s: State, i: nat) { i < |s.procs| ==> PidOk(s, i, s.procs[i]) }

  /** What holds of one CPU. */
  ghost predicate OneCpu(s: State, c: nat) {
    c < |s.cpus| && s.cpus[c] != Scanning ==>
      && s.cpus[c].j < |s.procs| == |s.locks|
      && (if s.cpus[c].InProc? then s.procs[s.cpus[c].j].on == c else s.locks[s.cpus[c].j] == ByCpu(c))
  }

  /** Asleep on ch under lk, or past the point where lk was released to sleep. */
  predicate Committed(p: Proc, lk: nat, ch: Chan) {
    p.pc == SleepSet(lk, ch) || (p.pc == Asleep(lk, ch) && p.state == Sleeping)
  }

  /** The holder of wait_lock is waking init for a child it has just given to it. */
  predicate GivingToInit(s: State) {
    WAIT in s.held && s.held[WAIT] < |s.procs| && s.procs[s.held[WAIT]].pc.Wake?
    && s.procs[s.held[WAIT]].pc.k.ToReparent?
  }

  /** i is not, or no longer, the parent of slot k. */
  predicate Childless(pc: Pc, k: nat) {
    pc == Unborn || ExitTail(pc) || (pc.Reparent? && k < pc.j) || (pc.Wake? && pc.k.ToReparent? && k < pc.k.next)
  }

  /** A process that is gone, or past reparent, is nobody's parent; live processes have different pids. */
  ghost predicate Two(s: State, i: nat, k: nat) {
    i < |s.procs| && k < |s.procs| ==>
      && (Childless(s.procs[i].pc, k) ==> s.procs[k].parent != i)
      && (i != k && s.procs[i].state != Unused && s.procs[k].state != Unused ==> s.procs[i].pid != s.procs[k].pid)
  }

  /** wakeup has left no sleeper behind; nor has kexit when it turns ZOMBIE. */
  ghost predicate Missed(s: State, i: nat, k: nat) {
    i < |s.procs| && k < |s.procs| ==>
      && (s.procs[i].pc.Wake? && k < s.procs[i].pc.j ==> !Committed(s.procs[k], s.procs[i].pc.lk, s.procs[i].pc.ch))
      && (s.procs[i].pc.ExitLock? && s.procs[i].parent == k ==> !Committed(s.procs[k], WAIT, Wait(k)))
  }

  /** In kwait, past looking at slot k. */
  predicate Looked(pc: Pc, k: nat) {
    (pc.WaitScan? && k < pc.j) || pc.WaitEnd? || ((pc.SleepAcq? || pc.SleepRel?) && pc.lk == WAIT)
  }

  /** A zombie child k is not overlooked by its parent i in kwait. */
  ghost predicate Zomb(s: State, i: nat, k: nat) {
    i < |s.procs| && k < |s.procs| && s.procs[k].parent == i ==>
      && (s.procs[k].state == Zombie && Committed(s.procs[i], WAIT, Wait(i)) ==> i == INIT && GivingToInit(s))
      && (Looked(s.procs[i].pc, k) ==> s.procs[k].state != Zombie)
      && ((s.procs[i].pc.WaitScan? && k < s.procs[i].pc.j) || s.procs[i].pc.WaitEnd? ==> s.procs[i].pc.havekids)
  }

  ghost predicate Books(s: State) {
    && s.nextpid > 0
    && (forall x :: x in s.exited ==> x < s.nextpid)
    && (forall x :: x in s.reaped ==> x in s.exited)
    && (forall m, n :: 0 <= m < n < |s.reaped| ==> s.reaped[m] != s.reaped[n])
  }

  ghost predicate Inv(s: State) {
    && Shape(s) && Books(s)
    && (forall i {:trigger Loc(s, i)} :: Loc(s, i))
    && (forall i {:trigger OnCpu(s, i)} :: OnCpu(s, i))
    && (forall i, lk {:trigger Holds(s, i, lk)} :: Holds(s, i, lk))
    && (forall i {:trigger Frk(s, i)} :: Frk(s, i))
    && (forall i {:trigger Pid(s, i)} :: Pid(s, i))
    && (forall c {:trigger OneCpu(s, c)} :: OneCpu(s, c))
    && (forall i, k {:trigger Two(s, i, k)} :: Two(s, i, k))
    && (forall i, k {:trigger Missed(s, i, k)} :: Missed(s, i, k))
    && (forall i, k {:trigger Zomb(s, i, k)} :: Zomb(s, i, k))
  }

  // ------------------------------------------------------------------- frames

  /** A step of process a that may also change process t: what the rest of the system can rely on. */
  ghost predicate Touch(s: State, s': State, a: nat, t: nat) {
    && Shape(s) && Shape(s') && a < |s.procs| == |s'.procs| && t < |s.procs| && Active(s, a) && |s'.cpus| == |s.cpus|
    && s'.procs == s.procs[t := s'.procs[t]][a := s'.procs[a]]
    && s'.locks == s.locks[t := s'.locks[t]][a := s'.locks[a]]
    && (s'.locks[t] == s.locks[t] || s.locks[t] == Nobody || s.locks[t] == ByThread(a))
    && (s'.locks[a] == s.locks[a] || s.locks[a] == Nobody || s.locks[a] == ByThread(a))
    && s'.cpus == s.cpus[s.procs[a].on := s'.cpus[s.procs[a].on]]
    && (forall lk :: lk in s.held && s.held[lk] != a ==> lk in s'.held && s'.held[lk] == s.held[lk])
    && s.nextpid <= s'.nextpid
    && (t != a ==> s'.procs[t].on == s.procs[t].on)
    && (t != a && s.procs[t].state == Used && s.procs[t].forker != a ==>
          s'.procs[t].state == Used && s'.procs[t].forker == s.procs[t].forker
          && (s'.procs[t].parent >= 0 <==> s.procs[t].parent >= 0))
    && (s'.exited == s.exited || s'.exited == s.exited + {s.procs[a].pid})
    && (s'.reaped == s.reaped || (s'.reaped == s.reaped + [s.procs[t].pid] && s.procs[t].state != Unused))
  }

  lemma {:induction false} OneFrame(s: State, s': State, a: nat, t: nat, i: nat)
    requires Inv(s) && Touch(s, s', a, t) && i != a && i != t
    ensures Loc(s', i) && OnCpu(s', i)
  {
    assert Loc(s, i) && OnCpu(s, i) && OnCpu(s, a);
  }

  lemma {:induction false} ForkFrame(s: State, s': State, a: nat, t: nat, i: nat)
    requires Inv(s) && Touch(s, s', a, t) && i != a && i != t
    ensures Frk(s', i)
  {
    assert Frk(s, i) && Loc(s, a);
  }

  lemma {:induction false} PidFrame(s: State, s': State, a: nat, t: nat, i: nat)
    requires Inv(s) && Touch(s, s', a, t) && i != a && i != t
    ensures Pid(s', i)
  {
    assert Pid(s, i) && Loc(s, a) && Two(s, a, i) && Two(s, t, i);
  }

  lemma {:induction false} HoldsFrame(s: State, s': State, a: nat, t: nat, i: nat, lk: nat)
    requires Inv(s) && Touch(s, s', a, t) && i != a && i != t
    ensures Holds(s', i, lk)
  {
    assert Holds(s, i, lk);
  }

  lemma {:induction false} CpuFrame(s: State, s': State, a: nat, t: nat, c: nat)
    requires Inv(s) && Touch(s, s', a, t) && c != s.procs[a].on
    ensures OneCpu(s', c)
  {
    assert OneCpu(s, c) && OnCpu(s, a);
  }

  /** What holds of one process by itself. */
  ghost predicate Self(s: State, i: nat) { Loc(s, i) && OnCpu(s, i) && Frk(s, i) && Pid(s, i) }

  predicate IsCommitted(p: Proc) { p.pc.SleepSet? || (p.pc.Asleep? && p.state == Sleeping) }
  predicate Gone(pc: Pc) { pc == Unborn || ExitTail(pc) }
  function Given(pc: Pc): nat { if pc.Reparent? then pc.j else if pc.Wake? && pc.k.ToReparent? then pc.k.next else 0 }
  predicate LookedAll(pc: Pc) { pc.WaitEnd? || ((pc.SleepAcq? || pc.SleepRel?) && pc.lk == WAIT) }

  /** Nothing about this process has changed that would matter to another. */
  predicate QuietAt(p: Proc, p': Proc) {
    && (p'.parent == p.parent || p'.parent == -1) && (p'.state == Zombie ==> p.state == Zombie)
    && (p'.state != Unused ==> p.state != Unused && p'.pid == p.pid)
    && (IsCommitted(p') ==> IsCommitted(p) && p'.pc.lk == p.pc.lk && p'.pc.ch == p.pc.ch)
    && (Gone(p'.pc) ==> Gone(p.pc)) && (Given(p'.pc) > 0 ==> p'.pc == p.pc) && (LookedAll(p'.pc) ==> LookedAll(p.pc))
    && (p'.pc.Wake? && p'.pc.j > 0 ==> p'.pc == p.pc)
    && (p'.pc.ExitLock? ==> p.pc.ExitLock?) && ((p'.pc.WaitScan? && p'.pc.j > 0) || p'.pc.WaitEnd? ==> p'.pc == p.pc)
  }

  ghost predicate Quiet(s: State, s': State) {
    && |s'.procs| == |s.procs| && (GivingToInit(s) ==> GivingToInit(s'))
    && forall i :: 0 <= i < |s.procs| ==> QuietAt(s.procs[i], s'.procs[i])
  }

  lemma {:induction false} QuietPairs(s: State, s': State, i: nat, k: nat)
    requires Inv(s) && Quiet(s, s')
    ensures Two(s', i, k) && Missed(s', i, k) && Zomb(s', i, k)
  {
    if i < |s.procs| && k < |s.procs| {
      assert Two(s, i, k) && Missed(s, i, k) && Zomb(s, i, k);
      assert QuietAt(s.procs[i], s'.procs[i]) && QuietAt(s.procs[k], s'.procs[k]);
    }
  }

  lemma {:induction false} QuietTouch(s: State, s': State, a: nat, t: nat)
    requires Touch(s, s', a, t) && QuietAt(s.procs[a], s'.procs[a]) && QuietAt(s.procs[t], s'.procs[t])
    requires !s.procs[a].pc.Wake? && (t != a && s.procs[t].pc.Wake? ==> s'.procs[t].pc == s.procs[t].pc)
    ensures Quiet(s, s')
  {
  }

  /** All of Inv but what holds between pairs of processes. */
  ghost predicate Singles(s: State) {
    && Shape(s) && Books(s)
    && (forall i {:trigger Self(s, i)} :: Self(s, i))
    && (forall i, lk {:trigger Holds(s, i, lk)} :: Holds(s, i, lk))
    && (forall c {:trigger OneCpu(s, c)} :: OneCpu(s, c))
  }

  lemma {:induction false} TouchSingles(s: State, s': State, a: nat, t: nat)
    requires Inv(s) && Touch(s, s', a, t) && Books(s') && Self(s', a) && Self(s', t) && OneCpu(s', s.procs[a].on)
    requires forall lk {:trigger Holds(s', a, lk)} :: Holds(s', a, lk)
    requires forall lk {:trigger Holds(s', t, lk)} :: Holds(s', t, lk)
    ensures Singles(s')
  {
    forall i ensures Self(s', i) {
      if i != a && i != t {
        OneFrame(s, s', a, t, i);
        ForkFrame(s, s', a, t, i);
        PidFrame(s, s', a, t, i);
      }
    }
    forall i, lk ensures Holds(s', i, lk) {
      if i != a && i != t {
        HoldsFrame(s, s', a, t, i, lk);
      }
    }
    forall c ensures OneCpu(s', c) {
      if c != s.procs[a].on {
        CpuFrame(s, s', a, t, c);
      }
    }
  }

  // -------------------------------------------------------------------- sleep

  lemma {:induction false} SleepTouch(s: State, a: nat)
    requires Inv(s) && Active(s, a)
    ensures Touch(s, SleepNext(s, a), a, a)
  {
    assert OnCpu(s, a) && Loc(s, a);
    if s.procs[a].pc.SleepRel? {
      assert Holds(s, a, s.procs[a].pc.lk);
    }
  }

  lemma {:induction false} SleepSelf(s: State, a: nat)
    requires Inv(s) && Active(s, a)
    ensures Loc(SleepNext(s, a), a) && OnCpu(SleepNext(s, a), a) && OneCpu(SleepNext(s, a), s.procs[a].on)
  {
    assert OnCpu(s, a) && Loc(s, a);
  }

  lemma {:induction false} SleepPid(s: State, a: nat)
    requires Inv(s) && Active(s, a)
    ensures Frk(SleepNext(s, a), a) && Pid(SleepNext(s, a), a)
  {
    assert Loc(s, a) && Pid(s, a);
  }

  lemma {:induction false} SleepHolds(s: State, a: nat, lk: nat)
    requires Inv(s) && Active(s, a)
    ensures Holds(SleepNext(s, a), a, lk)
  {
    assert Holds(s, a, lk);
  }

  lemma {:induction false} SleepQuiet(s: State, a: nat)
    requires Inv(s) && Active(s, a) && !s.procs[a].pc.SleepRel?
    ensures QuietAt(s.procs[a], SleepNext(s, a).procs[a])
  {
    assert Loc(s, a);
  }

  /** When sleep releases lk the process counts as asleep, nobody is in a wakeup under lk, and a waiting parent
      has no zombie among its children. */
  lemma {:induction false} SleepReleases(s: State, a: nat, i: nat)
    requires Inv(s) && Active(s, a) && s.procs[a].pc.SleepRel? && i < |s.procs|
    ensures var pc := s.procs[a].pc;
            && Committed(SleepNext(s, a).procs[a], pc.lk, pc.ch) && Loc(SleepNext(s, a), a)
            && !(s.procs[i].pc.Wake? && s.procs[i].pc.lk == pc.lk)
            && (pc.lk == WAIT && s.procs[i].parent == a ==> s.procs[i].state != Zombie)
  {
    var lk := s.procs[a].pc.lk;
    assert Loc(s, a) && Holds(s, a, lk) && Holds(s, i, lk) && Zomb(s, a, i);
  }

  /** So what holds of every two processes still does. */
  lemma {:induction false} SleepCommits(s: State, a: nat, i: nat, k: nat)
    requires Inv(s) && Active(s, a) && s.procs[a].pc.SleepRel?
    ensures var s' := SleepNext(s, a); Two(s', i, k) && Missed(s', i, k) && Zomb(s', i, k)
  {
    var lk := s.procs[a].pc.lk;
    assert Two(s, i, k) && Missed(s, i, k) && Zomb(s, i, k) && Loc(s, a);
    assert Holds(s, a, lk) && Holds(s, i, lk);
    assert Holds(s, i, WAIT);
  }

  /** The other process that a step of a may change. */
  function Target(s: State, a: nat): (t: nat)
    requires a < |s.procs|
    ensures t < |s.procs|
  {
    var pc := s.procs[a].pc;
    if (pc.Wake? || pc.ForkNew? || pc.ForkFree? || pc.ForkReady? || pc.Reparent? || pc.WaitScan?)
      && pc.j < |s.procs| then pc.j else a
  }

  // ------------------------------------------------------------------- wakeup

  lemma {:induction false} WakeTouch(s: State, a: nat)
    requires Inv(s) && Active(s, a)
    ensures Touch(s, WakeNext(s, a), a, Target(s, a))
  {
    assert OnCpu(s, a) && Loc(s, a);
  }

  lemma {:induction false} WakeSelf(s: State, a: nat)
    requires Inv(s) && Active(s, a)
    ensures var s' := WakeNext(s, a);
            Loc(s', a) && OnCpu(s', a) && OneCpu(s', s.procs[a].on) && Frk(s', a) && Pid(s', a)
  {
    assert OnCpu(s, a) && Loc(s, a) && Pid(s, a) && Frk(s, a);
  }

  lemma {:induction false} WakeOther(s: State, a: nat)
    requires Inv(s) && Active(s, a) && Target(s, a) != a
    ensures Self(WakeNext(s, a), Target(s, a))
  {
    var t := Target(s, a);
    assert OnCpu(s, t) && Loc(s, t) && Pid(s, t) && Frk(s, t) && Loc(s, a) && OnCpu(s, a);
  }

  lemma {:induction false} WakeHolds(s: State, a: nat, lk: nat)
    requires Inv(s) && Active(s, a)
    ensures Holds(WakeNext(s, a), a, lk) && Holds(WakeNext(s, a), Target(s, a), lk)
  {
    assert Holds(s, a, lk) && Holds(s, Target(s, a), lk) && Loc(s, a);
  }

  /** The slot that wakeup has just looked at holds no sleeper any more: its lock was free, so it was not on its
      way to sleep. */
  lemma {:induction false} WakeLeavesNone(s: State, a: nat, i: nat, k: nat)
    requires Inv(s) && Active(s, a)
    ensures Missed(WakeNext(s, a), i, k)
  {
    assert Missed(s, i, k) && Loc(s, a) && Loc(s, k) && OnCpu(s, k);
  }

  lemma {:induction false} WakeTwo(s: State, a: nat, i: nat, k: nat)
    requires Inv(s) && Active(s, a)
    ensures Two(WakeNext(s, a), i, k)
  {
    assert Two(s, i, k) && Loc(s, a);
  }

  lemma {:induction false} WakeZomb(s: State, a: nat, i: nat, k: nat)
    requires Inv(s) && Active(s, a) && !WakeEnds(s, a)
    ensures Zomb(WakeNext(s, a), i, k)
  {
    assert Zomb(s, i, k) && Holds(s, a, WAIT);
  }

  predicate WakeEnds(s: State, a: nat)
    requires a < |s.procs|
  {
    s.procs[a].pc.Wake? && s.procs[a].pc.j >= |s.procs|
  }

  lemma {:induction false} WakeEndsZomb(s: State, a: nat, i: nat, k: nat)
    requires Inv(s) && Active(s, a) && WakeEnds(s, a)
    ensures Zomb(WakeNext(s, a), i, k)
  {
    assert Zomb(s, i, k) && Missed(s, a, INIT) && Loc(s, a) && Loc(s, i) && Holds(s, a, WAIT);
  }

  // --------------------------------------------------------------------- fork

  lemma {:induction false} ForkTouch(s: State, a: nat)
    requires Inv(s) && Active(s, a)
    ensures Touch(s, ForkNext(s, a), a, Target(s, a))
  {
    assert OnCpu(s, a) && Frk(s, a);
  }

  lemma {:induction false} ForkSelf(s: State, a: nat)
    requires Inv(s) && Active(s, a)
    ensures var s' := ForkNext(s, a);
            Loc(s', a) && OnCpu(s', a) && OneCpu(s', s.procs[a].on) && Frk(s', a) && Pid(s', a)
  {
    assert OnCpu(s, a) && Loc(s, a) && Pid(s, a) && Frk(s, a);
  }

  lemma {:induction false} ForkOther(s: State, a: nat)
    requires Inv(s) && Active(s, a) && Target(s, a) != a
    ensures Self(ForkNext(s, a), Target(s, a))
  {
    var t := Target(s, a);
    assert OnCpu(s, t) && Loc(s, t) && Pid(s, t) && Frk(s, t) && Frk(s, a) && Loc(s, a);
  }

  lemma {:induction false} ForkHolds(s: State, a: nat, lk: nat)
    requires Inv(s) && Active(s, a)
    ensures Holds(ForkNext(s, a), a, lk) && Holds(ForkNext(s, a), Target(s, a), lk)
  {
    assert Holds(s, a, lk) && Holds(s, Target(s, a), lk) && Frk(s, a);
  }

  lemma {:induction false} ForkQuiet(s: State, a: nat)
    requires Inv(s) && Active(s, a) && !s.procs[a].pc.ForkFree?
    ensures QuietAt(s.procs[a], ForkNext(s, a).procs[a])
            && QuietAt(s.procs[Target(s, a)], ForkNext(s, a).procs[Target(s, a)])
    ensures s.procs[Target(s, a)].pc.Wake? ==> ForkNext(s, a).procs[Target(s, a)].pc == s.procs[Target(s, a)].pc
  {
    assert Frk(s, a) && Loc(s, Target(s, a));
  }

  /** The new process gets its parent while nobody is in kexit or kwait. */
  lemma {:induction false} ForkGivesParent(s: State, a: nat, i: nat, k: nat)
    requires Inv(s) && Active(s, a) && s.procs[a].pc.ForkFree?
    ensures var s' := ForkNext(s, a); Two(s', i, k) && Missed(s', i, k) && Zomb(s', i, k)
  {
    assert Two(s, i, k) && Missed(s, i, k) && Zomb(s, i, k) && Frk(s, a) && Loc(s, k);
    assert Holds(s, i, WAIT);
  }

  // --------------------------------------------------------------------- exit

  lemma {:induction false} ExitTouch(s: State, a: nat)
    requires Inv(s) && Active(s, a)
    ensures Touch(s, ExitNext(s, a), a, Target(s, a))
  {
    assert OnCpu(s, a) && Holds(s, a, WAIT) && Loc(s, a);
  }

  lemma {:induction false} ExitSelf(s: State, a: nat)
    requires Inv(s) && Active(s, a)
    ensures var s' := ExitNext(s, a); Loc(s', a) && OnCpu(s', a) && OneCpu(s', s.procs[a].on) && Frk(s', a)
  {
    assert OnCpu(s, a) && Loc(s, a) && Pid(s, a) && Frk(s, a);
  }

  lemma {:induction false} ExitPid(s: State, a: nat)
    requires Inv(s) && Active(s, a)
    ensures Pid(ExitNext(s, a), a)
  {
    assert Loc(s, a) && Pid(s, a);
  }

  lemma {:induction false} ExitOther(s: State, a: nat)
    requires Inv(s) && Active(s, a) && Target(s, a) != a
    ensures Self(ExitNext(s, a), Target(s, a))
  {
    var t := Target(s, a);
    assert OnCpu(s, t) && Loc(s, t) && Pid(s, t) && Frk(s, t) && Loc(s, a) && Pid(s, INIT);
    assert Holds(s, a, WAIT) && Holds(s, t, WAIT);
  }

  lemma {:induction false} ExitHolds(s: State, a: nat, lk: nat)
    requires Inv(s) && Active(s, a)
    ensures Holds(ExitNext(s, a), a, lk) && Holds(ExitNext(s, a), Target(s, a), lk)
  {
    assert Holds(s, a, lk) && Holds(s, Target(s, a), lk);
  }

  lemma {:induction false} ExitTwo(s: State, a: nat, i: nat, k: nat)
    requires Inv(s) && Active(s, a)
    ensures Two(ExitNext(s, a), i, k)
  {
    assert Two(s, i, k) && Loc(s, a) && Pid(s, INIT) && Pid(s, a);
  }

  lemma {:induction false} ExitMissed(s: State, a: nat, i: nat, k: nat)
    requires Inv(s) && Active(s, a)
    ensures Missed(ExitNext(s, a), i, k)
  {
    assert Missed(s, i, k) && Loc(s, a);
    assert Holds(s, a, WAIT) && Holds(s, i, WAIT);
  }

  /** A process turns ZOMBIE only after its parent has been woken; a zombie given to init wakes init. */
  lemma {:induction false} ExitZomb(s: State, a: nat, i: nat, k: nat)
    requires Inv(s) && Active(s, a) && s.procs[a].pc.ExitLock?
    ensures Zomb(ExitNext(s, a), i, k)
  {
    assert Zomb(s, i, k) && Missed(s, a, i) && Holds(s, a, WAIT) && Holds(s, i, WAIT) && Loc(s, a);
  }

  /** A child, perhaps a zombie, is given to init. */
  lemma {:induction false} GivenZomb(s: State, a: nat, i: nat, k: nat)
    requires Inv(s) && Active(s, a) && s.procs[a].pc.Reparent? && s.procs[a].pc.j < |s.procs|
             && s.procs[s.procs[a].pc.j].parent == a
    ensures Zomb(ExitNext(s, a), i, k)
  {
    assert Zomb(s, i, k) && Holds(s, a, WAIT) && Holds(s, i, WAIT) && Loc(s, a);
  }

  lemma {:induction false} ReparentZomb(s: State, a: nat, i: nat, k: nat)
    requires Inv(s) && Active(s, a) && !s.procs[a].pc.ExitLock?
    ensures Zomb(ExitNext(s, a), i, k)
  {
    if s.procs[a].pc.Reparent? && s.procs[a].pc.j < |s.procs| && s.procs[s.procs[a].pc.j].parent == a {
      GivenZomb(s, a, i, k);
    } else {
      assert Zomb(s, i, k) && Holds(s, a, WAIT) && Loc(s, a);
    }
  }

  // --------------------------------------------------------------------- wait

  lemma {:induction false} WaitTouch(s: State, a: nat)
    requires Inv(s) && Active(s, a)
    ensures Touch(s, WaitNext(s, a), a, Target(s, a))
  {
    var t := Target(s, a);
    assert OnCpu(s, a) && Holds(s, a, WAIT) && Loc(s, t) && OnCpu(s, t);
  }

  lemma {:induction false} WaitSelf(s: State, a: nat)
    requires Inv(s) && Active(s, a)
    ensures var s' := WaitNext(s, a); Loc(s', a) && OnCpu(s', a) && OneCpu(s', s.procs[a].on) && Frk(s', a)
  {
    assert OnCpu(s, a) && Loc(s, a) && Frk(s, a);
  }

  lemma {:induction false} WaitPid(s: State, a: nat)
    requires Inv(s) && Active(s, a)
    ensures Pid(WaitNext(s, a), a)
  {
    assert Loc(s, a) && Pid(s, a) && Two(s, a, Target(s, a)) && Pid(s, Target(s, a));
  }

  lemma {:induction false} WaitOther(s: State, a: nat)
    requires Inv(s) && Active(s, a) && Target(s, a) != a
    ensures Self(WaitNext(s, a), Target(s, a))
  {
    var t := Target(s, a);
    assert OnCpu(s, t) && Loc(s, t) && Pid(s, t) && Frk(s, t) && Loc(s, a) && Pid(s, INIT);
  }

  lemma {:induction false} WaitHolds(s: State, a: nat, lk: nat)
    requires Inv(s) && Active(s, a)
    ensures Holds(WaitNext(s, a), a, lk) && Holds(WaitNext(s, a), Target(s, a), lk)
  {
    assert Holds(s, a, lk) && Holds(s, Target(s, a), lk) && Pid(s, a) && Loc(s, Target(s, a)) && OnCpu(s, Target(s, a));
  }

  lemma {:induction false} WaitBooks(s: State, a: nat)
    requires Inv(s) && Active(s, a)
    ensures Books(WaitNext(s, a))
  {
    assert Pid(s, Target(s, a));
  }

  lemma {:induction false} WaitTwo(s: State, a: nat, i: nat, k: nat)
    requires Inv(s) && Active(s, a)
    ensures Two(WaitNext(s, a), i, k)
  {
    assert Two(s, i, k) && Loc(s, Target(s, a)) && OnCpu(s, Target(s, a));
  }

  lemma {:induction false} WaitMissed(s: State, a: nat, i: nat, k: nat)
    requires Inv(s) && Active(s, a)
    ensures Missed(WaitNext(s, a), i, k)
  {
    assert Missed(s, i, k);
  }

  /** What kwait has looked at stays without zombies as long as it holds wait_lock. */
  lemma {:induction false} ReapZomb(s: State, a: nat, i: nat, k: nat)
    requires Inv(s) && Active(s, a) && s.procs[a].pc.WaitScan? && s.procs[a].pc.j < |s.procs|
    requires var j := s.procs[a].pc.j; s.procs[j].parent == a && s.procs[j].state == Zombie
    ensures Zomb(WaitNext(s, a), i, k)
  {
    assert Zomb(s, i, k) && Holds(s, a, WAIT);
  }

  lemma {:induction false} ScanZomb(s: State, a: nat, i: nat, k: nat)
    requires Inv(s) && Active(s, a) && s.procs[a].pc.WaitScan?
    ensures Zomb(WaitNext(s, a), i, k)
  {
    var j := s.procs[a].pc.j;
    if j < |s.procs| && s.procs[j].parent == a && s.procs[j].state == Zombie {
      ReapZomb(s, a, i, k);
    } else {
      assert Zomb(s, i, k) && Holds(s, a, WAIT);
    }
  }

  lemma {:induction false} ScannedZomb(s: State, a: nat, i: nat, k: nat)
    requires Inv(s) && Active(s, a) && s.procs[a].pc.WaitEnd?
    ensures Zomb(WaitNext(s, a), i, k)
  {
    assert Zomb(s, i, k) && Holds(s, a, WAIT);
  }

  lemma {:induction false} WaitZomb(s: State, a: nat, i: nat, k: nat)
    requires Inv(s) && Active(s, a)
    ensures Zomb(WaitNext(s, a), i, k)
  {
    if s.procs[a].pc.WaitScan? {
      ScanZomb(s, a, i, k);
    } else if s.procs[a].pc.WaitEnd? {
      ScannedZomb(s, a, i, k);
    } else {
      assert Zomb(s, i, k);
    }
  }

  // -------------------------------------------------------------- other calls

  lemma {:induction false} CallTouch(s: State, step: Step)
    requires Inv(s) && IsCall(step) && Active(s, step.i)
    ensures Touch(s, CallNext(s, step), step.i, step.i)
  {
    var a := step.i;
    if s.procs[a].pc.Cond? {
      assert Holds(s, a, s.procs[a].pc.lk);
    } else {
      assert Holds(s, a, WAIT);
    }
  }

  lemma {:induction false} CallSelf(s: State, step: Step)
    requires Inv(s) && IsCall(step) && Active(s, step.i)
    ensures var s' := CallNext(s, step);
            Loc(s', step.i) && OnCpu(s', step.i) && OneCpu(s', s.procs[step.i].on) && Frk(s', step.i)
  {
    var a := step.i;
    assert OnCpu(s, a) && Loc(s, a) && Frk(s, a);
  }

  lemma {:induction false} CallPid(s: State, step: Step)
    requires Inv(s) && IsCall(step) && Active(s, step.i)
    ensures Pid(CallNext(s, step), step.i)
  {
    assert Pid(s, step.i);
  }

  lemma {:induction false} CallHolds(s: State, step: Step, lk: nat)
    requires Inv(s) && IsCall(step) && Active(s, step.i)
    ensures Holds(CallNext(s, step), step.i, lk)
  {
    assert Holds(s, step.i, lk);
  }

  lemma {:induction false} CallQuiet(s: State, step: Step)
    requires Inv(s) && IsCall(step) && Active(s, step.i)
    ensures QuietAt(s.procs[step.i], CallNext(s, step).procs[step.i])
    ensures s.procs[step.i].pc.Wake? ==> CallNext(s, step) == s
  {
    assert Loc(s, step.i);
  }

  function PlainTarget(s: State, step: Step): (t: nat)
    requires IsPlain(step) && step.i < |s.procs|
    ensures t < |s.procs|
  {
    if step.CallFork? && step.j < |s.procs| then step.j else if step.ForkFails? then Target(s, step.i) else step.i
  }

  lemma {:induction false} CallForkTouch(s: State, a: nat, j: nat)
    requires Inv(s) && Active(s, a) && j < |s.procs|
    ensures Touch(s, PlainNext(s, CallFork(a, j)), a, j)
  {
    assert OnCpu(s, a) && Loc(s, j);
  }

  lemma {:induction false} ForkFailsTouch(s: State, a: nat)
    requires Inv(s) && Active(s, a)
    ensures Touch(s, PlainNext(s, ForkFails(a)), a, Target(s, a))
  {
    assert OnCpu(s, a) && Frk(s, a) && Loc(s, Target(s, a));
  }

  lemma {:induction false} PlainTouch(s: State, step: Step)
    requires Inv(s) && IsPlain(step) && Active(s, step.i)
    ensures Touch(s, PlainNext(s, step), step.i, PlainTarget(s, step))
  {
    var a := step.i;
    if step.CallFork? && step.j < |s.procs| {
      CallForkTouch(s, a, step.j);
    } else if step.ForkFails? {
      ForkFailsTouch(s, a);
    } else {
      assert OnCpu(s, a);
    }
  }

  lemma {:induction false} PlainSelf(s: State, step: Step)
    requires Inv(s) && IsPlain(step) && Active(s, step.i)
    ensures var s' := PlainNext(s, step); Loc(s', step.i) && OnCpu(s', step.i) && OneCpu(s', s.procs[step.i].on)
  {
    var a := step.i;
    assert OnCpu(s, a) && Loc(s, a) && Frk(s, a);
  }

  lemma {:induction false} PlainPid(s: State, step: Step)
    requires Inv(s) && IsPlain(step) && Active(s, step.i)
    ensures Pid(PlainNext(s, step), step.i)
  {
    assert Loc(s, step.i) && Pid(s, step.i) && Frk(s, step.i);
  }

  lemma {:induction false} PlainFork(s: State, step: Step)
    requires Inv(s) && IsPlain(step) && Active(s, step.i)
    ensures Frk(PlainNext(s, step), step.i)
  {
    var a, t := step.i, PlainTarget(s, step);
    assert Loc(s, a) && Frk(s, a) && Pid(s, t) && Loc(s, t);
  }

  lemma {:induction false} PlainOther(s: State, step: Step)
    requires Inv(s) && IsPlain(step) && Active(s, step.i) && PlainTarget(s, step) != step.i
    ensures Self(PlainNext(s, step), PlainTarget(s, step))
  {
    var a, t := step.i, PlainTarget(s, step);
    assert OnCpu(s, t) && Loc(s, t) && Pid(s, t) && Frk(s, t) && Loc(s, a) && Frk(s, a);
  }

  lemma {:induction false} PlainHolds(s: State, step: Step, lk: nat)
    requires Inv(s) && IsPlain(step) && Active(s, step.i)
    ensures Holds(PlainNext(s, step), step.i, lk) && Holds(PlainNext(s, step), PlainTarget(s, step), lk)
  {
    assert Holds(s, step.i, lk) && Holds(s, PlainTarget(s, step), lk) && Frk(s, step.i) && Loc(s, PlainTarget(s, step));
  }

  lemma {:induction false} PlainQuiet(s: State, step: Step)
    requires Inv(s) && IsPlain(step) && Active(s, step.i) && !step.CallFork?
    ensures QuietAt(s.procs[step.i], PlainNext(s, step).procs[step.i])
            && (s.procs[step.i].pc.Wake? ==> PlainNext(s, step) == s)
  {
    assert Frk(s, step.i) && Loc(s, step.i);
  }

  lemma {:induction false} PlainQuietOther(s: State, step: Step)
    requires Inv(s) && IsPlain(step) && Active(s, step.i) && !step.CallFork? && PlainTarget(s, step) != step.i
    ensures var s', t := PlainNext(s, step), PlainTarget(s, step);
            QuietAt(s.procs[t], s'.procs[t]) && (s.procs[t].pc.Wake? ==> s'.procs[t].pc == s.procs[t].pc)
  {
    assert Frk(s, step.i) && Loc(s, PlainTarget(s, step));
  }

  /** A new process has a new pid. */
  lemma {:induction false} ForkStarts(s: State, step: Step, i: nat, k: nat)
    requires Inv(s) && step.CallFork? && Active(s, step.i)
    ensures Two(PlainNext(s, step), i, k)
  {
    assert Two(s, i, k) && Pid(s, i) && Pid(s, k) && Loc(s, PlainTarget(s, step));
  }

  lemma {:induction false} ForkMisses(s: State, step: Step, i: nat, k: nat)
    requires Inv(s) && step.CallFork? && Active(s, step.i)
    ensures Missed(PlainNext(s, step), i, k)
  {
    assert Missed(s, i, k) && Loc(s, PlainTarget(s, step));
  }

  lemma {:induction false} ForkStartsAlive(s: State, step: Step, i: nat, k: nat)
    requires Inv(s) && step.CallFork? && Active(s, step.i)
    ensures Zomb(PlainNext(s, step), i, k)
  {
    assert Zomb(s, i, k) && Loc(s, PlainTarget(s, step)) && Holds(s, step.i, WAIT);
  }

  lemma {:induction false} KillKeeps(s: State, a: nat, t: nat)
    requires Inv(s) && Active(s, a)
    ensures Inv(KillNext(s, a, t))
  {
    var s' := KillNext(s, a, t);
    if At(s, a, User) && LockFree(s, t) {
      KillSingles(s, a, t);
      KillQuiet(s, a, t);
      AllQuiet(s, s');
      Together(s');
    }
  }

  lemma {:induction false} KillSingles(s: State, a: nat, t: nat)
    requires Inv(s) && At(s, a, User) && LockFree(s, t)
    ensures Singles(KillNext(s, a, t))
  {
    var s' := KillNext(s, a, t);
    assert Loc(s, a) && OnCpu(s, a) && Frk(s, a) && Pid(s, a);
    assert Loc(s, t) && OnCpu(s, t) && Frk(s, t) && Pid(s, t) && OneCpu(s, s.procs[a].on);
    forall lk: nat ensures Holds(s', a, lk) && Holds(s', t, lk) {
      assert Holds(s, a, lk) && Holds(s, t, lk);
    }
    TouchSingles(s, s', a, t);
  }

  lemma {:induction false} KillQuiet(s: State, a: nat, t: nat)
    requires Inv(s) && At(s, a, User) && LockFree(s, t)
    ensures Quiet(s, KillNext(s, a, t))
  {
    assert Loc(s, t);
    QuietTouch(s, KillNext(s, a, t), a, t);
  }

  // ---------------------------------------------------------------- scheduler

  /** The scheduler runs a process only when its lock was free: no other CPU runs it. */
  lemma {:induction false} CpuSelf(s: State, step: Step, i: nat)
    requires Inv(s) && IsCpu(step)
    ensures Loc(CpuNext(s, step), i) && OnCpu(CpuNext(s, step), i)
  {
    assert OneCpu(s, step.c) && Loc(s, i) && OnCpu(s, i);
  }

  lemma {:induction false} CpuPid(s: State, step: Step, i: nat, lk: nat)
    requires Inv(s) && IsCpu(step)
    ensures Pid(CpuNext(s, step), i) && Frk(CpuNext(s, step), i) && Holds(CpuNext(s, step), i, lk)
  {
    assert OneCpu(s, step.c) && Pid(s, i) && Frk(s, i) && Holds(s, i, lk);
  }

  lemma {:induction false} CpuOne(s: State, step: Step, c: nat)
    requires Inv(s) && IsCpu(step)
    ensures OneCpu(CpuNext(s, step), c)
  {
    assert OneCpu(s, step.c) && OneCpu(s, c);
    if step.Switch? && step.c < |s.cpus| && s.cpus[step.c].Holding? {
      assert Loc(s, s.cpus[step.c].j) && OnCpu(s, s.cpus[step.c].j);
    }
  }

  lemma {:induction false} CpuQuiet(s: State, step: Step)
    requires Inv(s) && IsCpu(step)
    ensures Quiet(s, CpuNext(s, step))
  {
    if step.c < |s.cpus| && s.cpus[step.c].Holding? {
      assert Loc(s, s.cpus[step.c].j);
    }
  }

  // ------------------------------------------------------------- every step keeps it

  ghost predicate Pairs(s: State) {
    && (forall i, k {:trigger Two(s, i, k)} :: Two(s, i, k))
    && (forall i, k {:trigger Missed(s, i, k)} :: Missed(s, i, k))
    && (forall i, k {:trigger Zomb(s, i, k)} :: Zomb(s, i, k))
  }

  lemma {:induction false} Together(s: State)
    requires Singles(s) && Pairs(s)
    ensures Inv(s)
  {
    forall i ensures Loc(s, i) && OnCpu(s, i) && Frk(s, i) && Pid(s, i) {
      assert Self(s, i);
    }
  }

  lemma {:induction false} AllQuiet(s: State, s': State)
    requires Inv(s) && Quiet(s, s')
    ensures Pairs(s')
  {
    forall i: nat, k: nat ensures Two(s', i, k) && Missed(s', i, k) && Zomb(s', i, k) {
      QuietPairs(s, s', i, k);
    }
  }

  lemma {:induction false} SleepKeeps(s: State, a: nat)
    requires Inv(s) && Active(s, a)
    ensures Inv(SleepNext(s, a))
  {
    var s' := SleepNext(s, a);
    SleepTouch(s, a);
    SleepSelf(s, a);
    SleepPid(s, a);
    forall lk: nat ensures Holds(s', a, lk) { SleepHolds(s, a, lk); }
    TouchSingles(s, s', a, a);
    if s.procs[a].pc.SleepRel? {
      forall i: nat, k: nat ensures Two(s', i, k) && Missed(s', i, k) && Zomb(s', i, k) { SleepCommits(s, a, i, k); }
    } else if s.procs[a].pc.Wake? {
      assert s' == s;
    } else {
      SleepQuiet(s, a);
      QuietTouch(s, s', a, a);
      AllQuiet(s, s');
    }
    Together(s');
  }

  lemma {:induction false} WakeKeeps(s: State, a: nat)
    requires Inv(s) && Active(s, a)
    ensures Inv(WakeNext(s, a))
  {
    var s', t := WakeNext(s, a), Target(s, a);
    WakeTouch(s, a);
    WakeSelf(s, a);
    if t != a {
      WakeOther(s, a);
    }
    forall lk: nat ensures Holds(s', a, lk) && Holds(s', t, lk) { WakeHolds(s, a, lk); }
    TouchSingles(s, s', a, t);
    forall i: nat, k: nat ensures Two(s', i, k) && Missed(s', i, k) && Zomb(s', i, k) {
      WakeTwo(s, a, i, k);
      WakeLeavesNone(s, a, i, k);
      if WakeEnds(s, a) { WakeEndsZomb(s, a, i, k); } else { WakeZomb(s, a, i, k); }
    }
    Together(s');
  }

  lemma {:induction false} ForkKeeps(s: State, a: nat)
    requires Inv(s) && Active(s, a)
    ensures Inv(ForkNext(s, a))
  {
    var s', t := ForkNext(s, a), Target(s, a);
    ForkTouch(s, a);
    ForkSelf(s, a);
    if t != a {
      ForkOther(s, a);
    }
    forall lk: nat ensures Holds(s', a, lk) && Holds(s', t, lk) { ForkHolds(s, a, lk); }
    TouchSingles(s, s', a, t);
    if s.procs[a].pc.ForkFree? {
      forall i: nat, k: nat ensures Two(s', i, k) && Missed(s', i, k) && Zomb(s', i, k) { ForkGivesParent(s, a, i, k); }
    } else if s.procs[a].pc.Wake? {
      assert s' == s;
    } else {
      ForkQuiet(s, a);
      QuietTouch(s, s', a, t);
      AllQuiet(s, s');
    }
    Together(s');
  }

  lemma {:induction false} ExitKeeps(s: State, a: nat)
    requires Inv(s) && Active(s, a)
    ensures Inv(ExitNext(s, a))
  {
    var s', t := ExitNext(s, a), Target(s, a);
    ExitTouch(s, a);
    ExitSelf(s, a);
    ExitPid(s, a);
    if t != a {
      ExitOther(s, a);
    }
    forall lk: nat ensures Holds(s', a, lk) && Holds(s', t, lk) { ExitHolds(s, a, lk); }
    assert Books(s') by { assert Pid(s, a) && Loc(s, a); }
    TouchSingles(s, s', a, t);
    forall i: nat, k: nat ensures Two(s', i, k) && Missed(s', i, k) && Zomb(s', i, k) {
      ExitTwo(s, a, i, k);
      ExitMissed(s, a, i, k);
      if s.procs[a].pc.ExitLock? { ExitZomb(s, a, i, k); } else { ReparentZomb(s, a, i, k); }
    }
    Together(s');
  }

  lemma {:induction false} WaitKeeps(s: State, a: nat)
    requires Inv(s) && Active(s, a)
    ensures Inv(WaitNext(s, a))
  {
    var s', t := WaitNext(s, a), Target(s, a);
    WaitTouch(s, a);
    WaitSelf(s, a);
    WaitPid(s, a);
    if t != a {
      WaitOther(s, a);
    }
    forall lk: nat ensures Holds(s', a, lk) && Holds(s', t, lk) { WaitHolds(s, a, lk); }
    WaitBooks(s, a);
    TouchSingles(s, s', a, t);
    forall i: nat, k: nat ensures Two(s', i, k) && Missed(s', i, k) && Zomb(s', i, k) {
      WaitTwo(s, a, i, k);
      WaitMissed(s, a, i, k);
      WaitZomb(s, a, i, k);
    }
    Together(s');
  }

  lemma {:induction false} CallKeeps(s: State, step: Step)
    requires Inv(s) && IsCall(step) && Active(s, step.i)
    ensures Inv(CallNext(s, step))
  {
    var s', a := CallNext(s, step), step.i;
    CallTouch(s, step);
    CallSelf(s, step);
    CallPid(s, step);
    forall lk: nat ensures Holds(s', a, lk) { CallHolds(s, step, lk); }
    TouchSingles(s, s', a, a);
    CallQuiet(s, step);
    if !s.procs[a].pc.Wake? {
      QuietTouch(s, s', a, a);
      AllQuiet(s, s');
      Together(s');
    }
  }

  lemma {:induction false} PlainKeeps(s: State, step: Step)
    requires Inv(s) && IsPlain(step) && Active(s, step.i)
    ensures Inv(PlainNext(s, step))
  {
    var s', a, t := PlainNext(s, step), step.i, PlainTarget(s, step);
    PlainTouch(s, step);
    PlainSelf(s, step);
    PlainPid(s, step);
    PlainFork(s, step);
    if t != a {
      PlainOther(s, step);
    }
    forall lk: nat ensures Holds(s', a, lk) && Holds(s', t, lk) { PlainHolds(s, step, lk); }
    TouchSingles(s, s', a, t);
    if step.CallFork? {
      forall i: nat, k: nat ensures Two(s', i, k) && Missed(s', i, k) && Zomb(s', i, k) {
        ForkStarts(s, step, i, k);
        ForkMisses(s, step, i, k);
        ForkStartsAlive(s, step, i, k);
      }
      Together(s');
    } else {
      PlainQuiet(s, step);
      if t != a {
        PlainQuietOther(s, step);
      }
      if !s.procs[a].pc.Wake? {
        QuietTouch(s, s', a, t);
        AllQuiet(s, s');
        Together(s');
      }
    }
  }

  lemma {:induction false} CpuKeeps(s: State, step: Step)
    requires Inv(s) && IsCpu(step)
    ensures Inv(CpuNext(s, step))
  {
    var s' := CpuNext(s, step);
    forall i: nat ensures Self(s', i) {
      CpuSelf(s, step, i);
      CpuPid(s, step, i, 0);
    }
    forall i: nat, lk: nat ensures Holds(s', i, lk) { CpuPid(s, step, i, lk); }
    forall c: nat ensures OneCpu(s', c) { CpuOne(s, step, c); }
    CpuQuiet(s, step);
    AllQuiet(s, s');
    Together(s');
  }

  lemma {:induction false} NextKeeps(s: State, step: Step)
    requires Inv(s)
    ensures Inv(Next(s, step))
  {
    if IsCpu(step) {
      CpuKeeps(s, step);
    } else if Active(s, step.i) {
      if IsCall(step) {
        CallKeeps(s, step);
      } else if IsPlain(step) {
        PlainKeeps(s, step);
      } else {
        match step {
          case SleepOn(i) => SleepKeeps(s, i);
          case WakeOn(i) => WakeKeeps(s, i);
          case ForkOn(i) => ForkKeeps(s, i);
          case ExitOn(i) => ExitKeeps(s, i);
          case WaitOn(i) => WaitKeeps(s, i);
          case Kill(i, j) => KillKeeps(s, i, j);
        }
      }
    }
  }

  // --------------------------------------------------------------------- runs

  /** Only init exists, RUNNABLE; all CPUs are in their schedulers and no lock is held. */
  predicate Boot(s: State) {
    && Shape(s) && s.nextpid == 2 && s.exited == {} && s.reaped == [] && s.held == map[]
    && (forall c :: 0 <= c < |s.cpus| ==> s.cpus[c] == Scanning)
    && (forall i :: 0 <= i < |s.locks| ==> s.locks[i] == Nobody)
    && (forall i :: 0 <= i < |s.procs| && i != INIT ==> s.procs[i] == FREED)
    && s.procs[INIT] == Proc(Runnable, NoChan, -1, false, 1, Resume, -1, -1)
  }

  ghost predicate Reachable(s: State, steps: seq<Step>)
    decreases |steps|
  {
    if steps == [] then Boot(s)
    else exists s0 :: Shape(s0) && Reachable(s0, steps[..|steps| - 1]) && s == Next(s0, steps[|steps| - 1])
  }

  /** The invariant holds after every run of every length, on any number of CPUs and process slots. */
  lemma {:induction false} RunInv(s: State, steps: seq<Step>)
    requires Reachable(s, steps)
    ensures Inv(s)
    decreases |steps|
  {
    if steps == [] {
      forall i: nat ensures Self(s, i) { }
    } else {
      var s0 :| Shape(s0) && Reachable(s0, steps[..|steps| - 1]) && s == Next(s0, steps[|steps| - 1]);
      RunInv(s0, steps[..|steps| - 1]);
      NextKeeps(s0, steps[|steps| - 1]);
    }
  }

  /** No lost wakeup: when wakeup(ch) under lk has been through all slots, no process that released lk to
      sleep on ch is asleep or on its way to sleep. */
  lemma {:induction false} NoLostWakeup(s: State, steps: seq<Step>, w: nat, i: nat)
    requires Reachable(s, steps) && w < |s.procs| && i < |s.procs|
    requires s.procs[w].pc.Wake? && s.procs[w].pc.j >= |s.procs|
    ensures !Committed(s.procs[i], s.procs[w].pc.lk, s.procs[w].pc.ch)
  {
    RunInv(s, steps);
    assert Missed(s, w, i);
  }

  /** Whenever wait_lock is free, no process sleeps in kwait while it has a zombie child. */
  lemma {:induction false} NoZombieOverlooked(s: State, steps: seq<Step>, i: nat, k: nat)
    requires Reachable(s, steps) && WAIT !in s.held && i < |s.procs| && k < |s.procs|
    requires s.procs[k].parent == i && s.procs[k].state == Zombie
    ensures !Committed(s.procs[i], WAIT, Wait(i)) && !(s.procs[i].state == Sleeping && s.procs[i].chan == Wait(i))
  {
    RunInv(s, steps);
    assert Zomb(s, i, k) && Loc(s, i);
  }

  /** kwait finds that it has no children only when it has none. */
  lemma {:induction false} NoChildrenIsTrue(s: State, steps: seq<Step>, i: nat, k: nat)
    requires Reachable(s, steps) && i < |s.procs| && k < |s.procs| && s.procs[i].pc == WaitEnd(false)
    ensures s.procs[k].parent != i
  {
    RunInv(s, steps);
    assert Zomb(s, i, k);
  }

  /** A parent is never an unused slot, a process being made, or a zombie. */
  lemma {:induction false} ParentsAlive(s: State, steps: seq<Step>, k: nat)
    requires Reachable(s, steps) && k < |s.procs| && s.procs[k].parent != -1
    ensures 0 <= s.procs[k].parent < |s.procs| && s.procs[s.procs[k].parent].state in {Sleeping, Runnable, Running}
  {
    RunInv(s, steps);
    assert Pid(s, k) && Two(s, s.procs[k].parent, k) && Loc(s, s.procs[k].parent);
  }

  /** Every process but init has a parent from before it first runs until it is reaped. */
  lemma {:induction false} ParentsKnown(s: State, steps: seq<Step>, k: nat)
    requires Reachable(s, steps) && k < |s.procs| && k != INIT && s.procs[k].state !in {Unused, Used}
    ensures s.procs[k].parent >= 0
  {
    RunInv(s, steps);
    assert Pid(s, k) && Loc(s, k);
  }

  /** No pid is reaped twice, and only pids that have exited are reaped. */
  lemma {:induction false} ReapedOnce(s: State, steps: seq<Step>)
    requires Reachable(s, steps)
    ensures forall m, n :: 0 <= m < n < |s.reaped| ==> s.reaped[m] != s.reaped[n]
    ensures forall x :: x in s.reaped ==> x in s.exited
    ensures forall i :: 0 <= i < |s.procs| && s.procs[i].state != Unused ==> s.procs[i].pid !in s.reaped
  {
    RunInv(s, steps);
    forall i | 0 <= i < |s.procs| && s.procs[i].state != Unused ensures s.procs[i].pid !in s.reaped {
      assert Pid(s, i);
    }
  }

  /** No process is RUNNING on two CPUs, and one that is RUNNING is on one. */
  lemma {:induction false} OneCpuEach(s: State, steps: seq<Step>, i: nat)
    requires Reachable(s, steps) && i < |s.procs|
    ensures forall c, d :: 0 <= c < |s.cpus| && 0 <= d < |s.cpus| && s.cpus[c] == InProc(i) == s.cpus[d] ==> c == d
    ensures s.procs[i].state == Running ==> exists c :: 0 <= c < |s.cpus| && s.cpus[c] == InProc(i)
  {
    RunInv(s, steps);
    forall c | 0 <= c < |s.cpus| && s.cpus[c] == InProc(i) ensures s.procs[i].on == c {
      assert OneCpu(s, c);
    }
    assert Loc(s, i) && OnCpu(s, i);
  }

  /** When kwait finds a zombie's lock free, and so frees it, no CPU runs it or is still switching away from it. */
  lemma {:induction false} ReapedIsOff(s: State, steps: seq<Step>, j: nat, c: nat)
    requires Reachable(s, steps) && c < |s.cpus| && j < |s.procs| && s.procs[j].state == Zombie && LockFree(s, j)
    ensures s.cpus[c] == Scanning || s.cpus[c].j != j
  {
    RunInv(s, steps);
    assert Loc(s, j) && OnCpu(s, j) && OneCpu(s, c);
  }
}
