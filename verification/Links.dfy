/**
  Link counts: sys_link, sys_unlink and create of kernel/sysfile.c with iput of
  kernel/fs.c, as steps between which other processes run.  A step is what a call
  does under the locks of the inodes it names.  `ents` are the directory entries
  other than "." and "..", by directory and offset.

  `pending` has an inode once for each call that has raised, or has yet to lower,
  its nlink for an entry that is not there: link after its nlink++, unlink after
  erasing the entry, create before its dirlink.  Such a call holds a reference to
  the inode.  `creating` gives the directory of each inode that create has locked.
 */
module Links {
  datatype Kind = NoKind | File | Dir

  datatype Inode = Inode(kind: Kind, nlink: int)

  datatype State = State(inodes: map<nat, Inode>, ents: map<(nat, nat), nat>, pending: multiset<nat>,
                         creating: map<nat, nat>)

  datatype Step =
    | LinkStart(ip: nat)
    | LinkDone(ip: nat, dp: nat, off: nat)
    | LinkFail(ip: nat)
    | UnlinkErase(dp: nat, off: nat)
    | UnlinkDone(ip: nat)
    | CreateStart(dp: nat, ip: nat, dir: bool)
    | CreateDone(ip: nat, off: nat)
    | CreateFail(ip: nat)
    | Iput(ip: nat)

  function KindOf(s: State, i: nat): Kind { if i in s.inodes then s.inodes[i].kind else NoKind }
  function Nlink(s: State, i: nat): int { if i in s.inodes then s.inodes[i].nlink else 0 }

  /** The entries that name i. */
  ghost function Names(s: State, i: nat): set<(nat, nat)> { set k | k in s.ents && s.ents[k] == i }

  /** The entries of directory d for subdirectories, each of which has a ".." that names d. */
  ghost function Subdirs(s: State, d: nat): set<(nat, nat)> {
    set k | k in s.ents && k.0 == d && KindOf(s, s.ents[k]) == Dir
  }

  predicate Empty(s: State, d: nat) { forall k :: k in s.ents ==> k.0 != d }

  function SetNlink(s: State, i: nat, n: int): State
    requires i in s.inodes
  {
    s.(inodes := s.inodes[i := s.inodes[i].(nlink := n)])
  }

  // -------------------------------------------------------------------- steps

  /** A directory that a call can reach: not one that another call is still making. */
  predicate OpenDir(s: State, d: nat) { KindOf(s, d) == Dir && d !in s.creating }

  function Next(s: State, step: Step): State {
    match step
    case LinkStart(ip) =>
      if KindOf(s, ip) == File && ip !in s.creating
      then SetNlink(s, ip, Nlink(s, ip) + 1).(pending := s.pending + multiset{ip}) else s
    case LinkDone(ip, dp, off) =>
      if s.pending[ip] > 0 && ip !in s.creating && KindOf(s, ip) == File && OpenDir(s, dp) && (dp, off) !in s.ents
      then s.(ents := s.ents[(dp, off) := ip], pending := s.pending - multiset{ip}) else s
    case LinkFail(ip) =>
      if s.pending[ip] > 0 && ip !in s.creating && KindOf(s, ip) == File
      then SetNlink(s, ip, Nlink(s, ip) - 1).(pending := s.pending - multiset{ip}) else s
    case UnlinkErase(dp, off) =>
      if (dp, off) in s.ents && OpenDir(s, dp) && s.ents[(dp, off)] in s.inodes
         && (KindOf(s, s.ents[(dp, off)]) == Dir ==> Empty(s, s.ents[(dp, off)])) then
        var ip := s.ents[(dp, off)];
        var t := s.(ents := s.ents - {(dp, off)}, pending := s.pending + multiset{ip});
        if KindOf(s, ip) == Dir then SetNlink(t, dp, Nlink(t, dp) - 1) else t
      else s
    case UnlinkDone(ip) =>
      if s.pending[ip] > 0 && ip !in s.creating && ip in s.inodes
      then SetNlink(s, ip, Nlink(s, ip) - 1).(pending := s.pending - multiset{ip}) else s
    case CreateStart(dp, ip, dir) =>
      if OpenDir(s, dp) && ip in s.inodes && KindOf(s, ip) == NoKind && ip !in s.creating
      then s.(inodes := s.inodes[ip := Inode(if dir then Dir else File, 1)], pending := s.pending + multiset{ip},
              creating := s.creating[ip := dp])
      else s
    case CreateDone(ip, off) =>
      if ip in s.creating && ip in s.inodes && s.creating[ip] in s.inodes && (s.creating[ip], off) !in s.ents then
        var dp := s.creating[ip];
        var t := s.(ents := s.ents[(dp, off) := ip], pending := s.pending - multiset{ip},
                    creating := s.creating - {ip});
        if KindOf(s, ip) == Dir then SetNlink(t, dp, Nlink(t, dp) + 1) else t
      else s
    case CreateFail(ip) =>
      if ip in s.creating && ip in s.inodes
      then SetNlink(s, ip, 0).(pending := s.pending - multiset{ip}, creating := s.creating - {ip}) else s
    case Iput(ip) =>
      if ip in s.inodes && Nlink(s, ip) == 0 && s.pending[ip] == 0 && ip !in s.creating && ip !in s.creating.Values
      then s.(inodes := s.inodes[ip := Inode(NoKind, 0)], ents := map k | k in s.ents && k.0 != ip :: s.ents[k]) else s
  }

  // ---------------------------------------------------------------- invariant

  /** nlink covers every entry that names the inode, every subdirectory it holds, and every call under way. */
  ghost predicate Covered(s: State, i: nat) {
    KindOf(s, i) != NoKind ==> Nlink(s, i) >= |Names(s, i)| + |Subdirs(s, i)| + s.pending[i]
  }

  /** An entry is in a directory and names an inode that is in use. */
  ghost predicate Sound(s: State, k: (nat, nat)) {
    k in s.ents ==>
      KindOf(s, s.ents[k]) != NoKind && KindOf(s, k.0) == Dir && s.ents[k] !in s.creating && k.0 !in s.creating
  }

  /** A call under way holds on to its inodes. */
  ghost predicate Held(s: State, i: nat) {
    && (s.pending[i] > 0 ==> KindOf(s, i) != NoKind)
    && (i in s.creating ==>
          KindOf(s, i) != NoKind && OpenDir(s, s.creating[i]) && Nlink(s, i) == 1 && s.pending[i] == 1)
  }

  ghost predicate Inv(s: State) {
    && (forall i {:trigger Covered(s, i)} :: Covered(s, i))
    && (forall k {:trigger Sound(s, k)} :: Sound(s, k))
    && (forall i {:trigger Held(s, i)} :: Held(s, i))
  }

  // ------------------------------------------------------------ counting entries

  lemma {:induction false} OneMore(a: set<(nat, nat)>, b: set<(nat, nat)>, k: (nat, nat))
    requires k !in a && b == a + {k}
    ensures |b| == |a| + 1
  {
  }

  lemma {:induction false} NamesAdded(s: State, s': State, key: (nat, nat), ip: nat, i: nat)
    requires key !in s.ents && s'.ents == s.ents[key := ip]
    ensures |Names(s', i)| == |Names(s, i)| + if i == ip then 1 else 0
  {
    if i == ip {
      OneMore(Names(s, i), Names(s', i), key);
    } else {
      assert Names(s', i) == Names(s, i);
    }
  }

  lemma {:induction false} NamesRemoved(s: State, s': State, key: (nat, nat), i: nat)
    requires key in s.ents && s'.ents == s.ents - {key}
    ensures |Names(s', i)| == |Names(s, i)| - if i == s.ents[key] then 1 else 0
  {
    if i == s.ents[key] {
      assert Names(s, i) == Names(s', i) + {key};
      OneMore(Names(s', i), Names(s, i), key);
    } else {
      assert Names(s', i) == Names(s, i);
    }
  }

  /** Kinds of named inodes do not change. */
  ghost predicate SameKinds(s: State, s': State) {
    forall k :: k in s.ents ==> (KindOf(s', s.ents[k]) == Dir <==> KindOf(s, s.ents[k]) == Dir)
  }

  lemma {:induction false} SubdirsAdded(s: State, s': State, key: (nat, nat), ip: nat, d: nat)
    requires key !in s.ents && s'.ents == s.ents[key := ip] && SameKinds(s, s')
    ensures |Subdirs(s', d)| == |Subdirs(s, d)| + if d == key.0 && KindOf(s', ip) == Dir then 1 else 0
  {
    if d == key.0 && KindOf(s', ip) == Dir {
      OneMore(Subdirs(s, d), Subdirs(s', d), key);
    } else {
      assert Subdirs(s', d) == Subdirs(s, d);
    }
  }

  lemma {:induction false} SubdirsRemoved(s: State, s': State, key: (nat, nat), d: nat)
    requires key in s.ents && s'.ents == s.ents - {key} && SameKinds(s, s')
    ensures |Subdirs(s', d)| == |Subdirs(s, d)| - if d == key.0 && KindOf(s, s.ents[key]) == Dir then 1 else 0
  {
    if d == key.0 && KindOf(s, s.ents[key]) == Dir {
      OneMore(Subdirs(s', d), Subdirs(s, d), key);
    } else {
      assert Subdirs(s', d) == Subdirs(s, d);
    }
  }

  lemma {:induction false} SameEntries(s: State, s': State, i: nat)
    requires s'.ents == s.ents && SameKinds(s, s')
    ensures Names(s', i) == Names(s, i) && Subdirs(s', i) == Subdirs(s, i)
  {
  }

  lemma {:induction false} FewerEntries(s: State, s': State, i: nat)
    requires (forall k :: k in s'.ents ==> k in s.ents && s'.ents[k] == s.ents[k]) && SameKinds(s, s')
    ensures |Names(s', i)| <= |Names(s, i)| && |Subdirs(s', i)| <= |Subdirs(s, i)|
  {
    Smaller(Names(s', i), Names(s, i));
    Smaller(Subdirs(s', i), Subdirs(s, i));
  }

  lemma {:induction false} Smaller(a: set<(nat, nat)>, b: set<(nat, nat)>)
    requires a <= b
    ensures |a| <= |b|
  {
    assert b == a + (b - a);
  }

  // ------------------------------------------------------------- every step keeps it

  predicate KeepsEntries(step: Step) { step.LinkStart? || step.LinkFail? || step.UnlinkDone? || step.CreateFail? }

  lemma {:induction false} CountsCovered(s: State, step: Step, i: nat)
    requires Inv(s) && KeepsEntries(step)
    ensures Covered(Next(s, step), i)
  {
    assert Covered(s, i) && Held(s, step.ip);
    SameEntries(s, Next(s, step), i);
  }

  lemma {:induction false} LinkedCovered(s: State, ip: nat, dp: nat, off: nat, i: nat)
    requires Inv(s)
    ensures Covered(Next(s, LinkDone(ip, dp, off)), i)
  {
    var s' := Next(s, LinkDone(ip, dp, off));
    assert Covered(s, i);
    if s' != s {
      NamesAdded(s, s', (dp, off), ip, i);
      SubdirsAdded(s, s', (dp, off), ip, i);
    }
  }

  lemma {:induction false} CreatedCovered(s: State, ip: nat, off: nat, i: nat)
    requires Inv(s)
    ensures Covered(Next(s, CreateDone(ip, off)), i)
  {
    var s' := Next(s, CreateDone(ip, off));
    assert Covered(s, i) && Held(s, ip);
    if s' != s {
      NamesAdded(s, s', (s.creating[ip], off), ip, i);
      SubdirsAdded(s, s', (s.creating[ip], off), ip, i);
    }
  }

  lemma {:induction false} ErasedCovered(s: State, dp: nat, off: nat, i: nat)
    requires Inv(s)
    ensures Covered(Next(s, UnlinkErase(dp, off)), i)
  {
    var s' := Next(s, UnlinkErase(dp, off));
    assert Covered(s, i);
    if s' != s {
      NamesRemoved(s, s', (dp, off), i);
      SubdirsRemoved(s, s', (dp, off), i);
    }
  }

  /** An inode that is not in use has no entries. */
  lemma {:induction false} UnusedUnnamed(s: State, i: nat)
    requires Inv(s) && KindOf(s, i) == NoKind
    ensures Names(s, i) == {} && Subdirs(s, i) == {} && s.pending[i] == 0 && forall k :: k in s.ents ==> s.ents[k] != i
  {
    assert Held(s, i);
    forall k | k in s.ents ensures s.ents[k] != i && k.0 != i {
      assert Sound(s, k);
    }
  }

  lemma {:induction false} StartedCovered(s: State, dp: nat, ip: nat, dir: bool, i: nat)
    requires Inv(s)
    ensures Covered(Next(s, CreateStart(dp, ip, dir)), i)
  {
    var s' := Next(s, CreateStart(dp, ip, dir));
    assert Covered(s, i);
    if s' != s {
      UnusedUnnamed(s, ip);
      SameEntries(s, s', i);
    }
  }

  /** iput frees an inode only when no entry names it and it holds no subdirectory. */
  lemma {:induction false} FreedUnnamed(s: State, ip: nat)
    requires Inv(s) && Next(s, Iput(ip)) != s
    ensures Names(s, ip) == {} && Subdirs(s, ip) == {}
  {
    assert Covered(s, ip);
    if KindOf(s, ip) == NoKind {
      UnusedUnnamed(s, ip);
    }
  }

  lemma {:induction false} PutCovered(s: State, ip: nat, i: nat)
    requires Inv(s)
    ensures Covered(Next(s, Iput(ip)), i)
  {
    var s' := Next(s, Iput(ip));
    assert Covered(s, i);
    if s' != s {
      FreedUnnamed(s, ip);
      forall k | k in s.ents ensures s.ents[k] != ip {
        assert s.ents[k] == ip ==> k in Names(s, ip);
      }
      FewerEntries(s, s', i);
    }
  }

  lemma {:induction false} StepCovered(s: State, step: Step, i: nat)
    requires Inv(s)
    ensures Covered(Next(s, step), i)
  {
    match step {
      case LinkStart(_) => CountsCovered(s, step, i);
      case LinkFail(_) => CountsCovered(s, step, i);
      case UnlinkDone(_) => CountsCovered(s, step, i);
      case CreateFail(_) => CountsCovered(s, step, i);
      case LinkDone(ip, dp, off) => LinkedCovered(s, ip, dp, off, i);
      case CreateDone(ip, off) => CreatedCovered(s, ip, off, i);
      case UnlinkErase(dp, off) => ErasedCovered(s, dp, off, i);
      case CreateStart(dp, ip, dir) => StartedCovered(s, dp, ip, dir, i);
      case Iput(ip) => PutCovered(s, ip, i);
    }
  }

  lemma {:induction false} CountsKept(s: State, step: Step, k: (nat, nat), i: nat)
    requires Inv(s) && KeepsEntries(step)
    ensures Sound(Next(s, step), k) && Held(Next(s, step), i)
  {
    assert Sound(s, k) && Held(s, i);
  }

  lemma {:induction false} LinkedKept(s: State, ip: nat, dp: nat, off: nat, k: (nat, nat), i: nat)
    requires Inv(s)
    ensures var s' := Next(s, LinkDone(ip, dp, off)); Sound(s', k) && Held(s', i)
  {
    assert Sound(s, k) && Held(s, i);
  }

  lemma {:induction false} CreatedKept(s: State, ip: nat, off: nat, k: (nat, nat), i: nat)
    requires Inv(s)
    ensures var s' := Next(s, CreateDone(ip, off)); Sound(s', k) && Held(s', i)
  {
    assert Sound(s, k) && Held(s, i) && Held(s, ip);
  }

  lemma {:induction false} ErasedKept(s: State, dp: nat, off: nat, k: (nat, nat), i: nat)
    requires Inv(s)
    ensures var s' := Next(s, UnlinkErase(dp, off)); Sound(s', k) && Held(s', i)
  {
    assert Sound(s, k) && Held(s, i) && Sound(s, (dp, off));
  }

  lemma {:induction false} StartedKept(s: State, dp: nat, ip: nat, dir: bool, k: (nat, nat), i: nat)
    requires Inv(s)
    ensures var s' := Next(s, CreateStart(dp, ip, dir)); Sound(s', k) && Held(s', i)
  {
    assert Sound(s, k) && Held(s, i) && Held(s, ip);
  }

  lemma {:induction false} PutKept(s: State, ip: nat, k: (nat, nat), i: nat)
    requires Inv(s)
    ensures var s' := Next(s, Iput(ip)); Sound(s', k) && Held(s', i)
  {
    assert Sound(s, k) && Held(s, i);
    if Next(s, Iput(ip)) != s {
      FreedUnnamed(s, ip);
      assert k in Names(s, ip) || k !in s.ents || s.ents[k] != ip;
      assert i in s.creating ==> s.creating[i] in s.creating.Values;
    }
  }

  lemma {:induction false} StepKept(s: State, step: Step, k: (nat, nat), i: nat)
    requires Inv(s)
    ensures Sound(Next(s, step), k) && Held(Next(s, step), i)
  {
    match step {
      case LinkStart(_) => CountsKept(s, step, k, i);
      case LinkFail(_) => CountsKept(s, step, k, i);
      case UnlinkDone(_) => CountsKept(s, step, k, i);
      case CreateFail(_) => CountsKept(s, step, k, i);
      case LinkDone(ip, dp, off) => LinkedKept(s, ip, dp, off, k, i);
      case CreateDone(ip, off) => CreatedKept(s, ip, off, k, i);
      case UnlinkErase(dp, off) => ErasedKept(s, dp, off, k, i);
      case CreateStart(dp, ip, dir) => StartedKept(s, dp, ip, dir, k, i);
      case Iput(ip) => PutKept(s, ip, k, i);
    }
  }

  lemma {:induction false} StepInv(s: State, step: Step)
    requires Inv(s)
    ensures Inv(Next(s, step))
  {
    var s' := Next(s, step);
    forall i: nat ensures Covered(s', i) && Held(s', i) {
      StepCovered(s, step, i);
      StepKept(s, step, (0, 0), i);
    }
    forall k: (nat, nat) ensures Sound(s', k) { StepKept(s, step, k, 0); }
  }

  // --------------------------------------------------------------------- runs

  function Run(s: State, steps: seq<Step>): State
    decreases |steps|
  {
    if steps == [] then s else Next(Run(s, steps[..|steps| - 1]), steps[|steps| - 1])
  }

  lemma {:induction false} RunInv(s: State, steps: seq<Step>)
    requires Inv(s)
    ensures Inv(Run(s, steps))
    decreases |steps|
  {
    if steps != [] {
      RunInv(s, steps[..|steps| - 1]);
      StepInv(Run(s, steps[..|steps| - 1]), steps[|steps| - 1]);
    }
  }

  /** A file system with an empty root directory is a good start. */
  lemma {:induction false} EmptyRoot(root: nat, inodes: map<nat, Inode>)
    requires root in inodes && inodes[root] == Inode(Dir, 1)
             && forall i :: i in inodes && i != root ==> inodes[i] == Inode(NoKind, 0)
    ensures Inv(State(inodes, map[], multiset{}, map[]))
  {
    var s := State(inodes, map[], multiset{}, map[]);
    forall i: nat ensures Covered(s, i) {
      assert Names(s, i) == {} && Subdirs(s, i) == {};
    }
  }

  /** After any run, an entry names an inode that is in use and has a link count, so that unlink does not panic. */
  lemma {:induction false} NoDanglingName(s: State, steps: seq<Step>, k: (nat, nat))
    requires Inv(s) && k in Run(s, steps).ents
    ensures var t := Run(s, steps); KindOf(t, t.ents[k]) != NoKind && Nlink(t, t.ents[k]) >= 1
  {
    RunInv(s, steps);
    var t := Run(s, steps);
    assert Sound(t, k) && Covered(t, t.ents[k]);
    assert k in Names(t, t.ents[k]);
  }

  /** After any run, iput leaves an inode alone as long as an entry names it. */
  lemma {:induction false} NamedIsKept(s: State, steps: seq<Step>, k: (nat, nat))
    requires Inv(s) && k in Run(s, steps).ents
    ensures var t := Run(s, steps); Next(t, Iput(t.ents[k])) == t
  {
    RunInv(s, steps);
    var t := Run(s, steps);
    assert k in Names(t, t.ents[k]);
    if Next(t, Iput(t.ents[k])) != t {
      FreedUnnamed(t, t.ents[k]);
    }
  }

  /** After any run, a directory's nlink is at least its entries in other directories plus its subdirectories. */
  lemma {:induction false} LinksCover(s: State, steps: seq<Step>, i: nat)
    requires Inv(s) && KindOf(Run(s, steps), i) != NoKind
    ensures var t := Run(s, steps); Nlink(t, i) >= |Names(t, i)| + |Subdirs(t, i)|
  {
    RunInv(s, steps);
    assert Covered(Run(s, steps), i);
  }
}
