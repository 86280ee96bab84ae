/**
  The parser of user/sh.c as code over a cursor.  Words are kept as the slice of
  the buffer they stand in, as the shell keeps them, until nulterminate.  A parse
  method is given, as a ghost, the tokens that stand at the cursor, and does what
  the parser on tokens does with them.
 */
module ShellCode {
  import opened Fold
  import opened Shell
  import opened ShellGrammar

  // tags of folded definitions
  const HERE := 101
  const ARGS := 102
  const REDIRS := 103

  datatype Slice = Slice(q: nat, eq: nat)

  datatype Cmd =
    | ExecCmd(argv: seq<Slice>)
    | RedirCmd(cmd: Cmd, file: Slice, mode: Mode)
    | PipeCmd(left: Cmd, right: Cmd)
    | ListCmd(left: Cmd, right: Cmd)
    | BackCmd(cmd: Cmd)

  datatype Lexed = LEnd | LSym(c: char) | LAppend | LWord(w: Slice)

  function Text(s: string, w: Slice): string { if w.q <= w.eq <= |s| then s[w.q..w.eq] else "" }

  function Texts(s: string, ws: seq<Slice>): (ts: seq<string>)
    ensures |ts| == |ws| && forall i :: 0 <= i < |ws| ==> ts[i] == Text(s, ws[i])
  {
    if ws == [] then [] else [Text(s, ws[0])] + Texts(s, ws[1..])
  }

  function Files(s: string, rs: seq<(Slice, Mode)>): (fs: seq<(string, Mode)>)
    ensures |fs| == |rs| && forall i :: 0 <= i < |rs| ==> fs[i] == (Text(s, rs[i].0), rs[i].1)
  {
    if rs == [] then [] else [(Text(s, rs[0].0), rs[0].1)] + Files(s, rs[1..])
  }

  /** The tree of words that a tree of slices stands for. */
  function TreeOf(s: string, c: Cmd): Tree {
    match c
    case ExecCmd(argv) => Exec(Texts(s, argv))
    case RedirCmd(cmd, file, mode) => Redir(TreeOf(s, cmd), Text(s, file), mode)
    case PipeCmd(left, right) => Pipe(TreeOf(s, left), TreeOf(s, right))
    case ListCmd(left, right) => List(TreeOf(s, left), TreeOf(s, right))
    case BackCmd(cmd) => Back(TreeOf(s, cmd))
  }

  /** w is a whole word of s. */
  predicate WordAt(s: string, w: Slice) {
    w.q < w.eq <= |s| && (forall i :: w.q <= i < w.eq ==> IsWordChar(s[i])) && (w.eq < |s| ==> !IsWordChar(s[w.eq]))
  }

  predicate CmdOk(s: string, c: Cmd) {
    match c
    case ExecCmd(argv) => |argv| < MAXARGS && forall i :: 0 <= i < |argv| ==> WordAt(s, argv[i])
    case RedirCmd(cmd, file, mode) => CmdOk(s, cmd) && WordAt(s, file)
    case PipeCmd(left, right) => CmdOk(s, left) && CmdOk(s, right)
    case ListCmd(left, right) => CmdOk(s, left) && CmdOk(s, right)
    case BackCmd(cmd) => CmdOk(s, cmd)
  }

  predicate FilesOk(s: string, rs: seq<(Slice, Mode)>) { forall i :: 0 <= i < |rs| ==> WordAt(s, rs[i].0) }

  /** Redirections around a command, the first innermost. */
  function WrapCmd(c: Cmd, rs: seq<(Slice, Mode)>): Cmd
    decreases |rs|
  {
    if rs == [] then c else WrapCmd(RedirCmd(c, rs[0].0, rs[0].1), rs[1..])
  }

  lemma {:induction false} WrapTreeOf(s: string, c: Cmd, rs: seq<(Slice, Mode)>)
    ensures TreeOf(s, WrapCmd(c, rs)) == Wrap(TreeOf(s, c), Files(s, rs))
    ensures CmdOk(s, c) && FilesOk(s, rs) ==> CmdOk(s, WrapCmd(c, rs))
    decreases |rs|
  {
    if rs != [] {
      WrapTreeOf(s, RedirCmd(c, rs[0].0, rs[0].1), rs[1..]);
      assert Files(s, rs)[1..] == Files(s, rs[1..]);
    }
  }

  // ------------------------------------------------------- tokens at the cursor

  /** The tokens of s from i on are ts. */
  ghost predicate Here(s: string, i: nat, ts: seq<Tok>) {
    forall u {:trigger Unfold(HERE, u)} :: Unfold(HERE, u) ==> i <= |s| && ts == Tokens(s, i)
  }

  function TokOf(s: string, l: Lexed): Tok {
    match l
    case LEnd => Append
    case LSym(c) => Sym(c)
    case LAppend => Append
    case LWord(w) => Word(Text(s, w))
  }

  function First(t: Tok): char {
    match t
    case Word(w) => if w == "" then ' ' else w[0]
    case Sym(c) => c
    case Append => '>'
  }

  /** The first character of the text is the first of its first token. */
  lemma {:induction false} HereFirst(s: string, i: nat, ts: seq<Tok>)
    requires i <= |s| && Here(s, i, ts)
    ensures var a := Skip(s, i);
            && (ts == [] <==> a == |s|) && (ts != [] ==> s[a] == First(ts[0]) && TokOk(ts[0])) && Here(s, a, ts)
  {
    assert Unfold(HERE, 0);
    assert Skip(s, Skip(s, i)) == Skip(s, i);
  }

  /** gettoken's result l, which ends at b, and the cursor after the white space behind it. */
  lemma {:induction false} HereNext(s: string, i: nat, ts: seq<Tok>, l: Lexed, b: nat)
    requires i <= |s| && Here(s, i, ts) && Skip(s, i) < |s| && b <= |s|
    requires TokOf(s, l) == TokAt(s, Skip(s, i)) && b == TokEnd(s, Skip(s, i))
    ensures ts != [] && TokOf(s, l) == ts[0] && Here(s, Skip(s, b), ts[1..])
  {
    assert Unfold(HERE, 0);
    assert Skip(s, Skip(s, b)) == Skip(s, b);
    assert ts[1..] == Tokens(s, b);
  }

  /** A good token begins with a symbol exactly if it is one. */
  lemma {:induction false} FirstIs(t: Tok, c: char)
    requires TokOk(t) && IsSymbol(c) && c != '>'
    ensures First(t) == c <==> t == Sym(c)
  {
  }

  lemma {:induction false} FirstIsRedir(t: Tok)
    requires TokOk(t)
    ensures First(t) in "<>" <==> IsRedir(t)
  {
  }

  lemma {:induction false} FirstStops(t: Tok)
    requires TokOk(t)
    ensures First(t) in "|)&;" <==> t == Sym('|') || t == Sym(')') || t == Sym('&') || t == Sym(';')
  {
  }

  // ------------------------------------------------------------ what has been read

  lemma {:induction false} TextsSnoc(s: string, ws: seq<Slice>, w: Slice)
    ensures Texts(s, ws + [w]) == Texts(s, ws) + [Text(s, w)]
  {
  }

  lemma {:induction false} FilesJoin(s: string, rs: seq<(Slice, Mode)>, more: seq<(Slice, Mode)>)
    ensures Files(s, rs + more) == Files(s, rs) + Files(s, more)
  {
  }

  /** The items xs in front of what p takes. */
  function Behind(xs: seq<Item>, p: Parsed<seq<Item>>): Parsed<seq<Item>> {
    if p.Bad? then Bad else Good(xs + p.v, p.rest)
  }

  lemma {:induction false} BehindMore(xs: seq<Item>, x: Item, p: Parsed<seq<Item>>)
    ensures Behind(xs, Before(x, p)) == Behind(xs + [x], p)
  {
    if p.Good? {
      assert xs + ([x] + p.v) == xs + [x] + p.v;
    }
  }

  /** parseredirs has read `done` as rs, and left is to come. */
  ghost predicate RedirsSoFar(s: string, ts: seq<Tok>, rs: seq<(Slice, Mode)>, done: seq<Item>, left: seq<Tok>) {
    forall u {:trigger Unfold(REDIRS, u)} :: Unfold(REDIRS, u) ==>
      TakeRedirs(ts) == Behind(done, TakeRedirs(left)) && Files(s, rs) == Redirs(done) && OnlyRedirs(done)
  }

  lemma {:induction false} RedirsStart(s: string, ts: seq<Tok>)
    ensures RedirsSoFar(s, ts, [], [], ts)
  {
    var p := TakeRedirs(ts);
    assert p.Good? ==> [] + p.v == p.v;
  }

  lemma {:induction false} RedirsStep(s: string, ts: seq<Tok>, rs: seq<(Slice, Mode)>, done: seq<Item>,
                                      left: seq<Tok>, file: Slice, mode: Mode, x: Item)
    requires RedirsSoFar(s, ts, rs, done, left) && !NoRedir(left) && |left| >= 2 && left[1].Word?
    requires x == Redirect(ModeOf(left[0]), left[1].w) && Text(s, file) == x.file && mode == x.mode
    ensures RedirsSoFar(s, ts, rs + [(file, mode)], done + [x], left[2..])
  {
    assert Unfold(REDIRS, 0);
    BehindMore(done, x, TakeRedirs(left[2..]));
    FilesJoin(s, rs, [(file, mode)]);
    ItemsJoin(done, [x]);
    ItemsCons(x, [], []);
    assert [x] + [] == [x];
  }

  lemma {:induction false} RedirsEnd(s: string, ts: seq<Tok>, rs: seq<(Slice, Mode)>, done: seq<Item>, left: seq<Tok>)
    requires RedirsSoFar(s, ts, rs, done, left)
    ensures NoRedir(left) ==> TakeRedirs(ts) == Good(done, left) && Files(s, rs) == Redirs(done) && OnlyRedirs(done)
    ensures !NoRedir(left) && (|left| < 2 || !left[1].Word?) ==> TakeRedirs(ts).Bad?
  {
    assert Unfold(REDIRS, 0);
    assert done + [] == done;
  }

  /** Where a simple command begins with redirections, these are its first items. */
  lemma {:induction false} ItemsAfterRedirs(ts: seq<Tok>, n: nat)
    ensures var r := TakeRedirs(ts);
            TakeItems(ts, n) == if r.Bad? then Bad else Behind(r.v, TakeItems(r.rest, n))
  {
    if NoRedir(ts) {
      var p := TakeItems(ts, n);
      assert p.Good? ==> [] + p.v == p.v;
    } else if |ts| >= 2 && ts[1].Word? {
      var x, r := Redirect(ModeOf(ts[0]), ts[1].w), TakeRedirs(ts[2..]);
      ItemsAfterRedirs(ts[2..], n);
      if r.Good? && TakeItems(r.rest, n).Good? {
        assert [x] + (r.v + TakeItems(r.rest, n).v) == [x] + r.v + TakeItems(r.rest, n).v;
      }
    }
  }

  /** parseexec has read `done` as args and rs, and left is to come. */
  ghost predicate ArgsSoFar(s: string, ts: seq<Tok>, args: seq<Slice>, rs: seq<(Slice, Mode)>, done: seq<Item>,
                            left: seq<Tok>) {
    forall u {:trigger Unfold(ARGS, u)} :: Unfold(ARGS, u) ==>
      && TakeItems(ts, 0) == Behind(done, TakeItems(left, |args|))
      && Texts(s, args) == Args(done) && Files(s, rs) == Redirs(done) && NoRedir(left)
  }

  lemma {:induction false} OnlyRedirsNoArgs(xs: seq<Item>)
    requires OnlyRedirs(xs)
    ensures Args(xs) == []
  {
    if xs != [] {
      OnlyRedirsNoArgs(xs[1..]);
    }
  }

  lemma {:induction false} ArgsStart(s: string, ts: seq<Tok>, rs: seq<(Slice, Mode)>)
    requires TakeRedirs(ts).Good? && Files(s, rs) == Redirs(TakeRedirs(ts).v)
    ensures ArgsSoFar(s, ts, [], rs, TakeRedirs(ts).v, TakeRedirs(ts).rest)
  {
    ItemsAfterRedirs(ts, 0);
    TakenRedirs(ts);
    OnlyRedirsNoArgs(TakeRedirs(ts).v);
  }

  /** A word, the redirections after it, and what follows these. */
  lemma {:induction false} TakeWord(ts: seq<Tok>, n: nat, done: seq<Item>, x: Item, more: seq<Item>, left: seq<Tok>)
    requires ts != [] && x.Arg? && ts[0] == Word(x.w) && n + 1 < MAXARGS && TakeRedirs(ts[1..]) == Good(more, left)
    ensures Behind(done, TakeItems(ts, n)) == Behind(done + [x] + more, TakeItems(left, n + 1))
  {
    var p := TakeItems(left, n + 1);
    ItemsAfterRedirs(ts[1..], n + 1);
    assert TakeItems(ts, n) == Before(x, Behind(more, p));
    if p.Good? {
      assert done + ([x] + (more + p.v)) == done + [x] + more + p.v;
    }
  }

  lemma {:induction false} WordItems(done: seq<Item>, x: Item, more: seq<Item>)
    requires x.Arg? && OnlyRedirs(more)
    ensures Args(done + [x] + more) == Args(done) + [x.w] && Redirs(done + [x] + more) == Redirs(done) + Redirs(more)
  {
    OnlyRedirsNoArgs(more);
    ItemsJoin(done + [x], more);
    ItemsJoin(done, [x]);
    ItemsCons(x, [], []);
    assert [x] + [] == [x];
  }

  /** One more word, and the redirections after it. */
  lemma {:induction false} ArgsStep(s: string, ts: seq<Tok>, args: seq<Slice>, rs: seq<(Slice, Mode)>,
                                    done: seq<Item>, left: seq<Tok>,
                                    w: Slice, more: seq<(Slice, Mode)>, done': seq<Item>, left': seq<Tok>)
    requires ArgsSoFar(s, ts, args, rs, done, left) && left != [] && left[0] == Word(Text(s, w)) && |args| + 1 < MAXARGS
    requires TakeRedirs(left[1..]) == Good(done', left') && Files(s, more) == Redirs(done')
    ensures ArgsSoFar(s, ts, args + [w], rs + more, done + [Arg(Text(s, w))] + done', left')
  {
    assert Unfold(ARGS, 0);
    TakeWord(left, |args|, done, Arg(Text(s, w)), done', left');
    TextsSnoc(s, args, w);
    FilesJoin(s, rs, more);
    TakenRedirs(left[1..]);
    WordItems(done, Arg(Text(s, w)), done');
  }

  lemma {:induction false} ArgsEnd(s: string, ts: seq<Tok>, args: seq<Slice>, rs: seq<(Slice, Mode)>, done: seq<Item>,
                                   left: seq<Tok>)
    requires ArgsSoFar(s, ts, args, rs, done, left)
    ensures NoRedir(left)
    ensures AfterSingle(left) ==>
              TakeItems(ts, 0) == Good(done, left) && Texts(s, args) == Args(done) && Files(s, rs) == Redirs(done)
    ensures !AfterSingle(left) && !left[0].Word? ==> TakeItems(ts, 0).Bad?
    ensures !AfterSingle(left) && left[0].Word? && |args| + 1 >= MAXARGS ==> TakeItems(ts, 0).Bad?
    ensures !AfterSingle(left) && left[0].Word? && TakeRedirs(left[1..]).Bad? ==> TakeItems(ts, 0).Bad?
  {
    assert Unfold(ARGS, 0);
    assert done + [] == done;
    if !AfterSingle(left) && left[0].Word? && |args| + 1 < MAXARGS {
      ItemsAfterRedirs(left[1..], |args| + 1);
    }
  }

  /** The line s, as the grammar has it, means t. */
  ghost predicate Says(s: string, t: Tree) { Means(Tokens(s, 0), t) }

  lemma {:induction false} SaysWhatIsTaken(s: string, ts: seq<Tok>, t: Tree)
    requires Here(s, 0, ts)
    ensures Says(s, t) <==> TakeLine(ts).Good? && TakeLine(ts).rest == [] && Meaning(TakeLine(ts).v) == t
  {
    assert Unfold(HERE, 0);
    ParserIsGrammar(ts, t);
  }

  class Parser {
    const buf: string
    var pos: nat

    constructor (line: string)
      ensures buf == line && pos == 0
    {
      buf, pos := line, 0;
    }

    method SkipSpace()
      requires pos <= |buf|
      modifies this
      ensures pos == Skip(buf, old(pos))
    {
      while pos < |buf| && IsSpace(buf[pos])
        invariant pos <= |buf| && Skip(buf, pos) == Skip(buf, old(pos))
        decreases |buf| - pos
      {
        pos := pos + 1;
      }
    }

    /** peek: whether the next token begins with one of these characters. */
    method Peek(toks: string, ghost ts: seq<Tok>) returns (yes: bool)
      requires pos <= |buf| && Here(buf, pos, ts)
      modifies this
      ensures old(pos) <= pos <= |buf| && Here(buf, pos, ts) && pos == Skip(buf, pos)
              && (ts != [] ==> pos < |buf| && TokOk(ts[0]))
      ensures yes <==> ts != [] && First(ts[0]) in toks
    {
      HereFirst(buf, pos, ts);
      SkipSpace();
      yes := pos < |buf| && buf[pos] in toks;
    }

    /** gettoken: the next token, a word being as long as it can be, and the cursor past the white space after it. */
    method GetToken(ghost ts: seq<Tok>) returns (l: Lexed)
      requires pos <= |buf| && Here(buf, pos, ts)
      modifies this
      ensures old(pos) <= pos <= |buf| && (l.LWord? ==> WordAt(buf, l.w))
      ensures ts == [] <==> l.LEnd?
      ensures ts == [] ==> Here(buf, pos, ts)
      ensures ts != [] ==> TokOf(buf, l) == ts[0] && Here(buf, pos, ts[1..]) && pos > old(pos)
    {
      HereFirst(buf, pos, ts);
      SkipSpace();
      var q := pos;
      if pos == |buf| {
        return LEnd;
      }
      var c := buf[pos];
      if c == '>' {
        pos := pos + 1;
        l := LSym('>');
        if pos < |buf| && buf[pos] == '>' {
          l := LAppend;
          pos := pos + 1;
        }
      } else if IsSymbol(c) {
        pos := pos + 1;
        l := LSym(c);
      } else {
        while pos < |buf| && !IsSpace(buf[pos]) && !IsSymbol(buf[pos])
          invariant q <= pos <= |buf| && WordEnd(buf, pos) == WordEnd(buf, q)
          decreases |buf| - pos
        {
          pos := pos + 1;
        }
        l := LWord(Slice(q, pos));
      }
      HereNext(buf, old(pos), ts, l, pos);
      SkipSpace();
    }

    /** One turn of parseredirs. */
    method OneRedir(ghost ts: seq<Tok>) returns (ok: bool, file: Slice, mode: Mode)
      requires pos <= |buf| && Here(buf, pos, ts) && !NoRedir(ts)
      modifies this
      ensures old(pos) < pos <= |buf|
      ensures ok <==> |ts| >= 2 && ts[1].Word?
      ensures ok ==> WordAt(buf, file) && Text(buf, file) == ts[1].w && mode == ModeOf(ts[0]) && Here(buf, pos, ts[2..])
    {
      var tok := GetToken(ts);
      var l := GetToken(ts[1..]);
      if !l.LWord? {
        return false, Slice(0, 0), ReadFrom;
      }
      mode := if tok == LSym('<') then ReadFrom else if tok == LSym('>') then WriteTo else AppendTo;
      assert ts[1..][1..] == ts[2..];
      return true, l.w, mode;
    }

    /** parseredirs: the redirections that stand here, or failure where a file name is missing. */
    method ParseRedirs(ghost ts: seq<Tok>) returns (ok: bool, rs: seq<(Slice, Mode)>)
      requires pos <= |buf| && Here(buf, pos, ts)
      modifies this
      ensures old(pos) <= pos <= |buf| && FilesOk(buf, rs)
      ensures ok <==> TakeRedirs(ts).Good?
      ensures ok ==> Files(buf, rs) == Redirs(TakeRedirs(ts).v) && Here(buf, pos, TakeRedirs(ts).rest)
    {
      ghost var left, done := ts, [];
      rs := [];
      RedirsStart(buf, ts);
      while true
        invariant old(pos) <= pos <= |buf| && FilesOk(buf, rs)
        invariant Here(buf, pos, left) && RedirsSoFar(buf, ts, rs, done, left)
        decreases |buf| - pos
      {
        RedirsEnd(buf, ts, rs, done, left);
        var more := Peek("<>", left);
        if left != [] {
          FirstIsRedir(left[0]);
        }
        if !more {
          break;
        }
        var got, file, mode := OneRedir(left);
        if !got {
          return false, rs;
        }
        ghost var x := Redirect(ModeOf(left[0]), left[1].w);
        RedirsStep(buf, ts, rs, done, left, file, mode, x);
        rs, done, left := rs + [(file, mode)], done + [x], left[2..];
      }
      ok := true;
    }

    /** One turn of parseexec's loop: no more, or a word with the redirections after it, or failure. */
    method OneArg(n: nat, ghost ts: seq<Tok>) returns (ok: bool, more: bool, w: Slice, rs: seq<(Slice, Mode)>)
      requires pos <= |buf| && Here(buf, pos, ts) && NoRedir(ts)
      modifies this
      ensures old(pos) <= pos <= |buf| && FilesOk(buf, rs) && (more ==> old(pos) < pos)
      ensures ok && !more <==> AfterSingle(ts)
      ensures ok && more <==> !AfterSingle(ts) && ts[0].Word? && n + 1 < MAXARGS && TakeRedirs(ts[1..]).Good?
      ensures ok && !more ==> Here(buf, pos, ts)
      ensures ok && more ==> WordAt(buf, w) && ts[0] == Word(Text(buf, w))
      ensures ok && more ==> var r := TakeRedirs(ts[1..]); Files(buf, rs) == Redirs(r.v) && Here(buf, pos, r.rest)
    {
      w, rs := Slice(0, 0), [];
      var end := Peek("|)&;", ts);
      if ts != [] {
        FirstStops(ts[0]);
      }
      if end {
        return true, false, w, rs;
      }
      var l := GetToken(ts);
      if l == LEnd {
        return true, false, w, rs;
      }
      if !l.LWord? || n + 1 >= MAXARGS {
        return false, false, w, rs;
      }
      w, more := l.w, true;
      ok, rs := ParseRedirs(ts[1..]);
    }

    /** The words and redirections of a simple command: parseexec's loop. */
    method ParseArgs(ghost ts: seq<Tok>) returns (ok: bool, args: seq<Slice>, rs: seq<(Slice, Mode)>)
      requires pos <= |buf| && Here(buf, pos, ts)
      modifies this
      ensures old(pos) <= pos <= |buf| && FilesOk(buf, rs) && (ok ==> CmdOk(buf, ExecCmd(args)))
      ensures ok <==> TakeItems(ts, 0).Good?
      ensures ok ==>
                var p := TakeItems(ts, 0);
                Texts(buf, args) == Args(p.v) && Files(buf, rs) == Redirs(p.v) && Here(buf, pos, p.rest)
    {
      args := [];
      ItemsAfterRedirs(ts, 0);
      ok, rs := ParseRedirs(ts);
      if !ok {
        return;
      }
      ghost var done, left := TakeRedirs(ts).v, TakeRedirs(ts).rest;
      ArgsStart(buf, ts, rs);
      while true
        invariant old(pos) <= pos <= |buf| && FilesOk(buf, rs) && CmdOk(buf, ExecCmd(args))
        invariant Here(buf, pos, left) && ArgsSoFar(buf, ts, args, rs, done, left)
        decreases |buf| - pos
      {
        ArgsEnd(buf, ts, args, rs, done, left);
        var good, more, w, after := OneArg(|args|, left);
        if !good {
          return false, args, rs;
        }
        if !more {
          break;
        }
        ghost var p := TakeRedirs(left[1..]);
        ArgsStep(buf, ts, args, rs, done, left, w, after, p.v, p.rest);
        args, rs, done, left := args + [w], rs + after, done + [Arg(Text(buf, w))] + p.v, p.rest;
      }
      ok := true;
    }

    /** parseexec */
    method ParseExec(ghost ts: seq<Tok>) returns (ok: bool, cmd: Cmd)
      requires pos <= |buf| && Here(buf, pos, ts)
      modifies this
      ensures old(pos) <= pos <= |buf| && (ok ==> CmdOk(buf, cmd))
      ensures ok <==> TakeSingle(ts).Good?
      ensures ok ==> TreeOf(buf, cmd) == Meaning(TakeSingle(ts).v) && Here(buf, pos, TakeSingle(ts).rest)
      decreases |buf| - pos, 1
    {
      var block := Peek("(", ts);
      if ts != [] {
        FirstIs(ts[0], '(');
      }
      if block {
        ok, cmd := ParseBlock(ts);
        return;
      }
      var args, rs;
      ok, args, rs := ParseArgs(ts);
      cmd := WrapCmd(ExecCmd(args), rs);
      WrapTreeOf(buf, ExecCmd(args), rs);
    }

    /** The end of parseblock: the closing bracket and the redirections after it. */
    method CloseBlock(inner: Cmd, ghost ts: seq<Tok>) returns (ok: bool, cmd: Cmd)
      requires pos <= |buf| && CmdOk(buf, inner) && Here(buf, pos, ts)
      modifies this
      ensures old(pos) <= pos <= |buf| && (ok ==> CmdOk(buf, cmd))
      ensures ok <==> Begins(ts, ')') && TakeRedirs(ts[1..]).Good?
      ensures ok ==>
                var r := TakeRedirs(ts[1..]);
                TreeOf(buf, cmd) == Wrap(TreeOf(buf, inner), Redirs(r.v)) && Here(buf, pos, r.rest)
    {
      var close := Peek(")", ts);
      if ts != [] {
        FirstIs(ts[0], ')');
      }
      if !close {
        return false, ExecCmd([]);
      }
      var _ := GetToken(ts);
      var rs;
      ok, rs := ParseRedirs(ts[1..]);
      cmd := WrapCmd(inner, rs);
      WrapTreeOf(buf, inner, rs);
    }

    /** parseblock, at ( */
    method ParseBlock(ghost ts: seq<Tok>) returns (ok: bool, cmd: Cmd)
      requires pos <= |buf| && Here(buf, pos, ts) && Begins(ts, '(')
      modifies this
      ensures old(pos) <= pos <= |buf| && (ok ==> CmdOk(buf, cmd))
      ensures ok <==> TakeSingle(ts).Good?
      ensures ok ==> TreeOf(buf, cmd) == Meaning(TakeSingle(ts).v) && Here(buf, pos, TakeSingle(ts).rest)
      decreases |buf| - pos, 0
    {
      var _ := GetToken(ts);
      ok, cmd := ParseLine(ts[1..]);
      if !ok {
        return;
      }
      ok, cmd := CloseBlock(cmd, TakeLine(ts[1..]).rest);
    }

    /** parsepipe */
    method ParsePipe(ghost ts: seq<Tok>) returns (ok: bool, cmd: Cmd)
      requires pos <= |buf| && Here(buf, pos, ts)
      modifies this
      ensures old(pos) <= pos <= |buf| && (ok ==> CmdOk(buf, cmd))
      ensures ok <==> TakePipeline(ts).Good?
      ensures ok ==> TreeOf(buf, cmd) == Meaning(TakePipeline(ts).v) && Here(buf, pos, TakePipeline(ts).rest)
      decreases |buf| - pos, 2
    {
      ok, cmd := ParseExec(ts);
      if !ok {
        return;
      }
      ghost var after := TakeSingle(ts).rest;
      var more := Peek("|", after);
      if after != [] {
        FirstIs(after[0], '|');
      }
      if more {
        var _ := GetToken(after);
        var right;
        ok, right := ParsePipe(after[1..]);
        cmd := PipeCmd(cmd, right);
      }
    }

    /** The & marks of parseline. */
    method ParseBacks(cmd0: Cmd, ghost ts: seq<Tok>) returns (cmd: Cmd)
      requires pos <= |buf| && CmdOk(buf, cmd0) && Here(buf, pos, ts)
      modifies this
      ensures old(pos) <= pos <= |buf| && CmdOk(buf, cmd)
      ensures TreeOf(buf, cmd) == InBack(TreeOf(buf, cmd0), CountAmps(ts)) && Here(buf, pos, ts[CountAmps(ts)..])
    {
      cmd := cmd0;
      ghost var left := ts;
      while true
        invariant old(pos) <= pos <= |buf| && CmdOk(buf, cmd) && Here(buf, pos, left)
        invariant InBack(TreeOf(buf, cmd), CountAmps(left)) == InBack(TreeOf(buf, cmd0), CountAmps(ts))
        invariant left[CountAmps(left)..] == ts[CountAmps(ts)..]
        decreases |buf| - pos
      {
        var more := Peek("&", left);
        if left != [] {
          FirstIs(left[0], '&');
        }
        if !more {
          break;
        }
        var _ := GetToken(left);
        assert left[CountAmps(left)..] == left[1..][CountAmps(left[1..])..];
        cmd := BackCmd(cmd);
        left := left[1..];
      }
    }

    /** parseline */
    method ParseLine(ghost ts: seq<Tok>) returns (ok: bool, cmd: Cmd)
      requires pos <= |buf| && Here(buf, pos, ts)
      modifies this
      ensures old(pos) <= pos <= |buf| && (ok ==> CmdOk(buf, cmd))
      ensures ok <==> TakeLine(ts).Good?
      ensures ok ==> TreeOf(buf, cmd) == Meaning(TakeLine(ts).v) && Here(buf, pos, TakeLine(ts).rest)
      decreases |buf| - pos, 3
    {
      ok, cmd := ParsePipe(ts);
      if !ok {
        return;
      }
      ghost var marks := TakePipeline(ts).rest;
      cmd := ParseBacks(cmd, marks);
      ghost var after := marks[CountAmps(marks)..];
      var more := Peek(";", after);
      if after != [] {
        FirstIs(after[0], ';');
      }
      if more {
        var _ := GetToken(after);
        var right;
        ok, right := ParseLine(after[1..]);
        cmd := ListCmd(cmd, right);
      }
    }

    /** parsecmd, up to nulterminate: a line is accepted exactly if it is one of the grammar, and read as what
        it means. */
    method ParseCmd() returns (ok: bool, cmd: Cmd)
      requires pos == 0
      modifies this
      ensures ok <==> exists t :: Says(buf, t)
      ensures ok ==> CmdOk(buf, cmd) && Says(buf, TreeOf(buf, cmd))
    {
      ghost var ts := Tokens(buf, 0);
      forall t ensures Says(buf, t) <==> TakeLine(ts).Good? && TakeLine(ts).rest == [] && Meaning(TakeLine(ts).v) == t {
        SaysWhatIsTaken(buf, ts, t);
      }
      ok, cmd := ParseLine(ts);
      if !ok {
        return;
      }
      ghost var rest := TakeLine(ts).rest;
      var _ := Peek("", rest);
      HereFirst(buf, pos, rest);
      ok := pos == |buf|;
      assert ok ==> Says(buf, TreeOf(buf, cmd));
    }
  }

  /** Parsing what is printed gives the tree back. */
  method ParsePrinted(t: Tree) returns (ok: bool, cmd: Cmd)
    requires TreeOk(t)
    ensures ok && TreeOf(Printed(t), cmd) == t
  {
    ghost var s := Printed(t);
    PrintedMeans(t);
    assert Says(s, t);
    var p := new Parser(Printed(t));
    ok, cmd := p.ParseCmd();
    Unambiguous(Tokens(s, 0), t, TreeOf(s, cmd));
  }

  // ------------------------------------------------------------- nulterminate

  const NUL: char := '\0'

  function SlicesOf(c: Cmd): set<Slice> {
    match c
    case ExecCmd(argv) => set w | w in argv
    case RedirCmd(cmd, file, mode) => SlicesOf(cmd) + {file}
    case PipeCmd(left, right) => SlicesOf(left) + SlicesOf(right)
    case ListCmd(left, right) => SlicesOf(left) + SlicesOf(right)
    case BackCmd(cmd) => SlicesOf(cmd)
  }

  ghost predicate EndsHere(c: Cmd, i: int) { exists w :: w in SlicesOf(c) && w.eq == i }

  lemma {:induction false} SlicesOk(s: string, c: Cmd, w: Slice)
    requires CmdOk(s, c) && w in SlicesOf(c)
    ensures WordAt(s, w)
  {
    match c
    case ExecCmd(argv) =>
    case RedirCmd(cmd, file, mode) => if w != file { SlicesOk(s, cmd, w); }
    case PipeCmd(left, right) => if w in SlicesOf(left) { SlicesOk(s, left, w); } else { SlicesOk(s, right, w); }
    case ListCmd(left, right) => if w in SlicesOf(left) { SlicesOk(s, left, w); } else { SlicesOk(s, right, w); }
    case BackCmd(cmd) => SlicesOk(s, cmd, w);
  }

  /** nulterminate: a NUL at the end of every word, and no other change. */
  method Nulterminate(a: array<char>, c: Cmd, ghost s: string)
    requires a.Length == |s| + 1 && CmdOk(s, c)
    modifies a
    ensures forall i :: 0 <= i < a.Length ==> a[i] == if EndsHere(c, i) then NUL else old(a[i])
    decreases c
  {
    match c
    case ExecCmd(argv) =>
      var k := 0;
      while k < |argv|
        invariant 0 <= k <= |argv|
        invariant forall i ::
                    0 <= i < a.Length ==>
                      a[i] == if (exists m :: 0 <= m < k && argv[m].eq == i) then NUL else old(a[i])
      {
        assert WordAt(s, argv[k]);
        a[argv[k].eq] := NUL;
        k := k + 1;
      }
      forall i | 0 <= i < a.Length ensures EndsHere(c, i) <==> exists m :: 0 <= m < |argv| && argv[m].eq == i {
        if exists m :: 0 <= m < |argv| && argv[m].eq == i {
          var m :| 0 <= m < |argv| && argv[m].eq == i;
          assert argv[m] in SlicesOf(c);
        }
      }
    case RedirCmd(cmd, file, mode) =>
      Nulterminate(a, cmd, s);
      a[file.eq] := NUL;
      assert file in SlicesOf(c);
    case PipeCmd(left, right) =>
      Nulterminate(a, left, s);
      Nulterminate(a, right, s);
    case ListCmd(left, right) =>
      Nulterminate(a, left, s);
      Nulterminate(a, right, s);
    case BackCmd(cmd) =>
      Nulterminate(a, cmd, s);
  }

  /** Afterwards the C string at every stored word is exactly the word: no NUL falls inside another. */
  lemma {:induction false} StoredWords(s: string, mem: seq<char>, c: Cmd, w: Slice)
    requires CmdOk(s, c) && w in SlicesOf(c) && NUL !in s && |mem| == |s| + 1
    requires forall i :: 0 <= i < |mem| ==> mem[i] == if EndsHere(c, i) then NUL else (s + [NUL])[i]
    ensures w.q < w.eq < |mem| && mem[w.q..w.eq] == Text(s, w) && mem[w.eq] == NUL && NUL !in mem[w.q..w.eq]
  {
    SlicesOk(s, c, w);
    assert EndsHere(c, w.eq);
    forall i | w.q <= i < w.eq ensures mem[i] == s[i] {
      if EndsHere(c, i) {
        var x :| x in SlicesOf(c) && x.eq == i;
        SlicesOk(s, c, x);
      }
    }
  }
}
