/**
  The grammar of the shell, and a parser on tokens that is proved to be its inverse.
  A `Syn` says how a line is put together, down to where each redirection stands;
  `Flat` gives its tokens and `Meaning` its command.
 */
module ShellGrammar {
  import opened Shell

  datatype Item = Arg(w: string) | Redirect(mode: Mode, file: string)

  datatype Syn =
    | Plain(items: seq<Item>)                       // words and redirections
    | Block(line: Syn, redirs: seq<Item>)           // ( line ) and redirections
    | Piped(left: Syn, right: Syn)                  // command | pipeline
    | Line(pipe: Syn, amps: nat)                    // pipeline & ... &
    | Then(pipe: Syn, amps: nat, rest: Syn)         // pipeline & ... & ; line

  function ModeTok(m: Mode): Tok {
    match m
    case ReadFrom => Sym('<')
    case WriteTo => Sym('>')
    case AppendTo => Append
  }

  predicate IsRedir(t: Tok) { t == Sym('<') || t == Sym('>') || t == Append }

  function ModeOf(t: Tok): Mode { if t == Sym('<') then ReadFrom else if t == Sym('>') then WriteTo else AppendTo }

  function ItemTok(x: Item): seq<Tok> {
    match x
    case Arg(w) => [Word(w)]
    case Redirect(m, f) => [ModeTok(m), Word(f)]
  }

  function ItemToks(xs: seq<Item>): seq<Tok> { if xs == [] then [] else ItemTok(xs[0]) + ItemToks(xs[1..]) }

  function Amps(n: nat): seq<Tok> { if n == 0 then [] else [Sym('&')] + Amps(n - 1) }

  /** The tokens of a line. */
  function Flat(x: Syn): seq<Tok> {
    match x
    case Plain(items) => ItemToks(items)
    case Block(line, redirs) => [Sym('(')] + Flat(line) + [Sym(')')] + ItemToks(redirs)
    case Piped(left, right) => Flat(left) + [Sym('|')] + Flat(right)
    case Line(pipe, n) => Flat(pipe) + Amps(n)
    case Then(pipe, n, rest) => Flat(pipe) + Amps(n) + [Sym(';')] + Flat(rest)
  }

  function Args(xs: seq<Item>): seq<string> {
    if xs == [] then [] else (if xs[0].Arg? then [xs[0].w] else []) + Args(xs[1..])
  }

  function Redirs(xs: seq<Item>): seq<(string, Mode)> {
    if xs == [] then [] else (if xs[0].Redirect? then [(xs[0].file, xs[0].mode)] else []) + Redirs(xs[1..])
  }

  /** Redirections around a command, the first innermost. */
  function Wrap(t: Tree, rs: seq<(string, Mode)>): Tree
    decreases |rs|
  {
    if rs == [] then t else Wrap(Redir(t, rs[0].0, rs[0].1), rs[1..])
  }

  function InBack(t: Tree, n: nat): Tree
    decreases n
  {
    if n == 0 then t else InBack(Back(t), n - 1)
  }

  /** The command that a line stands for. */
  function Meaning(x: Syn): Tree {
    match x
    case Plain(items) => Wrap(Exec(Args(items)), Redirs(items))
    case Block(line, redirs) => Wrap(Meaning(line), Redirs(redirs))
    case Piped(left, right) => Pipe(Meaning(left), Meaning(right))
    case Line(pipe, n) => InBack(Meaning(pipe), n)
    case Then(pipe, n, rest) => List(InBack(Meaning(pipe), n), Meaning(rest))
  }

  predicate OnlyRedirs(xs: seq<Item>) { forall i :: 0 <= i < |xs| ==> xs[i].Redirect? }

  /** x is a single command, a pipeline or a line, with fewer than MAXARGS words in each simple command. */
  predicate IsSingle(x: Syn)
    decreases x, 0
  {
    || (x.Plain? && |Args(x.items)| < MAXARGS)
    || (x.Block? && IsLine(x.line) && OnlyRedirs(x.redirs))
  }

  predicate IsPipeline(x: Syn)
    decreases x, 1
  {
    IsSingle(x) || (x.Piped? && IsSingle(x.left) && IsPipeline(x.right))
  }

  predicate IsLine(x: Syn)
    decreases x, 2
  {
    (x.Line? && IsPipeline(x.pipe)) || (x.Then? && IsPipeline(x.pipe) && IsLine(x.rest))
  }

  predicate Begins(ts: seq<Tok>, c: char) { ts != [] && ts[0].Sym? && ts[0].c == c }

  /** What may follow a line, a pipeline with its marks, a pipeline, and a single command. */
  predicate AfterLine(ts: seq<Tok>) { ts == [] || Begins(ts, ')') }
  predicate AfterAmps(ts: seq<Tok>) { AfterLine(ts) || Begins(ts, ';') }
  predicate AfterPipeline(ts: seq<Tok>) { AfterAmps(ts) || Begins(ts, '&') }
  predicate AfterSingle(ts: seq<Tok>) { AfterPipeline(ts) || Begins(ts, '|') }

  predicate NoRedir(ts: seq<Tok>) { ts == [] || !IsRedir(ts[0]) }

  // --------------------------------------------------------- parsing tokens

  datatype Parsed<T> = Bad | Good(v: T, rest: seq<Tok>)

  function Before(x: Item, p: Parsed<seq<Item>>): Parsed<seq<Item>> { if p.Bad? then Bad else Good([x] + p.v, p.rest) }

  function TakeRedirs(ts: seq<Tok>): (p: Parsed<seq<Item>>)
    ensures p.Good? ==> |p.rest| <= |ts|
  {
    if NoRedir(ts) then Good([], ts)
    else if |ts| < 2 || !ts[1].Word? then Bad
    else
      Before(Redirect(ModeOf(ts[0]), ts[1].w), TakeRedirs(ts[2..]))
  }

  /** Words and redirections, when n words have been read. */
  function TakeItems(ts: seq<Tok>, n: nat): (p: Parsed<seq<Item>>)
    ensures p.Good? ==> |p.rest| <= |ts|
  {
    if AfterSingle(ts) then Good([], ts)
    else if IsRedir(ts[0]) then
      if |ts| < 2 || !ts[1].Word? then Bad
      else Before(Redirect(ModeOf(ts[0]), ts[1].w), TakeItems(ts[2..], n))
    else if !ts[0].Word? || n + 1 >= MAXARGS then Bad
    else Before(Arg(ts[0].w), TakeItems(ts[1..], n + 1))
  }

  function TakeSingle(ts: seq<Tok>): (p: Parsed<Syn>)
    ensures p.Good? ==> |p.rest| <= |ts|
    decreases |ts|, 0
  {
    if Begins(ts, '(') then
      var p := TakeLine(ts[1..]);
      if p.Bad? || !Begins(p.rest, ')') then Bad
      else
        var r := TakeRedirs(p.rest[1..]);
        if r.Bad? then Bad else Good(Block(p.v, r.v), r.rest)
    else
      var p := TakeItems(ts, 0);
      if p.Bad? then Bad else Good(Plain(p.v), p.rest)
  }

  function TakePipeline(ts: seq<Tok>): (p: Parsed<Syn>)
    ensures p.Good? ==> |p.rest| <= |ts|
    decreases |ts|, 1
  {
    var p := TakeSingle(ts);
    if p.Bad? || !Begins(p.rest, '|') then p
    else
      var r := TakePipeline(p.rest[1..]);
      if r.Bad? then Bad else Good(Piped(p.v, r.v), r.rest)
  }

  function CountAmps(ts: seq<Tok>): (n: nat)
    ensures n <= |ts|
  {
    if Begins(ts, '&') then 1 + CountAmps(ts[1..]) else 0
  }

  function TakeLine(ts: seq<Tok>): (p: Parsed<Syn>)
    ensures p.Good? ==> |p.rest| <= |ts|
    decreases |ts|, 2
  {
    var p := TakePipeline(ts);
    if p.Bad? then Bad
    else
      var n := CountAmps(p.rest);
      var after := p.rest[n..];
      if !Begins(after, ';') then Good(Line(p.v, n), after)
      else
        var r := TakeLine(after[1..]);
        if r.Bad? then Bad else Good(Then(p.v, n, r.v), r.rest)
  }

  // ------------------------------------------- what is taken is what was there

  lemma {:induction false} RedirTok(t: Tok)
    requires IsRedir(t)
    ensures ModeTok(ModeOf(t)) == t
  {
  }

  lemma {:induction false} ItemsCons(x: Item, xs: seq<Item>, rest: seq<Tok>)
    ensures ItemToks([x] + xs) + rest == ItemTok(x) + (ItemToks(xs) + rest)
    ensures Args([x] + xs) == (if x.Arg? then [x.w] else []) + Args(xs)
    ensures Redirs([x] + xs) == (if x.Redirect? then [(x.file, x.mode)] else []) + Redirs(xs)
  {
    assert ([x] + xs)[1..] == xs;
  }

  lemma {:induction false} Bracketed(x: Tok, a: seq<Tok>, y: Tok, b: seq<Tok>, c: seq<Tok>)
    ensures ([x] + a + [y] + b) + c == [x] + (a + ([y] + (b + c)))
  {
  }

  lemma {:induction false} Joined(a: seq<Tok>, x: Tok, b: seq<Tok>, c: seq<Tok>)
    ensures (a + [x] + b) + c == a + ([x] + (b + c)) && ([x] + (b + c))[1..] == b + c
  {
  }

  lemma {:induction false} TakenRedirs(ts: seq<Tok>)
    ensures var p := TakeRedirs(ts); p.Good? ==> ts == ItemToks(p.v) + p.rest && OnlyRedirs(p.v) && NoRedir(p.rest)
  {
    if !NoRedir(ts) && |ts| >= 2 && ts[1].Word? {
      var x, q := Redirect(ModeOf(ts[0]), ts[1].w), TakeRedirs(ts[2..]);
      TakenRedirs(ts[2..]);
      RedirTok(ts[0]);
      assert ts == [ts[0], ts[1]] + ts[2..];
      if q.Good? {
        ItemsCons(x, q.v, q.rest);
      }
    }
  }

  lemma {:induction false} TakenItems(ts: seq<Tok>, n: nat)
    requires n < MAXARGS
    ensures var p := TakeItems(ts, n);
            p.Good? ==> ts == ItemToks(p.v) + p.rest && |Args(p.v)| + n < MAXARGS && AfterSingle(p.rest)
  {
    if AfterSingle(ts) {
    } else if IsRedir(ts[0]) && |ts| >= 2 && ts[1].Word? {
      var x, q := Redirect(ModeOf(ts[0]), ts[1].w), TakeItems(ts[2..], n);
      TakenItems(ts[2..], n);
      RedirTok(ts[0]);
      assert ts == [ts[0], ts[1]] + ts[2..];
      if q.Good? {
        ItemsCons(x, q.v, q.rest);
      }
    } else if ts[0].Word? && n + 1 < MAXARGS {
      var x, q := Arg(ts[0].w), TakeItems(ts[1..], n + 1);
      TakenItems(ts[1..], n + 1);
      assert ts == [ts[0]] + ts[1..];
      if q.Good? {
        ItemsCons(x, q.v, q.rest);
      }
    }
  }

  lemma {:induction false} TakenAmps(ts: seq<Tok>)
    ensures var n := CountAmps(ts); ts == Amps(n) + ts[n..] && !Begins(ts[n..], '&')
  {
    if Begins(ts, '&') {
      TakenAmps(ts[1..]);
      assert ts == [Sym('&')] + ts[1..];
    }
  }

  /** Whatever the parser takes, it is a reading of exactly the tokens it took. */
  lemma {:induction false} TakenSingle(ts: seq<Tok>)
    ensures var p := TakeSingle(ts); p.Good? ==> IsSingle(p.v) && ts == Flat(p.v) + p.rest
    decreases |ts|, 0
  {
    var p := TakeSingle(ts);
    if Begins(ts, '(') {
      var q := TakeLine(ts[1..]);
      TakenLine(ts[1..]);
      if p.Good? {
        var r := TakeRedirs(q.rest[1..]);
        TakenRedirs(q.rest[1..]);
        assert ts == [Sym('(')] + ts[1..] && q.rest == [Sym(')')] + q.rest[1..];
        Bracketed(Sym('('), Flat(q.v), Sym(')'), ItemToks(r.v), r.rest);
      }
    } else {
      TakenItems(ts, 0);
    }
  }

  lemma {:induction false} TakenPipeline(ts: seq<Tok>)
    ensures var p := TakePipeline(ts); p.Good? ==> IsPipeline(p.v) && ts == Flat(p.v) + p.rest
    decreases |ts|, 1
  {
    var p, q := TakePipeline(ts), TakeSingle(ts);
    TakenSingle(ts);
    if q.Good? && Begins(q.rest, '|') {
      var r := TakePipeline(q.rest[1..]);
      TakenPipeline(q.rest[1..]);
      assert q.rest == [Sym('|')] + q.rest[1..];
      if r.Good? {
        Joined(Flat(q.v), Sym('|'), Flat(r.v), r.rest);
      }
    }
  }

  lemma {:induction false} TakenLine(ts: seq<Tok>)
    ensures var p := TakeLine(ts); p.Good? ==> IsLine(p.v) && ts == Flat(p.v) + p.rest
    decreases |ts|, 2
  {
    var q := TakePipeline(ts);
    TakenPipeline(ts);
    if q.Good? {
      var n := CountAmps(q.rest);
      var after := q.rest[n..];
      TakenAmps(q.rest);
      assert ts == Flat(q.v) + (Amps(n) + after) == Flat(q.v) + Amps(n) + after;
      if Begins(after, ';') {
        var r := TakeLine(after[1..]);
        TakenLine(after[1..]);
        assert after == [Sym(';')] + after[1..];
        if r.Good? {
          Joined(Flat(q.v) + Amps(n), Sym(';'), Flat(r.v), r.rest);
        }
      }
    }
  }

  // ------------------------------------------------ what is there is taken

  lemma {:induction false} TakeOne(ts: seq<Tok>, x: Item, after: seq<Tok>, n: nat)
    requires ts == ItemTok(x) + after
    ensures x.Redirect? ==>
              TakeRedirs(ts) == Before(x, TakeRedirs(after)) && TakeItems(ts, n) == Before(x, TakeItems(after, n))
    ensures x.Arg? && n + 1 < MAXARGS ==> TakeItems(ts, n) == Before(x, TakeItems(after, n + 1))
    ensures !Begins(ts, '(')
  {
    if x.Arg? {
      assert ts[0] == Word(x.w) && ts[1..] == after;
    } else {
      assert ts[0] == ModeTok(x.mode) && ts[1] == Word(x.file) && ts[2..] == after;
    }
  }

  lemma {:induction false} RedirsTaken(xs: seq<Item>, rest: seq<Tok>)
    requires OnlyRedirs(xs) && NoRedir(rest)
    ensures TakeRedirs(ItemToks(xs) + rest) == Good(xs, rest)
    decreases |xs|
  {
    if xs != [] {
      assert xs == [xs[0]] + xs[1..];
      ItemsCons(xs[0], xs[1..], rest);
      TakeOne(ItemToks(xs) + rest, xs[0], ItemToks(xs[1..]) + rest, 0);
      RedirsTaken(xs[1..], rest);
    } else {
      assert ItemToks(xs) + rest == rest;
    }
  }

  lemma {:induction false} ItemsTaken(xs: seq<Item>, rest: seq<Tok>, n: nat)
    requires |Args(xs)| + n < MAXARGS && AfterSingle(rest)
    ensures TakeItems(ItemToks(xs) + rest, n) == Good(xs, rest)
    decreases |xs|
  {
    if xs != [] {
      assert xs == [xs[0]] + xs[1..];
      ItemsCons(xs[0], xs[1..], rest);
      TakeOne(ItemToks(xs) + rest, xs[0], ItemToks(xs[1..]) + rest, n);
      ItemsTaken(xs[1..], rest, if xs[0].Arg? then n + 1 else n);
    } else {
      assert ItemToks(xs) + rest == rest;
    }
  }

  lemma {:induction false} AmpsTaken(n: nat, rest: seq<Tok>)
    requires !Begins(rest, '&')
    ensures CountAmps(Amps(n) + rest) == n && (Amps(n) + rest)[n..] == rest
  {
    if n > 0 {
      AmpsTaken(n - 1, rest);
      assert Amps(n) + rest == [Sym('&')] + (Amps(n - 1) + rest);
      assert (Amps(n) + rest)[1..] == Amps(n - 1) + rest;
    } else {
      assert Amps(n) + rest == rest;
    }
  }

  lemma {:induction false} PlainBegins(xs: seq<Item>, rest: seq<Tok>)
    requires AfterSingle(rest)
    ensures !Begins(ItemToks(xs) + rest, '(')
  {
    if xs == [] {
      assert ItemToks(xs) + rest == rest;
      assert '(' != ')' && '(' != '&' && '(' != ';' && '(' != '|';
    } else {
      assert xs == [xs[0]] + xs[1..];
      ItemsCons(xs[0], xs[1..], rest);
      TakeOne(ItemToks(xs) + rest, xs[0], ItemToks(xs[1..]) + rest, 0);
    }
  }

  /** The parser takes every reading, if what follows does not go on with it. */
  lemma {:induction false} SingleTaken(x: Syn, rest: seq<Tok>)
    requires IsSingle(x) && AfterSingle(rest)
    ensures TakeSingle(Flat(x) + rest) == Good(x, rest)
    decreases x, 0
  {
    if x.Plain? {
      PlainBegins(x.items, rest);
      ItemsTaken(x.items, rest, 0);
    } else {
      var ts, after := Flat(x) + rest, ItemToks(x.redirs) + rest;
      Bracketed(Sym('('), Flat(x.line), Sym(')'), ItemToks(x.redirs), rest);
      assert ts[1..] == Flat(x.line) + ([Sym(')')] + after) && ([Sym(')')] + after)[1..] == after;
      LineTaken(x.line, [Sym(')')] + after);
      RedirsTaken(x.redirs, rest);
    }
  }

  lemma {:induction false} PipelineTaken(x: Syn, rest: seq<Tok>)
    requires IsPipeline(x) && AfterPipeline(rest)
    ensures TakePipeline(Flat(x) + rest) == Good(x, rest)
    decreases x, 1
  {
    if x.Piped? {
      var after := Flat(x.right) + rest;
      Joined(Flat(x.left), Sym('|'), Flat(x.right), rest);
      SingleTaken(x.left, [Sym('|')] + after);
      PipelineTaken(x.right, rest);
    } else {
      SingleTaken(x, rest);
    }
  }

  lemma {:induction false} LineTaken(x: Syn, rest: seq<Tok>)
    requires IsLine(x) && AfterLine(rest)
    ensures TakeLine(Flat(x) + rest) == Good(x, rest)
    decreases x, 2
  {
    if x.Line? {
      assert Flat(x) + rest == Flat(x.pipe) + (Amps(x.amps) + rest);
      AmpsStop(x.amps, rest);
      PipelineTaken(x.pipe, Amps(x.amps) + rest);
      AmpsTaken(x.amps, rest);
    } else {
      var after := [Sym(';')] + (Flat(x.rest) + rest);
      Joined(Flat(x.pipe) + Amps(x.amps), Sym(';'), Flat(x.rest), rest);
      assert Flat(x.pipe) + Amps(x.amps) + after == Flat(x.pipe) + (Amps(x.amps) + after);
      AmpsStop(x.amps, after);
      PipelineTaken(x.pipe, Amps(x.amps) + after);
      AmpsTaken(x.amps, after);
      LineTaken(x.rest, rest);
    }
  }

  lemma {:induction false} AmpsStop(n: nat, rest: seq<Tok>)
    requires AfterAmps(rest)
    ensures AfterPipeline(Amps(n) + rest)
  {
    if n == 0 {
      assert Amps(n) + rest == rest;
    }
  }

  // -------------------------------------------------------------- the grammar

  /** The tokens ts are a line that means t. */
  ghost predicate Means(ts: seq<Tok>, t: Tree) { exists x :: IsLine(x) && Flat(x) == ts && Meaning(x) == t }

  /** The parser takes a list of tokens as a whole exactly if it is a line of the grammar, and then with its meaning. */
  lemma {:induction false} ParserIsGrammar(ts: seq<Tok>, t: Tree)
    ensures Means(ts, t) <==> TakeLine(ts).Good? && TakeLine(ts).rest == [] && Meaning(TakeLine(ts).v) == t
  {
    if Means(ts, t) {
      var x :| IsLine(x) && Flat(x) == ts && Meaning(x) == t;
      LineTaken(x, []);
      assert Flat(x) + [] == ts;
    }
    var p := TakeLine(ts);
    if p.Good? && p.rest == [] {
      TakenLine(ts);
      assert Flat(p.v) + [] == Flat(p.v);
    }
  }

  /** No line has two meanings. */
  lemma {:induction false} Unambiguous(ts: seq<Tok>, t: Tree, u: Tree)
    requires Means(ts, t) && Means(ts, u)
    ensures t == u
  {
    ParserIsGrammar(ts, t);
    ParserIsGrammar(ts, u);
  }

  // --------------------------------------------------- every tree can be written

  predicate TreeOk(t: Tree) {
    match t
    case Exec(argv) => |argv| < MAXARGS && forall i :: 0 <= i < |argv| ==> IsWord(argv[i])
    case Redir(cmd, file, mode) => TreeOk(cmd) && IsWord(file)
    case Pipe(left, right) => TreeOk(left) && TreeOk(right)
    case Back(cmd) => TreeOk(cmd)
    case List(left, right) => TreeOk(left) && TreeOk(right)
  }

  /** A tree without its outer redirections, and these, innermost first. */
  function Core(t: Tree): (c: Tree)
    ensures !c.Redir? && (if t.Redir? then c < t else c == t) && (TreeOk(t) ==> TreeOk(c))
  {
    if t.Redir? then Core(t.cmd) else t
  }

  function Outer(t: Tree): seq<Item> { if t.Redir? then Outer(t.cmd) + [Redirect(t.mode, t.file)] else [] }

  /** A tree without its outer background marks, and how many these are. */
  function Inner(t: Tree): (c: Tree)
    ensures !c.Back? && (if t.Back? then c < t else c == t) && (TreeOk(t) ==> TreeOk(c))
  {
    if t.Back? then Inner(t.cmd) else t
  }

  function Backs(t: Tree): nat { if t.Back? then Backs(t.cmd) + 1 else 0 }

  function ArgItems(argv: seq<string>): (xs: seq<Item>)
    ensures |xs| == |argv| && forall i :: 0 <= i < |argv| ==> xs[i] == Arg(argv[i])
  {
    if argv == [] then [] else [Arg(argv[0])] + ArgItems(argv[1..])
  }

  /** Which of the next three functions may call which, on the same tree. */
  function Rank(t: Tree, single: nat, pipeline: nat, line: nat): nat {
    if t.Exec? || t.Redir? then single else if t.Pipe? then pipeline else line
  }

  /** A way to write t as a single command, as a pipeline, and as a line; with brackets where they are needed. */
  function SingleOf(t: Tree): Syn
    decreases t, Rank(t, 0, 2, 1)
  {
    if Core(t).Exec? then Plain(ArgItems(Core(t).argv) + Outer(t)) else Block(LineOf(Core(t)), Outer(t))
  }

  function PipelineOf(t: Tree): Syn
    decreases t, Rank(t, 1, 0, 2)
  {
    if t.Pipe? then Piped(SingleOf(t.left), PipelineOf(t.right)) else SingleOf(t)
  }

  function LineOf(t: Tree): Syn
    decreases t, Rank(t, 2, 1, 0)
  {
    if t.List? then Then(PipelineOf(Inner(t.left)), Backs(t.left), LineOf(t.right))
      else Line(PipelineOf(Inner(t)), Backs(t))
  }

  lemma {:induction false} WrapSnoc(t: Tree, rs: seq<(string, Mode)>, r: (string, Mode))
    ensures Wrap(t, rs + [r]) == Redir(Wrap(t, rs), r.0, r.1)
    decreases |rs|
  {
    if rs != [] {
      WrapSnoc(Redir(t, rs[0].0, rs[0].1), rs[1..], r);
      assert (rs + [r])[1..] == rs[1..] + [r];
    } else {
      assert rs + [r] == [r] && [r][1..] == [];
    }
  }

  lemma {:induction false} ItemsJoin(xs: seq<Item>, ys: seq<Item>)
    ensures Args(xs + ys) == Args(xs) + Args(ys) && Redirs(xs + ys) == Redirs(xs) + Redirs(ys)
    decreases |xs|
  {
    if xs == [] {
      assert xs + ys == ys;
    } else {
      ItemsJoin(xs[1..], ys);
      assert xs + ys == [xs[0]] + (xs[1..] + ys) && xs == [xs[0]] + xs[1..];
      ItemsCons(xs[0], xs[1..] + ys, []);
      ItemsCons(xs[0], xs[1..], []);
    }
  }

  lemma {:induction false} ArgItemsAre(argv: seq<string>)
    ensures Args(ArgItems(argv)) == argv && Redirs(ArgItems(argv)) == []
    decreases |argv|
  {
    if argv != [] {
      ArgItemsAre(argv[1..]);
      ItemsCons(Arg(argv[0]), ArgItems(argv[1..]), []);
      assert argv == [argv[0]] + argv[1..];
    }
  }

  lemma {:induction false} OuterIs(t: Tree)
    ensures Wrap(Core(t), Redirs(Outer(t))) == t && Args(Outer(t)) == [] && OnlyRedirs(Outer(t))
  {
    if t.Redir? {
      OuterIs(t.cmd);
      var x := Redirect(t.mode, t.file);
      ItemsJoin(Outer(t.cmd), [x]);
      assert [x] + [] == [x];
      ItemsCons(x, [], []);
      assert Args([x]) == [] && Redirs([x]) == [(t.file, t.mode)];
      WrapSnoc(Core(t), Redirs(Outer(t.cmd)), (t.file, t.mode));
    }
  }

  lemma {:induction false} InBackMore(t: Tree, n: nat)
    ensures InBack(t, n + 1) == Back(InBack(t, n))
    decreases n
  {
    if n > 0 {
      InBackMore(Back(t), n - 1);
    }
  }

  lemma {:induction false} InnerIs(t: Tree)
    ensures InBack(Inner(t), Backs(t)) == t
  {
    if t.Back? {
      InnerIs(t.cmd);
      InBackMore(Inner(t), Backs(t.cmd));
    }
  }

  lemma {:induction false} SingleOfIs(t: Tree)
    requires TreeOk(t)
    ensures IsSingle(SingleOf(t)) && Meaning(SingleOf(t)) == t
    decreases t, Rank(t, 0, 2, 1)
  {
    OuterIs(t);
    if Core(t).Exec? {
      var argv := Core(t).argv;
      ArgItemsAre(argv);
      ItemsJoin(ArgItems(argv), Outer(t));
      assert argv + [] == argv && [] + Redirs(Outer(t)) == Redirs(Outer(t));
    } else {
      LineOfIs(Core(t));
    }
  }

  lemma {:induction false} PipelineOfIs(t: Tree)
    requires TreeOk(t)
    ensures IsPipeline(PipelineOf(t)) && Meaning(PipelineOf(t)) == t
    decreases t, Rank(t, 1, 0, 2)
  {
    if t.Pipe? {
      SingleOfIs(t.left);
      PipelineOfIs(t.right);
    } else {
      SingleOfIs(t);
    }
  }

  lemma {:induction false} LineOfIs(t: Tree)
    requires TreeOk(t)
    ensures IsLine(LineOf(t)) && Meaning(LineOf(t)) == t
    decreases t, Rank(t, 2, 1, 0)
  {
    if t.List? {
      InnerIs(t.left);
      PipelineOfIs(Inner(t.left));
      LineOfIs(t.right);
    } else {
      InnerIs(t);
      PipelineOfIs(Inner(t));
    }
  }

  // ------------------------------------------------------------- good words only

  predicate AllOk(ts: seq<Tok>) { forall i :: 0 <= i < |ts| ==> TokOk(ts[i]) }

  predicate ItemOk(x: Item) { if x.Arg? then IsWord(x.w) else IsWord(x.file) }

  lemma {:induction false} ItemToksOk(xs: seq<Item>)
    requires forall i :: 0 <= i < |xs| ==> ItemOk(xs[i])
    ensures AllOk(ItemToks(xs))
    decreases |xs|
  {
    if xs != [] {
      assert ItemOk(xs[0]);
      ItemToksOk(xs[1..]);
    }
  }

  lemma {:induction false} OuterOk(t: Tree)
    requires TreeOk(t)
    ensures forall i :: 0 <= i < |Outer(t)| ==> ItemOk(Outer(t)[i])
  {
    if t.Redir? {
      OuterOk(t.cmd);
    }
  }

  lemma {:induction false} AmpsOk(n: nat)
    ensures AllOk(Amps(n))
  {
    if n > 0 {
      AmpsOk(n - 1);
    }
  }

  lemma {:induction false} SingleOfOk(t: Tree)
    requires TreeOk(t)
    ensures AllOk(Flat(SingleOf(t)))
    decreases t, Rank(t, 0, 2, 1)
  {
    OuterOk(t);
    if Core(t).Exec? {
      var xs := ArgItems(Core(t).argv) + Outer(t);
      forall i | 0 <= i < |xs| ensures ItemOk(xs[i]) {
        assert i < |Core(t).argv| ==> xs[i] == Arg(Core(t).argv[i]);
      }
      ItemToksOk(xs);
    } else {
      LineOfOk(Core(t));
      ItemToksOk(Outer(t));
    }
  }

  lemma {:induction false} PipelineOfOk(t: Tree)
    requires TreeOk(t)
    ensures AllOk(Flat(PipelineOf(t)))
    decreases t, Rank(t, 1, 0, 2)
  {
    if t.Pipe? {
      SingleOfOk(t.left);
      PipelineOfOk(t.right);
    } else {
      SingleOfOk(t);
    }
  }

  lemma {:induction false} LineOfOk(t: Tree)
    requires TreeOk(t)
    ensures AllOk(Flat(LineOf(t)))
    decreases t, Rank(t, 2, 1, 0)
  {
    AmpsOk(Backs(if t.List? then t.left else t));
    if t.List? {
      PipelineOfOk(Inner(t.left));
      LineOfOk(t.right);
    } else {
      PipelineOfOk(Inner(t));
    }
  }

  /** The text that a tree is printed as. */
  function Printed(t: Tree): string { Print(Flat(LineOf(t))) }

  /** The printed form of a tree is a line that means the tree. */
  lemma {:induction false} PrintedMeans(t: Tree)
    requires TreeOk(t)
    ensures Means(Tokens(Printed(t), 0), t)
  {
    LineOfIs(t);
    LineOfOk(t);
    PrintedTokens(Flat(LineOf(t)));
  }
}
