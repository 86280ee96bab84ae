/**
  The language that user/sh.c reads.  A line is text; its tokens are words, symbols
  and >>, with any white space between them.  A command is a tree; a tree can be
  written as tokens in more than one way, because redirections may stand anywhere
  among the words of a simple command.
 */
module Shell {
  const MAXARGS: nat := 10

  /** <, > and >> */
  datatype Mode = ReadFrom | WriteTo | AppendTo

  datatype Tree =
    | Exec(argv: seq<string>)
    | Redir(cmd: Tree, file: string, mode: Mode)
    | Pipe(left: Tree, right: Tree)
    | List(left: Tree, right: Tree)
    | Back(cmd: Tree)

  datatype Tok = Word(w: string) | Sym(c: char) | Append

  // --------------------------------------------------------------- characters

  predicate IsSpace(c: char) { c == ' ' || c == '\t' || c == '\r' || c == '\n' || c == '\U{000b}' }
  predicate IsSymbol(c: char) { c == '<' || c == '|' || c == '>' || c == '&' || c == ';' || c == '(' || c == ')' }
  predicate IsWordChar(c: char) { !IsSpace(c) && !IsSymbol(c) }

  predicate IsWord(w: string) { w != "" && forall i :: 0 <= i < |w| ==> IsWordChar(w[i]) }

  function Show(t: Tok): string {
    match t
    case Word(w) => w
    case Sym(c) => [c]
    case Append => ">>"
  }

  predicate TokOk(t: Tok) {
    match t
    case Word(w) => IsWord(w)
    case Sym(c) => IsSymbol(c)
    case Append => true
  }

  // ------------------------------------------------------------ tokens of a text

  function Skip(s: string, i: nat): (j: nat)
    requires i <= |s|
    ensures i <= j <= |s| && (j < |s| ==> !IsSpace(s[j])) && forall k :: i <= k < j ==> IsSpace(s[k])
    decreases |s| - i
  {
    if i < |s| && IsSpace(s[i]) then Skip(s, i + 1) else i
  }

  function WordEnd(s: string, i: nat): (j: nat)
    requires i <= |s|
    ensures i <= j <= |s| && (j < |s| ==> !IsWordChar(s[j])) && forall k :: i <= k < j ==> IsWordChar(s[k])
    decreases |s| - i
  {
    if i < |s| && IsWordChar(s[i]) then WordEnd(s, i + 1) else i
  }

  /** The end of the token that begins at a. */
  function TokEnd(s: string, a: nat): (b: nat)
    requires a < |s| && !IsSpace(s[a])
    ensures a < b <= |s|
  {
    if s[a] == '>' && a + 1 < |s| && s[a + 1] == '>' then a + 2
    else if IsSymbol(s[a]) then a + 1
    else WordEnd(s, a)
  }

  function TokAt(s: string, a: nat): (t: Tok)
    requires a < |s| && !IsSpace(s[a])
    ensures TokOk(t)
  {
    if s[a] == '>' && a + 1 < |s| && s[a + 1] == '>' then Append
    else if IsSymbol(s[a]) then Sym(s[a])
    else Word(s[a..WordEnd(s, a)])
  }

  /** The tokens of s from i on. */
  function Tokens(s: string, i: nat): (ts: seq<Tok>)
    requires i <= |s|
    ensures forall k :: 0 <= k < |ts| ==> TokOk(ts[k])
    decreases |s| - i
  {
    var a := Skip(s, i);
    if a == |s| then [] else [TokAt(s, a)] + Tokens(s, TokEnd(s, a))
  }

  // -------------------------------------------- what it means to spell tokens

  /** A token may end at b: a word is not cut short, and > is not half of >>. */
  predicate Ends(s: string, b: nat, t: Tok) {
    b < |s| ==> (t.Word? ==> !IsWordChar(s[b])) && (t == Sym('>') ==> s[b] != '>')
  }

  /** From i on, s is these tokens with white space around them. */
  predicate Spells(s: string, i: nat, ts: seq<Tok>)
    requires i <= |s|
    decreases |ts|, 1
  {
    SpellsNow(s, Skip(s, i), ts)
  }

  predicate SpellsNow(s: string, a: nat, ts: seq<Tok>)
    requires a <= |s|
    decreases |ts|, 0
  {
    if ts == [] then a == |s|
    else
      var b := a + |Show(ts[0])|;
      b <= |s| && s[a..b] == Show(ts[0]) && TokOk(ts[0]) && Ends(s, b, ts[0]) && Spells(s, b, ts[1..])
  }

  /** A good token that stands at a, and may end where it does, is the token at a. */
  lemma {:induction false} OnlyTok(s: string, a: nat, t: Tok)
    requires TokOk(t) && a + |Show(t)| <= |s| && s[a..a + |Show(t)|] == Show(t) && Ends(s, a + |Show(t)|, t)
    ensures a < |s| && !IsSpace(s[a]) && TokAt(s, a) == t && TokEnd(s, a) == a + |Show(t)|
  {
    var b := a + |Show(t)|;
    assert |Show(t)| > 0 && s[a] == s[a..b][0];
    match t
    case Word(w) =>
      assert forall k :: a <= k < b ==> s[k] == w[k - a];
      assert WordEnd(s, a) == b;
    case Sym(c) =>
    case Append => assert s[a + 1] == s[a..b][1];
  }

  lemma {:induction false} TokStands(s: string, a: nat)
    requires a < |s| && !IsSpace(s[a])
    ensures var t, b := TokAt(s, a), TokEnd(s, a); b == a + |Show(t)| && s[a..b] == Show(t) && TokOk(t) && Ends(s, b, t)
  {
  }

  lemma {:induction false} TokensSpell(s: string, i: nat)
    requires i <= |s|
    ensures Spells(s, i, Tokens(s, i))
    decreases |s| - i
  {
    var a, ts := Skip(s, i), Tokens(s, i);
    if a < |s| {
      var b := TokEnd(s, a);
      TokStands(s, a);
      TokensSpell(s, b);
      assert ts[0] == TokAt(s, a) && ts[1..] == Tokens(s, b);
    }
    assert SpellsNow(s, a, ts);
  }

  lemma {:induction false} SpellsOnly(s: string, i: nat, ts: seq<Tok>)
    requires i <= |s| && Spells(s, i, ts)
    ensures ts == Tokens(s, i)
    decreases |s| - i
  {
    var a := Skip(s, i);
    assert SpellsNow(s, a, ts);
    if ts != [] {
      OnlyTok(s, a, ts[0]);
      SpellsOnly(s, TokEnd(s, a), ts[1..]);
      assert ts == [ts[0]] + ts[1..];
    }
  }

  /** Every text spells exactly one list of tokens. */
  lemma {:induction false} SpellsTokens(s: string, i: nat, ts: seq<Tok>)
    requires i <= |s|
    ensures Spells(s, i, ts) <==> ts == Tokens(s, i)
  {
    TokensSpell(s, i);
    if Spells(s, i, ts) {
      SpellsOnly(s, i, ts);
    }
  }

  // -------------------------------------------------------------------- printing

  /** The tokens with a space after each. */
  function Print(ts: seq<Tok>): string {
    if ts == [] then "" else Show(ts[0]) + " " + Print(ts[1..])
  }

  lemma {:induction false} OnePrinted(pre: string, t: Tok, rest: string)
    requires TokOk(t)
    ensures var s, b := pre + (Show(t) + " " + rest), |pre| + |Show(t)|;
            && b < |s| && s[|pre|..b] == Show(t) && Skip(s, |pre|) == |pre| && Ends(s, b, t)
               && Skip(s, b) == Skip(s, b + 1)
            && s == pre + Show(t) + " " + rest
  {
    var s, b := pre + (Show(t) + " " + rest), |pre| + |Show(t)|;
    assert s[|pre|] == Show(t)[0] && s[b] == ' ';
  }

  /** Printed tokens spell themselves. */
  lemma {:induction false} PrintSpells(pre: string, ts: seq<Tok>)
    requires forall i :: 0 <= i < |ts| ==> TokOk(ts[i])
    ensures Spells(pre + Print(ts), |pre|, ts)
    decreases |ts|
  {
    if ts != [] {
      OnePrinted(pre, ts[0], Print(ts[1..]));
      PrintSpells(pre + Show(ts[0]) + " ", ts[1..]);
    }
  }

  lemma {:induction false} PrintedTokens(ts: seq<Tok>)
    requires forall i :: 0 <= i < |ts| ==> TokOk(ts[i])
    ensures Tokens(Print(ts), 0) == ts
  {
    PrintSpells("", ts);
    assert "" + Print(ts) == Print(ts);
    SpellsTokens(Print(ts), 0, ts);
  }
}
