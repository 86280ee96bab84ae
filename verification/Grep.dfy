/**
  The regular expressions of user/grep.c.  A pattern is read as a list of items and
  two anchors; what it means is said of substrings, with no search.  Texts and
  patterns are C strings, without their final NUL.
 */
module Grep {
  /** c, or any character if c is '.'; and the same any number of times. */
  datatype Item = One(c: char) | Star(c: char)

  datatype Pattern = Pattern(items: seq<Item>, end: bool)

  /** '*' after a character is a star; '$' at the very end is an anchor. */
  function Parse(re: string): Pattern {
    if re == "" then Pattern([], false)
    else if |re| >= 2 && re[1] == '*' then var rest := Parse(re[2..]); Pattern([Star(re[0])] + rest.items, rest.end)
    else if re == "$" then Pattern([], true)
    else var rest := Parse(re[1..]); Pattern([One(re[0])] + rest.items, rest.end)
  }

  predicate Fits(c: char, x: char) { c == '.' || c == x }

  predicate AllFit(c: char, w: string) { forall i :: 0 <= i < |w| ==> Fits(c, w[i]) }

  predicate ItemIs(item: Item, w: string) {
    match item
    case One(c) => |w| == 1 && Fits(c, w[0])
    case Star(c) => AllFit(c, w)
  }

  /** w is a concatenation of words, one for each item. */
  ghost predicate IsWord(items: seq<Item>, w: string) {
    if items == [] then w == ""
    else exists k :: 0 <= k <= |w| && ItemIs(items[0], w[..k]) && IsWord(items[1..], w[k..])
  }

  ghost predicate PrefixIs(p: Pattern, text: string, j: nat) {
    j <= |text| && (p.end ==> j == |text|) && IsWord(p.items, text[..j])
  }

  /** Some prefix of the text, all of it if the pattern is anchored at its end, is a word of the pattern. */
  ghost predicate Begins(p: Pattern, text: string) { exists j: nat :: PrefixIs(p, text, j) }

  /** What the pattern of grep means: some part of the text is one of its words. */
  ghost predicate Means(re: string, text: string) {
    if re != "" && re[0] == '^' then Begins(Parse(re[1..]), text)
    else exists i :: 0 <= i <= |text| && Begins(Parse(re), text[i..])
  }

  // ------------------------------------------------ what an item adds to a pattern

  lemma {:induction false} Slices(text: string, k: nat, j: nat)
    requires k <= j <= |text|
    ensures text[..j][..k] == text[..k] && text[..j][k..] == text[k..][..j - k]
  {
  }

  lemma {:induction false} BeginsWith(item: Item, rest: Pattern, text: string)
    ensures Begins(Pattern([item] + rest.items, rest.end), text) <==>
            exists k :: 0 <= k <= |text| && ItemIs(item, text[..k]) && Begins(rest, text[k..])
  {
    var p := Pattern([item] + rest.items, rest.end);
    assert p.items[1..] == rest.items;
    if Begins(p, text) {
      var j: nat :| PrefixIs(p, text, j);
      var w := text[..j];
      var k :| 0 <= k <= |w| && ItemIs(p.items[0], w[..k]) && IsWord(p.items[1..], w[k..]);
      Slices(text, k, j);
      assert PrefixIs(rest, text[k..], j - k);
      assert ItemIs(item, text[..k]) && Begins(rest, text[k..]);
    }
    if exists k :: 0 <= k <= |text| && ItemIs(item, text[..k]) && Begins(rest, text[k..]) {
      var k :| 0 <= k <= |text| && ItemIs(item, text[..k]) && Begins(rest, text[k..]);
      var j: nat :| PrefixIs(rest, text[k..], j);
      Slices(text, k, k + j);
      assert ItemIs(p.items[0], text[..k + j][..k]) && IsWord(p.items[1..], text[..k + j][k..]);
      assert PrefixIs(p, text, k + j);
    }
  }

  /** The empty pattern matches everywhere, and '$' at the end of the text. */
  lemma {:induction false} BeginsEmpty(end: bool, text: string)
    ensures Begins(Pattern([], end), text) <==> (end ==> text == "")
  {
    if end ==> text == "" {
      assert PrefixIs(Pattern([], end), text, 0);
    }
  }

  lemma {:induction false} BeginsOne(c: char, rest: Pattern, text: string)
    ensures Begins(Pattern([One(c)] + rest.items, rest.end), text) <==>
              text != "" && Fits(c, text[0]) && Begins(rest, text[1..])
  {
    BeginsWith(One(c), rest, text);
    if text != "" && Fits(c, text[0]) && Begins(rest, text[1..]) {
      assert ItemIs(One(c), text[..1]);
    }
  }

  // ---------------------------------------------------------------- the matcher

  /** match: 1 exactly when some part of the text is a word of the pattern. */
  method Match(re: string, text: string) returns (found: bool)
    ensures found <==> Means(re, text)
  {
    if re != "" && re[0] == '^' {
      found := Matchhere(re[1..], text);
      return;
    }
    var i := 0;
    while true
      invariant 0 <= i <= |text|
      invariant forall h :: 0 <= h < i ==> !Begins(Parse(re), text[h..])
      decreases |text| - i
    {
      found := Matchhere(re, text[i..]);
      if found {
        return true;
      }
      if i == |text| {
        return false;
      }
      i := i + 1;
    }
  }

  method Matchhere(re: string, text: string) returns (found: bool)
    ensures found <==> Begins(Parse(re), text)
    decreases |re|, 0
  {
    if re == "" {
      BeginsEmpty(false, text);
      return true;
    }
    if |re| >= 2 && re[1] == '*' {
      found := Matchstar(re[0], re[2..], text);
      return;
    }
    if re == "$" {
      BeginsEmpty(true, text);
      return text == "";
    }
    BeginsOne(re[0], Parse(re[1..]), text);
    if text != "" && (re[0] == '.' || re[0] == text[0]) {
      found := Matchhere(re[1..], text[1..]);
      return;
    }
    return false;
  }

  method Matchstar(c: char, re: string, text: string) returns (found: bool)
    ensures found <==> Begins(Pattern([Star(c)] + Parse(re).items, Parse(re).end), text)
    decreases |re|, 1
  {
    BeginsWith(Star(c), Parse(re), text);
    var i := 0;
    while true
      invariant 0 <= i <= |text| && AllFit(c, text[..i])
      invariant forall h :: 0 <= h < i ==> !Begins(Parse(re), text[h..])
      decreases |text| - i
    {
      found := Matchhere(re, text[i..]);
      if found {
        assert ItemIs(Star(c), text[..i]);
        return true;
      }
      if !(i < |text| && (text[i] == c || c == '.')) {
        break;
      }
      i := i + 1;
    }
    forall k | 0 <= k <= |text| && ItemIs(Star(c), text[..k]) ensures !Begins(Parse(re), text[k..]) {
      if k > i {
        assert Fits(c, text[..k][i]);
      }
    }
    return false;
  }
}
