/** The pattern matcher of grep.c, proved against the language of a pattern. */
module Grep {

  // ------------------------------------------------------------------
  // The language of a pattern

  /** A pattern is a list of items: a character, a starred character or the final dollar. */
  datatype Item = One(c: char) | Star(c: char) | End

  predicate Fits(c: char, x: char) { c == '.' || c == x }

  function Items(re: string): seq<Item>
    decreases |re|
  {
    if re == "" then []
    else if |re| > 1 && re[1] == '*' then [Star(re[0])] + Items(re[2..])
    else if re == "$" then [End]
    else [One(re[0])] + Items(re[1..])
  }

  predicate All(c: char, w: string) { forall k | 0 <= k < |w| :: Fits(c, w[k]) }

  /** The words of a list of items: each item takes its piece of the word. */
  ghost predicate Lang(items: seq<Item>, w: string)
    decreases |items|
  {
    if items == [] then w == ""
    else match items[0]
      case One(c) => |w| > 0 && Fits(c, w[0]) && Lang(items[1..], w[1..])
      case Star(c) => exists k: nat :: k <= |w| && All(c, w[..k]) && Lang(items[1..], w[k..])
      case End => w == "" && Lang(items[1..], w)
  }

  /** The pattern ends in a dollar. */
  predicate AtEnd(items: seq<Item>) { items != [] && items[|items| - 1] == End }

  /** A beginning of the text, the whole of it for a pattern that ends in a dollar, is a word. */
  ghost predicate Here(items: seq<Item>, text: string) {
    exists n: nat :: n <= |text| && Lang(items, text[..n]) && (AtEnd(items) ==> n == |text|)
  }

  /** What grep looks for: such a word anywhere in the text, at its start after a caret. */
  ghost predicate Found(re: string, text: string) {
    if re != "" && re[0] == '^' then Here(Items(re[1..]), text)
    else exists i: nat :: i <= |text| && Here(Items(re), text[i..])
  }

  // ------------------------------------------------------------------
  // The language, one item at a time

  lemma HereOne(c: char, rest: seq<Item>, text: string)
    ensures Here([One(c)] + rest, text) <==> text != "" && Fits(c, text[0]) && Here(rest, text[1..])
  {
    var items := [One(c)] + rest;
    assert items[1..] == rest && (rest != [] ==> items[|items| - 1] == rest[|rest| - 1]);
    if Here(items, text) {
      var n: nat :| n <= |text| && Lang(items, text[..n]) && (AtEnd(items) ==> n == |text|);
      assert text[..n][1..] == text[1..][..n - 1];
    }
    if text != "" && Fits(c, text[0]) && Here(rest, text[1..]) {
      var n: nat :| n <= |text[1..]| && Lang(rest, text[1..][..n]) && (AtEnd(rest) ==> n == |text[1..]|);
      assert text[..n + 1][1..] == text[1..][..n];
      assert Lang(items, text[..n + 1]);
    }
  }

  lemma HereStar(c: char, rest: seq<Item>, text: string)
    ensures Here([Star(c)] + rest, text) <==> exists k: nat :: k <= |text| && All(c, text[..k]) && Here(rest, text[k..])
  {
    var items := [Star(c)] + rest;
    assert items[1..] == rest && (rest != [] ==> items[|items| - 1] == rest[|rest| - 1]);
    if Here(items, text) {
      var n: nat :| n <= |text| && Lang(items, text[..n]) && (AtEnd(items) ==> n == |text|);
      var k: nat :| k <= n && All(c, text[..n][..k]) && Lang(rest, text[..n][k..]);
      assert text[..n][..k] == text[..k] && text[..n][k..] == text[k..][..n - k];
      assert Here(rest, text[k..]);
    }
    if exists k: nat :: k <= |text| && All(c, text[..k]) && Here(rest, text[k..]) {
      var k: nat :| k <= |text| && All(c, text[..k]) && Here(rest, text[k..]);
      var n: nat :| n <= |text[k..]| && Lang(rest, text[k..][..n]) && (AtEnd(rest) ==> n == |text[k..]|);
      assert text[..k + n][..k] == text[..k] && text[..k + n][k..] == text[k..][..n];
      assert Lang(items, text[..k + n]);
    }
  }

  lemma HereEnd(text: string)
    ensures Here([End], text) <==> text == ""
  {
    if text == "" { assert Lang([End], text[..0]); }
  }

  lemma HereNothing(text: string)
    ensures Here([], text)
  {
    assert Lang([], text[..0]);
  }

  // ------------------------------------------------------------------
  // The matcher

  /** matchhere: sound and complete, and it terminates. */
  method MatchHere(re: string, text: string) returns (r: bool)
    ensures r <==> Here(Items(re), text)
    decreases |re|, |text|
  {
    if re == "" {
      HereNothing(text);
      return true;
    }
    if |re| > 1 && re[1] == '*' {
      HereStar(re[0], Items(re[2..]), text);
      r := MatchStar(re[0], re[2..], text);
      return;
    }
    if re == "$" {
      HereEnd(text);
      return text == "";
    }
    HereOne(re[0], Items(re[1..]), text);
    if text != "" && (re[0] == '.' || re[0] == text[0]) {
      r := MatchHere(re[1..], text[1..]);
      return;
    }
    return false;
  }

  /** matchstar: some run of c's from the start of the text, then the rest of the pattern. */
  method MatchStar(c: char, re: string, text: string) returns (r: bool)
    ensures r <==> exists k: nat :: k <= |text| && All(c, text[..k]) && Here(Items(re), text[k..])
    decreases |re| + 1, |text|
  {
    var i := 0;
    while true
      invariant 0 <= i <= |text| && All(c, text[..i])
      invariant forall k: nat | k < i :: !Here(Items(re), text[k..])
      decreases |text| - i
    {
      r := MatchHere(re, text[i..]);
      if r {
        return;
      }
      if !(i < |text| && (text[i] == c || c == '.')) {
        forall k: nat | k <= |text| && All(c, text[..k]) ensures k <= i {
          assert k <= i || Fits(c, text[..k][i]);
        }
        return;
      }
      i := i + 1;
    }
  }

  /** match: 1 exactly when the pattern is found in the text. */
  method Match(re: string, text: string) returns (r: bool)
    ensures r <==> Found(re, text)
  {
    if re != "" && re[0] == '^' {
      r := MatchHere(re[1..], text);
      return;
    }
    var i := 0;
    while true
      invariant 0 <= i <= |text|
      invariant forall k: nat | k < i :: !Here(Items(re), text[k..])
      decreases |text| - i
    {
      r := MatchHere(re, text[i..]);
      if r || i == |text| {
        return;
      }
      i := i + 1;
    }
  }
}
