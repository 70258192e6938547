/**
 grep's matcher (user/grep.c) and the language of its patterns.  Strings are as in C
 without their terminating NUL.
 */
module Grep {

  /** A pattern: a character or `.`, a starred one, and `$` at the end. */
  datatype Item = One(c: char) | Star(c: char) | End

  function Parse(re: string): seq<Item> {
    if re == "" then []
    else if |re| >= 2 && re[1] == '*' then [Star(re[0])] + Parse(re[2..])
    else if re == "$" then [End]
    else [One(re[0])] + Parse(re[1..])
  }

  predicate Fits(c: char, x: char) {
    c == '.' || c == x
  }

  /** The piece of `text` from `a` to `b` is one that the item stands for. */
  predicate PieceOk(item: Item, text: string, a: nat, b: nat)
    requires a <= b <= |text|
  {
    match item
    case One(c) => b == a + 1 && Fits(c, text[a])
    case Star(c) => forall k :: a <= k < b ==> Fits(c, text[k])
    case End => a == b == |text|
  }

  /** `cuts` divides a prefix of `text` into one piece for each item. */
  ghost predicate IsCut(items: seq<Item>, text: string, cuts: seq<nat>) {
    && |cuts| == |items| + 1 && cuts[0] == 0
    && (forall i :: 0 <= i < |items| ==> cuts[i] <= cuts[i + 1])
    && (forall i :: 0 <= i < |cuts| ==> cuts[i] <= |text|)
    && forall i :: 0 <= i < |items| ==> Piece(items, text, cuts, i)
  }

  predicate Piece(items: seq<Item>, text: string, cuts: seq<nat>, i: nat)
    requires i < |items| && i + 1 < |cuts|
  {
    cuts[i] <= cuts[i + 1] <= |text| && PieceOk(items[i], text, cuts[i], cuts[i + 1])
  }

  /** Some prefix of `text` is in the language of the pattern. */
  ghost predicate Prefix(items: seq<Item>, text: string) {
    exists cuts :: IsCut(items, text, cuts)
  }

  /** The meaning of a whole pattern: anchored by a leading `^`, else anywhere in the text. */
  ghost predicate Found(re: string, text: string) {
    if re != "" && re[0] == '^' then Prefix(Parse(re[1..]), text)
    else exists k :: 0 <= k <= |text| && Prefix(Parse(re), text[k..])
  }

  // ---------- the language, item by item ----------

  lemma PrefixNil(text: string)
    ensures Prefix([], text)
  {
    assert IsCut([], text, [0]);
  }

  function Shift(cuts: seq<nat>, n: nat): (r: seq<nat>)
    ensures |r| == |cuts| && forall i :: 0 <= i < |cuts| ==> r[i] == cuts[i] + n
  {
    seq<nat>(|cuts|, i requires 0 <= i < |cuts| => cuts[i] + n)
  }

  function Unshift(cuts: seq<nat>, n: nat): (r: seq<nat>)
    requires forall i :: 0 <= i < |cuts| ==> cuts[i] >= n
    ensures |r| == |cuts| && forall i :: 0 <= i < |cuts| ==> r[i] == cuts[i] - n
  {
    seq<nat>(|cuts|, i requires 0 <= i < |cuts| => cuts[i] - n)
  }

  /** A first piece of `n` characters and a match of the rest make a match. */
  lemma PrefixJoin(item: Item, rest: seq<Item>, text: string, n: nat)
    requires n <= |text| && PieceOk(item, text, 0, n) && Prefix(rest, text[n..])
    ensures Prefix([item] + rest, text)
  {
    var cuts :| IsCut(rest, text[n..], cuts);
    var all := [0] + Shift(cuts, n);
    var items := [item] + rest;
    forall i | 0 <= i < |items| ensures Piece(items, text, all, i) && all[i] <= all[i + 1] {
      if i > 0 { ShiftPiece(rest, text, cuts, n, i - 1); }
    }
    assert IsCut(items, text, all);
  }

  lemma ShiftPiece(rest: seq<Item>, text: string, cuts: seq<nat>, n: nat, i: nat)
    requires n <= |text| && i < |rest| && i + 1 < |cuts| && Piece(rest, text[n..], cuts, i)
    ensures cuts[i] + n <= cuts[i + 1] + n <= |text| && PieceOk(rest[i], text, cuts[i] + n, cuts[i + 1] + n)
  {
    if rest[i].Star? {
      forall k | cuts[i] + n <= k < cuts[i + 1] + n
          ensures Fits(rest[i].c, text[k]) { assert text[k] == text[n..][k - n]; }
    }
  }

  /** A match begins with a piece for the first item, followed by a match of the rest. */
  lemma PrefixSplit(item: Item, rest: seq<Item>, text: string) returns (n: nat)
    requires Prefix([item] + rest, text)
    ensures n <= |text| && PieceOk(item, text, 0, n) && Prefix(rest, text[n..])
  {
    var items := [item] + rest;
    var all :| IsCut(items, text, all);
    n := all[1];
    assert Piece(items, text, all, 0);
    forall i | 1 <= i < |all| ensures all[i] >= all[1] { RisingAt(items, text, all, i); }
    var cuts := Unshift(all[1..], n);
    forall i | 0 <= i < |rest| ensures Piece(rest, text[n..], cuts, i) && cuts[i] <= cuts[i + 1] {
      assert Piece(items, text, all, i + 1);
      UnshiftPiece(items, text, all, n, i + 1);
    }
    assert IsCut(rest, text[n..], cuts);
  }

  lemma UnshiftPiece(items: seq<Item>, text: string, all: seq<nat>, n: nat, i: nat)
    requires i < |items| && i + 1 < |all| && Piece(items, text, all, i) && n <= all[i] && n <= |text|
    ensures n <= all[i] <= all[i + 1] <= |text| && PieceOk(items[i], text[n..], all[i] - n, all[i + 1] - n)
  {
  }

  lemma {:induction false} RisingAt(items: seq<Item>, text: string, all: seq<nat>, i: nat)
    requires IsCut(items, text, all) && 1 <= i < |all|
    ensures all[i] >= all[1]
  {
    if i > 1 {
      RisingAt(items, text, all, i - 1);
      assert all[i - 1] <= all[i - 1 + 1];
    }
  }

  // ---------- the matcher ----------

  /** matchhere: the pattern matches at the beginning of the text. */
  method MatchHere(re: string, text: string) returns (r: bool)
    ensures r <==> Prefix(Parse(re), text)
    decreases |re|, 0
  {
    if re == "" {
      PrefixNil(text);
      return true;
    }
    if |re| >= 2 && re[1] == '*' {
      r := MatchStar(re[0], re[2..], text);
      return;
    }
    if re == "$" {
      EndIs(text);
      return text == "";
    }
    OneIs(re[0], Parse(re[1..]), text);
    if text != "" && (re[0] == '.' || re[0] == text[0]) {
      r := MatchHere(re[1..], text[1..]);
      return;
    }
    r := false;
  }

  /** matchstar: some number of the character, then the rest of the pattern. */
  method MatchStar(c: char, re: string, text: string) returns (r: bool)
    ensures r <==> Prefix([Star(c)] + Parse(re), text)
    decreases |re|, 1
  {
    var i := 0;
    while true
      invariant 0 <= i <= |text| && (forall k :: 0 <= k < i ==> Fits(c, text[k]))
      invariant forall k :: 0 <= k < i ==> !Prefix(Parse(re), text[k..])
      decreases |text| - i
    {
      r := MatchHere(re, text[i..]);
      if r {
        PrefixJoin(Star(c), Parse(re), text, i);
        return;
      }
      if i == |text| || !(text[i] == c || c == '.') {
        break;
      }
      i := i + 1;
    }
    StarFails(c, Parse(re), text, i);
    r := false;
  }

  /** match: the pattern is found in the text exactly when its language says so. */
  method Match(re: string, text: string) returns (r: bool)
    ensures r <==> Found(re, text)
  {
    if re != "" && re[0] == '^' {
      r := MatchHere(re[1..], text);
      return;
    }
    var i := 0;
    while true
      invariant 0 <= i <= |text| && forall k :: 0 <= k < i ==> !Prefix(Parse(re), text[k..])
      decreases |text| - i
    {
      r := MatchHere(re, text[i..]);
      if r {
        return;
      }
      if i == |text| {
        break;
      }
      i := i + 1;
    }
    r := false;
  }

  lemma EndIs(text: string)
    ensures Prefix([End], text) <==> text == ""
  {
    if Prefix([End], text) {
      assert [End] == [End] + [];
      var n := PrefixSplit(End, [], text);
    }
    if text == "" {
      PrefixNil(text[0..]);
      PrefixJoin(End, [], text, 0);
      assert [End] + [] == [End];
    }
  }

  lemma OneIs(c: char, rest: seq<Item>, text: string)
    ensures Prefix([One(c)] + rest, text) <==> text != "" && Fits(c, text[0]) && Prefix(rest, text[1..])
  {
    if Prefix([One(c)] + rest, text) {
      var n := PrefixSplit(One(c), rest, text);
    }
    if text != "" && Fits(c, text[0]) && Prefix(rest, text[1..]) { PrefixJoin(One(c), rest, text, 1); }
  }

  lemma StarFails(c: char, rest: seq<Item>, text: string, i: nat)
    requires i <= |text| && (forall k :: 0 <= k <= i ==> !Prefix(rest, text[k..])) && (i < |text| ==> !Fits(c, text[i]))
    ensures !Prefix([Star(c)] + rest, text)
  {
    if Prefix([Star(c)] + rest, text) {
      var n := PrefixSplit(Star(c), rest, text);
      assert false;
    }
  }
}
