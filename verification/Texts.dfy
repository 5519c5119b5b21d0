/** Finding the end of a line, and splitting a path at its slashes. */
module Texts {
  /** The index of the first newline, or the length of the text. */
  function LineEnd(s: string): (n: nat)
    ensures n <= |s|
  {
    if s == "" || s[0] == '\n' then 0 else 1 + LineEnd(s[1..])
  }

  lemma {:induction false} LineEndIs(body: string, rest: string)
    requires '\n' !in body && (rest == "" || rest[0] == '\n')
    ensures LineEnd(body + rest) == |body|
  {
    if body == "" {
      assert body + rest == rest;
    } else {
      assert (body + rest)[1..] == body[1..] + rest;
      LineEndIs(body[1..], rest);
    }
  }

  lemma {:induction false} LineEndSplits(s: string)
    ensures '\n' !in s[..LineEnd(s)] && (LineEnd(s) < |s| ==> s[LineEnd(s)] == '\n')
  {
    if s != "" && s[0] != '\n' {
      LineEndSplits(s[1..]);
      assert s[..LineEnd(s)] == [s[0]] + s[1..][..LineEnd(s[1..])];
    }
  }

  predicate At(s: string, i: nat, c: char) {
    i < |s| && s[i] == c
  }

  function Split(s: string): (pieces: seq<string>)
    ensures pieces != []
  {
    if s == "" then [""]
    else
      var rest := Split(s[1..]);
      if s[0] == '/' then [""] + rest else [[s[0]] + rest[0]] + rest[1..]
  }

  lemma {:induction false} SplitPiece(piece: string, rest: string)
    requires '/' !in piece
    ensures Split(piece + rest) == [piece + Split(rest)[0]] + Split(rest)[1..]
  {
    var pieces := Split(rest);
    if piece == "" {
      assert piece + rest == rest && piece + pieces[0] == pieces[0];
      assert pieces == [pieces[0]] + pieces[1..];
    } else {
      assert (piece + rest)[1..] == piece[1..] + rest;
      SplitPiece(piece[1..], rest);
      var more := [piece[1..] + pieces[0]] + pieces[1..];
      assert more[1..] == pieces[1..];
      assert [piece[0]] + more[0] == piece + pieces[0];
    }
  }
}
