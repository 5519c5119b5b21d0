/**
 * The scanning loop of `withoutComments` (tools/project-boundaries/reference-scanner.ts:15-59).
 *
 * `Scan` is the loop as a function of the characters still to be read. `Piece` is the lexical
 * grammar the loop is meant to follow: a text is a run of characters, string literals, line
 * comments and block comments.
 */
module CommentScanner {
  import opened Seqs
  import opened Texts
  import opened Wrappers

  predicate IsQuote(c: char) {
    c == '"' || c == '\'' || c == '`'
  }

  /** The loop's `quote` and `escaped`. */
  datatype Mode = Code | Quoted(quote: char, escaped: bool)

  predicate Starts(s: string, a: char, b: char) {
    |s| >= 2 && s[0] == a && s[1] == b
  }

  /** The index of the first block comment terminator, or the length of the text. */
  function BlockEnd(s: string): (n: nat)
    ensures n <= |s|
  {
    if s == "" || Starts(s, '*', '/') then 0 else 1 + BlockEnd(s[1..])
  }

  function Newlines(s: string): string {
    if s == "" then ""
    else if s[0] == '\n' then "\n" + Newlines(s[1..])
    else Newlines(s[1..])
  }

  function Drop(s: string, n: nat): string {
    if n <= |s| then s[n..] else ""
  }

  function NextMode(mode: Mode, c: char): Mode
    requires mode.Quoted?
  {
    if mode.escaped then mode.(escaped := false)
    else if c == '\\' then mode.(escaped := true)
    else if c == mode.quote then Code
    else mode
  }

  /** One pass through the loop: what it appends, how far it moves, and in which mode it goes on. */
  datatype Pass = Pass(text: string, length: nat, mode: Mode)

  function OnePass(s: string, mode: Mode): (pass: Pass)
    requires s != ""
    ensures pass.length > 0
  {
    if mode.Quoted? then Pass([s[0]], 1, NextMode(mode, s[0]))
    else if IsQuote(s[0]) then Pass([s[0]], 1, Quoted(s[0], false))
    else if Starts(s, '/', '/') then Pass("\n", LineEnd(s[2..]) + 3, Code)
    else if Starts(s, '/', '*') then Pass(Newlines(s[2..][..BlockEnd(s[2..])]), BlockEnd(s[2..]) + 4, Code)
    else Pass([s[0]], 1, Code)
  }

  function Scan(s: string, mode: Mode): string
    decreases |s|
  {
    if s == "" then "" else
      var pass := OnePass(s, mode);
      pass.text + Scan(Drop(s, pass.length), pass.mode)
  }

  // ----- The lexical grammar -----

  datatype Piece =
    | Plain(c: char)
    | Str(quote: char, body: string, closed: bool)
    | Line(body: string, closed: bool)
    | Block(body: string, closed: bool)

  function Text(p: Piece): string {
    match p
    case Plain(c) => [c]
    case Str(q, body, closed) => [q] + body + if closed then [q] else ""
    case Line(body, closed) => "//" + body + if closed then "\n" else ""
    case Block(body, closed) => "/*" + body + if closed then "*/" else ""
  }

  function Concat(ps: seq<Piece>): string {
    if ps == [] then "" else Text(ps[0]) + Concat(ps[1..])
  }

  /** The mode after the body of a string literal, read from its opening quote. */
  function Inside(mode: Mode, body: string): (inside: Mode)
    requires mode.Quoted?
    ensures inside.Quoted? ==> inside.quote == mode.quote
    decreases |body|
  {
    if body == "" then mode
    else if NextMode(mode, body[0]).Code? then Code
    else Inside(NextMode(mode, body[0]), body[1..])
  }

  /** A piece is well formed before the text `rest`. */
  predicate Fits(p: Piece, rest: string) {
    match p
    case Plain(c) => !IsQuote(c) && !Starts([c] + rest, '/', '/') && !Starts([c] + rest, '/', '*')
    case Str(q, body, closed) =>
      IsQuote(q) && Inside(Quoted(q, false), body).Quoted?
      && if closed then !Inside(Quoted(q, false), body).escaped else rest == ""
    case Line(body, closed) => '\n' !in body && (closed || rest == "")
    case Block(body, closed) => BlockEnd(body) == |body| && (closed || rest == "")
  }

  predicate Lexed(ps: seq<Piece>) {
    ps != [] ==> Fits(ps[0], Concat(ps[1..])) && Lexed(ps[1..])
  }

  /** What the scan keeps of a piece. */
  function Kept(p: Piece): string {
    match p
    case Plain(_) => Text(p)
    case Str(_, _, _) => Text(p)
    case Line(_, _) => "\n"
    case Block(body, _) => Newlines(body)
  }

  function Render(ps: seq<Piece>): string {
    if ps == [] then "" else Kept(ps[0]) + Render(ps[1..])
  }

  // ----- The scan follows the grammar -----

  lemma ScanQuoted(c: char, rest: string, mode: Mode)
    requires mode.Quoted?
    ensures Scan([c] + rest, mode) == [c] + Scan(rest, NextMode(mode, c))
  {
    assert Drop([c] + rest, 1) == rest;
  }

  lemma {:induction false} ScanString(mode: Mode, body: string, rest: string)
    requires mode.Quoted? && Inside(mode, body).Quoted?
    ensures Scan(body + rest, mode) == body + Scan(rest, Inside(mode, body))
    decreases |body|
  {
    if body == "" {
      assert body + rest == rest;
    } else {
      var mode' := NextMode(mode, body[0]);
      assert body + rest == [body[0]] + (body[1..] + rest);
      ScanQuoted(body[0], body[1..] + rest, mode);
      ScanString(mode', body[1..], rest);
      Associate([body[0]], body[1..], Scan(rest, Inside(mode', body[1..])));
      assert body == [body[0]] + body[1..];
    }
  }

  lemma {:induction false} BlockEndIs(body: string, rest: string)
    requires BlockEnd(body) == |body| && (rest == "" || Starts(rest, '*', '/'))
    ensures BlockEnd(body + rest) == |body|
  {
    if body == "" {
      assert body + rest == rest;
    } else {
      assert (body + rest)[1..] == body[1..] + rest;
      assert !Starts(body, '*', '/');
      BlockEndIs(body[1..], rest);
    }
  }

  lemma ScanOpens(q: char, rest: string)
    requires IsQuote(q)
    ensures Scan([q] + rest, Code) == [q] + Scan(rest, Quoted(q, false))
  {
    assert Drop([q] + rest, 1) == rest;
  }

  lemma ScanStr(q: char, body: string, closed: bool, rest: string)
    requires Fits(Str(q, body, closed), rest)
    ensures Scan(Text(Str(q, body, closed)) + rest, Code) == Text(Str(q, body, closed)) + Scan(rest, Code)
  {
    var tail := if closed then [q] + rest else rest;
    assert Text(Str(q, body, closed)) + rest == [q] + (body + tail);
    ScanOpens(q, body + tail);
    ScanString(Quoted(q, false), body, tail);
    if closed {
      ScanQuoted(q, rest, Inside(Quoted(q, false), body));
      Associate(body, [q], Scan(rest, Code));
      Associate([q], body + [q], Scan(rest, Code));
      Associate([q], body, [q]);
    } else {
      assert rest == "" && Scan(rest, Code) == "";
    }
  }

  lemma LineText(body: string, closed: bool, rest: string)
    requires Fits(Line(body, closed), rest)
    ensures var s := Text(Line(body, closed)) + rest;
            && Starts(s, '/', '/') && |s| >= |body| + 2 && s[2..][..|body|] == body && LineEnd(s[2..]) == |body|
            && closed == (|body| < |s[2..]|) && Drop(s, |body| + 3) == rest
  {
    var s := Text(Line(body, closed)) + rest;
    var tail := if closed then "\n" + rest else rest;
    assert s[2..] == body + tail;
    LineEndIs(body, tail);
    assert |body| + 3 <= |s| ==> s[|body| + 3..] == rest;
  }

  lemma BlockText(body: string, closed: bool, rest: string)
    requires Fits(Block(body, closed), rest)
    ensures var s := Text(Block(body, closed)) + rest;
            && Starts(s, '/', '*') && |s| >= |body| + 2 && s[2..][..|body|] == body && BlockEnd(s[2..]) == |body|
            && closed == (|body| < |s[2..]|) && Drop(s, |body| + 4) == rest
  {
    var s := Text(Block(body, closed)) + rest;
    var tail := if closed then "*/" + rest else rest;
    BlockEndIs(body, tail);
    assert s[2..] == body + tail;
  }

  lemma ScanPiece(p: Piece, rest: string)
    requires Fits(p, rest)
    ensures Scan(Text(p) + rest, Code) == Kept(p) + Scan(rest, Code)
  {
    var s := Text(p) + rest;
    match p
    case Plain(c) => assert OnePass(s, Code) == Pass([c], 1, Code) && Drop(s, 1) == rest;
    case Str(q, body, closed) => ScanStr(q, body, closed, rest);
    case Line(body, closed) => LineText(body, closed, rest);
    case Block(body, closed) => BlockText(body, closed, rest);
  }

  /** On every lexed text the scan keeps exactly the characters, the literals and the comments' newlines. */
  lemma {:induction false} ScanIsRender(ps: seq<Piece>)
    requires Lexed(ps)
    ensures Scan(Concat(ps), Code) == Render(ps)
  {
    if ps != [] {
      ScanPiece(ps[0], Concat(ps[1..]));
      ScanIsRender(ps[1..]);
    }
  }

  // ----- Each kind of piece, spelled out -----

  /** The body of a literal: characters other than its quote and the backslash, and escaped characters. */
  ghost predicate Escaped(body: string, quote: char)
    decreases |body|
  {
    body == ""
    || (body[0] != quote && body[0] != '\\' && Escaped(body[1..], quote))
    || (|body| > 1 && body[0] == '\\' && Escaped(body[2..], quote))
  }

  lemma {:induction false} EscapedStaysInside(body: string, quote: char)
    requires Escaped(body, quote) && quote != '\\'
    ensures Inside(Quoted(quote, false), body) == Quoted(quote, false)
    decreases |body|
  {
    if body != "" {
      if body[0] == '\\' {
        assert body[1..][1..] == body[2..];
        EscapedStaysInside(body[2..], quote);
      } else {
        EscapedStaysInside(body[1..], quote);
      }
    }
  }

  /** A string literal in any of the three quotes stays, with everything in it. */
  lemma LiteralStays(quote: char, body: string, rest: string)
    requires quote in ['"', '\'', '`'] && Escaped(body, quote)
    ensures Scan([quote] + body + [quote] + rest, Code) == [quote] + body + [quote] + Scan(rest, Code)
  {
    EscapedStaysInside(body, quote);
    ScanPiece(Str(quote, body, true), rest);
  }

  /** A line comment leaves a newline, also at the end of the text. */
  lemma LineCommentGoes(body: string, rest: string)
    requires '\n' !in body
    ensures Scan("//" + body + "\n" + rest, Code) == "\n" + Scan(rest, Code)
    ensures Scan("//" + body, Code) == "\n"
  {
    ScanPiece(Line(body, true), rest);
    ScanPiece(Line(body, false), "");
    assert "//" + body + "" + "" == "//" + body;
  }

  ghost predicate HoldsTerminator(body: string) {
    exists k :: 0 <= k < |body| - 1 && body[k] == '*' && body[k + 1] == '/'
  }

  lemma {:induction false} NoTerminator(body: string)
    requires !HoldsTerminator(body)
    ensures BlockEnd(body) == |body|
  {
    if body != "" {
      forall k | 0 <= k < |body[1..]| - 1 ensures !(body[1..][k] == '*' && body[1..][k + 1] == '/') {
        assert body[k + 1] == body[1..][k] && body[k + 2] == body[1..][k + 1];
      }
      NoTerminator(body[1..]);
    }
  }

  /** A block comment leaves its newlines, also if it is not closed. */
  lemma BlockCommentGoes(body: string, rest: string)
    requires !HoldsTerminator(body)
    ensures Scan("/*" + body + "*/" + rest, Code) == Newlines(body) + Scan(rest, Code)
    ensures Scan("/*" + body, Code) == Newlines(body)
    ensures forall i :: 0 <= i < |Newlines(body)| ==> Newlines(body)[i] == '\n'
  {
    NoTerminator(body);
    ScanPiece(Block(body, true), rest);
    ScanPiece(Block(body, false), "");
    assert "/*" + body + "" + "" == "/*" + body;
    OnlyNewlines(body);
  }

  lemma {:induction false} OnlyNewlines(s: string)
    ensures forall i :: 0 <= i < |Newlines(s)| ==> Newlines(s)[i] == '\n'
  {
    if s != "" { OnlyNewlines(s[1..]); }
  }

  /** Any other character stays. */
  lemma CharacterStays(c: char, rest: string)
    requires c !in ['"', '\'', '`'] && (c == '/' && rest != "" ==> rest[0] != '/' && rest[0] != '*')
    ensures Scan([c] + rest, Code) == [c] + Scan(rest, Code)
  {
    ScanPiece(Plain(c), rest);
  }

  // ----- Every text is lexed -----

  /** The length of a literal's body, up to the closing quote or the end of the text. */
  function StringEnd(mode: Mode, s: string): (n: nat)
    requires mode.Quoted?
    ensures n <= |s| && Inside(mode, s[..n]).Quoted?
    ensures n < |s| ==> !Inside(mode, s[..n]).escaped && s[n] == mode.quote
    decreases |s|
  {
    if s == "" || NextMode(mode, s[0]).Code? then 0
    else
      var n := 1 + StringEnd(NextMode(mode, s[0]), s[1..]);
      assert s[..n][1..] == s[1..][..n - 1];
      n
  }

  function FirstPiece(s: string): Piece
    requires s != ""
  {
    if IsQuote(s[0]) then
      var n := StringEnd(Quoted(s[0], false), s[1..]);
      Str(s[0], s[1..][..n], n < |s[1..]|)
    else if Starts(s, '/', '/') then Line(s[2..][..LineEnd(s[2..])], LineEnd(s[2..]) < |s[2..]|)
    else if Starts(s, '/', '*') then Block(s[2..][..BlockEnd(s[2..])], BlockEnd(s[2..]) < |s[2..]|)
    else Plain(s[0])
  }

  lemma {:induction false} BlockEndSplits(s: string)
    ensures BlockEnd(s[..BlockEnd(s)]) == BlockEnd(s) && (BlockEnd(s) < |s| ==> Starts(s[BlockEnd(s)..], '*', '/'))
  {
    if s != "" && !Starts(s, '*', '/') {
      BlockEndSplits(s[1..]);
      var n := BlockEnd(s);
      assert s[..n][1..] == s[1..][..n - 1] && s[n..] == s[1..][n - 1..];
    }
  }

  lemma FirstPieceFits(s: string)
    requires s != ""
    ensures var p := FirstPiece(s);
            |Text(p)| <= |s| && Text(p) != "" && Text(p) + s[|Text(p)|..] == s && Fits(p, s[|Text(p)|..])
  {
    var p := FirstPiece(s);
    if IsQuote(s[0]) {
      StringFits(s);
    } else if Starts(s, '/', '/') {
      LineEndSplits(s[2..]);
      assert s == "//" + s[2..];
    } else if Starts(s, '/', '*') {
      BlockFits(s);
    } else {
      assert [s[0]] + s[1..] == s;
    }
  }

  lemma StringFits(s: string)
    requires s != "" && IsQuote(s[0])
    ensures var p := FirstPiece(s); |Text(p)| <= |s| && Text(p) + s[|Text(p)|..] == s && Fits(p, s[|Text(p)|..])
  {
    var n := StringEnd(Quoted(s[0], false), s[1..]);
    assert s[..n + 1] == [s[0]] + s[1..][..n];
  }

  lemma BlockFits(s: string)
    requires Starts(s, '/', '*')
    ensures var p := Block(s[2..][..BlockEnd(s[2..])], BlockEnd(s[2..]) < |s[2..]|);
            |Text(p)| <= |s| && Text(p) + s[|Text(p)|..] == s && Fits(p, s[|Text(p)|..])
  {
    var n := BlockEnd(s[2..]);
    BlockEndSplits(s[2..]);
    var m := if n < |s[2..]| then n + 4 else n + 2;
    assert s[2..][n..] == s[n + 2..];
    assert s[..m] == "/*" + s[2..][..n] + if n < |s[2..]| then "*/" else "";
    assert s == s[..m] + s[m..];
  }

  function Lex(s: string): (ps: seq<Piece>)
    ensures Lexed(ps) && Concat(ps) == s
    decreases |s|
  {
    if s == "" then []
    else
      FirstPieceFits(s);
      var p := FirstPiece(s);
      [p] + Lex(s[|Text(p)|..])
  }

  // ----- What the scan leaves -----

  function PrependNewlines(s: string, ps: seq<Piece>): seq<Piece> {
    if s == "" then ps
    else if s[0] == '\n' then [Plain('\n')] + PrependNewlines(s[1..], ps)
    else PrependNewlines(s[1..], ps)
  }

  /** The pieces of the scanned text. */
  function Cleaned(ps: seq<Piece>): seq<Piece> {
    if ps == [] then []
    else match ps[0]
      case Plain(_) => [ps[0]] + Cleaned(ps[1..])
      case Str(_, _, _) => [ps[0]] + Cleaned(ps[1..])
      case Line(_, _) => [Plain('\n')] + Cleaned(ps[1..])
      case Block(body, _) => PrependNewlines(body, Cleaned(ps[1..]))
  }

  predicate CommentFree(ps: seq<Piece>) {
    forall p :: p in ps ==> p.Plain? || p.Str?
  }

  lemma NewlineLex(qs: seq<Piece>)
    requires Lexed(qs) && CommentFree(qs)
    ensures Lexed([Plain('\n')] + qs) && CommentFree([Plain('\n')] + qs)
    ensures Concat([Plain('\n')] + qs) == "\n" + Concat(qs)
  {
    assert ([Plain('\n')] + qs)[1..] == qs;
  }

  lemma {:induction false} NewlinesLex(s: string, ps: seq<Piece>)
    requires Lexed(ps) && CommentFree(ps)
    ensures Lexed(PrependNewlines(s, ps)) && CommentFree(PrependNewlines(s, ps))
  {
    if s != "" {
      NewlinesLex(s[1..], ps);
      NewlineLex(PrependNewlines(s[1..], ps));
    }
  }

  lemma {:induction false} NewlinesConcat(s: string, ps: seq<Piece>)
    ensures Concat(PrependNewlines(s, ps)) == Newlines(s) + Concat(ps)
  {
    if s != "" {
      NewlinesConcat(s[1..], ps);
      if s[0] == '\n' {
        assert PrependNewlines(s, ps)[1..] == PrependNewlines(s[1..], ps);
        Associate("\n", Newlines(s[1..]), Concat(ps));
      }
    }
  }

  lemma PrependKept(p: Piece, rest: string, qs: seq<Piece>)
    requires Fits(p, rest) && (p.Plain? || p.Str?) && Lexed(qs) && CommentFree(qs)
    requires rest == "" ==> qs == []
    requires Concat(qs) != "" && rest[0] != '/' ==> Concat(qs)[0] == rest[0]
    ensures Lexed([p] + qs) && CommentFree([p] + qs) && Concat([p] + qs) == Text(p) + Concat(qs)
  {
    assert ([p] + qs)[1..] == qs;
    assert Fits(p, Concat(qs));
  }

  /** The scanned text is lexed as the same characters and literals, with newlines in place of comments. */
  lemma {:induction false} CleanedLex(ps: seq<Piece>)
    requires Lexed(ps)
    ensures Lexed(Cleaned(ps)) && CommentFree(Cleaned(ps)) && Concat(Cleaned(ps)) == Render(ps)
    ensures Concat(ps) == "" ==> Cleaned(ps) == []
    ensures Concat(ps) != "" && Concat(ps)[0] != '/' ==> Render(ps) != "" && Render(ps)[0] == Concat(ps)[0]
  {
    if ps != [] {
      CleanedLex(ps[1..]);
      var rest := Cleaned(ps[1..]);
      match ps[0]
      case Block(body, _) => NewlinesLex(body, rest); NewlinesConcat(body, rest);
      case Line(_, _) =>
        NewlineLex(rest);
      case Plain(_) => PrependKept(ps[0], Concat(ps[1..]), rest);
      case Str(_, _, _) => PrependKept(ps[0], Concat(ps[1..]), rest);
    }
  }

  // ----- Main results -----

  /** Scanning twice is scanning once. */
  lemma ScanIdempotent(s: string)
    ensures Scan(Scan(s, Code), Code) == Scan(s, Code)
  {
    var ps := Lex(s);
    ScanIsRender(ps);
    CleanedLex(ps);
    ScanIsRender(Cleaned(ps));
    CommentFreeRender(Cleaned(ps));
  }

  lemma {:induction false} CommentFreeRender(ps: seq<Piece>)
    requires CommentFree(ps)
    ensures Render(ps) == Concat(ps)
  {
    if ps != [] {
      assert ps[0] in ps;
      assert forall p :: p in ps[1..] ==> p in ps;
      CommentFreeRender(ps[1..]);
    }
  }

  /** The text of the string literals, in order. */
  function Literals(ps: seq<Piece>): seq<string> {
    if ps == [] then [] else (if ps[0].Str? then [Text(ps[0])] else []) + Literals(ps[1..])
  }

  /** A text has one reading only. */
  lemma {:induction false} LexUnique(ps: seq<Piece>)
    requires Lexed(ps)
    ensures Lex(Concat(ps)) == ps
    decreases |ps|
  {
    if ps != [] {
      var s := Concat(ps);
      FirstPieceIs(ps[0], Concat(ps[1..]));
      assert s[|Text(ps[0])|..] == Concat(ps[1..]);
      LexUnique(ps[1..]);
    }
  }

  lemma FirstIsStr(q: char, body: string, closed: bool, rest: string)
    requires Fits(Str(q, body, closed), rest)
    ensures FirstPiece(Text(Str(q, body, closed)) + rest) == Str(q, body, closed)
  {
    var s := Text(Str(q, body, closed)) + rest;
    var tail := if closed then [q] + rest else rest;
    StringEndIs(Quoted(q, false), body, tail);
    assert s[1..] == body + tail;
    assert s[1..][..|body|] == body;
  }

  lemma FirstIsLine(body: string, closed: bool, rest: string)
    requires Fits(Line(body, closed), rest)
    ensures FirstPiece(Text(Line(body, closed)) + rest) == Line(body, closed)
  {
    var s := Text(Line(body, closed)) + rest;
    LineText(body, closed, rest);
  }

  lemma FirstIsBlock(body: string, closed: bool, rest: string)
    requires Fits(Block(body, closed), rest)
    ensures FirstPiece(Text(Block(body, closed)) + rest) == Block(body, closed)
  {
    var s := Text(Block(body, closed)) + rest;
    BlockText(body, closed, rest);
  }

  lemma FirstPieceIs(p: Piece, rest: string)
    requires Fits(p, rest)
    ensures Text(p) + rest != "" && FirstPiece(Text(p) + rest) == p
  {
    match p
    case Plain(c) =>
    case Str(q, body, closed) => FirstIsStr(q, body, closed, rest);
    case Line(body, closed) => FirstIsLine(body, closed, rest);
    case Block(body, closed) => FirstIsBlock(body, closed, rest);
  }

  lemma {:induction false} StringEndIs(mode: Mode, body: string, tail: string)
    requires mode.Quoted? && mode.quote != '\\' && Inside(mode, body).Quoted?
    requires tail == "" || (!Inside(mode, body).escaped && tail[0] == mode.quote)
    ensures StringEnd(mode, body + tail) == |body|
    decreases |body|
  {
    if body == "" {
      assert body + tail == tail;
    } else {
      assert (body + tail)[1..] == body[1..] + tail;
      StringEndIs(NextMode(mode, body[0]), body[1..], tail);
    }
  }

  lemma {:induction false} NewlinesHoldNoLiteral(s: string, ps: seq<Piece>)
    ensures Literals(PrependNewlines(s, ps)) == Literals(ps)
  {
    if s != "" {
      NewlinesHoldNoLiteral(s[1..], ps);
      assert s[0] == '\n' ==> PrependNewlines(s, ps)[1..] == PrependNewlines(s[1..], ps);
    }
  }

  lemma {:induction false} CleanedLiterals(ps: seq<Piece>)
    ensures Literals(Cleaned(ps)) == Literals(ps)
  {
    if ps != [] {
      CleanedLiterals(ps[1..]);
      if ps[0].Block? {
        NewlinesHoldNoLiteral(ps[0].body, Cleaned(ps[1..]));
      } else {
        assert Cleaned(ps)[1..] == Cleaned(ps[1..]);
      }
    }
  }

  /** The scanned text holds no comment, and the same string literals in the same order. */
  lemma ScanKeepsLiterals(s: string)
    ensures CommentFree(Lex(Scan(s, Code))) && Literals(Lex(Scan(s, Code))) == Literals(Lex(s))
  {
    var ps := Lex(s);
    ScanIsRender(ps);
    CleanedLex(ps);
    LexUnique(Cleaned(ps));
    CleanedLiterals(ps);
  }

  predicate IsNewline(c: char) {
    c == '\n'
  }

  ghost function NewlineCount(s: string): nat {
    Count(IsNewline, s)
  }

  /** The text ends inside a line comment. */
  predicate EndsInLineComment(s: string) {
    var ps := Lex(s);
    ps != [] && ps[|ps| - 1].Line? && !ps[|ps| - 1].closed
  }

  /** Line numbers survive: no newline is lost, and one is added only to end a last line comment. */
  lemma NewlinesPreserved(s: string)
    ensures NewlineCount(Scan(s, Code)) == NewlineCount(s) + if EndsInLineComment(s) then 1 else 0
  {
    ScanIsRender(Lex(s));
    RenderNewlines(Lex(s));
  }

  lemma {:induction false} CountConcat(a: string, b: string)
    ensures NewlineCount(a + b) == NewlineCount(a) + NewlineCount(b)
  {
    if a == "" {
      assert a + b == b;
    } else {
      assert (a + b)[1..] == a[1..] + b;
      CountConcat(a[1..], b);
    }
  }

  lemma {:induction false} NewlinesCount(s: string)
    ensures NewlineCount(Newlines(s)) == NewlineCount(s)
  {
    if s != "" {
      NewlinesCount(s[1..]);
      CountConcat("\n", Newlines(s[1..]));
    }
  }

  lemma LineHasNoNewline(body: string)
    requires '\n' !in body
    ensures NewlineCount("//" + body) == 0
  {
    var line := "//" + body;
    forall i | 0 <= i < |line| ensures !IsNewline(line[i]) {
      if i >= 2 { assert line[i] == body[i - 2]; }
    }
    CountZero(IsNewline, line);
  }

  lemma PieceNewlines(p: Piece, rest: string)
    requires Fits(p, rest)
    ensures NewlineCount(Kept(p)) == NewlineCount(Text(p)) + if p.Line? && !p.closed then 1 else 0
  {
    match p
    case Plain(_) =>
    case Str(_, _, _) =>
    case Line(body, closed) =>
      LineHasNoNewline(body);
      CountConcat("//" + body, if closed then "\n" else "");
      assert NewlineCount("\n") == 1 && NewlineCount("") == 0;
      assert Text(p) == ("//" + body) + if closed then "\n" else "";
    case Block(body, closed) =>
      NewlinesCount(body);
      CountConcat("/*" + body, if closed then "*/" else "");
      CountConcat("/*", body);
      CountZero(IsNewline, "/*");
      CountZero(IsNewline, if closed then "*/" else "");
      assert Text(p) == ("/*" + body) + if closed then "*/" else "";
  }

  lemma {:induction false} RenderNewlines(ps: seq<Piece>)
    requires Lexed(ps)
    ensures NewlineCount(Render(ps)) == NewlineCount(Concat(ps))
              + if ps != [] && ps[|ps| - 1].Line? && !ps[|ps| - 1].closed then 1 else 0
  {
    if ps != [] {
      RenderNewlines(ps[1..]);
      PieceNewlines(ps[0], Concat(ps[1..]));
      CountConcat(Kept(ps[0]), Render(ps[1..]));
      CountConcat(Text(ps[0]), Concat(ps[1..]));
    }
  }

  /** The result so far and the scan of what is left make the scan of the whole text. */
  predicate Follows(content: string, result: string, index: nat, mode: Mode) {
    Scan(content, Code) == result + Scan(Drop(content, index), mode)
  }

  lemma Advance(content: string, result: string, index: nat, mode: Mode)
    requires Follows(content, result, index, mode) && index < |content|
    ensures var pass := OnePass(content[index..], mode);
            Follows(content, result + pass.text, index + pass.length, pass.mode)
  {
    var s := content[index..];
    var pass := OnePass(s, mode);
    assert Drop(content, index + pass.length) == Drop(s, pass.length);
    Associate(result, pass.text, Scan(Drop(s, pass.length), pass.mode));
  }

  /** The loop itself. */
  method WithoutComments(content: string) returns (result: string)
    ensures result == Scan(content, Code)
  {
    result := "";
    var quote: Option<char> := None;
    var escaped := false;
    var index := 0;
    while index < |content|
      invariant quote.None? ==> !escaped
      invariant Follows(content, result, index, ModeOf(quote, escaped))
    {
      Advance(content, result, index, ModeOf(quote, escaped));
      index, result, quote, escaped := ScanCharacter(content, index, result, quote, escaped);
      index := index + 1;
    }
  }

  /** The body of the loop, without the final increment. */
  method ScanCharacter(content: string, start: nat, before: string, open: Option<char>, wasEscaped: bool)
    returns (index: nat, result: string, quote: Option<char>, escaped: bool)
    requires start < |content| && (open.None? ==> !wasEscaped)
    ensures var pass := OnePass(content[start..], ModeOf(open, wasEscaped));
            && index + 1 == start + pass.length && result == before + pass.text
            && ModeOf(quote, escaped) == pass.mode && (quote.None? ==> !escaped)
  {
    index, result, quote, escaped := start, before, open, wasEscaped;
    var character := content[index];
    if quote.Some? {
      result := result + [character];
      quote, escaped := InsideQuote(quote.value, escaped, character);
    } else if IsQuote(character) {
      quote := Some(character);
      result := result + [character];
    } else if character == '/' && At(content, index + 1, '/') {
      index := SkipLineComment(content, index);
      result := result + "\n";
    } else if character == '/' && At(content, index + 1, '*') {
      index, result := SkipBlockComment(content, index, result);
    } else {
      result := result + [character];
    }
  }

  method InsideQuote(open: char, before: bool, character: char) returns (quote: Option<char>, escaped: bool)
    ensures ModeOf(quote, escaped) == NextMode(Quoted(open, before), character)
    ensures quote.None? ==> !escaped
  {
    quote, escaped := Some(open), before;
    if escaped {
      escaped := false;
    } else if character == '\\' {
      escaped := true;
    } else if character == open {
      quote := None;
    }
  }

  function ModeOf(quote: Option<char>, escaped: bool): Mode {
    if quote.Some? then Quoted(quote.value, escaped) else Code
  }

  method SkipLineComment(content: string, start: nat) returns (index: nat)
    requires At(content, start, '/') && At(content, start + 1, '/')
    ensures index == start + LineEnd(content[start..][2..]) + 2
  {
    index := start;
    assert content[start..][1..] == content[start + 1..] && content[start + 1..][1..] == content[start..][2..];
    while index < |content| && content[index] != '\n'
      invariant start <= index <= |content|
      invariant LineEnd(content[start..]) == index - start + LineEnd(content[index..])
    {
      assert content[index..][1..] == content[index + 1..];
      index := index + 1;
    }
  }

  method SkipBlockComment(content: string, start: nat, before: string) returns (index: nat, result: string)
    requires start + 2 <= |content|
    ensures var body := content[start..][2..];
            index == start + BlockEnd(body) + 3 && result == before + Newlines(body[..BlockEnd(body)])
  {
    index, result := start + 2, before;
    assert content[start..][2..] == content[index..];
    ghost var end := index + BlockEnd(content[index..]);
    assert content[index..][..end - index] == content[index..end];
    while index < |content| && !(content[index] == '*' && At(content, index + 1, '/'))
      invariant start + 2 <= index <= end <= |content|
      invariant end == index + BlockEnd(content[index..])
      invariant result + Newlines(content[index..end]) == before + Newlines(content[start + 2..end])
    {
      assert content[index..][1..] == content[index + 1..];
      assert content[index..end][1..] == content[index + 1..end];
      if content[index] == '\n' {
        Associate(result, "\n", Newlines(content[index + 1..end]));
        result := result + "\n";
      }
      index := index + 1;
    }
    index := index + 1;
  }
}
