/**
 * The Cedar policy highlighter's tokenizer (apps/frontend/lib/cedar-highlight.ts:12-116).
 *
 * The tokens of a text are given by recursion on the text that is left; the tokenizer itself,
 * with its indices and loops, is proved to return them.
 */
module CedarTokens {
  import opened Seqs
  import opened Texts

  datatype Kind = Comment | Str | Keyword | Entity | Plain

  datatype Token = Token(kind: Kind, value: string, start: nat)

  const KEYWORDS := {
    "permit", "forbid", "when", "unless", "if", "then", "else", "in", "has", "like", "is", "principal", "action",
    "resource", "context", "namespace", "entity", "appliesTo", "contains", "containsAny", "isEmpty"
  }

  predicate IsIdentStart(c: char) {
    'A' <= c <= 'Z' || 'a' <= c <= 'z' || c == '_'
  }

  predicate IsIdentPart(c: char) {
    IsIdentStart(c) || '0' <= c <= '9'
  }

  predicate IsTextPart(c: char) {
    c != '/' && c != '"' && !IsIdentStart(c)
  }

  /** The length of the longest prefix whose characters all satisfy `p`. */
  function Span(p: char -> bool, s: string): (n: nat)
    ensures n <= |s|
  {
    if s == "" || !p(s[0]) then 0 else 1 + Span(p, s[1..])
  }

  lemma {:induction false} SpanStops(p: char -> bool, s: string)
    ensures Span(p, s) < |s| ==> !p(s[Span(p, s)])
  {
    if s != "" && p(s[0]) {
      SpanStops(p, s[1..]);
    }
  }

  lemma {:induction false} SpanCut(p: char -> bool, s: string, n: nat)
    requires Span(p, s) <= n <= |s|
    ensures Span(p, s[..n]) == Span(p, s)
  {
    if Span(p, s) > 0 {
      assert s[..n][1..] == s[1..][..n - 1];
      SpanCut(p, s[1..], n - 1);
    }
  }

  /** The rest of a string literal after its opening quote, through its closing quote if it has one. */
  function StringLength(s: string): (n: nat)
    ensures n <= |s|
  {
    if s == "" then 0
    else if s[0] == '\\' && |s| > 1 then 2 + StringLength(s[2..])
    else if s[0] == '"' then 1
    else 1 + StringLength(s[1..])
  }

  lemma {:induction false} StringCut(s: string)
    ensures StringLength(s[..StringLength(s)]) == StringLength(s)
  {
    var t := s[..StringLength(s)];
    if s == "" {
    } else if s[0] == '\\' && |s| > 1 {
      assert t[2..] == s[2..][..StringLength(s[2..])];
      StringCut(s[2..]);
    } else if s[0] != '"' {
      assert t[1..] == s[1..][..StringLength(s[1..])];
      StringCut(s[1..]);
    }
  }

  predicate StartsSegment(s: string) {
    |s| > 2 && s[0] == ':' && s[1] == ':' && IsIdentStart(s[2])
  }

  /** The length of the `::name` segments a text begins with. */
  function SegmentsLength(s: string): (n: nat)
    ensures n <= |s| && (n > 0 <==> StartsSegment(s))
  {
    if !StartsSegment(s) then 0
    else
      var name := Span(IsIdentPart, s[2..]);
      2 + name + SegmentsLength(s[2 + name..])
  }

  lemma {:induction false} SegmentsCut(s: string)
    ensures SegmentsLength(s[..SegmentsLength(s)]) == SegmentsLength(s)
    decreases |s|
  {
    var n := SegmentsLength(s);
    if n > 0 {
      var name := Span(IsIdentPart, s[2..]);
      var t := s[..n];
      SpanCut(IsIdentPart, s[2..], n - 2);
      assert t[2..] == s[2..][..n - 2];
      assert t[2 + name..] == s[2 + name..][..n - 2 - name];
      SegmentsCut(s[2 + name..]);
    }
  }

  predicate ColonsAt(s: string, i: nat) {
    At(s, i, ':') && At(s, i + 1, ':')
  }

  predicate HasPath(s: string) {
    s != "" && (ColonsAt(s, 0) || HasPath(s[1..]))
  }

  function IdentKind(value: string, keywords: set<string>): Kind {
    if HasPath(value) then Entity else if value in keywords then Keyword else Plain
  }

  function IdentLength(s: string): (n: nat)
    ensures n <= |s|
  {
    Span(IsIdentPart, s) + SegmentsLength(s[Span(IsIdentPart, s)..])
  }

  /** The length of the first token. */
  function FirstLength(s: string): (n: nat)
    requires s != ""
    ensures 0 < n <= |s|
  {
    if s[0] == '/' && At(s, 1, '/') then 2 + LineEnd(s[2..])
    else if s[0] == '"' then 1 + StringLength(s[1..])
    else if IsIdentStart(s[0]) then IdentLength(s)
    else 1 + Span(IsTextPart, s[1..])
  }

  /** The kind of a token, from its text alone. */
  function KindOf(value: string, keywords: set<string>): Kind
    requires value != ""
  {
    if value[0] == '/' && At(value, 1, '/') then Comment
    else if value[0] == '"' then Str
    else if IsIdentStart(value[0]) then IdentKind(value, keywords)
    else Plain
  }

  /** The index after the token that starts at `index`. */
  function TokenEnd(source: string, index: nat): (end: nat)
    requires index < |source|
    ensures index < end <= |source|
  {
    index + FirstLength(source[index..])
  }

  function TokenAt(source: string, index: nat, keywords: set<string>): Token
    requires index < |source|
  {
    var value := source[index..TokenEnd(source, index)];
    Token(KindOf(value, keywords), value, index)
  }

  /** The tokens from `index` on. */
  function Tokens(source: string, index: nat, keywords: set<string>): seq<Token>
    requires index <= |source|
    decreases |source| - index
  {
    if index == |source| then []
    else [TokenAt(source, index, keywords)] + Tokens(source, TokenEnd(source, index), keywords)
  }

  function Source(tokens: seq<Token>): string {
    if tokens == [] then "" else tokens[0].value + Source(tokens[1..])
  }

  lemma SourceCons(t: Token, tokens: seq<Token>)
    ensures Source([t] + tokens) == t.value + Source(tokens)
  {
    assert ([t] + tokens)[1..] == tokens;
  }

  lemma Pieces(s: string, i: nat, j: nat)
    requires i <= j <= |s|
    ensures s[i..] == s[i..j] + s[j..]
  {}

  lemma {:induction false} TokensSource(source: string, index: nat, keywords: set<string>)
    requires index <= |source|
    ensures Source(Tokens(source, index, keywords)) == source[index..]
    decreases |source| - index
  {
    if index < |source| {
      var next := TokenEnd(source, index);
      TokensSource(source, next, keywords);
      SourceCons(TokenAt(source, index, keywords), Tokens(source, next, keywords));
      Pieces(source, index, next);
    }
  }

  lemma {:induction false} TokenStart(source: string, index: nat, keywords: set<string>, i: nat)
    requires index <= |source| && i < |Tokens(source, index, keywords)|
    ensures var tokens := Tokens(source, index, keywords);
            tokens[i].value != "" && tokens[i].start == index + |Source(tokens[..i])|
    decreases |source| - index
  {
    if i > 0 {
      var rest := Tokens(source, TokenEnd(source, index), keywords);
      TokenStart(source, TokenEnd(source, index), keywords, i - 1);
      assert Tokens(source, index, keywords)[..i][1..] == rest[..i - 1];
    }
  }

  /** The tokens' texts make up the source, and each token knows where it starts. */
  lemma TokensLossless(source: string, keywords: set<string>)
    ensures var tokens := Tokens(source, 0, keywords);
            && Source(tokens) == source
            && forall i :: 0 <= i < |tokens| ==> tokens[i].value != "" && tokens[i].start == |Source(tokens[..i])|
  {
    TokensSource(source, 0, keywords);
    var tokens := Tokens(source, 0, keywords);
    forall i | 0 <= i < |tokens| ensures tokens[i].value != "" && tokens[i].start == |Source(tokens[..i])| {
      TokenStart(source, 0, keywords, i);
    }
  }

  /** A token's text, read alone, is one token. */
  lemma FirstCut(s: string)
    requires s != ""
    ensures FirstLength(s[..FirstLength(s)]) == FirstLength(s)
  {
    var n := FirstLength(s);
    var t := s[..n];
    if s[0] == '/' && At(s, 1, '/') {
      CommentCut(s);
    } else if s[0] == '"' {
      assert t[1..] == s[1..][..n - 1];
      StringCut(s[1..]);
    } else if IsIdentStart(s[0]) {
      IdentCut(s);
    } else {
      assert t[1..] == s[1..][..n - 1];
      SpanCut(IsTextPart, s[1..], n - 1);
    }
  }

  lemma CommentCut(s: string)
    requires |s| > 1
    ensures LineEnd(s[..2 + LineEnd(s[2..])][2..]) == LineEnd(s[2..])
  {
    var n := LineEnd(s[2..]);
    assert s[..2 + n][2..] == s[2..][..n] == s[2..][..n] + "";
    LineEndSplits(s[2..]);
    LineEndIs(s[2..][..n], "");
  }

  lemma IdentCut(s: string)
    ensures IdentLength(s[..IdentLength(s)]) == IdentLength(s)
  {
    var n, name := IdentLength(s), Span(IsIdentPart, s);
    SpanCut(IsIdentPart, s, n);
    assert s[..n][name..] == s[name..][..n - name];
    SegmentsCut(s[name..]);
  }

  lemma TokenStable(source: string, index: nat, keywords: set<string>)
    requires index < |source|
    ensures var t := TokenAt(source, index, keywords); Tokens(t.value, 0, keywords) == [t.(start := 0)]
  {
    var s, value := source[index..], source[index..TokenEnd(source, index)];
    FirstCut(s);
    assert value == s[..FirstLength(s)] && value[0..] == value;
    assert TokenEnd(value, 0) == |value| && value[0..|value|] == value;
    assert Tokens(value, 0, keywords) == [TokenAt(value, 0, keywords)] + Tokens(value, |value|, keywords);
  }

  /** Reading any token's text alone gives that one token, with the same kind. */
  lemma {:induction false} TokensStable(source: string, index: nat, keywords: set<string>, i: nat)
    requires index <= |source| && i < |Tokens(source, index, keywords)|
    ensures var t := Tokens(source, index, keywords)[i]; Tokens(t.value, 0, keywords) == [t.(start := 0)]
    decreases |source| - index
  {
    if i == 0 {
      TokenStable(source, index, keywords);
    } else {
      TokensStable(source, TokenEnd(source, index), keywords, i - 1);
    }
  }

  /** A token ends only where it must: one more character of the source would not belong to it. */
  lemma TokensMaximal(s: string, keywords: set<string>)
    requires s != "" && FirstLength(s) < |s|
    ensures var value, c := s[..FirstLength(s)], s[FirstLength(s)];
            match KindOf(value, keywords)
            case Comment => c == '\n'
            case Str => |value| > 1 && value[|value| - 1] == '"'
            case Keyword => !IsIdentPart(c)
            case Entity => !IsIdentPart(c)
            case Plain => if IsIdentStart(s[0]) then !IsIdentPart(c) else !IsTextPart(c)
    ensures IsIdentStart(s[0]) ==> !StartsSegment(s[FirstLength(s)..])
  {
    var n := FirstLength(s);
    assert s[..n][0] == s[0] && (At(s[..n], 1, '/') <==> n > 1 && At(s, 1, '/'));
    if s[0] == '/' && At(s, 1, '/') {
      LineEndSplits(s[2..]);
    } else if s[0] == '"' {
      StringCloses(s[1..]);
    } else if IsIdentStart(s[0]) {
      IdentMaximal(s);
    } else {
      SpanStops(IsTextPart, s[1..]);
    }
  }

  lemma IdentMaximal(s: string)
    requires s != "" && IsIdentStart(s[0]) && IdentLength(s) < |s|
    ensures !IsIdentPart(s[IdentLength(s)]) && !StartsSegment(s[IdentLength(s)..])
  {
    var n, name := IdentLength(s), Span(IsIdentPart, s);
    SpanStops(IsIdentPart, s);
    SegmentsEnd(s[name..]);
    assert s[name..][n - name..] == s[n..];
  }

  lemma {:induction false} StringCloses(s: string)
    requires StringLength(s) < |s|
    ensures StringLength(s) > 0 && s[StringLength(s) - 1] == '"'
  {
    if s[0] == '\\' && |s| > 1 {
      StringCloses(s[2..]);
    } else if s[0] != '"' {
      StringCloses(s[1..]);
    }
  }

  lemma {:induction false} SegmentsEnd(s: string)
    requires SegmentsLength(s) < |s| && !IsIdentPart(s[0])
    ensures !IsIdentPart(s[SegmentsLength(s)]) && !StartsSegment(s[SegmentsLength(s)..])
    decreases |s|
  {
    if StartsSegment(s) {
      var name := Span(IsIdentPart, s[2..]);
      SpanStops(IsIdentPart, s[2..]);
      SegmentsEnd(s[2 + name..]);
      assert s[2 + name..][SegmentsLength(s) - 2 - name..] == s[SegmentsLength(s)..];
    }
  }

  // ----- What each kind of token looks like -----

  predicate IsLetter(c: char) {
    'A' <= c <= 'Z' || 'a' <= c <= 'z' || c == '_'
  }

  predicate IsLetterOrDigit(c: char) {
    IsLetter(c) || '0' <= c <= '9'
  }

  ghost predicate AllLettersOrDigits(s: string) {
    forall i :: 0 <= i < |s| ==> IsLetterOrDigit(s[i])
  }

  ghost predicate IsWord(s: string) {
    s != "" && IsLetter(s[0]) && AllLettersOrDigits(s)
  }

  ghost predicate AllWords(names: seq<string>) {
    forall i :: 0 <= i < |names| ==> IsWord(names[i])
  }

  /** Names with double colons before each. */
  function Segments(names: seq<string>): string {
    if names == [] then "" else "::" + names[0] + Segments(names[1..])
  }

  /** The body of a string literal: single characters and escaped ones, no bare quote. */
  ghost predicate Escaped(body: string)
    decreases |body|
  {
    body == ""
    || (body[0] != '"' && body[0] != '\\' && Escaped(body[1..]))
    || (|body| > 1 && body[0] == '\\' && Escaped(body[2..]))
  }

  /** A string literal ends at its first quote that is not escaped. */
  lemma {:induction false} StringEnds(body: string, rest: string)
    requires Escaped(body)
    ensures StringLength(body + "\"" + rest) == |body| + 1
    decreases |body|
  {
    var s := body + "\"" + rest;
    if body == "" {
      assert s[0] == '"';
    } else if body[0] == '\\' {
      assert s[2..] == body[2..] + "\"" + rest;
      StringEnds(body[2..], rest);
    } else {
      assert s[1..] == body[1..] + "\"" + rest;
      StringEnds(body[1..], rest);
    }
  }

  /** So `"body"` is read as one string token, whatever follows. */
  lemma StringIsOneToken(body: string, rest: string, keywords: set<string>)
    requires Escaped(body)
    ensures var literal := "\"" + body + "\"";
            TokenAt(literal + rest, 0, keywords) == Token(Str, literal, 0)
  {
    var literal := "\"" + body + "\"";
    var s := literal + rest;
    StringEnds(body, rest);
    assert s[0..] == s && s[1..] == body + "\"" + rest;
    assert s[0..|body| + 2] == literal;
  }

  /** A comment runs to the end of its line. */
  lemma CommentIsOneToken(body: string, rest: string, keywords: set<string>)
    requires '\n' !in body && (rest == "" || rest[0] == '\n')
    ensures TokenAt("//" + body + rest, 0, keywords) == Token(Comment, "//" + body, 0)
  {
    var s := "//" + body + rest;
    LineEndIs(body, rest);
    assert s[0..] == s && s[2..] == body + rest;
    assert s[0..|body| + 2] == "//" + body;
  }

  lemma {:induction false} SpanAll(s: string, rest: string)
    requires AllLettersOrDigits(s) && (rest == "" || !IsLetterOrDigit(rest[0]))
    ensures Span(IsIdentPart, s + rest) == |s|
  {
    if s == "" {
      assert s + rest == rest;
    } else {
      assert (s + rest)[1..] == s[1..] + rest;
      SpanAll(s[1..], rest);
    }
  }

  lemma {:induction false} NoColons(s: string)
    requires AllLettersOrDigits(s)
    ensures !HasPath(s)
  {
    if s != "" { NoColons(s[1..]); }
  }

  predicate NoSegment(rest: string) {
    !(|rest| > 2 && rest[0] == ':' && rest[1] == ':' && IsLetter(rest[2]))
  }

  predicate EndsName(rest: string) {
    (rest == "" || !IsLetterOrDigit(rest[0])) && NoSegment(rest)
  }

  lemma SegmentsStart(names: seq<string>, rest: string)
    requires EndsName(rest)
    ensures var s := Segments(names) + rest; s == "" || !IsLetterOrDigit(s[0])
  {
    if names == [] { assert "" + rest == rest; }
  }

  lemma {:induction false} SegmentsAll(names: seq<string>, rest: string)
    requires AllWords(names) && EndsName(rest)
    ensures SegmentsLength(Segments(names) + rest) == |Segments(names)|
  {
    if names == [] {
      assert "" + rest == rest;
    } else {
      var name, more := names[0], Segments(names[1..]);
      var s := Segments(names) + rest;
      assert IsWord(name) && AllWords(names[1..]);
      assert s == "::" + (name + (more + rest));
      SegmentsStart(names[1..], rest);
      OneSegment(s, name, more + rest);
      SegmentsAll(names[1..], rest);
    }
  }

  lemma OneSegment(s: string, name: string, tail: string)
    requires s == "::" + (name + tail) && IsWord(name) && (tail == "" || !IsLetterOrDigit(tail[0]))
    ensures SegmentsLength(s) == 2 + |name| + SegmentsLength(tail)
  {
    assert s[2..] == name + tail && s[2 + |name|..] == tail;
    SpanAll(name, tail);
  }

  lemma {:induction false} HasColons(s: string, n: nat)
    requires n + 2 <= |s| && s[n] == ':' && s[n + 1] == ':'
    ensures HasPath(s)
  {
    if n > 0 { HasColons(s[1..], n - 1); }
  }

  /**
   * A name, or names joined by double colons, is one token: an entity if it is joined, a keyword if it is among the
   * keywords, and text otherwise.
   */
  lemma NameIsOneToken(name: string, names: seq<string>, rest: string, keywords: set<string>)
    requires IsWord(name) && AllWords(names) && EndsName(rest)
    ensures var value := name + Segments(names);
            TokenAt(value + rest, 0, keywords)
            == Token(if names != [] then Entity else if name in keywords then Keyword else Plain, value, 0)
  {
    var value := name + Segments(names);
    var s := value + rest;
    NameLength(name, names, rest);
    assert s[0..] == s && s[0..|value|] == value && s[0] == name[0];
    KindOfName(name, names, keywords);
  }

  lemma NameLength(name: string, names: seq<string>, rest: string)
    requires IsWord(name) && AllWords(names) && EndsName(rest)
    ensures IdentLength(name + Segments(names) + rest) == |name + Segments(names)|
  {
    var s := name + Segments(names) + rest;
    assert s == name + (Segments(names) + rest);
    SegmentsStart(names, rest);
    SpanAll(name, Segments(names) + rest);
    assert s[|name|..] == Segments(names) + rest;
    SegmentsAll(names, rest);
  }

  lemma KindOfName(name: string, names: seq<string>, keywords: set<string>)
    requires IsWord(name) && AllWords(names)
    ensures KindOf(name + Segments(names), keywords)
         == if names != [] then Entity else if name in keywords then Keyword else Plain
  {
    var value := name + Segments(names);
    assert value[0] == name[0];
    if names == [] {
      assert value == name;
      NoColons(name);
    } else {
      HasColons(value, |name|);
    }
  }

  /** The keywords of the policy language. */
  lemma KeywordsAre(word: string)
    ensures word in KEYWORDS <==>
            word in ["permit", "forbid", "when", "unless", "if", "then", "else", "in", "has", "like", "is", "principal",
                     "action", "resource", "context", "namespace", "entity", "appliesTo", "contains", "containsAny",
                     "isEmpty"]
  {}

  // ----- The tokenizer -----

  method Push(tokens: seq<Token>, kind: Kind, value: string, start: nat) returns (pushed: seq<Token>)
    ensures pushed == if value == "" then tokens else tokens + [Token(kind, value, start)]
  {
    pushed := tokens;
    if value != "" {
      pushed := pushed + [Token(kind, value, start)];
    }
  }

  method SkipString(source: string, index: nat) returns (cursor: nat)
    requires At(source, index, '"')
    ensures cursor == index + 1 + StringLength(source[index + 1..])
  {
    cursor := index + 1;
    while cursor < |source|
      invariant index < cursor <= |source|
      invariant cursor + StringLength(source[cursor..]) == index + 1 + StringLength(source[index + 1..])
    {
      if source[cursor] == '\\' && cursor + 1 < |source| {
        assert source[cursor..][2..] == source[cursor + 2..];
        cursor := cursor + 2;
        continue;
      }
      if source[cursor] == '"' {
        cursor := cursor + 1;
        break;
      }
      assert source[cursor..][1..] == source[cursor + 1..];
      cursor := cursor + 1;
    }
  }

  function NameEnd(source: string, index: nat): (end: nat)
    requires index <= |source|
    ensures index <= end <= |source|
  {
    index + Span(IsIdentPart, source[index..])
  }

  function PathEnd(source: string, index: nat): (end: nat)
    requires index <= |source|
    ensures index <= end <= |source|
  {
    index + SegmentsLength(source[index..])
  }

  predicate SegmentAt(source: string, cursor: nat) {
    ColonsAt(source, cursor) && cursor + 2 < |source| && IsIdentStart(source[cursor + 2])
  }

  lemma NameStep(source: string, index: nat)
    requires index <= |source|
    ensures NameEnd(source, index)
         == if index < |source| && IsIdentPart(source[index]) then NameEnd(source, index + 1) else index
  {
    if index < |source| {
      assert source[index..][1..] == source[index + 1..];
    }
  }

  lemma PathStep(source: string, index: nat)
    requires index <= |source|
    ensures PathEnd(source, index)
         == if SegmentAt(source, index) then PathEnd(source, NameEnd(source, index + 2)) else index
  {
    if SegmentAt(source, index) {
      var s := source[index..];
      var name := Span(IsIdentPart, s[2..]);
      assert StartsSegment(s);
      assert s[2..] == source[index + 2..] && s[2 + name..] == source[index + 2 + name..];
    }
  }

  lemma IdentEnd(source: string, index: nat)
    requires index < |source| && IsIdentStart(source[index])
    ensures index + IdentLength(source[index..]) == PathEnd(source, NameEnd(source, index + 1))
  {
    var s := source[index..];
    var name := Span(IsIdentPart, s);
    assert s[1..] == source[index + 1..] && s[name..] == source[index + name..];
  }

  method SkipName(source: string, index: nat) returns (cursor: nat)
    requires index <= |source|
    ensures cursor == NameEnd(source, index)
  {
    cursor := index;
    NameStep(source, cursor);
    while cursor < |source| && IsIdentPart(source[cursor])
      invariant cursor <= |source| && NameEnd(source, cursor) == NameEnd(source, index)
    {
      NameStep(source, cursor);
      cursor := cursor + 1;
    }
    NameStep(source, cursor);
  }

  method SkipSegments(source: string, index: nat) returns (cursor: nat)
    requires index <= |source|
    ensures cursor == PathEnd(source, index)
  {
    cursor := index;
    ghost var end := PathEnd(source, index);
    while SegmentAt(source, cursor)
      invariant cursor <= |source| && PathEnd(source, cursor) == end
      decreases |source| - cursor
    {
      PathStep(source, cursor);
      cursor := SkipName(source, cursor + 2);
    }
    PathStep(source, cursor);
  }

  method SkipIdent(source: string, index: nat) returns (cursor: nat)
    requires index < |source| && IsIdentStart(source[index])
    ensures cursor == index + IdentLength(source[index..])
  {
    IdentEnd(source, index);
    cursor := SkipName(source, index + 1);
    cursor := SkipSegments(source, cursor);
  }

  method SkipText(source: string, index: nat) returns (cursor: nat)
    requires index < |source|
    ensures cursor == index + 1 + Span(IsTextPart, source[index + 1..])
  {
    cursor := index + 1;
    while cursor < |source| && source[cursor] != '/' && source[cursor] != '"' && !IsIdentStart(source[cursor])
      invariant index < cursor <= |source|
      invariant cursor + Span(IsTextPart, source[cursor..]) == index + 1 + Span(IsTextPart, source[index + 1..])
    {
      assert source[cursor..][1..] == source[cursor + 1..];
      cursor := cursor + 1;
    }
  }

  method Includes(value: string) returns (found: bool)
    ensures found == HasPath(value)
  {
    found := false;
    for i := 0 to |value|
      invariant HasPath(value) == (found || HasPath(value[i..]))
    {
      assert value[i..][1..] == value[i + 1..];
      if ColonsAt(value, i) {
        found := true;
      }
    }
  }

  /** One round of the main loop. */
  method NextToken(source: string, index: nat, before: seq<Token>, keywords: set<string>)
    returns (next: nat, tokens: seq<Token>)
    requires index < |source|
    ensures next == TokenEnd(source, index) && tokens == before + [TokenAt(source, index, keywords)]
  {
    var c := source[index];
    ghost var s := source[index..];
    assert s[1..] == source[index + 1..];
    if c == '/' && At(source, index + 1, '/') {
      next := index + LineEnd(source[index..]);
      assert s[1..][1..] == s[2..] && LineEnd(s) == 1 + LineEnd(s[1..]);
      tokens := Push(before, Comment, source[index..next], index);
    } else if c == '"' {
      next := SkipString(source, index);
      tokens := Push(before, Str, source[index..next], index);
    } else if IsIdentStart(c) {
      next := SkipIdent(source, index);
      var value := source[index..next];
      var isPath := Includes(value);
      if isPath {
        tokens := Push(before, Entity, value, index);
      } else if value in keywords {
        tokens := Push(before, Keyword, value, index);
      } else {
        tokens := Push(before, Plain, value, index);
      }
    } else {
      next := SkipText(source, index);
      tokens := Push(before, Plain, source[index..next], index);
    }
  }

  method Tokenize(source: string, keywords: set<string>) returns (tokens: seq<Token>)
    ensures tokens == Tokens(source, 0, keywords)
  {
    tokens := [];
    var index := 0;
    while index < |source|
      invariant index <= |source| && tokens + Tokens(source, index, keywords) == Tokens(source, 0, keywords)
    {
      Associate(tokens, [TokenAt(source, index, keywords)], Tokens(source, TokenEnd(source, index), keywords));
      index, tokens := NextToken(source, index, tokens, keywords);
    }
    assert tokens + [] == tokens;
  }

  method TokenizeCedar(source: string) returns (tokens: seq<Token>)
    ensures tokens == Tokens(source, 0, KEYWORDS)
  {
    tokens := Tokenize(source, KEYWORDS);
  }
}
