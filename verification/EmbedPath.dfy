/**
 * Embed routes: how a form path is printed as a route, and read back
 * (apps/frontend/lib/embed-manifest.ts:127-145, apps/frontend/public/processfocus-embed.js:73-119).
 *
 * Texts are well formed: a character is a Unicode scalar value.
 */
module EmbedPath {
  import opened Wrappers
  import opened PercentCoding
  import opened Texts

  // ----- Splitting and joining at slashes -----

  function Join(pieces: seq<string>): string {
    if pieces == [] then ""
    else if |pieces| == 1 then pieces[0]
    else pieces[0] + "/" + Join(pieces[1..])
  }

  function NonEmpty(pieces: seq<string>): seq<string> {
    if pieces == [] then []
    else (if pieces[0] != "" then [pieces[0]] else []) + NonEmpty(pieces[1..])
  }

  function Segments(path: string): seq<string> {
    NonEmpty(Split(path))
  }

  ghost predicate IsSegment(s: string) {
    s != "" && '/' !in s
  }

  ghost predicate AllSegments(pieces: seq<string>) {
    forall i :: 0 <= i < |pieces| ==> IsSegment(pieces[i])
  }

  lemma {:induction false} SplitJoin(pieces: seq<string>)
    requires AllSegments(pieces)
    ensures Split(Join(pieces)) == if pieces == [] then [""] else pieces
  {
    if pieces != [] {
      assert IsSegment(pieces[0]);
      if |pieces| == 1 {
        SplitPiece(pieces[0], "");
        assert pieces[0] + "" == pieces[0];
      } else {
        var rest := "/" + Join(pieces[1..]);
        assert Join(pieces) == pieces[0] + rest && rest[1..] == Join(pieces[1..]);
        SplitPiece(pieces[0], rest);
        SplitJoin(pieces[1..]);
        assert pieces[0] + "" == pieces[0];
      }
    }
  }

  lemma {:induction false} NonEmptyKeeps(pieces: seq<string>)
    requires AllSegments(pieces)
    ensures NonEmpty(pieces) == pieces
  {
    if pieces != [] {
      assert IsSegment(pieces[0]);
      NonEmptyKeeps(pieces[1..]);
    }
  }

  /** The segments of a joined path are the segments it was joined from, with or without a leading slash. */
  lemma SegmentsOfJoin(pieces: seq<string>)
    requires AllSegments(pieces)
    ensures Segments(Join(pieces)) == pieces && Segments("/" + Join(pieces)) == pieces
  {
    SplitJoin(pieces);
    NonEmptyKeeps(pieces);
    assert ("/" + Join(pieces))[1..] == Join(pieces);
    assert ([""] + Split(Join(pieces)))[1..] == Split(Join(pieces));
  }

  lemma {:induction false} SplitHasNoSlash(s: string)
    ensures forall i :: 0 <= i < |Split(s)| ==> '/' !in Split(s)[i]
  {
    if s != "" {
      SplitHasNoSlash(s[1..]);
    }
  }

  lemma {:induction false} NonEmptySegments(pieces: seq<string>)
    requires forall i :: 0 <= i < |pieces| ==> '/' !in pieces[i]
    ensures AllSegments(NonEmpty(pieces))
  {
    if pieces != [] {
      NonEmptySegments(pieces[1..]);
    }
  }

  lemma SegmentsAreSegments(path: string)
    ensures AllSegments(Segments(path))
  {
    SplitHasNoSlash(path);
    NonEmptySegments(Split(path));
  }

  // ----- Printing a route -----

  function EncodeAll(segments: seq<string>): (encoded: seq<string>)
    ensures |encoded| == |segments|
    ensures forall i :: 0 <= i < |segments| ==> encoded[i] == EncodeComponent(segments[i])
  {
    if segments == [] then [] else [EncodeComponent(segments[0])] + EncodeAll(segments[1..])
  }

  /** `getEmbedRoutePath`. */
  function GetEmbedRoutePath(path: string): string {
    "/embed/" + Join(EncodeAll(Segments(path)))
  }

  /** `encodeFormPath`, the client's half of the same route. */
  function EncodeFormPath(formPath: string): string {
    Join(EncodeAll(Segments(formPath)))
  }

  // ----- Reading it back -----

  /** `stepPathFromEmbedSegments`; `None` is the URIError of a segment that cannot be decoded. */
  function StepPathFromEmbedSegments(segments: seq<string>): Option<string> {
    match DecodeAll(segments)
    case None => None
    case Some(decoded) => Some("/" + Join(decoded))
  }

  function DecodeAll(segments: seq<string>): Option<seq<string>> {
    if segments == [] then Some([])
    else match (DecodeComponent(segments[0]), DecodeAll(segments[1..]))
      case (Some(first), Some(rest)) => Some([first] + rest)
      case _ => None
  }

  /** The white space and line terminators that `trim` removes. */
  predicate IsSpace(c: char) {
    var n := c as int;
    9 <= n <= 13 || n == 0x20 || n == 0xA0 || n == 0x1680 || 0x2000 <= n <= 0x200A
    || n == 0x2028 || n == 0x2029 || n == 0x202F || n == 0x205F || n == 0x3000 || n == 0xFEFF
  }

  function Trim(s: string): string
    decreases |s|
  {
    if s == "" then ""
    else if IsSpace(s[0]) then Trim(s[1..])
    else if IsSpace(s[|s| - 1]) then Trim(s[..|s| - 1])
    else s
  }

  predicate StartsWith(s: string, prefix: string) {
    |prefix| <= |s| && s[..|prefix|] == prefix
  }

  predicate IsAbsolute(s: string) {
    StartsWith(s, "http://") || StartsWith(s, "https://")
  }

  /** The part before a query or a fragment. */
  function BeforeQuery(s: string): string {
    if s == "" || s[0] == '?' || s[0] == '#' then "" else [s[0]] + BeforeQuery(s[1..])
  }

  function WithoutSlashes(s: string): string {
    if s != "" && s[0] == '/' then WithoutSlashes(s[1..]) else s
  }

  /** Any leading slashes become one. */
  function OneSlash(s: string): string {
    if s != "" && s[0] == '/' then "/" + WithoutSlashes(s) else s
  }

  /** A leading `embed` segment goes, once. */
  function WithoutEmbed(s: string): string {
    var t := if s != "" && s[0] == '/' then s[1..] else s;
    if t == "embed" then "/"
    else if StartsWith(t, "embed/") then "/" + t[6..]
    else s
  }

  /** A segment that cannot be decoded stays as it is. */
  function DecodeOrKeep(segments: seq<string>): seq<string> {
    if segments == [] then []
    else [match DecodeComponent(segments[0]) case Some(s) => s case None => segments[0]] + DecodeOrKeep(segments[1..])
  }

  function NormalizeRelative(trimmed: string): Option<string> {
    var path := WithoutEmbed(OneSlash(BeforeQuery(trimmed)));
    var segments := DecodeOrKeep(Segments(path));
    if path == "" || segments == [] then None else Some("/" + Join(segments))
  }

  /**
   * `normalizeFormPath`; `pathname` is the pathname of an absolute URL, if it is one. A pathname
   * begins with a slash, so it is never taken for an absolute URL again.
   */
  function NormalizeFormPath(value: string, pathname: string -> Option<string>): Option<string> {
    var trimmed := Trim(value);
    if trimmed == "" then None
    else if !IsAbsolute(trimmed) then NormalizeRelative(trimmed)
    else match pathname(trimmed)
      case None => None
      case Some(path) => NormalizeRelative(Trim(path))
  }

  /** One leading slash, at least one segment, no empty segments. */
  ghost predicate Canonical(path: string) {
    exists segments :: segments != [] && AllSegments(segments) && path == "/" + Join(segments)
  }

  /** A path is canonical exactly if it is printed by its own segments. */
  lemma CanonicalIff(path: string)
    ensures Canonical(path) <==> Segments(path) != [] && path == "/" + Join(Segments(path))
  {
    SegmentsAreSegments(path);
    if Canonical(path) {
      var segments :| segments != [] && AllSegments(segments) && path == "/" + Join(segments);
      SegmentsOfJoin(segments);
    }
  }

  // ----- Round trips -----

  ghost predicate RouteText(s: string) {
    forall i :: 0 <= i < |s| ==> IsSafe(s[i]) || s[i] == '/'
  }

  lemma {:induction false} JoinIsRouteText(pieces: seq<string>)
    requires forall i :: 0 <= i < |pieces| ==> AllSafe(pieces[i])
    ensures RouteText(Join(pieces))
  {
    if |pieces| > 0 {
      assert AllSafe(pieces[0]);
      JoinIsRouteText(pieces[1..]);
    }
  }

  lemma EncodedSegments(segments: seq<string>)
    requires AllSegments(segments)
    ensures AllSegments(EncodeAll(segments)) && RouteText(Join(EncodeAll(segments)))
  {
    var encoded := EncodeAll(segments);
    forall i | 0 <= i < |encoded| ensures IsSegment(encoded[i]) && AllSafe(encoded[i]) {
      assert IsSegment(segments[i]);
      EncodeSafe(segments[i]);
    }
    JoinIsRouteText(encoded);
  }

  lemma {:induction false} RouteTextHasNoQuery(s: string)
    requires RouteText(s)
    ensures BeforeQuery(s) == s
  {
    if s != "" {
      assert IsSafe(s[0]) || s[0] == '/';
      RouteTextHasNoQuery(s[1..]);
    }
  }

  lemma {:induction false} DecodeEncoded(segments: seq<string>)
    ensures DecodeAll(EncodeAll(segments)) == Some(segments)
    ensures DecodeOrKeep(EncodeAll(segments)) == segments
  {
    if segments != [] {
      EncodeRoundTrip(segments[0]);
      DecodeEncoded(segments[1..]);
      var encoded := EncodeAll(segments);
      assert encoded[1..] == EncodeAll(segments[1..]);
      assert DecodeComponent(encoded[0]) == Some(segments[0]);
      assert segments == [segments[0]] + segments[1..];
    }
  }

  lemma RouteIsTrimmed(route: string)
    requires RouteText(route) && StartsWith(route, "/e")
    ensures Trim(route) == route && !IsAbsolute(route)
    ensures OneSlash(BeforeQuery(route)) == route
  {
    RouteTextHasNoQuery(route);
    assert route[..2][0] == '/' && route[..2][1] == 'e';
    var last := route[|route| - 1];
    assert IsSafe(last) || last == '/';
    SlashIsRelative(route);
    assert route[1..][0] == 'e';
    assert WithoutSlashes(route[1..]) == route[1..];
    assert route == "/" + route[1..];
  }

  lemma SlashIsRelative(route: string)
    requires route != "" && route[0] == '/'
    ensures !IsAbsolute(route)
  {
    assert |route| >= 7 ==> route[..7][0] == '/' && "http://"[0] == 'h';
    assert |route| >= 8 ==> route[..8][0] == '/' && "https://"[0] == 'h';
  }

  lemma EmbedGoes(rest: string)
    ensures WithoutEmbed("/embed/" + rest) == "/" + rest
  {
    var t := "embed/" + rest;
    assert ("/embed/" + rest)[1..] == t && t[..6] == "embed/" && t[6..] == rest && |t| > |"embed"|;
  }

  /** For every path: normalizing its route gives the canonical form of the path, if it has a segment. */
  lemma NormalizeUndoesRoute(path: string, pathname: string -> Option<string>)
    ensures NormalizeFormPath(GetEmbedRoutePath(path), pathname)
         == if Segments(path) == [] then None else Some("/" + Join(Segments(path)))
  {
    var segments := Segments(path);
    SegmentsAreSegments(path);
    EncodedSegments(segments);
    var rest := Join(EncodeAll(segments));
    var route := "/embed/" + rest;
    assert route[..2] == "/e";
    RouteIsTrimmed(route);
    EmbedGoes(rest);
    SegmentsOfJoin(EncodeAll(segments));
    DecodeEncoded(segments);
  }

  /** The route gives back the path exactly if the path is canonical, also if it begins with `embed`. */
  lemma RouteRoundTrip(path: string, pathname: string -> Option<string>)
    ensures NormalizeFormPath(GetEmbedRoutePath(path), pathname) == Some(path) <==> Canonical(path)
  {
    NormalizeUndoesRoute(path, pathname);
    CanonicalIff(path);
  }

  lemma RouteSegments(rest: string)
    ensures Segments("/embed/" + rest) == ["embed"] + Segments(rest)
  {
    var route := "/embed/" + rest;
    var tail := "/" + rest;
    assert route[1..] == "embed" + tail && tail[1..] == rest;
    SplitPiece("embed", tail);
    assert "embed" + "" == "embed";
    assert Split(tail) == [""] + Split(rest);
    assert Split(route[1..]) == ["embed"] + Split(rest);
    assert Split(route) == ["", "embed"] + Split(rest);
    assert Split(route)[1..] == ["embed"] + Split(rest) && Split(route)[1..][1..] == Split(rest);
    assert Segments(route) == [] + NonEmpty(Split(route)[1..]);
    assert NonEmpty(Split(route)[1..]) == ["embed"] + NonEmpty(Split(rest));
  }

  /** The page that serves a route reads the same path from the route's segments. */
  lemma PageReadsRoute(path: string)
    ensures Segments(GetEmbedRoutePath(path)) == ["embed"] + EncodeAll(Segments(path))
    ensures StepPathFromEmbedSegments(EncodeAll(Segments(path))) == Some("/" + Join(Segments(path)))
    ensures Canonical(path) <==>
            Segments(path) != [] && StepPathFromEmbedSegments(Segments(GetEmbedRoutePath(path))[1..]) == Some(path)
  {
    var encoded := EncodeAll(Segments(path));
    SegmentsAreSegments(path);
    EncodedSegments(Segments(path));
    SegmentsOfJoin(encoded);
    DecodeEncoded(Segments(path));
    CanonicalIff(path);
    RouteSegments(Join(encoded));
    assert (["embed"] + encoded)[1..] == encoded;
  }

  /** Client and server print the same route, whatever the client was given it from. */
  lemma ClientAndServerAgree(path: string, pathname: string -> Option<string>)
    ensures match NormalizeFormPath(GetEmbedRoutePath(path), pathname)
            case Some(formPath) => "/embed/" + EncodeFormPath(formPath) == GetEmbedRoutePath(path)
            case None => Segments(path) == []
  {
    NormalizeUndoesRoute(path, pathname);
    SegmentsAreSegments(path);
    SegmentsOfJoin(Segments(path));
    assert Segments("/" + Join(Segments(path))) == Segments(path);
  }

  // ----- Other spellings of a path -----

  ghost predicate NoQuery(s: string) {
    forall i :: 0 <= i < |s| ==> s[i] != '?' && s[i] != '#'
  }

  predicate IsQuery(s: string) {
    s == "" || s[0] == '?' || s[0] == '#'
  }

  ghost predicate OnlySlashes(s: string) {
    forall i :: 0 <= i < |s| ==> s[i] == '/'
  }

  lemma {:induction false} QueryGoes(path: string, query: string)
    requires NoQuery(path) && IsQuery(query)
    ensures BeforeQuery(path + query) == path
  {
    if path == "" {
      assert path + query == query;
    } else {
      assert (path + query)[1..] == path[1..] + query;
      QueryGoes(path[1..], query);
    }
  }

  lemma {:induction false} SlashesGo(slashes: string, rest: string)
    requires OnlySlashes(slashes) && rest != "" && rest[0] != '/'
    ensures WithoutSlashes(slashes + rest) == rest
  {
    if slashes == "" {
      assert slashes + rest == rest;
    } else {
      assert (slashes + rest)[1..] == slashes[1..] + rest;
      SlashesGo(slashes[1..], rest);
    }
  }

  lemma SlashesBecomeOne(slashes: string, rest: string)
    requires OnlySlashes(slashes) && rest != "" && rest[0] != '/'
    ensures OneSlash(slashes + rest) == (if slashes == "" then "" else "/") + rest
  {
    if slashes == "" {
      assert slashes + rest == rest && "" + rest == rest;
    } else {
      assert (slashes + rest)[0] == '/';
      SlashesGo(slashes, rest);
    }
  }

  /** A path that does not begin with the segment `embed` keeps its segments. */
  lemma NoEmbedStays(slash: string, segments: seq<string>)
    requires slash == "" || slash == "/"
    requires AllSegments(segments) && segments != [] && segments[0] != "embed"
    ensures WithoutEmbed(slash + Join(segments)) == slash + Join(segments)
    ensures Segments(slash + Join(segments)) == segments
  {
    var path := Join(segments);
    SplitJoin(segments);
    SegmentsOfJoin(segments);
    JoinStarts(segments);
    NotEmbed(path);
    if slash == "" {
      assert slash + path == path;
    } else {
      assert (slash + path)[1..] == path;
    }
  }

  lemma EmbedFirst(tail: string)
    requires tail == "" || tail[0] == '/'
    ensures Split("embed" + tail)[0] == "embed"
  {
    SplitPiece("embed", tail);
    assert Split(tail)[0] == "";
    assert "embed" + "" == "embed";
  }

  lemma NotEmbed(path: string)
    requires Split(path)[0] != "embed"
    ensures path != "embed" && !StartsWith(path, "embed/")
  {
    EmbedFirst("");
    assert "embed" + "" == "embed";
    if |path| >= 6 && path[..6] == "embed/" {
      assert path[5] == path[..6][5] && path == "embed" + path[5..] by {
        assert path[..5] == path[..6][..5];
        assert path == path[..5] + path[5..];
      }
      EmbedFirst(path[5..]);
      assert false;
    }
  }

  lemma JoinStarts(segments: seq<string>)
    requires AllSegments(segments) && segments != []
    ensures Join(segments) != "" && Join(segments)[0] != '/'
  {
    assert IsSegment(segments[0]);
    assert segments[0][0] in segments[0];
  }

  lemma OneEmbedGoes(slash: string, rest: string)
    requires slash == "" || slash == "/"
    ensures WithoutEmbed(slash + ("embed/" + rest)) == "/" + rest
  {
    var t := "embed/" + rest;
    EmbedGoes(rest);
    if slash == "" {
      assert slash + t == t && t[0] != '/' && t[..6] == "embed/" && t[6..] == rest && |t| > |"embed"|;
    } else {
      assert slash + t == "/embed/" + rest;
    }
  }

  /** One leading `embed` or none, any number of leading slashes, and a query or a fragment make no difference. */
  lemma SpellingsAgree(slashes: string, embed: bool, segments: seq<string>, query: string)
    requires OnlySlashes(slashes) && AllSegments(segments) && segments != [] && IsQuery(query)
    requires NoQuery(Join(segments)) && (!embed ==> segments[0] != "embed")
    ensures NormalizeRelative(slashes + ((if embed then "embed/" else "") + Join(segments)) + query)
         == Some("/" + Join(DecodeOrKeep(segments)))
  {
    var path := (if embed then "embed/" else "") + Join(segments);
    JoinStarts(segments);
    assert path[0] != '/' && NoQuery(path) by {
      if !embed { assert path == Join(segments); }
    }
    assert NoQuery(slashes + path);
    QueryGoes(slashes + path, query);
    SlashesBecomeOne(slashes, path);
    var slash := if slashes == "" then "" else "/";
    if embed {
      OneEmbedGoes(slash, Join(segments));
      SegmentsOfJoin(segments);
    } else {
      assert path == Join(segments);
      NoEmbedStays(slash, segments);
    }
    DecodedKeepsLength(segments);
  }

  /** Each segment is decoded, or stays as it is if it cannot be. */
  lemma {:induction false} DecodedKeepsLength(segments: seq<string>)
    ensures |DecodeOrKeep(segments)| == |segments|
    ensures forall i :: 0 <= i < |segments| ==>
              match DecodeComponent(segments[i])
              case Some(s) => DecodeOrKeep(segments)[i] == s
              case None => DecodeOrKeep(segments)[i] == segments[i]
  {
    if segments != [] {
      DecodedKeepsLength(segments[1..]);
      assert forall i :: 1 <= i < |segments| ==> segments[i] == segments[1..][i - 1];
    }
  }

  ghost predicate AllSpaces(s: string) {
    forall i :: 0 <= i < |s| ==> IsSpace(s[i])
  }

  lemma {:induction false} TrimLeft(left: string, s: string)
    requires AllSpaces(left)
    ensures Trim(left + s) == Trim(s)
    decreases |left|
  {
    if left == "" {
      assert left + s == s;
    } else {
      assert (left + s)[1..] == left[1..] + s;
      TrimLeft(left[1..], s);
    }
  }

  lemma {:induction false} TrimRight(s: string, right: string)
    requires AllSpaces(right) && s != "" && !IsSpace(s[0]) && !IsSpace(s[|s| - 1])
    ensures Trim(s + right) == s
    decreases |right|
  {
    if right == "" {
      assert s + right == s;
    } else {
      var n := |right| - 1;
      assert (s + right)[|s + right| - 1] == right[n] && (s + right)[..|s + right| - 1] == s + right[..n];
      TrimRight(s, right[..n]);
    }
  }

  /** White space around a path makes no difference. */
  lemma SpacesAroundGo(left: string, s: string, right: string, pathname: string -> Option<string>)
    requires AllSpaces(left) && AllSpaces(right) && s != "" && !IsSpace(s[0]) && !IsSpace(s[|s| - 1])
    ensures NormalizeFormPath(left + (s + right), pathname) == NormalizeFormPath(s, pathname)
    ensures NormalizeFormPath(left, pathname) == None
  {
    TrimLeft(left, s + right);
    TrimRight(s, right);
    TrimRight(s, "");
    assert s + "" == s;
    TrimLeft(left, "");
    assert left + "" == left;
  }

  /** Blanks, tabs and line ends are spaces; no visible ASCII character is. */
  lemma SpacesAre(c: char)
    ensures c in [' ', '\t', '\n', '\r'] ==> IsSpace(c)
    ensures 33 <= c as int <= 126 ==> !IsSpace(c)
  {}

  /** An absolute URL counts for its path. */
  lemma UrlCountsForItsPath(url: string, path: string, pathname: string -> Option<string>)
    requires url != "" && !IsSpace(url[0]) && !IsSpace(url[|url| - 1])
    requires StartsWith(url, "http://") || StartsWith(url, "https://")
    requires pathname(url) == Some(path) && path != "" && path[0] == '/' && !IsSpace(path[|path| - 1])
    ensures NormalizeFormPath(url, pathname) == NormalizeFormPath(path, pathname)
  {
    TrimRight(url, "");
    TrimRight(path, "");
    assert url + "" == url && path + "" == path;
    SlashIsRelative(path);
  }
}
