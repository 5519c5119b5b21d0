/**
 * Type references of the generated GraphQL schema, and their renaming for input types
 * (cli/generate-rxdb/src/generator.ts:212-232; section 2.11 of the GraphQL specification, October 2021).
 */
module InputTypes {
  import opened Wrappers

  // ----- Type references -----

  /** A reference without its outermost bang; `bang` belongs to the item. */
  datatype TypeRef = Named(name: string) | List(item: TypeRef, bang: bool)

  function Bang(present: bool): string {
    if present then "!" else ""
  }

  function Print(t: TypeRef): string {
    match t
    case Named(name) => name
    case List(item, bang) => "[" + Print(item) + Bang(bang) + "]"
  }

  function Base(t: TypeRef): string {
    match t
    case Named(name) => name
    case List(item, _) => Base(item)
  }

  predicate IsLineTerminator(c: char) {
    c == '\n' || c == '\r' || c as int == 0x2028 || c as int == 0x2029
  }

  /** The characters a name can hold without being taken for punctuation. */
  predicate IsPlain(c: char) {
    c != '[' && c != ']' && c != '!' && !IsLineTerminator(c)
  }

  ghost predicate PlainText(s: string) {
    forall i :: 0 <= i < |s| ==> IsPlain(s[i])
  }

  ghost predicate IsName(s: string) {
    s != "" && PlainText(s)
  }

  // ----- getInputTypeName -----

  datatype ArrayMatch = ArrayMatch(inner: string, innerBang: string, outerBang: string)

  /** `(!?)\](!?)$`, at the end of the inner type. */
  function MatchTail(rest: string): Option<(string, string)> {
    if rest == "]" then Some(("", ""))
    else if rest == "!]" then Some(("!", ""))
    else if rest == "]!" then Some(("", "!"))
    else if rest == "!]!" then Some(("!", "!"))
    else None
  }

  /** `(.+?)`: the inner type is the shortest text before a tail; a dot is no line terminator. */
  function MatchFrom(s: string, k: nat): (m: Option<ArrayMatch>)
    requires 1 <= k <= |s|
    ensures m.Some? ==> |m.value.inner| < |s|
    decreases |s| - k
  {
    if k > 1 && MatchTail(s[k..]).Some? then
      var (innerBang, outerBang) := MatchTail(s[k..]).value;
      Some(ArrayMatch(s[1..k], innerBang, outerBang))
    else if k < |s| && !IsLineTerminator(s[k]) then MatchFrom(s, k + 1)
    else None
  }

  /** `/^\[(.+?)(!?)\](!?)$/`. */
  function MatchArray(s: string): (m: Option<ArrayMatch>)
    ensures m.Some? ==> |m.value.inner| < |s|
  {
    if s != "" && s[0] == '[' then MatchFrom(s, 1) else None
  }

  function GetInputTypeName(fieldType: string, nested: seq<string>): string
    decreases |fieldType|
  {
    match MatchArray(fieldType)
    case Some(ArrayMatch(inner, innerBang, outerBang)) =>
      "[" + GetInputTypeName(inner, nested) + innerBang + "]" + outerBang
    case None => if fieldType in nested then fieldType + "Input" else fieldType
  }

  /** The same structure over renamed nested types. */
  function Rename(t: TypeRef, nested: seq<string>): TypeRef {
    match t
    case Named(name) => Named(if name in nested then name + "Input" else name)
    case List(item, bang) => List(Rename(item, nested), bang)
  }

  lemma {:induction false} PrintShape(t: TypeRef)
    requires IsName(Base(t))
    ensures var s := Print(t);
            && s != "" && s[|s| - 1] != '!'
            && (forall i :: 0 <= i < |s| ==> !IsLineTerminator(s[i]))
            && (t.Named? ==> s[0] != '[')
    decreases t
  {
    if t.List? {
      PrintShape(t.item);
    }
  }

  /** The search passes over the inner type and stops at its end. */
  lemma {:induction false} MatchStops(p: string, tail: string, k: nat)
    requires p != "" && p[|p| - 1] != '!' && forall i :: 0 <= i < |p| ==> !IsLineTerminator(p[i])
    requires MatchTail(tail).Some? && 1 <= k <= |p| + 1
    ensures MatchFrom("[" + p + tail, k) == Some(ArrayMatch(p, MatchTail(tail).value.0, MatchTail(tail).value.1))
    decreases |p| + 1 - k
  {
    var s := "[" + p + tail;
    if k == |p| + 1 {
      assert s[k..] == tail && s[1..k] == p;
    } else {
      assert s[k] == p[k - 1] && s[k..] == p[k - 1..] + tail;
      NoTail(p[k - 1..], tail);
      MatchStops(p, tail, k + 1);
    }
  }

  lemma NoTail(p: string, tail: string)
    requires p != "" && p[|p| - 1] != '!' && MatchTail(tail).Some?
    ensures MatchTail(p + tail).None?
  {
    var rest := p + tail;
    assert rest[|p| - 1] == p[|p| - 1] && rest[|p|] == tail[0];
  }

  lemma MatchPrinted(item: TypeRef, bang: bool, outer: bool)
    requires IsName(Base(item))
    ensures MatchArray(Print(List(item, bang)) + Bang(outer)) == Some(ArrayMatch(Print(item), Bang(bang), Bang(outer)))
  {
    PrintShape(item);
    var tail := Bang(bang) + "]" + Bang(outer);
    assert bang && outer ==> tail == "!]!";
    assert bang && !outer ==> tail == "!]";
    assert !bang && outer ==> tail == "]!";
    assert !bang && !outer ==> tail == "]";
    MatchStops(Print(item), tail, 1);
    assert Print(List(item, bang)) + Bang(outer) == "[" + Print(item) + tail;
  }

  /** A list reference, at any depth and with any bangs, keeps its structure; only its name is renamed. */
  lemma {:induction false} RenamesInside(t: TypeRef, outer: bool, nested: seq<string>)
    requires IsName(Base(t)) && (outer ==> t.List?)
    ensures GetInputTypeName(Print(t) + Bang(outer), nested) == Print(Rename(t, nested)) + Bang(outer)
    decreases t
  {
    match t
    case Named(name) => assert name + "" == name;
    case List(item, bang) =>
      MatchPrinted(item, bang, outer);
      RenamesInside(item, false, nested);
      assert Print(item) + "" == Print(item);
      assert Print(Rename(item, nested)) + "" == Print(Rename(item, nested));
  }

  /** A bare name with a bang is not looked up: it is renamed correctly only if it needs no renaming. */
  lemma RenamesExactly(t: TypeRef, outer: bool, nested: seq<string>)
    requires IsName(Base(t)) && forall i :: 0 <= i < |nested| ==> IsName(nested[i])
    ensures GetInputTypeName(Print(t) + Bang(outer), nested) == Print(Rename(t, nested)) + Bang(outer)
            <==> t.List? || !outer || t.name !in nested
  {
    if t.List? || !outer {
      RenamesInside(t, outer, nested);
    } else {
      var s := t.name + "!";
      assert s[|s| - 1] == '!' && !IsPlain('!');
      assert s !in nested;
      assert MatchArray(s).None?;
      assert t.name + "Input" + "!" != s;
    }
  }
}
