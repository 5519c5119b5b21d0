/**
 * `encodeURIComponent` and `decodeURIComponent`: percent-encoding (section 2.1 of RFC 3986) of the
 * UTF-8 form (section 3 of RFC 3629) of the characters that are not left as they are.
 */
module PercentCoding {
  import opened Wrappers

  type Byte = b: int | 0 <= b < 256

  predicate IsUnreserved(c: char) {
    'A' <= c <= 'Z' || 'a' <= c <= 'z' || '0' <= c <= '9' || IsMark(c)
  }

  predicate IsMark(c: char) {
    c == '-' || c == '_' || c == '.' || c == '!' || c == '~' || c == '*' || c == '\'' || c == '(' || c == ')'
  }

  function HexDigit(n: int): (c: char)
    requires 0 <= n < 16
    ensures HexValue(c) == Some(n) && (IsUnreserved(c))
  {
    if n < 10 then '0' + n as char else 'A' + (n - 10) as char
  }

  function HexValue(c: char): (n: Option<int>)
    ensures n.Some? ==> 0 <= n.value < 16
  {
    if '0' <= c <= '9' then Some(c as int - '0' as int)
    else if 'A' <= c <= 'F' then Some(c as int - 'A' as int + 10)
    else if 'a' <= c <= 'f' then Some(c as int - 'a' as int + 10)
    else None
  }

  function EscapeByte(b: Byte): string {
    ['%', HexDigit(b / 16), HexDigit(b % 16)]
  }

  /** The byte of a percent triplet at the start of a text. */
  function ReadByte(s: string): (b: Option<int>)
    ensures b.Some? ==> 0 <= b.value < 256 && |s| >= 3
  {
    if |s| < 3 || s[0] != '%' then None
    else match (HexValue(s[1]), HexValue(s[2]))
      case (Some(high), Some(low)) => Some(16 * high + low)
      case _ => None
  }

  function Utf8(c: char): seq<Byte> {
    var n := c as int;
    if n < 0x80 then [n]
    else if n < 0x800 then [0xC0 + n / 0x40, Tail(n)]
    else if n < 0x10000 then [0xE0 + n / 0x1000, Tail(n / 0x40), Tail(n)]
    else [0xF0 + n / 0x40000, Tail(n / 0x1000), Tail(n / 0x40), Tail(n)]
  }

  function Tail(n: int): (b: Byte)
    ensures 0x80 <= b < 0xC0 && b - 0x80 == n % 0x40
  {
    0x80 + n % 0x40
  }

  function Escape(bytes: seq<Byte>): string {
    if bytes == [] then "" else EscapeByte(bytes[0]) + Escape(bytes[1..])
  }

  function EncodeChar(c: char): string {
    if IsUnreserved(c) then [c] else Escape(Utf8(c))
  }

  function EncodeComponent(s: string): string {
    if s == "" then "" else EncodeChar(s[0]) + EncodeComponent(s[1..])
  }

  predicate IsScalar(n: int) {
    0 <= n < 0xD800 || 0xE000 <= n < 0x110000
  }

  /** A decoded character and the length of its encoding. */
  datatype Read = Read(c: char, length: nat)

  function TailAt(s: string, i: nat): (n: Option<int>)
    ensures n.Some? ==> 0 <= n.value < 0x40 && i + 3 <= |s|
  {
    if i > |s| then None
    else match ReadByte(s[i..])
      case Some(b) => if 0x80 <= b < 0xC0 then Some(b - 0x80) else None
      case None => None
  }

  /** Overlong forms, surrogates and values past the last code point are refused. */
  function Scalar(n: int, least: int, length: nat): Option<Read> {
    if least <= n && IsScalar(n) then Some(Read(n as char, length)) else None
  }

  /** The character given by a first byte and what the bytes after it carry. */
  function Assemble(b: Byte, t: Option<int>, u: Option<int>, v: Option<int>): Option<Read> {
    if b < 0x80 then Scalar(b, 0, 3)
    else if 0xC0 <= b < 0xE0 && t.Some? then Scalar((b - 0xC0) * 0x40 + t.value, 0x80, 6)
    else if 0xE0 <= b < 0xF0 && t.Some? && u.Some? then
      Scalar((b - 0xE0) * 0x1000 + t.value * 0x40 + u.value, 0x800, 9)
    else if 0xF0 <= b < 0xF8 && t.Some? && u.Some? && v.Some? then
      Scalar((b - 0xF0) * 0x40000 + t.value * 0x1000 + u.value * 0x40 + v.value, 0x10000, 12)
    else None
  }

  function ReadChar(s: string): (r: Option<Read>)
    requires s != ""
    ensures r.Some? ==> 0 < r.value.length <= |s|
  {
    if s[0] != '%' then Some(Read(s[0], 1))
    else match ReadByte(s)
      case None => None
      case Some(b) => Assemble(b, TailAt(s, 3), TailAt(s, 6), TailAt(s, 9))
  }

  /** `None` is the URIError that `decodeURIComponent` throws. */
  function DecodeComponent(s: string): Option<string>
    decreases |s|
  {
    if s == "" then Some("")
    else match ReadChar(s)
      case None => None
      case Some(Read(c, length)) =>
        match DecodeComponent(s[length..])
        case None => None
        case Some(rest) => Some([c] + rest)
  }

  lemma ReadEscaped(b: Byte, rest: string)
    ensures ReadByte(EscapeByte(b) + rest) == Some(b)
  {
    assert HexValue(HexDigit(b / 16)) == Some(b / 16) && HexValue(HexDigit(b % 16)) == Some(b % 16);
  }

  /** Any bytes can be read back from their escaped form, three characters each. */
  lemma {:induction false} EscapedAt(bytes: seq<Byte>, rest: string, i: nat)
    requires i < |bytes|
    ensures |Escape(bytes)| == 3 * |bytes| && ReadByte((Escape(bytes) + rest)[3 * i..]) == Some(bytes[i])
    decreases |bytes|
  {
    var s := Escape(bytes) + rest;
    var tail := Escape(bytes[1..]) + rest;
    assert s == EscapeByte(bytes[0]) + tail;
    if |bytes| == 1 {
      assert Escape(bytes[1..]) == "";
    }
    if i == 0 {
      if |bytes| > 1 { EscapedAt(bytes[1..], rest, 0); }
      ReadEscaped(bytes[0], tail);
      assert s[0..] == s;
    } else {
      EscapedAt(bytes[1..], rest, i - 1);
      assert s[3 * i..] == tail[3 * (i - 1)..];
    }
  }

  lemma AssembleTwo(c: char, t: Option<int>, u: Option<int>, v: Option<int>)
    requires 0x80 <= c as int < 0x800 && t == Some(c as int % 0x40)
    ensures Assemble(Utf8(c)[0], t, u, v) == Some(Read(c, 6))
  {}

  lemma AssembleThree(c: char, t: Option<int>, u: Option<int>, v: Option<int>)
    requires 0x800 <= c as int < 0x10000 && t == Some(c as int / 0x40 % 0x40) && u == Some(c as int % 0x40)
    ensures Assemble(Utf8(c)[0], t, u, v) == Some(Read(c, 9))
  {
    var n := c as int;
    assert n / 0x40 == n / 0x1000 * 0x40 + n / 0x40 % 0x40;
  }

  lemma AssembleFour(c: char, t: Option<int>, u: Option<int>, v: Option<int>)
    requires 0x10000 <= c as int && t == Some(c as int / 0x1000 % 0x40)
    requires u == Some(c as int / 0x40 % 0x40) && v == Some(c as int % 0x40)
    ensures Assemble(Utf8(c)[0], t, u, v) == Some(Read(c, 12))
  {
    var n := c as int;
    var top, high, middle, low := n / 0x40000, n / 0x1000 % 0x40, n / 0x40 % 0x40, n % 0x40;
    assert n / 0x40 == n / 0x1000 * 0x40 + middle;
    assert n / 0x1000 == top * 0x40 + high;
    assert n == top * 0x40000 + high * 0x1000 + middle * 0x40 + low;
  }

  lemma TailEscaped(bytes: seq<Byte>, rest: string, i: nat)
    requires i < |bytes| && 0x80 <= bytes[i] < 0xC0
    ensures TailAt(Escape(bytes) + rest, 3 * i) == Some(bytes[i] - 0x80)
  {
    EscapedAt(bytes, rest, i);
    var s := Escape(bytes) + rest;
    assert 3 * i <= |s| && ReadByte(s[3 * i..]) == Some(bytes[i]);
    var b := bytes[i];
    assert TailAt(s, 3 * i) == Some(b - 0x80);
  }

  lemma HeadEscaped(bytes: seq<Byte>, rest: string)
    requires bytes != []
    ensures var s := Escape(bytes) + rest;
            s != "" && s[0] == '%' && ReadByte(s) == Some(bytes[0]) && |Escape(bytes)| == 3 * |bytes|
  {
    EscapedAt(bytes, rest, 0);
    assert (Escape(bytes) + rest)[3 * 0..] == Escape(bytes) + rest;
  }

  lemma TailsEscaped(bytes: seq<Byte>, rest: string, s: string)
    requires s == Escape(bytes) + rest && forall i :: 1 <= i < |bytes| ==> 0x80 <= bytes[i] < 0xC0
    ensures |bytes| > 1 ==> TailAt(s, 3) == Some(bytes[1] - 0x80)
    ensures |bytes| > 2 ==> TailAt(s, 6) == Some(bytes[2] - 0x80)
    ensures |bytes| > 3 ==> TailAt(s, 9) == Some(bytes[3] - 0x80)
  {
    if |bytes| > 1 { TailEscaped(bytes, rest, 1); }
    if |bytes| > 2 { TailEscaped(bytes, rest, 2); }
    if |bytes| > 3 { TailEscaped(bytes, rest, 3); }
  }

  lemma AssembleUtf8(c: char, t: Option<int>, u: Option<int>, v: Option<int>)
    requires var bytes := Utf8(c);
             && (|bytes| > 1 ==> t == Some(bytes[1] - 0x80))
             && (|bytes| > 2 ==> u == Some(bytes[2] - 0x80))
             && (|bytes| > 3 ==> v == Some(bytes[3] - 0x80))
    ensures Assemble(Utf8(c)[0], t, u, v) == Some(Read(c, 3 * |Utf8(c)|))
  {
    var n := c as int;
    if 0x80 <= n < 0x800 {
      AssembleTwo(c, t, u, v);
    } else if 0x800 <= n < 0x10000 {
      AssembleThree(c, t, u, v);
    } else if 0x10000 <= n {
      AssembleFour(c, t, u, v);
    }
  }

  lemma Utf8Tails(c: char)
    ensures Utf8(c) != [] && forall i :: 1 <= i < |Utf8(c)| ==> 0x80 <= Utf8(c)[i] < 0xC0
  {}

  lemma ReadEscapedChar(c: char, rest: string)
    requires !IsUnreserved(c)
    ensures var s := Escape(Utf8(c)) + rest;
            s != "" && |Escape(Utf8(c))| == 3 * |Utf8(c)| && ReadChar(s) == Some(Read(c, 3 * |Utf8(c)|))
  {
    var s := Escape(Utf8(c)) + rest;
    Utf8Tails(c);
    HeadEscaped(Utf8(c), rest);
    TailsEscaped(Utf8(c), rest, s);
    AssembleUtf8(c, TailAt(s, 3), TailAt(s, 6), TailAt(s, 9));
  }

  lemma ReadEncoded(c: char, rest: string)
    ensures EncodeChar(c) != ""
    ensures ReadChar(EncodeChar(c) + rest) == Some(Read(c, |EncodeChar(c)|))
  {
    if !IsUnreserved(c) {
      ReadEscapedChar(c, rest);
    }
  }

  /** Decoding undoes encoding, for every text. */
  lemma {:induction false} EncodeRoundTrip(s: string)
    ensures DecodeComponent(EncodeComponent(s)) == Some(s)
  {
    if s != "" {
      var rest := EncodeComponent(s[1..]);
      ReadEncoded(s[0], rest);
      assert (EncodeChar(s[0]) + rest)[|EncodeChar(s[0])|..] == rest;
      EncodeRoundTrip(s[1..]);
      assert s == [s[0]] + s[1..];
    }
  }

  /** The characters an encoded text is made of. */
  predicate IsSafe(c: char) {
    IsUnreserved(c) || c == '%'
  }

  ghost predicate AllSafe(s: string) {
    forall i :: 0 <= i < |s| ==> IsSafe(s[i])
  }

  lemma {:induction false} EscapeSafe(bytes: seq<Byte>)
    ensures AllSafe(Escape(bytes))
  {
    if bytes != [] {
      EscapeSafe(bytes[1..]);
    }
  }

  lemma {:induction false} EncodeSafe(s: string)
    ensures AllSafe(EncodeComponent(s)) && (EncodeComponent(s) == "" <==> s == "")
  {
    if s != "" {
      EscapeSafe(Utf8(s[0]));
      ReadEncoded(s[0], "");
      EncodeSafe(s[1..]);
    }
  }

  // ----- What spells a character -----

  /** The value of a hexadecimal digit, in either case. */
  predicate IsHex(c: char, n: int) {
    || (0 <= n < 10 && c as int == 48 + n)
    || (10 <= n < 16 && (c as int == 65 + n - 10 || c as int == 97 + n - 10))
  }

  predicate Triplet(t: string, b: int) {
    |t| == 3 && t[0] == '%' && IsHex(t[1], b / 16) && IsHex(t[2], b % 16)
  }

  /** Percent triplets of the bytes, one after the other. */
  ghost predicate Escapes(t: string, bytes: seq<Byte>)
    decreases |bytes|
  {
    if bytes == [] then t == "" else |t| >= 3 && Triplet(t[..3], bytes[0]) && Escapes(t[3..], bytes[1..])
  }

  /** The bytes of a scalar value, by the table of section 3 of RFC 3629. */
  predicate IsUtf8(n: int, bytes: seq<Byte>) {
    if n < 0x80 then bytes == [n]
    else if n < 0x800 then
      |bytes| == 2 && 0xC2 <= bytes[0] <= 0xDF && IsTail(bytes[1]) && Carries(bytes[0], 0xC0) * 64 + Carries(bytes[1], 0x80) == n
    else if n < 0x10000 then
      |bytes| == 3 && 0xE0 <= bytes[0] <= 0xEF && IsTail(bytes[1]) && IsTail(bytes[2])
      && Carries(bytes[0], 0xE0) * 4096 + Carries(bytes[1], 0x80) * 64 + Carries(bytes[2], 0x80) == n
    else
      |bytes| == 4 && 0xF0 <= bytes[0] <= 0xF4 && IsTail(bytes[1]) && IsTail(bytes[2]) && IsTail(bytes[3])
      && Carries(bytes[0], 0xF0) * 262144 + Carries(bytes[1], 0x80) * 4096 + Carries(bytes[2], 0x80) * 64
         + Carries(bytes[3], 0x80) == n
  }

  /** The value a byte carries above its marker. */
  function Carries(b: int, marker: int): int { b - marker }

  predicate IsTail(b: int) { 0x80 <= b <= 0xBF }

  /** These bytes are the only ones with that property. */
  lemma Utf8Iff(c: char, bytes: seq<Byte>)
    ensures IsUtf8(c as int, bytes) <==> bytes == Utf8(c)
  {
    var n := c as int;
    if n < 0x80 {
    } else if n < 0x800 {
      if IsUtf8(n, bytes) {
        assert n / 64 == Carries(bytes[0], 0xC0) && n % 64 == Carries(bytes[1], 0x80);
      }
    } else if n < 0x10000 {
      Utf8Three(n, bytes);
    } else {
      Utf8Four(n, bytes);
    }
  }

  lemma Utf8Three(n: int, bytes: seq<Byte>)
    requires 0x800 <= n < 0x10000
    ensures IsUtf8(n, bytes) <==> bytes == [0xE0 + n / 0x1000, Tail(n / 0x40), Tail(n)]
  {
    var high, middle, low := n / 0x1000, n / 0x40 % 0x40, n % 0x40;
    assert n / 0x40 == high * 0x40 + middle && n == (high * 0x40 + middle) * 0x40 + low;
    if IsUtf8(n, bytes) {
      var a, b, c := Carries(bytes[0], 0xE0), Carries(bytes[1], 0x80), Carries(bytes[2], 0x80);
      assert n / 0x40 == a * 0x40 + b && n % 0x40 == c;
      assert n / 0x1000 == a && n / 0x40 % 0x40 == b;
    }
  }

  lemma Utf8Four(n: int, bytes: seq<Byte>)
    requires 0x10000 <= n < 0x110000
    ensures IsUtf8(n, bytes) <==> bytes == [0xF0 + n / 0x40000, Tail(n / 0x1000), Tail(n / 0x40), Tail(n)]
  {
    var top, high, middle, low := n / 0x40000, n / 0x1000 % 0x40, n / 0x40 % 0x40, n % 0x40;
    assert n / 0x1000 == top * 0x40 + high && n / 0x40 == n / 0x1000 * 0x40 + middle && n == n / 0x40 * 0x40 + low;
    if IsUtf8(n, bytes) {
      var a, b, c := Carries(bytes[0], 0xF0), Carries(bytes[1], 0x80), Carries(bytes[2], 0x80);
      var d := Carries(bytes[3], 0x80);
      assert n / 0x40 == (a * 0x40 + b) * 0x40 + c && n % 0x40 == d;
      assert n / 0x1000 == a * 0x40 + b && n / 0x40 % 0x40 == c;
      assert n / 0x40000 == a && n / 0x1000 % 0x40 == b;
    }
  }

  /** A character is spelled by itself, unless it is a percent sign, or by the triplets of its UTF-8 bytes. */
  ghost predicate Spells(t: string, c: char) {
    (t == [c] && c != '%') || Escapes(t, Utf8(c))
  }

  ghost predicate Spelled(t: string, s: string)
    decreases |s|
  {
    if s == "" then t == ""
    else exists k :: 0 < k <= |t| && Spells(t[..k], s[0]) && Spelled(t[k..], s[1..])
  }

  lemma HexValueIff(c: char, n: int)
    ensures HexValue(c) == Some(n) <==> IsHex(c, n)
  {}

  lemma ReadByteIff(t: string, b: int)
    ensures ReadByte(t) == Some(b) <==> |t| >= 3 && 0 <= b < 256 && Triplet(t[..3], b)
  {
    if |t| >= 3 {
      HexValueIff(t[1], b / 16);
      HexValueIff(t[2], b % 16);
      if HexValue(t[1]).Some? && HexValue(t[2]).Some? {
        var high, low := HexValue(t[1]).value, HexValue(t[2]).value;
        assert (16 * high + low) / 16 == high && (16 * high + low) % 16 == low;
      }
    }
  }

  lemma {:induction false} EscapesRead(t: string, bytes: seq<Byte>, rest: string, i: nat)
    requires Escapes(t, bytes) && i < |bytes|
    ensures |t| == 3 * |bytes| && ReadByte((t + rest)[3 * i..]) == Some(bytes[i])
    decreases |bytes|
  {
    EscapesLength(t, bytes);
    if i == 0 {
      assert (t + rest)[3 * 0..] == t + rest && (t + rest)[..3] == t[..3];
      ReadByteIff(t + rest, bytes[0]);
    } else {
      EscapesRead(t[3..], bytes[1..], rest, i - 1);
      assert (t + rest)[3 * i..] == (t[3..] + rest)[3 * (i - 1)..];
    }
  }

  lemma {:induction false} EscapesLength(t: string, bytes: seq<Byte>)
    requires Escapes(t, bytes)
    ensures |t| == 3 * |bytes|
    decreases |bytes|
  {
    if bytes != [] { EscapesLength(t[3..], bytes[1..]); }
  }

  lemma EscapesTail(t: string, bytes: seq<Byte>, rest: string, i: nat)
    requires Escapes(t, bytes) && i < |bytes| && 0x80 <= bytes[i] < 0xC0
    ensures TailAt(t + rest, 3 * i) == Some(bytes[i] - 0x80)
  {
    EscapesRead(t, bytes, rest, i);
    var s := t + rest;
    assert 3 * i <= |s| && ReadByte(s[3 * i..]) == Some(bytes[i]);
    var b := bytes[i];
    assert TailAt(s, 3 * i) == Some(b - 0x80);
  }

  /** What spells a character is read as that character. */
  lemma SpellsRead(t: string, c: char, rest: string)
    requires Spells(t, c)
    ensures t != "" && ReadChar(t + rest) == Some(Read(c, |t|))
  {
    if t == [c] && c != '%' {
      assert (t + rest)[0] == c;
    } else {
      var bytes := Utf8(c);
      Utf8Tails(c);
      EscapesRead(t, bytes, rest, 0);
      assert (t + rest)[3 * 0..] == t + rest;
      ReadByteIff(t + rest, bytes[0]);
      if |bytes| > 1 { EscapesTail(t, bytes, rest, 1); }
      if |bytes| > 2 { EscapesTail(t, bytes, rest, 2); }
      if |bytes| > 3 { EscapesTail(t, bytes, rest, 3); }
      AssembleUtf8(c, TailAt(t + rest, 3), TailAt(t + rest, 6), TailAt(t + rest, 9));
    }
  }

  /** What is read as a character spells it. */
  lemma ReadSpells(s: string, r: Read)
    requires s != "" && ReadChar(s) == Some(r)
    ensures 0 < r.length <= |s| && Spells(s[..r.length], r.c)
  {
    if s[0] == '%' {
      var b := ReadByte(s).value;
      var t, u, v := TailAt(s, 3), TailAt(s, 6), TailAt(s, 9);
      ReadByteIff(s, b);
      if b < 0x80 {
        assert r == Read(b as char, 3) && Utf8(r.c) == [b];
        assert s[..3][..3] == s[..3];
      } else if b < 0xE0 {
        TwoBytes(s, b, t.value, r);
      } else if b < 0xF0 {
        ThreeBytes(s, b, t.value, u.value, r);
      } else {
        FourBytes(s, b, t.value, u.value, v.value, r);
      }
    }
  }

  /** Triplets read at successive places are the escape of their bytes. */
  lemma {:induction false} ReadEscapes(s: string, bytes: seq<Byte>)
    requires |s| == 3 * |bytes|
    requires forall i :: 0 <= i < |bytes| ==> ReadByte(s[3 * i..]) == Some(bytes[i])
    ensures Escapes(s, bytes)
    decreases |bytes|
  {
    if bytes != [] {
      assert s[3 * 0..] == s;
      assert ReadByte(s[3 * 0..]) == Some(bytes[0]);
      ReadByteIff(s, bytes[0]);
      forall i | 0 <= i < |bytes[1..]| ensures ReadByte(s[3..][3 * i..]) == Some(bytes[1..][i]) {
        assert s[3..][3 * i..] == s[3 * (i + 1)..];
        assert ReadByte(s[3 * (i + 1)..]) == Some(bytes[i + 1]);
      }
      ReadEscapes(s[3..], bytes[1..]);
    }
  }

  /** A byte read in a longer text is read in its beginning. */
  lemma ReadCut(s: string, n: nat, i: nat)
    requires i + 3 <= n <= |s|
    ensures ReadByte(s[..n][i..]) == ReadByte(s[i..])
  {
    assert s[..n][i..][..3] == s[i..][..3];
    assert s[..n][i..][0] == s[i..][0] && s[..n][i..][1] == s[i..][1] && s[..n][i..][2] == s[i..][2];
  }

  lemma TailRead(s: string, i: nat, n: int)
    requires TailAt(s, i) == Some(n)
    ensures i + 3 <= |s| && 0 <= n < 0x40 && ReadByte(s[i..]) == Some(n + 0x80)
  {}

  lemma TwoBytes(s: string, b: int, t: int, r: Read)
    requires s != "" && s[0] == '%' && ReadByte(s) == Some(b) && 0xC0 <= b < 0xE0 && TailAt(s, 3) == Some(t)
    requires Scalar((b - 0xC0) * 0x40 + t, 0x80, 6) == Some(r)
    ensures r.length == 6 <= |s| && Spells(s[..6], r.c)
  {
    TailRead(s, 3, t);
    var bytes: seq<Byte> := [b, t + 0x80];
    assert IsUtf8(r.c as int, bytes);
    Utf8Iff(r.c, bytes);
    forall i | 0 <= i < 2 ensures ReadByte(s[..6][3 * i..]) == Some(bytes[i]) { ReadCut(s, 6, 3 * i); assert s[0..] == s; }
    ReadEscapes(s[..6], bytes);
  }

  lemma ThreeBytes(s: string, b: int, t: int, u: int, r: Read)
    requires s != "" && s[0] == '%' && ReadByte(s) == Some(b) && 0xE0 <= b < 0xF0
    requires TailAt(s, 3) == Some(t) && TailAt(s, 6) == Some(u)
    requires Scalar((b - 0xE0) * 0x1000 + t * 0x40 + u, 0x800, 9) == Some(r)
    ensures r.length == 9 <= |s| && Spells(s[..9], r.c)
  {
    TailRead(s, 3, t);
    TailRead(s, 6, u);
    var bytes: seq<Byte> := [b, t + 0x80, u + 0x80];
    assert IsUtf8(r.c as int, bytes);
    Utf8Iff(r.c, bytes);
    forall i | 0 <= i < 3 ensures ReadByte(s[..9][3 * i..]) == Some(bytes[i]) { ReadCut(s, 9, 3 * i); assert s[0..] == s; }
    ReadEscapes(s[..9], bytes);
  }

  lemma FourBytes(s: string, b: int, t: int, u: int, v: int, r: Read)
    requires s != "" && s[0] == '%' && ReadByte(s) == Some(b) && 0xF0 <= b < 0xF8
    requires TailAt(s, 3) == Some(t) && TailAt(s, 6) == Some(u) && TailAt(s, 9) == Some(v)
    requires Scalar((b - 0xF0) * 0x40000 + t * 0x1000 + u * 0x40 + v, 0x10000, 12) == Some(r)
    ensures r.length == 12 <= |s| && Spells(s[..12], r.c)
  {
    TailRead(s, 3, t);
    TailRead(s, 6, u);
    TailRead(s, 9, v);
    var bytes: seq<Byte> := [b, t + 0x80, u + 0x80, v + 0x80];
    assert IsUtf8(r.c as int, bytes);
    Utf8Iff(r.c, bytes);
    forall i | 0 <= i < 4 ensures ReadByte(s[..12][3 * i..]) == Some(bytes[i]) { ReadCut(s, 12, 3 * i); assert s[0..] == s; }
    ReadEscapes(s[..12], bytes);
  }

  lemma {:induction false} DecodeSpells(t: string, s: string)
    requires DecodeComponent(t) == Some(s)
    ensures Spelled(t, s)
    decreases |t|
  {
    if t != "" {
      var r := ReadChar(t).value;
      var rest := DecodeComponent(t[r.length..]).value;
      ReadSpells(t, r);
      assert s == [r.c] + rest && s[1..] == rest;
      DecodeSpells(t[r.length..], rest);
    }
  }

  lemma SpellingGoesOn(piece: string, c: char, rest: string, s: string)
    requires Spells(piece, c) && DecodeComponent(rest) == Some(s)
    ensures DecodeComponent(piece + rest) == Some([c] + s)
  {
    SpellsRead(piece, c, rest);
    assert (piece + rest)[|piece|..] == rest;
  }

  lemma {:induction false} SpelledDecodes(t: string, s: string)
    requires Spelled(t, s)
    ensures DecodeComponent(t) == Some(s)
    decreases |s|
  {
    if s != "" {
      var k :| 0 < k <= |t| && Spells(t[..k], s[0]) && Spelled(t[k..], s[1..]);
      assert t == t[..k] + t[k..];
      SpelledDecodes(t[k..], s[1..]);
      SpellingGoesOn(t[..k], s[0], t[k..], s[1..]);
      assert s == [s[0]] + s[1..];
    }
  }

  /** A text decodes to another exactly if it spells it, character by character; everything else is refused. */
  lemma DecodeIff(t: string, s: string)
    ensures DecodeComponent(t) == Some(s) <==> Spelled(t, s)
  {
    if DecodeComponent(t) == Some(s) { DecodeSpells(t, s); }
    if Spelled(t, s) { SpelledDecodes(t, s); }
  }

  /** Letters, digits and nine marks are encoded as themselves, everything else by triplets with capital digits. */
  lemma EncodeForm(c: char)
    ensures var plain := 'A' <= c <= 'Z' || 'a' <= c <= 'z' || '0' <= c <= '9'
                         || c in ['-', '_', '.', '!', '~', '*', '\'', '(', ')'];
            if plain then EncodeChar(c) == [c] else Escapes(EncodeChar(c), Utf8(c))
    ensures !IsUnreserved(c) ==> forall i :: 0 <= i < |EncodeChar(c)| ==> !('a' <= EncodeChar(c)[i] <= 'z')
  {
    EscapeEscapes(Utf8(c));
  }

  lemma {:induction false} EscapeEscapes(bytes: seq<Byte>)
    ensures Escapes(Escape(bytes), bytes)
    ensures forall i :: 0 <= i < |Escape(bytes)| ==> !('a' <= Escape(bytes)[i] <= 'z')
  {
    if bytes != [] {
      EscapeEscapes(bytes[1..]);
      var t := Escape(bytes);
      assert t[..3] == EscapeByte(bytes[0]) && t[3..] == Escape(bytes[1..]);
      HexValueIff(t[1], bytes[0] / 16);
      HexValueIff(t[2], bytes[0] % 16);
    }
  }
}
