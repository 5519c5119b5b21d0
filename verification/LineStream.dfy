/**
 * Splitting a process's output into lines while it arrives (scripts/nx-quiet.ts:43-72).
 *
 * Chunks are decoded texts; `flushed` is what the decoder still holds when the stream ends.
 */
module LineStream {
  import opened Seqs
  import opened Texts

  function Concat(ss: seq<string>): string {
    if ss == [] then "" else ss[0] + Concat(ss[1..])
  }

  function Terminated(lines: seq<string>): string {
    if lines == [] then "" else lines[0] + "\n" + Terminated(lines[1..])
  }

  /** The lines of a text that end in a newline, and what follows the last newline. */
  datatype Split = Split(lines: seq<string>, rest: string)

  function SplitText(s: string): Split
    decreases |s|
  {
    var n := LineEnd(s);
    if n == |s| then Split([], s)
    else
      var tail := SplitText(s[n + 1..]);
      Split([s[..n]] + tail.lines, tail.rest)
  }

  /** The lines of a text: an empty last piece is no line. */
  function Lines(s: string): seq<string> {
    var split := SplitText(s);
    split.lines + if split.rest == "" then [] else [split.rest]
  }

  ghost predicate OneLine(s: string) {
    '\n' !in s
  }

  ghost predicate AllOneLine(lines: seq<string>) {
    forall i :: 0 <= i < |lines| ==> OneLine(lines[i])
  }

  lemma TerminatedCons(line: string, lines: seq<string>, rest: string)
    ensures Terminated([line] + lines) + rest == line + "\n" + (Terminated(lines) + rest)
  {
    assert ([line] + lines)[1..] == lines;
  }

  /** A text is its lines, each with its newline, and the rest; and it is so in one way only. */
  lemma {:induction false} SplitIsTheText(s: string)
    ensures var split := SplitText(s);
            s == Terminated(split.lines) + split.rest && AllOneLine(split.lines) && OneLine(split.rest)
    decreases |s|
  {
    var n := LineEnd(s);
    LineEndSplits(s);
    if n < |s| {
      var line, tail := s[..n], SplitText(s[n + 1..]);
      SplitIsTheText(s[n + 1..]);
      assert s == line + "\n" + s[n + 1..];
      TerminatedCons(line, tail.lines, tail.rest);
    } else {
      assert s[..n] == s && Terminated([]) + s == s;
    }
  }

  lemma {:induction false} SplitUnique(lines: seq<string>, rest: string)
    requires AllOneLine(lines) && OneLine(rest)
    ensures SplitText(Terminated(lines) + rest) == Split(lines, rest)
  {
    var s := Terminated(lines) + rest;
    if lines == [] {
      LineEndIs(rest, "");
      assert s == rest == rest + "";
    } else {
      var tail := Terminated(lines[1..]) + rest;
      assert s == lines[0] + ("\n" + tail);
      assert OneLine(lines[0]);
      LineEndIs(lines[0], "\n" + tail);
      assert s[|lines[0]| + 1..] == tail;
      SplitUnique(lines[1..], rest);
    }
  }

  lemma {:induction false} TerminatedAppend(a: seq<string>, b: seq<string>)
    ensures Terminated(a + b) == Terminated(a) + Terminated(b)
  {
    if a == [] {
      assert a + b == b;
    } else {
      assert (a + b)[1..] == a[1..] + b;
      TerminatedAppend(a[1..], b);
    }
  }

  lemma {:induction false} ConcatAppend(ss: seq<string>, s: string)
    ensures Concat(ss + [s]) == Concat(ss) + s
  {
    if ss == [] {
      assert ss + [s] == [s];
    } else {
      assert (ss + [s])[1..] == ss[1..] + [s];
      ConcatAppend(ss[1..], s);
    }
  }

  lemma Rejoin(lines: seq<string>, rest: string, t: string, more: seq<string>, rest': string)
    requires AllOneLine(lines) && AllOneLine(more) && OneLine(rest') && rest + t == Terminated(more) + rest'
    ensures SplitText(Terminated(lines) + rest + t) == Split(lines + more, rest')
  {
    TerminatedAppend(lines, more);
    assert Terminated(lines) + rest + t == Terminated(lines) + (rest + t);
    assert Terminated(lines) + (Terminated(more) + rest') == Terminated(lines + more) + rest';
    SplitUnique(lines + more, rest');
  }

  /** Only the unfinished line has to be kept when more text arrives. */
  lemma SplitAppend(s: string, t: string)
    ensures SplitText(s + t) == Split(SplitText(s).lines + SplitText(SplitText(s).rest + t).lines,
                                      SplitText(SplitText(s).rest + t).rest)
  {
    var was := SplitText(s);
    var now := SplitText(was.rest + t);
    SplitIsTheText(s);
    SplitIsTheText(was.rest + t);
    Rejoin(was.lines, was.rest, t, now.lines, now.rest);
  }

  /** The lines that are printed. */
  function Printed(lines: seq<string>, forwardProgress: bool, isProgressLine: string -> bool): seq<string> {
    if lines == [] then []
    else (if forwardProgress && isProgressLine(lines[0]) then [lines[0]] else [])
         + Printed(lines[1..], forwardProgress, isProgressLine)
  }

  lemma {:induction false} PrintedAppend(
    a: seq<string>, b: seq<string>, forwardProgress: bool, isProgressLine: string -> bool)
    ensures Printed(a + b, forwardProgress, isProgressLine)
         == Printed(a, forwardProgress, isProgressLine) + Printed(b, forwardProgress, isProgressLine)
  {
    if a == [] {
      assert a + b == b;
    } else {
      assert (a + b)[1..] == a[1..] + b;
      PrintedAppend(a[1..], b, forwardProgress, isProgressLine);
    }
  }

  /** What is printed are the progress lines, in order, and only if progress is forwarded. */
  lemma {:induction false} PrintedAre(lines: seq<string>, forwardProgress: bool, isProgressLine: string -> bool)
    ensures !forwardProgress ==> Printed(lines, forwardProgress, isProgressLine) == []
    ensures forwardProgress && (forall i :: 0 <= i < |lines| ==> isProgressLine(lines[i])) ==>
              Printed(lines, forwardProgress, isProgressLine) == lines
    ensures forall line :: line in Printed(lines, forwardProgress, isProgressLine) <==>
                           forwardProgress && isProgressLine(line) && line in lines
  {
    if lines != [] {
      PrintedAre(lines[1..], forwardProgress, isProgressLine);
      assert lines == [lines[0]] + lines[1..];
    }
  }

  /** The lines of a text, each with a newline, are the text, but for a missing newline at its end. */
  lemma LinesMakeText(s: string)
    ensures AllOneLine(Lines(s))
    ensures Terminated(Lines(s)) == if s == "" || s[|s| - 1] == '\n' then s else s + "\n"
  {
    SplitIsTheText(s);
    var Split(lines, rest) := SplitText(s);
    EndsInNewline(lines);
    if rest == "" {
      assert lines + [] == lines && Terminated(lines) + "" == Terminated(lines);
    } else {
      LastLine(s, lines, rest);
    }
  }

  lemma LastLine(s: string, lines: seq<string>, rest: string)
    requires s == Terminated(lines) + rest && rest != "" && OneLine(rest)
    ensures s[|s| - 1] != '\n' && Terminated(lines + [rest]) == s + "\n"
  {
    assert s[|s| - 1] == rest[|rest| - 1] && rest[|rest| - 1] in rest;
    TerminatedAppend(lines, [rest]);
    assert [rest][1..] == [] && Terminated([rest]) == rest + "\n";
    Associate(Terminated(lines), rest, "\n");
  }

  lemma {:induction false} EndsInNewline(lines: seq<string>)
    ensures Terminated(lines) == "" <==> lines == []
    ensures lines != [] ==> Terminated(lines)[|Terminated(lines)| - 1] == '\n'
  {
    if lines != [] { EndsInNewline(lines[1..]); }
  }

  /** The lines printed so far and those left in the buffer are the lines of the text the buffer started with. */
  ghost predicate Consumed(start: string, before: seq<string>, buf: string, log: seq<string>,
                           forwardProgress: bool, isProgressLine: string -> bool)
  {
    && SplitText(buf).rest == SplitText(start).rest
    && log + Printed(SplitText(buf).lines, forwardProgress, isProgressLine)
    == before + Printed(SplitText(start).lines, forwardProgress, isProgressLine)
  }

  lemma ConsumedMore(start: string, before: seq<string>, buf: string, log: seq<string>,
                     forwardProgress: bool, isProgressLine: string -> bool)
    requires Consumed(start, before, buf, log, forwardProgress, isProgressLine) && LineEnd(buf) < |buf|
    ensures var n := LineEnd(buf);
            Consumed(start, before, buf[n + 1..], log + Printed([buf[..n]], forwardProgress, isProgressLine),
                     forwardProgress, isProgressLine)
  {
    var line, tail := buf[..LineEnd(buf)], SplitText(buf[LineEnd(buf) + 1..]).lines;
    PrintedAppend([line], tail, forwardProgress, isProgressLine);
    Associate(log, Printed([line], forwardProgress, isProgressLine), Printed(tail, forwardProgress, isProgressLine));
  }

  lemma ConsumedAll(start: string, before: seq<string>, buf: string, log: seq<string>,
                    forwardProgress: bool, isProgressLine: string -> bool)
    requires Consumed(start, before, buf, log, forwardProgress, isProgressLine) && LineEnd(buf) == |buf|
    ensures buf == SplitText(start).rest
    ensures log == before + Printed(SplitText(start).lines, forwardProgress, isProgressLine)
  {
    assert log + [] == log;
  }

  method ConsumeLine(line: string, before: seq<string>, forwardProgress: bool, isProgressLine: string -> bool)
    returns (log: seq<string>)
    ensures log == before + Printed([line], forwardProgress, isProgressLine)
  {
    log := before;
    if forwardProgress && isProgressLine(line) {
      log := log + [line];
    }
  }

  /** Consumes the finished lines of the buffer. */
  method ConsumeLines(start: string, before: seq<string>, forwardProgress: bool, isProgressLine: string -> bool)
    returns (buf: string, log: seq<string>)
    ensures buf == SplitText(start).rest
    ensures log == before + Printed(SplitText(start).lines, forwardProgress, isProgressLine)
  {
    buf, log := start, before;
    var newline := LineEnd(buf);
    while newline < |buf|
      invariant newline == LineEnd(buf) && Consumed(start, before, buf, log, forwardProgress, isProgressLine)
      decreases |buf|
    {
      ConsumedMore(start, before, buf, log, forwardProgress, isProgressLine);
      log := ConsumeLine(buf[..newline], log, forwardProgress, isProgressLine);
      buf := buf[newline + 1..];
      newline := LineEnd(buf);
    }
    ConsumedAll(start, before, buf, log, forwardProgress, isProgressLine);
  }

  /** The text comes back whole, and the lines consumed are its lines, however the stream was cut. */
  method CollectStream(chunks: seq<string>, flushed: string, forwardProgress: bool, isProgressLine: string -> bool)
    returns (full: string, log: seq<string>)
    ensures full == Concat(chunks) + flushed
    ensures OneLine(flushed) ==> log == Printed(Lines(full), forwardProgress, isProgressLine)
  {
    full, log := "", [];
    var buf := "";
    for i := 0 to |chunks|
      invariant full == Concat(chunks[..i]) && buf == SplitText(full).rest
      invariant log == Printed(SplitText(full).lines, forwardProgress, isProgressLine)
    {
      var chunk := chunks[i];
      ConcatAppend(chunks[..i], chunk);
      assert chunks[..i + 1] == chunks[..i] + [chunk];
      SplitAppend(full, chunk);
      PrintedAppend(SplitText(full).lines, SplitText(buf + chunk).lines, forwardProgress, isProgressLine);
      full := full + chunk;
      buf := buf + chunk;
      buf, log := ConsumeLines(buf, log, forwardProgress, isProgressLine);
    }
    assert chunks[..|chunks|] == chunks;
    full := full + flushed;
    buf := buf + flushed;
    PrintedAppend(SplitText(Concat(chunks)).lines, if buf == "" then [] else [buf], forwardProgress, isProgressLine);
    if |buf| > 0 {
      log := ConsumeLine(buf, log, forwardProgress, isProgressLine);
    }
    if OneLine(flushed) {
      FlushIsLastLine(Concat(chunks), flushed);
    }
  }

  lemma FlushIsLastLine(s: string, flushed: string)
    requires OneLine(flushed)
    ensures SplitText(s + flushed) == Split(SplitText(s).lines, SplitText(s).rest + flushed)
  {
    var was := SplitText(s);
    SplitIsTheText(s);
    assert Terminated([]) + (was.rest + flushed) == was.rest + flushed;
    Rejoin(was.lines, was.rest, flushed, [], was.rest + flushed);
    assert was.lines + [] == was.lines;
  }
}
