/** The console's watch connection: newline-delimited events out of a stream
    that arrives in arbitrary chunks. */
module WatchStream {
  import opened Prelude
  import opened Text

  /** A parsed line.  `code` and `resourceVersion` are those of its object. */
  datatype WatchEvent = WatchEvent(kind: string, code: Option<int>, resourceVersion: Option<string>, payload: string)

  /** `JSON.parse` and the accesses that may throw; `None` is a skipped line. */
  type LineParser = string -> Option<WatchEvent>

  predicate IsGone(e: WatchEvent) {
    e.kind == "ERROR" && e.code == Some(410)
  }

  // ------------------------------------------------------------- the text

  function Concat(chunks: seq<string>): string {
    if chunks == [] then "" else chunks[0] + Concat(chunks[1..])
  }

  /** The position of the first newline; the length if there is none. */
  function Newline(s: string): (i: nat)
    ensures i <= |s| && (i < |s| ==> s[i] == '\n') && forall k | 0 <= k < i :: s[k] != '\n'
  {
    if s == [] || s[0] == '\n' then 0 else 1 + Newline(s[1..])
  }

  /** The complete lines of a text; an unterminated tail is not one. */
  function Lines(s: string): seq<string>
    decreases |s|
  {
    var i := Newline(s);
    if i == |s| then [] else [s[..i]] + Lines(s[i + 1..])
  }

  lemma LinesFirst(a: string, b: string)
    requires Newline(a) < |a|
    ensures var i := Newline(a); Lines(a + b) == [a[..i]] + Lines(a[i + 1..] + b)
  {
    var i := Newline(a);
    assert (a + b)[i] == '\n' && forall k | 0 <= k < i :: (a + b)[k] == a[k];
    assert Newline(a + b) == i;
    assert (a + b)[..i] == a[..i] && (a + b)[i + 1..] == a[i + 1..] + b;
  }

  /** A tail without a newline adds no line. */
  lemma {:induction false} TailAddsNothing(text: string, tail: string)
    requires '\n' !in tail && (text == "" || text[|text| - 1] == '\n')
    ensures Lines(text + tail) == Lines(text)
    decreases |text|
  {
    if text == "" {
      assert text + tail == tail;
    } else {
      assert text[|text| - 1] == '\n';
      var i := Newline(text);
      LinesFirst(text, tail);
      var rest := text[i + 1..];
      assert rest == "" || rest[|rest| - 1] == '\n';
      TailAddsNothing(rest, tail);
    }
  }

  /** Lines, each closed by a newline. */
  function Closed(lines: seq<string>): string {
    if lines == [] then "" else lines[0] + "\n" + Closed(lines[1..])
  }

  /** The lines of a text are what stands before its newlines, in order. */
  lemma {:induction false} LinesExactly(lines: seq<string>, tail: string)
    requires '\n' !in tail && forall i | 0 <= i < |lines| :: '\n' !in lines[i]
    ensures Lines(Closed(lines) + tail) == lines
    decreases |lines|
  {
    var s := Closed(lines) + tail;
    if lines == [] {
      assert s == tail;
    } else {
      var first, rest := lines[0], Closed(lines[1..]) + tail;
      assert s == first + "\n" + rest;
      assert s[|first|] == '\n' && forall k | 0 <= k < |first| :: s[k] == first[k];
      assert Newline(s) == |first| && s[..|first|] == first && s[|first| + 1..] == rest;
      LinesExactly(lines[1..], tail);
      assert [first] + lines[1..] == lines;
    }
  }

  // ------------------------------------------------- what a line does

  /** The event of a line, if it is neither blank nor malformed. */
  function EventOf(parse: LineParser, line: string): Option<WatchEvent> {
    if Trim(line) == "" then None else parse(Trim(line))
  }

  /** From lines to their events. */
  type Reader = string -> Option<WatchEvent>

  function ReaderOf(parse: LineParser): Reader {
    line => EventOf(parse, line)
  }

  function VersionAfter(version: string, e: WatchEvent): string {
    if e.resourceVersion.Some? && e.resourceVersion.value != "" then e.resourceVersion.value else version
  }

  /** What a connection has done: the version it would resume from, the events it
      delivered, and whether the server said 410. */
  datatype Progress = Progress(version: string, events: seq<WatchEvent>, gone: bool)

  function OnLine(read: Reader, st: Progress, line: string): Progress {
    match read(line)
    case None => st
    case Some(e) =>
      if IsGone(e) then Progress("", st.events, true)
      else Progress(VersionAfter(st.version, e), st.events + [e], false)
  }

  function OnLines(read: Reader, st: Progress, lines: seq<string>): Progress
    decreases |lines|
  {
    if st.gone || lines == [] then st else OnLines(read, OnLine(read, st, lines[0]), lines[1..])
  }

  // ---------------------------------------------------- the connection

  class WatchManager {
    var resourceVersion: string
    var retryCount: nat
    var delivered: seq<WatchEvent>

    constructor (initialResourceVersion: Option<string>)
      ensures resourceVersion == (if initialResourceVersion.Some? then initialResourceVersion.value else "")
      ensures retryCount == 0 && delivered == []
    {
      resourceVersion := if initialResourceVersion.Some? then initialResourceVersion.value else "";
      retryCount := 0;
      delivered := [];
    }

    ghost function View(): Progress
      reads this
    {
      Progress(resourceVersion, delivered, false)
    }

    /** One complete line; a 410 ends the connection. */
    method HandleLine(parse: LineParser, line: string) returns (gone: bool)
      modifies this`resourceVersion, this`delivered
      ensures Progress(resourceVersion, delivered, gone) == OnLine(ReaderOf(parse), old(View()), line)
    {
      if Trim(line) == "" {
        return false;
      }
      match parse(Trim(line)) {
        case None =>
          return false;
        case Some(e) =>
          resourceVersion := VersionAfter(resourceVersion, e);
          if IsGone(e) {
            resourceVersion := "";
            return true;
          }
          delivered := delivered + [e];
          return false;
      }
    }

    /** A successful connection, read to its end or to a 410, and the scheduling
        of the next one.  What it does depends on the text alone, not on how
        it was cut into chunks. */
    method Connected(parse: LineParser, chunks: seq<string>) returns (gone: bool)
      modifies this
      ensures Progress(resourceVersion, delivered, gone) == OnLines(ReaderOf(parse), old(View()), Lines(Concat(chunks)))
      ensures retryCount == 1
    {
      retryCount := 0;
      ghost var read := ReaderOf(parse);
      ghost var goal := OnLines(read, View(), Lines(Concat(chunks)));
      var buffer := "";
      var c := 0;
      assert chunks[c..] == chunks && buffer + Concat(chunks[c..]) == Concat(chunks);
      while c < |chunks|
        invariant 0 <= c <= |chunks| && retryCount == 0 && Newline(buffer) == |buffer|
        invariant goal == OnLines(read, View(), Lines(buffer + Concat(chunks[c..])))
      {
        assert chunks[c..][1..] == chunks[c + 1..];
        ghost var later := Concat(chunks[c + 1..]);
        assert buffer + Concat(chunks[c..]) == (buffer + chunks[c]) + later;
        buffer := buffer + chunks[c];
        c := c + 1;
        while Newline(buffer) < |buffer|
          invariant retryCount == 0
          invariant goal == OnLines(read, View(), Lines(buffer + later))
          decreases |buffer|
        {
          LinesFirst(buffer, later);
          var i := Newline(buffer);
          var line := buffer[..i];
          buffer := buffer[i + 1..];
          LineStep(read, View(), line, Lines(buffer + later));
          gone := HandleLine(parse, line);
          if gone {
            retryCount := retryCount + 1;
            return;
          }
        }
      }
      assert buffer + Concat(chunks[c..]) == buffer;
      retryCount := retryCount + 1;
      return false;
    }
  }

  lemma {:induction false} LineStep(read: Reader, st: Progress, line: string, rest: seq<string>)
    requires !st.gone
    ensures OnLines(read, st, [line] + rest) == OnLines(read, OnLine(read, st, line), rest)
  {
    assert ([line] + rest)[1..] == rest;
  }

  // ------------------------------------------- what a connection delivers

  predicate SaysGone(read: Reader, line: string) {
    read(line).Some? && IsGone(read(line).value)
  }

  /** What ends a connection: an ERROR event with code 410. */
  lemma GoneMeans(read: Reader, line: string)
    ensures SaysGone(read, line) <==> read(line).Some? && read(line).value.kind == "ERROR" && read(line).value.code == Some(410)
  {
  }

  /** The number of lines before the first 410. */
  function StopAt(read: Reader, lines: seq<string>): (n: nat)
    ensures n <= |lines| && (n < |lines| ==> SaysGone(read, lines[n])) && forall k | 0 <= k < n :: !SaysGone(read, lines[k])
  {
    if lines == [] || SaysGone(read, lines[0]) then 0 else 1 + StopAt(read, lines[1..])
  }

  /** The last non-empty version among events, or the given one. */
  function LastVersion(version: string, events: seq<WatchEvent>): string {
    if events == [] then version
    else VersionAfter(LastVersion(version, events[..|events| - 1]), events[|events| - 1])
  }

  /** The last version is that of the last event that carries one. */
  lemma {:induction false} LastVersionMeans(version: string, events: seq<WatchEvent>, i: nat)
    requires i <= |events|
    requires forall j | i <= j < |events| :: events[j].resourceVersion in {None, Some("")}
    requires i > 0 ==> events[i - 1].resourceVersion.Some? && events[i - 1].resourceVersion.value != ""
    ensures LastVersion(version, events) == if i == 0 then version else events[i - 1].resourceVersion.value
    decreases |events|
  {
    if i < |events| {
      LastVersionMeans(version, events[..|events| - 1], i);
    }
  }

  lemma {:induction false} LastVersionFront(version: string, e: WatchEvent, events: seq<WatchEvent>)
    ensures LastVersion(version, [e] + events) == LastVersion(VersionAfter(version, e), events)
    decreases |events|
  {
    if events == [] {
      assert [e] + events == [e] && [e][..0] == [];
    } else {
      var init := events[..|events| - 1];
      assert ([e] + events)[..|events|] == [e] + init;
      LastVersionFront(version, e, init);
    }
  }

  lemma {:induction false} CollectFront<A, B>(f: A -> Option<B>, s: seq<A>)
    requires s != []
    ensures Collect(f, s) == (if f(s[0]).Some? then [f(s[0]).value] else []) + Collect(f, s[1..])
    decreases |s|
  {
    if |s| > 1 {
      var init := s[..|s| - 1];
      assert s[1..][..|s| - 2] == init[1..];
      CollectFront(f, init);
    } else {
      assert s[..0] == [] && s[1..] == [];
    }
  }

  /** What a connection does with its complete lines: up to the first 410 it
      delivers, in order, exactly the events of the well-formed lines; it ends
      at the last version delivered, or at no version after a 410. */
  lemma {:induction false} ConnectionMeans(read: Reader, st: Progress, lines: seq<string>)
    requires !st.gone
    ensures var n, end := StopAt(read, lines), OnLines(read, st, lines);
            var events := Collect(read, lines[..n]);
            && end.events == st.events + events
            && end.gone == (n < |lines|)
            && end.version == if n < |lines| then "" else LastVersion(st.version, events)
    decreases |lines|
  {
    var n := StopAt(read, lines);
    if n == 0 {
      assert lines[..n] == [];
    } else {
      ConnectionMeans(read, OnLine(read, st, lines[0]), lines[1..]);
      var later := Collect(read, lines[1..][..n - 1]);
      assert lines[..n][1..] == lines[1..][..n - 1];
      CollectFront(read, lines[..n]);
      match read(lines[0]) {
        case None =>
          assert Collect(read, lines[..n]) == later;
        case Some(e) =>
          assert Collect(read, lines[..n]) == [e] + later;
          assert (st.events + [e]) + later == st.events + ([e] + later);
          LastVersionFront(st.version, e, later);
      }
    }
  }

  /** Two ways of cutting the same text make no difference, and neither does an
      unterminated tail. */
  lemma {:induction false} CutsAndTailsIrrelevant(read: Reader, st: Progress, a: seq<string>, b: seq<string>, text: string, tail: string)
    requires Concat(a) == text && Concat(b) == text + tail
    requires '\n' !in tail && (text == "" || text[|text| - 1] == '\n')
    ensures OnLines(read, st, Lines(Concat(a))) == OnLines(read, st, Lines(Concat(b)))
  {
    TailAddsNothing(text, tail);
  }
}
