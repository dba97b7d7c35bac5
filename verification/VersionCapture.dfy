/**
 Picking a runner's version out of its output, byte by byte as it arrives.

 The capture keeps at most one control line, drops lines too long to be one, takes the first
 valid version line and stops listening at the line that says a job started.
 */
module VersionCapture {
  import opened Basics
  import opened RunnerVersion

  function Ascii(s: string): Bytes { seq(|s|, i requires 0 <= i < |s| => (s[i] as int % 256) as Byte) }

  const VERSION_MARKER: Bytes := Ascii("RUNNERD_EFFECTIVE_RUNNER_VERSION=")
  const JOB_STARTED: Bytes := Ascii("RUNNERD_JOB_STARTED")
  const MAX_LINE: nat := |VERSION_MARKER| + VERSION_LIMIT

  datatype Capture = Capture(line: Bytes, dropping: bool, closed: bool, version: Bytes)

  const START := Capture([], false, false, [])

  function TrimCarriageReturn(raw: Bytes): Bytes {
    if raw != [] && raw[|raw| - 1] == CARRIAGE_RETURN then raw[..|raw| - 1] else raw
  }

  function ObserveLine(c: Capture, line: Bytes): Capture {
    if line == JOB_STARTED then c.(closed := true)
    else if c.version != [] || !(VERSION_MARKER <= line) then c
    else c.(version := Parse(line[|VERSION_MARKER|..]))
  }

  function Feed1(c: Capture, b: Byte): Capture {
    if c.closed then c
    else if b == NEWLINE then
      (if c.dropping then c else ObserveLine(c, TrimCarriageReturn(c.line))).(line := [], dropping := false)
    else if c.dropping then c
    else if |c.line| >= MAX_LINE then c.(line := [], dropping := true)
    else c.(line := c.line + [b])
  }

  function Feed(c: Capture, data: Bytes): Capture
    decreases |data|
  {
    if data == [] then c else Feed(Feed1(c, data[0]), data[1..])
  }

  // ------------------------------------------------------- chunk independence

  /** Output may arrive in any pieces. */
  lemma {:induction false} ChunksDoNotMatter(c: Capture, a: Bytes, b: Bytes)
    ensures Feed(c, a + b) == Feed(Feed(c, a), b)
    decreases |a|
  {
    hide Feed1;
    if a == [] {
      assert a + b == b;
    } else {
      assert (a + b)[1..] == a[1..] + b;
      ChunksDoNotMatter(Feed1(c, a[0]), a[1..], b);
    }
  }

  function FeedAll(c: Capture, chunks: seq<Bytes>): Capture
    decreases |chunks|
  {
    if chunks == [] then c else FeedAll(Feed(c, chunks[0]), chunks[1..])
  }

  function Flatten(chunks: seq<Bytes>): Bytes {
    if chunks == [] then [] else chunks[0] + Flatten(chunks[1..])
  }

  lemma {:induction false} AnySplitGivesTheSame(c: Capture, chunks: seq<Bytes>)
    ensures FeedAll(c, chunks) == Feed(c, Flatten(chunks))
    decreases |chunks|
  {
    if chunks != [] {
      ChunksDoNotMatter(c, chunks[0], Flatten(chunks[1..]));
      AnySplitGivesTheSame(Feed(c, chunks[0]), chunks[1..]);
    }
  }

  // --------------------------------------------------- the simple description

  /** The complete lines of an output, without their line breaks. */
  function Lines(data: Bytes): seq<Bytes>
    decreases |data|
  {
    var n := LineLength(data);
    if n == |data| then [] else [data[..n]] + Lines(data[n + 1..])
  }

  function LineLength(data: Bytes): (n: nat)
    ensures n <= |data| && (forall i :: 0 <= i < n ==> data[i] != NEWLINE) && (n < |data| ==> data[n] == NEWLINE)
  {
    if data == [] || data[0] == NEWLINE then 0 else 1 + LineLength(data[1..])
  }

  /** A line that says a job started. */
  predicate SaysStarted(raw: Bytes) { TrimCarriageReturn(raw) == JOB_STARTED }

  /** The version a line gives, if it is a version line of allowed length. */
  function VersionOf(raw: Bytes): Bytes {
    var line := TrimCarriageReturn(raw);
    if |raw| <= MAX_LINE && VERSION_MARKER <= line then Parse(line[|VERSION_MARKER|..]) else []
  }

  /** No line before the `i`th says a job started. */
  predicate Before(lines: seq<Bytes>, i: nat)
    requires i <= |lines|
  {
    forall j :: 0 <= j < i ==> !SaysStarted(lines[j])
  }

  /** The `i`th line is the first to give a version, `v`, and no line up to it says a job started. */
  predicate FirstAt(lines: seq<Bytes>, i: nat, v: Bytes) {
    && i < |lines| && Before(lines, i + 1) && VersionOf(lines[i]) == v
    && forall j :: 0 <= j < i ==> VersionOf(lines[j]) == []
  }

  /** `v` is the version of the first version line before the job starts, or nothing if there is none. */
  ghost predicate IsFirstVersion(lines: seq<Bytes>, v: Bytes) {
    if v == [] then forall i :: 0 <= i < |lines| && Before(lines, i + 1) ==> VersionOf(lines[i]) == []
    else exists i :: FirstAt(lines, i, v)
  }

  /** The lines processed one by one. */
  function Taken(c: Capture, raw: Bytes): Capture {
    if c.closed || |raw| > MAX_LINE then c else ObserveLine(c, TrimCarriageReturn(raw))
  }

  function TakeAll(c: Capture, lines: seq<Bytes>): Capture
    decreases |lines|
  {
    if lines == [] then c else TakeAll(Taken(c, lines[0]), lines[1..])
  }

  predicate AtLineStart(c: Capture) { c.line == [] && !c.dropping }

  lemma {:induction false} FeedWithinLine(c: Capture, raw: Bytes)
    requires AtLineStart(c) && !c.closed && NEWLINE !in raw
    ensures Feed(c, raw) == if |raw| <= MAX_LINE then c.(line := raw) else c.(dropping := true)
    decreases |raw|
  {
    if raw != [] {
      var n := |raw| - 1;
      FeedWithinLine(c, raw[..n]);
      assert raw == raw[..n] + [raw[n]];
      ChunksDoNotMatter(c, raw[..n], [raw[n]]);
      assert Feed(Feed(c, raw[..n]), [raw[n]]) == Feed1(Feed(c, raw[..n]), raw[n]);
    }
  }

  lemma FeedLine(c: Capture, raw: Bytes)
    requires AtLineStart(c) && NEWLINE !in raw
    ensures Feed(c, raw + [NEWLINE]) == Taken(c, raw)
  {
    if c.closed {
      FeedClosed(c, raw + [NEWLINE]);
    } else {
      FeedWithinLine(c, raw);
      ChunksDoNotMatter(c, raw, [NEWLINE]);
      assert Feed(Feed(c, raw), [NEWLINE]) == Feed1(Feed(c, raw), NEWLINE);
    }
  }

  /** Once a job started nothing changes any more. */
  lemma {:induction false} FeedClosed(c: Capture, data: Bytes)
    requires c.closed
    ensures Feed(c, data) == c
    decreases |data|
  {
    if data != [] {
      FeedClosed(c, data[1..]);
    }
  }

  /** Feeding bytes is taking their complete lines; only the unfinished line is left over. */
  lemma {:induction false} FeedTakesLines(c: Capture, data: Bytes)
    requires AtLineStart(c)
    ensures var end := Feed(c, data); var lines := TakeAll(c, Lines(data));
      AtLineStart(lines) && end.version == lines.version && end.closed == lines.closed
    decreases |data|
  {
    hide Taken;
    var n := LineLength(data);
    if n == |data| {
      if c.closed {
        FeedClosed(c, data);
      } else {
        FeedWithinLine(c, data);
      }
    } else {
      var raw, rest := data[..n], data[n + 1..];
      assert data == raw + [NEWLINE] + rest;
      ChunksDoNotMatter(c, raw + [NEWLINE], rest);
      FeedLine(c, raw);
      TakenStaysAtStart(c, raw);
      FeedTakesLines(Taken(c, raw), rest);
      assert Lines(data)[0] == raw && Lines(data)[1..] == Lines(rest);
    }
  }

  lemma TakenStaysAtStart(c: Capture, raw: Bytes)
    requires AtLineStart(c)
    ensures AtLineStart(Taken(c, raw))
  {
  }

  lemma {:induction false} TakeAllKeeps(c: Capture, lines: seq<Bytes>)
    ensures c.closed ==> TakeAll(c, lines) == c
    ensures c.version != [] ==> TakeAll(c, lines).version == c.version
    decreases |lines|
  {
    if lines != [] {
      TakeAllKeeps(Taken(c, lines[0]), lines[1..]);
    }
  }

  /** Taking a line: it closes the capture, or offers its version, never both. */
  lemma TakenLine(c: Capture, raw: Bytes)
    requires !c.closed && c.version == []
    ensures Taken(c, raw) == if SaysStarted(raw) then c.(closed := true) else c.(version := VersionOf(raw))
  {
    StartedIsShort();
  }

  lemma StartedIsShort()
    ensures |JOB_STARTED| + 1 <= MAX_LINE
  {
  }

  lemma {:induction false} TakeAllFindsFirst(c: Capture, lines: seq<Bytes>)
    requires !c.closed && c.version == []
    ensures IsFirstVersion(lines, TakeAll(c, lines).version)
    ensures TakeAll(c, lines).closed <==> exists i :: 0 <= i < |lines| && SaysStarted(lines[i])
    decreases |lines|
  {
    hide Taken, VersionOf, SaysStarted;
    if lines != [] {
      var next, rest := Taken(c, lines[0]), lines[1..];
      TakenLine(c, lines[0]);
      TakeAllKeeps(next, rest);
      var v := TakeAll(c, lines).version;
      if SaysStarted(lines[0]) {
        assert IsFirstVersion(lines, v);
      } else if next.version != [] {
        assert FirstAt(lines, 0, v);
        ClosesLater(next, rest);
      } else {
        TakeAllFindsFirst(next, rest);
        ShiftFirst(lines, v);
      }
      assert forall i :: 0 < i < |lines| ==> lines[i] == rest[i - 1];
    }
  }

  /** A capture that has its version still notices the job start. */
  lemma {:induction false} ClosesLater(c: Capture, lines: seq<Bytes>)
    requires !c.closed && c.version != []
    ensures TakeAll(c, lines).closed <==> exists i :: 0 <= i < |lines| && SaysStarted(lines[i])
    decreases |lines|
  {
    if lines != [] {
      StartedIsShort();
      var next, rest := Taken(c, lines[0]), lines[1..];
      if next.closed {
        TakeAllKeeps(next, rest);
        assert SaysStarted(lines[0]);
      } else {
        ClosesLater(next, rest);
        assert forall i :: 0 < i < |lines| ==> lines[i] == rest[i - 1];
      }
    }
  }

  lemma ShiftFirst(lines: seq<Bytes>, v: Bytes)
    requires lines != [] && !SaysStarted(lines[0]) && VersionOf(lines[0]) == [] && IsFirstVersion(lines[1..], v)
    ensures IsFirstVersion(lines, v)
  {
    hide VersionOf, SaysStarted;
    var rest := lines[1..];
    if v == [] {
      forall i | 0 <= i < |lines| && Before(lines, i + 1) ensures VersionOf(lines[i]) == [] {
        if i > 0 {
          assert forall j :: 0 <= j < i ==> rest[j] == lines[j + 1];
          assert Before(rest, i);
        }
      }
    } else {
      var i: nat :| FirstAt(rest, i, v);
      assert forall j :: 0 <= j <= i ==> rest[j] == lines[j + 1];
      assert FirstAt(lines, i + 1, v);
    }
  }

  // ---------------------------------------------------------------- theorems

  /** The captured version is that of the first valid version line of allowed length before a job starts. */
  lemma VersionIsTheFirstBeforeTheJob(data: Bytes)
    ensures IsFirstVersion(Lines(data), Feed(START, data).version)
    ensures Feed(START, data).closed <==> exists i :: 0 <= i < |Lines(data)| && SaysStarted(Lines(data)[i])
  {
    hide SaysStarted, VersionOf;
    FeedTakesLines(START, data);
    TakeAllFindsFirst(START, Lines(data));
  }

  /** Lines may end in a carriage return: it belongs to the line break. */
  lemma CarriageReturnEndsALine(raw: Bytes)
    requires raw == [] || raw[|raw| - 1] != CARRIAGE_RETURN
    ensures SaysStarted(raw + [CARRIAGE_RETURN]) <==> SaysStarted(raw)
    ensures |raw| < 289 ==> VersionOf(raw + [CARRIAGE_RETURN]) == VersionOf(raw)
    ensures |raw| > 289 ==> VersionOf(raw) == []
  {
    MarkersAreAscii();
    hide Parse;
    assert TrimCarriageReturn(raw + [CARRIAGE_RETURN]) == raw;
  }

  lemma MarkersAreAscii()
    ensures |VERSION_MARKER| == 33 && |JOB_STARTED| == 19 && MAX_LINE == 289
  {
  }

  /** A line that is the marker and a version, with white space around it if it likes, gives that version. */
  lemma VersionLinesGiveTheirVersion(content: Bytes)
    requires |content| <= 256 && IsVersion(TrimSpace(content)) && content[|content| - 1] != CARRIAGE_RETURN
    ensures VersionOf(VERSION_MARKER + content) == TrimSpace(content) != []
  {
    hide TrimSpace, Parse, IsVersion;
    MarkersAreAscii();
    ParseFindsVersions(content);
    var line := VERSION_MARKER + content;
    NotEmpty(TrimSpace(content));
    assert line[|line| - 1] == content[|content| - 1];
    assert line[|VERSION_MARKER|..] == content;
  }

  lemma NotEmpty(v: Bytes)
    requires IsVersion(v)
    ensures v != []
  {
  }

  /** At most one answer fits the description. */
  lemma FirstVersionIsUnique(lines: seq<Bytes>, v: Bytes, w: Bytes)
    requires IsFirstVersion(lines, v) && IsFirstVersion(lines, w)
    ensures v == w
  {
    hide VersionOf, SaysStarted;
    if v != [] && w != [] {
      var i: nat :| FirstAt(lines, i, v);
      var j: nat :| FirstAt(lines, j, w);
      assert i == j;
    }
  }

  /** Bytes that come later cannot change a captured version. */
  lemma {:induction false} LaterBytesKeepTheVersion(c: Capture, data: Bytes)
    requires c.version != []
    ensures Feed(c, data).version == c.version
    decreases |data|
  {
    if data != [] {
      LaterBytesKeepTheVersion(Feed1(c, data[0]), data[1..]);
    }
  }

  // ------------------------------------------------------------- the capture

  class EffectiveVersion {
    var line: Bytes
    var dropping: bool
    var closed: bool
    var version: Bytes

    function State(): Capture
      reads this
    {
      Capture(line, dropping, closed, version)
    }

    constructor ()
      ensures State() == START
    {
      line, dropping, closed, version := [], false, false, [];
    }

    method Observe(data: Bytes)
      modifies this
      ensures State() == Feed(old(State()), data)
    {
      if closed {
        FeedClosed(State(), data);
        return;
      }
      var i := 0;
      while i < |data|
        invariant 0 <= i <= |data| && !closed
        invariant Feed(State(), data[i..]) == Feed(old(State()), data)
      {
        var value := data[i];
        i := i + 1;
        assert data[i - 1..][1..] == data[i..];
        if value == NEWLINE {
          if !dropping {
            ObserveLineLocked(TrimCarriageReturn(line));
          }
          line := [];
          dropping := false;
          if closed {
            FeedClosed(State(), data[i..]);
            return;
          }
        } else if !dropping {
          if |line| >= MAX_LINE {
            line := [];
            dropping := true;
          } else {
            line := line + [value];
          }
        }
      }
    }

    method ObserveLineLocked(text: Bytes)
      modifies this
      ensures State() == ObserveLine(old(State()), text)
    {
      if text == JOB_STARTED {
        closed := true;
        return;
      }
      if version != [] || !(VERSION_MARKER <= text) {
        return;
      }
      version := Parse(text[|VERSION_MARKER|..]);
    }
  }
}
