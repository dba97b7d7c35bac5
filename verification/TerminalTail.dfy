/**
 The retained tail of a terminal's output.

 A session keeps only the last stretch of what its shell wrote, together with the
 number of bytes written so far. `full` is history: everything the shell wrote.
 */
module TerminalTail {
  import opened Basics

  const MAX_BUFFER: nat := 65536

  datatype TailRecord = Tail(buffer: seq<Byte>, offset: nat, replayStart: Option<nat>, closed: bool)

  type Tail = t: TailRecord | |t.buffer| <= t.offset witness Tail([], 0, None, false)

  datatype Reply = Reply(data: seq<Byte>, offset: nat, ok: bool)

  function EmptyTail(): Tail { Tail([], 0, None, false) }

  /** Position in the full output where the retained tail begins. */
  function BufferStart(t: Tail): nat { t.offset - |t.buffer| }

  function AppendTo(t: Tail, data: seq<Byte>): Tail {
    if data == [] then t else
    var longer := t.buffer + data;
    var kept := if |longer| > 2 * MAX_BUFFER then longer[|longer| - MAX_BUFFER..] else longer;
    t.(buffer := kept, offset := t.offset + |data|)
  }

  /** The first subscription or cursorless read fixes where cursorless readers start. */
  function Baseline(t: Tail): Tail {
    if t.replayStart.None? then t.(replayStart := Some(BufferStart(t))) else t
  }

  /** The tail after a read from `after`, and what the reader gets. */
  function ReadAfter(t: Tail, after: Option<nat>): (Tail, Reply) {
    if t.closed then (t, Reply([], t.offset, false)) else
    var t' := if after.None? then Baseline(t) else t;
    var start := if after.None? then t'.replayStart.value else after.value;
    if start < BufferStart(t) || start > t.offset then (t', Reply([], t.offset, false))
    else (t', Reply(t.buffer[start - BufferStart(t)..], t.offset, true))
  }

  /** The tail retains a suffix of the full output: all of it, or at least MAX_BUFFER bytes. */
  ghost predicate Retains(t: Tail, full: seq<Byte>) {
    && t.offset == |full|
    && |t.buffer| <= 2 * MAX_BUFFER
    && (|t.buffer| == t.offset || |t.buffer| >= MAX_BUFFER)
    && t.buffer == full[BufferStart(t)..]
    && (t.replayStart.Some? ==> t.replayStart.value <= t.offset)
  }

  lemma EmptyRetains(t: Tail, full: seq<Byte>)
    requires |full| == 0 && t.offset == 0 && t.replayStart.None?
    ensures Retains(t, full)
  {
  }

  lemma RetainedIsSuffix(t: Tail, full: seq<Byte>)
    requires Retains(t, full)
    ensures t.offset == |full| && |t.buffer| <= |full| && t.buffer == full[|full| - |t.buffer|..]
  {
  }

  lemma AppendRetains(t: Tail, full: seq<Byte>, data: seq<Byte>)
    requires Retains(t, full)
    ensures Retains(AppendTo(t, data), full + data)
    ensures var t' := AppendTo(t, data);
      && (|t.buffer| + |data| <= 131072 ==> BufferStart(t') == BufferStart(t))
      && (|t.buffer| + |data| > 131072 ==> |t'.buffer| == 65536)
      && t'.closed == t.closed && t'.replayStart == t.replayStart
  {
    var t' := AppendTo(t, data);
    if data == [] {
      assert full + data == full;
    } else {
      var longer := t.buffer + data;
      assert longer == (full + data)[BufferStart(t)..];
      assert t'.buffer == (full + data)[BufferStart(t')..];
    }
  }

  lemma ClosingRetains(t: Tail, full: seq<Byte>)
    requires Retains(t, full)
    ensures Retains(t.(closed := true), full)
  {
    assert BufferStart(t.(closed := true)) == BufferStart(t);
  }

  lemma BaselineRetains(t: Tail, full: seq<Byte>)
    requires Retains(t, full)
    ensures Retains(Baseline(t), full) && Baseline(t).closed == t.closed
  {
    assert BufferStart(Baseline(t)) == BufferStart(t);
  }

  /** A read serves exactly the output after its starting point, or fails and serves nothing. */
  lemma ReadServesExactly(t: Tail, full: seq<Byte>, after: Option<nat>)
    requires Retains(t, full)
    ensures var (t', r) := ReadAfter(t, after);
            && Retains(t', full) && t'.closed == t.closed
            && r.offset == |full|
            && (after.Some? && r.ok ==> after.value <= |full| && r.data == full[after.value..])
            && (after.None? && r.ok ==> t'.replayStart.Some? && r.data == full[t'.replayStart.value..])
            && (!r.ok ==> r.data == [])
            && (after.Some? || t.closed ==> t' == t)
  {
  }

  /** What a read serves ends at the present, and starts at the cursor when there is one. */
  lemma ReadEndsAtPresent(t: Tail, full: seq<Byte>, after: Option<nat>)
    requires Retains(t, full) && ReadAfter(t, after).1.ok
    ensures var r := ReadAfter(t, after).1;
            && |r.data| <= r.offset == |full|
            && r.data == full[r.offset - |r.data|..r.offset]
            && (after.Some? ==> after.value == r.offset - |r.data|)
  {
    hide ReadAfter, Retains;
    var (t', r) := ReadAfter(t, after);
    ReadServesExactly(t, full, after);
    assert full[r.offset - |r.data|..r.offset] == full[r.offset - |r.data|..];
  }

  /** A cursor no more than MAX_BUFFER bytes behind an open session is always served. */
  lemma RecentCursorIsServed(t: Tail, full: seq<Byte>, cursor: nat)
    requires Retains(t, full) && !t.closed && cursor <= |full| <= cursor + MAX_BUFFER
    ensures ReadAfter(t, Some(cursor)).1 == Reply(full[cursor..], |full|, true)
  {
    assert t.buffer[cursor - BufferStart(t)..] == full[cursor..];
  }

  /** Where a read begins: at its cursor, or at the baseline, which it fixes if nobody has. */
  function StartOf(t: Tail, after: Option<nat>): nat {
    if after.Some? then after.value else Baseline(t).replayStart.value
  }

  /** A read fails exactly when the session is closed or its starting point is not retained. */
  lemma ReadFailsExactlyWhen(t: Tail, full: seq<Byte>, after: Option<nat>)
    requires Retains(t, full)
    ensures ReadAfter(t, after).1.ok <==> !t.closed && BufferStart(t) <= StartOf(t, after) <= |full|
    ensures ReadAfter(t, after).1.ok ==> ReadAfter(t, after).1.data == full[StartOf(t, after)..]
  {
    ReadServesExactly(t, full, after);
  }
}
