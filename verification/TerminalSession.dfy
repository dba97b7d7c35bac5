/**
 One terminal session and its subscribers' wake-up channels.

 The writer of a stream ignores what a channel carries; only how many wake-ups are
 queued and whether the channel is closed matter.
 */
module TerminalSession {
  import opened Basics
  import opened TerminalTail

  const CHANNEL_CAPACITY: nat := 32

  class Channel {
    var queued: nat
    var closed: bool

    constructor (closed: bool)
      ensures queued == 0 && this.closed == closed
    {
      queued, this.closed := 0, closed;
    }
  }

  /** A send that is dropped when the channel is full. */
  function Offered(queued: nat): (n: nat)
    ensures n == queued + 1 <= 32 || (n == queued && queued >= 32)
  {
    if queued < CHANNEL_CAPACITY then queued + 1 else queued
  }

  /** The shell behind a session; closing it is counted. */
  class Shell {
    var closes: nat

    constructor ()
      ensures closes == 0
    {
      closes := 0;
    }

    method Close()
      modifies this
      ensures closes == old(closes) + 1
    {
      closes := closes + 1;
    }
  }

  class Session {
    const shell: Shell
    var tail: Tail
    var watchers: set<Channel>
    var idleSince: nat
    ghost var full: seq<Byte>

    ghost predicate Valid()
      reads this, watchers
    {
      && Retains(tail, full)
      && (tail.closed ==> watchers == {})
      && forall c :: c in watchers ==> !c.closed && c.queued <= CHANNEL_CAPACITY
    }

    constructor (shell: Shell, now: nat)
      ensures Valid()
      ensures this.shell == shell && full == [] && tail == EmptyTail()
      ensures watchers == {} && idleSince == now
    {
      hide Retains;
      this.shell := shell;
      tail, watchers, idleSince, full := EmptyTail(), {}, now, [];
      new;
      EmptyRetains(tail, full);
    }

    method Append(data: seq<Byte>)
      requires Valid()
      modifies this, watchers
      ensures Valid() && watchers == old(watchers) && idleSince == old(idleSince)
      ensures full == old(full) + data
      ensures tail == AppendTo(old(tail), data)
      ensures data != [] ==> forall c :: c in watchers ==> c.queued == Offered(old(c.queued))
      ensures data == [] ==> forall c :: c in watchers ==> c.queued == old(c.queued)
    {
      hide Retains;
      AppendRetains(tail, full, data);
      full := full + data;
      if data == [] { return; }
      tail := AppendTo(tail, data);
      forall c | c in watchers { c.queued := Offered(c.queued); }
    }

    method Subscribe() returns (initial: seq<Byte>, c: Channel)
      requires Valid()
      modifies this
      ensures Valid() && fresh(c) && c.queued == 0 && full == old(full) && idleSince == old(idleSince)
      ensures |initial| <= |full| && initial == full[|full| - |initial|..] && |initial| == |old(tail).buffer|
      ensures tail == Baseline(old(tail))
      ensures c.closed == tail.closed
      ensures watchers == if tail.closed then {} else old(watchers) + {c}
    {
      hide Retains, Baseline;
      RetainedIsSuffix(tail, full);
      BaselineRetains(tail, full);
      initial := tail.buffer;
      tail := Baseline(tail);
      c := new Channel(tail.closed);
      if !tail.closed {
        watchers := watchers + {c};
      }
    }

    /** Leaving twice, or after the session closed the channel, changes nothing. */
    method Cancel(c: Channel, now: nat)
      requires Valid()
      modifies this, c
      ensures Valid() && full == old(full) && tail == old(tail)
      ensures watchers == old(watchers) - {c}
      ensures c in old(watchers) ==> c.closed && idleSince == if watchers == {} then now else old(idleSince)
      ensures c !in old(watchers) ==> idleSince == old(idleSince) && c.closed == old(c.closed)
    {
      if c in watchers {
        watchers := watchers - {c};
        if watchers == {} { idleSince := now; }
        c.closed := true;
      }
    }

    method OutputAfter(after: Option<nat>) returns (data: seq<Byte>, offset: nat, ok: bool)
      requires Valid()
      modifies this
      ensures Valid() && full == old(full) && watchers == old(watchers) && idleSince == old(idleSince)
      ensures (tail, Reply(data, offset, ok)) == ReadAfter(old(tail), after)
      ensures ok && after.Some? ==> after.value <= |full| && data == full[after.value..]
      ensures ok && after.None? ==> tail.replayStart.Some? && data == full[tail.replayStart.value..]
      ensures offset == |full|
    {
      hide Retains, ReadAfter;
      ReadServesExactly(tail, full, after);
      data, offset, ok := ReadTail(after);
    }

    method ReadTail(after: Option<nat>) returns (data: seq<Byte>, offset: nat, ok: bool)
      modifies `tail
      ensures (tail, Reply(data, offset, ok)) == ReadAfter(old(tail), after)
    {
      if tail.closed { return [], tail.offset, false; }
      var bufferStart := tail.offset - |tail.buffer|;
      var start: int := 0;
      match after {
        case None =>
          if tail.replayStart.None? { tail := tail.(replayStart := Some(bufferStart)); }
          start := tail.replayStart.value;
        case Some(cursor) => start := cursor;
      }
      if start < bufferStart || start > tail.offset { return [], tail.offset, false; }
      return tail.buffer[start - bufferStart..], tail.offset, true;
    }

    method CloseWatchers()
      requires Valid()
      modifies this, watchers
      ensures Valid() && full == old(full) && idleSince == old(idleSince)
      ensures tail == old(tail).(closed := true) && watchers == {}
      ensures forall c :: c in old(watchers) ==> c.closed
    {
      hide Retains;
      if tail.closed { return; }
      ClosingRetains(tail, full);
      tail := tail.(closed := true);
      forall c | c in watchers { c.closed := true; }
      watchers := {};
    }
  }
}
