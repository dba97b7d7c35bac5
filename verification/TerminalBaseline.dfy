/**
 Where clients begin: all clients of a session that come without a resume id see its output
 from one baseline, the oldest output retained when the session was first subscribed to.
 */
module TerminalBaseline {
  import opened Basics
  import opened TerminalTail
  import opened TerminalReplay

  /** A stream opened without a resume id will begin, or has begun, at `start`. */
  ghost predicate Starts(start: nat, stream: Stream) {
    if stream.wire == [] then stream.phase.Ended? || stream.cursor.None? || stream.cursor == Some(start)
    else stream.wire[0].Event? ==> stream.wire[0].id - |stream.wire[0].data| == start
  }

  ghost predicate ClientBased(st: State, client: Client) {
    match client.lastId
    case Some(_) => st.tail.replayStart == Some(client.base)
    case None =>
      client.connection.Some? && client.connection.value in st.streams ==>
        st.tail.replayStart.Some? && Starts(st.tail.replayStart.value, st.streams[client.connection.value])
  }

  ghost predicate Based(st: State) {
    forall c :: c in st.clients ==> ClientBased(st, st.clients[c])
  }

  /** The baseline is fixed by the first subscription or read, at the oldest output retained, and never moves. */
  lemma BaselineIsFixedOnce(st: State, step: Step)
    requires Enabled(st, step)
    ensures var before, after := st.tail.replayStart, Apply(st, step).tail.replayStart;
      && (before.Some? ==> after == before)
      && (before.None? && after.Some? ==> after == Some(BufferStart(st.tail)))
      && (step.Dial? || step.Connect? ==> after.Some?)
  {
  }

  lemma WriteStarts(t: Tail, full: seq<Byte>, start: nat, stream: Stream, fate: Fate)
    requires Retains(t, full) && t.replayStart == Some(start) && stream.phase.Ready? && Starts(start, stream)
    ensures Starts(start, Written(stream, ReadAfter(t, stream.cursor).1, fate))
  {
    hide Retains;
    ReadServesExactly(t, full, stream.cursor);
    var r := ReadAfter(t, stream.cursor).1;
    if r.ok && stream.wire == [] {
      ReadEndsAtPresent(t, full, stream.cursor);
      ReadFrom(t, full, start, stream.cursor);
    }
  }

  lemma ReadFrom(t: Tail, full: seq<Byte>, start: nat, cursor: Option<nat>)
    requires Retains(t, full) && t.replayStart == Some(start) && (cursor.None? || cursor == Some(start)) && ReadAfter(t, cursor).1.ok
    ensures var r := ReadAfter(t, cursor).1; r.offset - |r.data| == start
  {
  }

  /** What a step other than `Receive` makes of the stream of a client that has accepted nothing. */
  lemma StepStarts(st: State, step: Step, s: StreamId, start: nat)
    requires Enabled(st, step) && Retains(st.tail, st.full) && st.tail.replayStart == Some(start)
    requires s in st.streams && Starts(start, st.streams[s])
    requires !step.Receive? && !(step.Connect? && step.s == s) && !(step.Dial? && step.s == s)
    ensures s in Apply(st, step).streams && Starts(start, Apply(st, step).streams[s])
  {
    hide Retains, ReadAfter, Written, AppendTo, Baseline;
    if step.Write? && step.s == s {
      WriteStarts(st.tail, st.full, start, st.streams[s], step.fate);
    }
  }

  /** The first event a client accepts fixes its base at the baseline. */
  lemma FirstEventIsAtBaseline(st: State, c: ClientId)
    requires Valid(st) && Based(st) && Enabled(st, Receive(c))
    ensures var after := Apply(st, Receive(c)); ClientBased(after, after.clients[c])
  {
    hide Retains, StreamsValid, ConnectionsOwned, Contiguous;
    var client := st.clients[c];
    assert ClientBased(st, client);
    assert Carries(st.full, client, st.streams[client.connection.value]);
  }

  lemma StepKeepsBased(st: State, step: Step, c: ClientId)
    requires Valid(st) && Based(st) && Enabled(st, step) && c in Apply(st, step).clients
    ensures ClientBased(Apply(st, step), Apply(st, step).clients[c])
  {
    BaselineIsFixedOnce(st, step);
    hide Retains, StreamsValid, ClientsValid, Starts, ReadAfter, Written, AppendTo, Baseline, Emit;
    if step == Receive(c) {
      FirstEventIsAtBaseline(st, c);
    } else if step.Dial? && step.c == c {
      OpenedStarts(st.tail, Apply(st, step).tail.replayStart.value);
      if c in st.clients {
        assert ClientBased(st, st.clients[c]);
      }
    } else {
      assert ClientBased(st, st.clients[c]);
      var client := st.clients[c];
      if client.lastId.None? && client.connection.Some? && client.connection.value in st.streams && !step.Receive? {
        StepStarts(st, step, client.connection.value, st.tail.replayStart.value);
      }
      ConnectionsStay(st, c);
    }
  }

  lemma OpenedStarts(t: Tail, start: nat)
    ensures Starts(start, Opened(t, None))
  {
  }

  lemma ConnectionsStay(st: State, c: ClientId)
    requires Valid(st) && c in st.clients
    ensures st.clients[c].connection.Some? ==> st.clients[c].connection.value in st.streams
  {
    hide Retains, StreamsValid, Contiguous, Carries;
  }

  lemma {:induction false} RunKeepsBased(st: State, steps: seq<Step>)
    requires Valid(st) && Based(st) && ValidRun(st, steps)
    ensures Based(After(st, steps))
    decreases |steps|
  {
    hide Apply, Enabled, Valid, ClientBased;
    if steps != [] {
      var next := Apply(st, steps[0]);
      forall c | c in next.clients ensures ClientBased(next, next.clients[c]) {
        StepKeepsBased(st, steps[0], c);
      }
      StepIsValid(st, steps[0]);
      RunKeepsBased(next, steps[1..]);
    }
  }

  lemma StepIsValid(st: State, step: Step)
    requires Valid(st) && Enabled(st, step)
    ensures Valid(Apply(st, step))
  {
    hide Apply, Enabled;
    StepKeepsClients(st, step);
    StepKeepsStreams(st, step);
    StepKeepsOwnership(st, step);
  }

  /**
   In every run what a client has accepted is the whole output from the session's baseline, which
   all clients share, up to its resume id.
   */
  lemma ClientsShareOneBaseline(steps: seq<Step>, c: ClientId)
    requires ValidRun(Start(), steps) && c in After(Start(), steps).clients
    ensures var st := After(Start(), steps);
      var client := st.clients[c];
      client.lastId.Some? ==>
        && st.tail.replayStart.Some? && st.tail.replayStart.value <= client.lastId.value <= |st.full|
        && client.accepted == st.full[st.tail.replayStart.value..client.lastId.value]
  {
    StartIsValid();
    assert Based(Start());
    hide *;
    RunKeepsBased(Start(), steps);
    ClientsSeeOneSlice(steps, c);
    BasedAt(After(Start(), steps), c);
  }

  lemma BasedAt(st: State, c: ClientId)
    requires Based(st) && c in st.clients
    ensures st.clients[c].lastId.Some? ==> st.tail.replayStart == Some(st.clients[c].base)
  {
  }
}
