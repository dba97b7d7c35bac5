/**
 Terminal streams, their reconnecting clients, and every way they can interleave.

 A stream writer subscribes, sends what its cursor has not covered, blocks on its
 bounded wake-up channel, and repeats. A client that loses its connection resumes
 with the id of the last event it received (`Last-Event-ID`, section 9.2.4 of the
 WHATWG HTML Living Standard). Events of one connection arrive in order or not at all.
 */
module TerminalReplay {
  import opened Basics
  import opened TerminalTail
  import TerminalSession

  type StreamId = nat
  type ClientId = nat

  /** `Event` carries output, or nothing for a heartbeat; `Closed` is the terminal-closed event. */
  datatype Message = Event(id: nat, data: seq<Byte>) | Closed

  /** Where the writer of a stream is. `Ready` is about to read the tail. */
  datatype Phase = Ready | Blocked | Ended

  datatype Stream = Stream(
    cursor: Option<nat>, queued: nat, subscribed: bool, channelClosed: bool, phase: Phase, wire: seq<Message>)

  datatype Client = Client(connection: Option<StreamId>, lastId: Option<nat>, base: nat, accepted: seq<Byte>, told: bool)

  datatype State = State(
    full: seq<Byte>, tail: Tail, streams: map<StreamId, Stream>, clients: map<ClientId, Client>)

  /** What became of a write: delivered, delivered though an error was reported, or lost. */
  datatype Fate = Sent | SentThenFailed | Lost

  datatype Step =
    | Append(data: seq<Byte>)
    | Connect(s: StreamId, header: Option<nat>)
    | Dial(c: ClientId, s: StreamId)
    | Write(s: StreamId, fate: Fate)
    | Wake(s: StreamId)
    | Beat(s: StreamId, fate: Fate)
    | SeeClosed(s: StreamId)
    | Quit(s: StreamId)
    | Cancel(s: StreamId)
    | Close
    | Receive(c: ClientId)
    | Drop(c: ClientId)

  // ------------------------------------------------------------- transitions

  function Notified(stream: Stream): Stream {
    if stream.subscribed then stream.(queued := TerminalSession.Offered(stream.queued)) else stream
  }

  function Opened(t: Tail, header: Option<nat>): Stream {
    Stream(header, 0, !t.closed, t.closed, Ready, [])
  }

  /** Sends an event; only a write without an error lets the stream go on. */
  function Emit(stream: Stream, m: Message, fate: Fate): Stream {
    stream.(wire := if fate.Lost? then stream.wire else stream.wire + [m],
            phase := if fate.Sent? then Blocked else Ended)
  }

  function Written(stream: Stream, r: Reply, fate: Fate): Stream {
    if !r.ok then stream.(wire := stream.wire + [Closed], phase := Ended)
    else if r.data == [] then stream.(cursor := Some(r.offset), phase := Blocked)
    else Emit(stream.(cursor := Some(r.offset)), Event(r.offset, r.data), fate)
  }

  function Accept(client: Client, m: Message): Client {
    match m
    case Closed => client.(told := true)
    case Event(id, data) =>
      client.(lastId := Some(id), accepted := client.accepted + data,
              base := if client.lastId.None? && |data| <= id then id - |data| else client.base)
  }

  predicate Enabled(st: State, step: Step) {
    match step
    case Append(_) => true
    case Connect(s, _) => s !in st.streams
    case Dial(c, s) => s !in st.streams && (c in st.clients ==> st.clients[c].connection.None?)
    case Write(s, _) => s in st.streams && st.streams[s].phase.Ready?
    case Wake(s) => s in st.streams && st.streams[s].phase.Blocked? && st.streams[s].queued > 0
    case Beat(s, _) => s in st.streams && st.streams[s].phase.Blocked? && st.streams[s].cursor.Some?
    case SeeClosed(s) =>
      s in st.streams && st.streams[s].phase.Blocked? && st.streams[s].queued == 0 && st.streams[s].channelClosed
    case Quit(s) => s in st.streams && st.streams[s].phase.Blocked?
    case Cancel(s) => s in st.streams && st.streams[s].phase.Ended? && st.streams[s].subscribed
    case Close => true
    case Receive(c) =>
      && c in st.clients && st.clients[c].connection.Some?
      && st.clients[c].connection.value in st.streams
      && st.streams[st.clients[c].connection.value].wire != []
    case Drop(c) => c in st.clients
  }

  function Apply(st: State, step: Step): State
    requires Enabled(st, step)
  {
    match step
    case Append(data) =>
      st.(full := st.full + data, tail := AppendTo(st.tail, data),
          streams := if data == [] then st.streams else map s | s in st.streams :: Notified(st.streams[s]))
    case Connect(s, header) =>
      st.(tail := Baseline(st.tail), streams := st.streams[s := Opened(st.tail, header)])
    case Dial(c, s) =>
      var client := if c in st.clients then st.clients[c] else Client(None, None, 0, [], false);
      st.(tail := Baseline(st.tail), streams := st.streams[s := Opened(st.tail, client.lastId)],
          clients := st.clients[c := client.(connection := Some(s))])
    case Write(s, fate) =>
      var (t, r) := ReadAfter(st.tail, st.streams[s].cursor);
      st.(tail := t, streams := st.streams[s := Written(st.streams[s], r, fate)])
    case Wake(s) => st.(streams := st.streams[s := st.streams[s].(queued := st.streams[s].queued - 1, phase := Ready)])
    case Beat(s, fate) =>
      st.(streams := st.streams[s := Emit(st.streams[s], Event(st.streams[s].cursor.value, []), fate)])
    case SeeClosed(s) =>
      st.(streams := st.streams[s := st.streams[s].(wire := st.streams[s].wire + [Closed], phase := Ended)])
    case Quit(s) => st.(streams := st.streams[s := st.streams[s].(phase := Ended)])
    case Cancel(s) => st.(streams := st.streams[s := st.streams[s].(subscribed := false, channelClosed := true)])
    case Close =>
      st.(tail := st.tail.(closed := true),
          streams := map s | s in st.streams ::
            st.streams[s].(subscribed := false, channelClosed := st.streams[s].channelClosed || st.streams[s].subscribed))
    case Receive(c) =>
      var s := st.clients[c].connection.value;
      st.(clients := st.clients[c := Accept(st.clients[c], st.streams[s].wire[0])],
          streams := st.streams[s := st.streams[s].(wire := st.streams[s].wire[1..])])
    case Drop(c) => st.(clients := st.clients[c := st.clients[c].(connection := None)])
  }

  predicate ValidRun(st: State, steps: seq<Step>)
    decreases |steps|
  {
    steps == [] || (Enabled(st, steps[0]) && ValidRun(Apply(st, steps[0]), steps[1..]))
  }

  function After(st: State, steps: seq<Step>): State
    requires ValidRun(st, steps)
    decreases |steps|
  {
    if steps == [] then st else After(Apply(st, steps[0]), steps[1..])
  }

  function Start(): State { State([], EmptyTail(), map[], map[]) }

  // --------------------------------------------------------------- invariant

  /**
   The messages on the wire continue the output from `start` without a gap or a
   repeat, and a stream that goes on will continue them from its cursor.
   */
  ghost predicate Continues(full: seq<Byte>, start: Option<nat>, wire: seq<Message>, cursor: Option<nat>, ended: bool)
    decreases |wire|
  {
    if wire == [] then start.None? || ended || cursor == start
    else match wire[0]
      case Closed => wire[1..] == [] && ended
      case Event(id, data) =>
        && |data| <= id <= |full|
        && data == full[id - |data|..id]
        && (start.Some? ==> start.value == id - |data|)
        && Continues(full, Some(id), wire[1..], cursor, ended)
  }

  ghost predicate Carries(full: seq<Byte>, client: Client, stream: Stream) {
    Continues(full, client.lastId, stream.wire, stream.cursor, stream.phase.Ended?)
  }

  /** What the client accepted is one slice of the output, ending at the id it would resume from. */
  ghost predicate Contiguous(full: seq<Byte>, client: Client) {
    match client.lastId
    case None => client.accepted == []
    case Some(last) => client.base <= last <= |full| && client.accepted == full[client.base..last]
  }

  /** A blocked writer is behind the output only if a wake-up is queued or its channel is closed. */
  ghost predicate NotStranded(offset: nat, stream: Stream) {
    && (stream.phase.Blocked? ==> stream.cursor.Some? && stream.cursor.value <= offset)
    && (stream.subscribed || stream.channelClosed)
    && (stream.phase.Blocked? && stream.cursor.value < offset ==> stream.queued > 0 || stream.channelClosed)
  }

  ghost predicate Connected(st: State, client: Client) {
    && client.connection.Some?
    && client.connection.value in st.streams
  }

  ghost predicate ClientsValid(st: State) {
    forall c :: c in st.clients ==>
      && Contiguous(st.full, st.clients[c])
      && (st.clients[c].connection.Some? ==>
            && Connected(st, st.clients[c])
            && Carries(st.full, st.clients[c], st.streams[st.clients[c].connection.value]))
  }

  /** A connection belongs to one client. */
  ghost predicate ConnectionsOwned(st: State) {
    forall c1, c2 :: c1 in st.clients && c2 in st.clients && c1 != c2 && st.clients[c1].connection.Some? ==>
      st.clients[c1].connection != st.clients[c2].connection
  }

  ghost predicate StreamsValid(st: State) {
    forall s :: s in st.streams ==> NotStranded(st.tail.offset, st.streams[s])
  }

  ghost predicate Valid(st: State) {
    && Retains(st.tail, st.full)
    && StreamsValid(st)
    && ClientsValid(st)
    && ConnectionsOwned(st)
  }

  // ------------------------------------------------------- facts about wires

  lemma {:induction false} ContinuesInLonger(full: seq<Byte>, more: seq<Byte>, start: Option<nat>, wire: seq<Message>,
                                             cursor: Option<nat>, ended: bool)
    requires Continues(full, start, wire, cursor, ended)
    ensures Continues(full + more, start, wire, cursor, ended)
    decreases |wire|
  {
    if wire != [] && wire[0].Event? {
      var id, data := wire[0].id, wire[0].data;
      assert (full + more)[id - |data|..id] == full[id - |data|..id];
      ContinuesInLonger(full, more, Some(id), wire[1..], cursor, ended);
    }
  }

  lemma {:induction false} ContinuesAfterSend(full: seq<Byte>, start: Option<nat>, wire: seq<Message>, cursor: Option<nat>,
                                              id: nat, data: seq<Byte>, ended: bool)
    requires Continues(full, start, wire, cursor, false)
    requires |data| <= id <= |full| && data == full[id - |data|..id]
    requires cursor.Some? ==> cursor.value == id - |data|
    ensures Continues(full, start, wire + [Event(id, data)], Some(id), ended)
    decreases |wire|
  {
    var longer := wire + [Event(id, data)];
    if wire == [] {
      assert longer[1..] == [];
    } else {
      assert longer[1..] == wire[1..] + [Event(id, data)];
      ContinuesAfterSend(full, Some(wire[0].id), wire[1..], cursor, id, data, ended);
    }
  }

  lemma {:induction false} ContinuesWhenEnded(full: seq<Byte>, start: Option<nat>, wire: seq<Message>, cursor: Option<nat>,
                                              cursor': Option<nat>)
    requires Continues(full, start, wire, cursor, false)
    ensures Continues(full, start, wire, cursor', true)
    ensures Continues(full, start, wire + [Closed], cursor', true)
    decreases |wire|
  {
    var longer := wire + [Closed];
    if wire == [] {
      assert longer[1..] == [];
    } else {
      assert longer[1..] == wire[1..] + [Closed];
      ContinuesWhenEnded(full, Some(wire[0].id), wire[1..], cursor, cursor');
    }
  }

  // ------------------------------------------------------------ preservation

  /** Changing one stream in a way its client cannot tell keeps every client's view. */
  lemma OneStreamChanges(st: State, st': State, s: StreamId)
    requires ClientsValid(st) && s in st.streams
    requires st'.full == st.full && st'.clients == st.clients && st'.streams.Keys == st.streams.Keys
    requires forall t :: t in st.streams && t != s ==> st'.streams[t] == st.streams[t]
    requires forall c :: c in st.clients && st.clients[c].connection == Some(s) ==>
      Carries(st.full, st.clients[c], st'.streams[s])
    ensures ClientsValid(st')
  {
  }

  lemma WriteKeepsCarrying(full: seq<Byte>, t: Tail, stream: Stream, client: Client, fate: Fate)
    requires Retains(t, full) && stream.phase.Ready? && Carries(full, client, stream)
    ensures Carries(full, client, Written(stream, ReadAfter(t, stream.cursor).1, fate))
  {
    hide ReadAfter, Retains;
    var r := ReadAfter(t, stream.cursor).1;
    if r.ok { ReadEndsAtPresent(t, full, stream.cursor); }
    if !r.ok {
      ContinuesWhenEnded(full, client.lastId, stream.wire, stream.cursor, stream.cursor);
    } else if r.data == [] {
      CursorCatchesUp(full, client.lastId, stream.wire, stream.cursor, r.offset);
    } else if fate.Lost? {
      ContinuesWhenEnded(full, client.lastId, stream.wire, stream.cursor, Some(r.offset));
    } else {
      ContinuesAfterSend(full, client.lastId, stream.wire, stream.cursor, r.offset, r.data, !fate.Sent?);
    }
  }

  /** An empty read moves a cursor only from nothing, or not at all. */
  lemma {:induction false} CursorCatchesUp(full: seq<Byte>, start: Option<nat>, wire: seq<Message>, cursor: Option<nat>, offset: nat)
    requires Continues(full, start, wire, cursor, false)
    requires cursor.Some? ==> cursor.value == offset
    ensures Continues(full, start, wire, Some(offset), false)
    decreases |wire|
  {
    if wire != [] {
      CursorCatchesUp(full, Some(wire[0].id), wire[1..], cursor, offset);
    }
  }

  lemma BeatKeepsCarrying(full: seq<Byte>, stream: Stream, client: Client, fate: Fate)
    requires stream.phase.Blocked? && stream.cursor.Some? && stream.cursor.value <= |full| && Carries(full, client, stream)
    ensures Carries(full, client, Emit(stream, Event(stream.cursor.value, []), fate))
  {
    if fate.Lost? {
      ContinuesWhenEnded(full, client.lastId, stream.wire, stream.cursor, stream.cursor);
    } else {
      ContinuesAfterSend(full, client.lastId, stream.wire, stream.cursor, stream.cursor.value, [], !fate.Sent?);
    }
  }

  lemma StepKeepsClients(st: State, step: Step)
    requires Valid(st) && Enabled(st, step)
    ensures ClientsValid(Apply(st, step))
  {
    assert st.tail.offset == |st.full|;
    hide ReadAfter, Retains, Baseline, AppendTo, Continues, Contiguous, Accept, Written, Emit, ConnectionsOwned;
    var st' := Apply(st, step);
    match step
    case Append(data) => AppendKeepsClients(st, data);
    case Connect(_, _) => FrameKeepsClients(st, step);
    case Dial(_, _) => FrameKeepsClients(st, step);
    case Write(s, fate) =>
      forall c | c in st.clients && st.clients[c].connection == Some(s)
        ensures Carries(st.full, st.clients[c], st'.streams[s])
      {
        WriteKeepsCarrying(st.full, st.tail, st.streams[s], st.clients[c], fate);
      }
      OneStreamChanges(st, st', s);
    case Wake(s) => OneStreamChanges(st, st', s);
    case Beat(s, fate) =>
      forall c | c in st.clients && st.clients[c].connection == Some(s)
        ensures Carries(st.full, st.clients[c], st'.streams[s])
      {
        BeatKeepsCarrying(st.full, st.streams[s], st.clients[c], fate);
      }
      OneStreamChanges(st, st', s);
    case SeeClosed(s) =>
      EndKeepsCarrying(st, s);
      OneStreamChanges(st, st', s);
    case Quit(s) =>
      EndKeepsCarrying(st, s);
      OneStreamChanges(st, st', s);
    case Cancel(s) => OneStreamChanges(st, st', s);
    case Close => FrameKeepsClients(st, step);
    case Receive(c) => ReceiveKeepsClients(st, c);
    case Drop(_) => FrameKeepsClients(st, step);
  }

  lemma AppendKeepsClients(st: State, data: seq<Byte>)
    requires ClientsValid(st)
    ensures ClientsValid(Apply(st, Append(data)))
  {
    hide Continues, Contiguous, AppendTo;
    var st' := Apply(st, Append(data));
    forall c | c in st.clients
      ensures Contiguous(st'.full, st.clients[c])
      ensures st.clients[c].connection.Some? ==> Carries(st'.full, st.clients[c], st'.streams[st.clients[c].connection.value])
    {
      var client := st.clients[c];
      ContiguousInLonger(st.full, data, client);
      if client.connection.Some? {
        var stream := st.streams[client.connection.value];
        ContinuesInLonger(st.full, data, client.lastId, stream.wire, stream.cursor, stream.phase.Ended?);
      }
    }
  }

  /** Connections come and go without touching what other clients see. */
  lemma FrameKeepsClients(st: State, step: Step)
    requires ClientsValid(st) && Enabled(st, step) && (step.Connect? || step.Dial? || step.Close? || step.Drop?)
    ensures ClientsValid(Apply(st, step))
  {
    hide Baseline;
  }

  /** An accepted event continues exactly where the client stood. */
  lemma ReceiveKeepsClients(st: State, c: ClientId)
    requires Valid(st) && Enabled(st, Receive(c))
    ensures ClientsValid(Apply(st, Receive(c)))
  {
    hide Continues, Contiguous, Accept, Retains, StreamsValid;
    var client, stream := st.clients[c], st.streams[st.clients[c].connection.value];
    AcceptContinues(st.full, client, stream);
  }

  lemma AcceptContinues(full: seq<Byte>, client: Client, stream: Stream)
    requires Contiguous(full, client) && Carries(full, client, stream) && stream.wire != []
    ensures Accept(client, stream.wire[0]).connection == client.connection
    ensures Contiguous(full, Accept(client, stream.wire[0]))
    ensures Carries(full, Accept(client, stream.wire[0]), stream.(wire := stream.wire[1..]))
  {
    if stream.wire[0].Event? && client.lastId.Some? {
      var id := stream.wire[0].id;
      assert full[client.base..id] == full[client.base..client.lastId.value] + full[client.lastId.value..id];
    }
  }

  lemma ContiguousInLonger(full: seq<Byte>, more: seq<Byte>, client: Client)
    requires Contiguous(full, client)
    ensures Contiguous(full + more, client)
  {
    if client.lastId.Some? {
      var last := client.lastId.value;
      assert (full + more)[client.base..last] == full[client.base..last];
    }
  }

  lemma EndKeepsCarrying(st: State, s: StreamId)
    requires ClientsValid(st) && s in st.streams && st.streams[s].phase.Blocked?
    ensures forall c :: c in st.clients && st.clients[c].connection == Some(s) ==>
      && Carries(st.full, st.clients[c], st.streams[s].(phase := Ended))
      && Carries(st.full, st.clients[c], st.streams[s].(wire := st.streams[s].wire + [Closed], phase := Ended))
  {
    forall c | c in st.clients && st.clients[c].connection == Some(s)
      ensures Carries(st.full, st.clients[c], st.streams[s].(phase := Ended))
      ensures Carries(st.full, st.clients[c], st.streams[s].(wire := st.streams[s].wire + [Closed], phase := Ended))
    {
      ContinuesWhenEnded(st.full, st.clients[c].lastId, st.streams[s].wire, st.streams[s].cursor, st.streams[s].cursor);
    }
  }

  /** No step strands a blocked writer: a send dropped on a full channel leaves queued wake-ups behind. */
  lemma StepKeepsStreams(st: State, step: Step)
    requires Valid(st) && Enabled(st, step)
    ensures Retains(Apply(st, step).tail, Apply(st, step).full)
    ensures StreamsValid(Apply(st, step))
  {
    assert st.tail.offset == |st.full|;
    hide Continues, ClientsValid, ConnectionsOwned, Retains, Accept;
    match step
    case Append(data) => AppendRetains(st.tail, st.full, data);
    case Write(s, _) => ReadServesExactly(st.tail, st.full, st.streams[s].cursor);
    case Close => ClosingRetains(st.tail, st.full);
    case Connect(_, _) => BaselineRetains(st.tail, st.full);
    case Dial(_, _) => BaselineRetains(st.tail, st.full);
    case _ =>
  }

  lemma StepKeepsOwnership(st: State, step: Step)
    requires ClientsValid(st) && ConnectionsOwned(st) && Enabled(st, step)
    ensures ConnectionsOwned(Apply(st, step))
  {
    hide Continues, Contiguous;
  }

  lemma {:induction false} RunKeepsValid(st: State, steps: seq<Step>)
    requires Valid(st) && ValidRun(st, steps)
    ensures Valid(After(st, steps))
    decreases |steps|
  {
    hide Apply, Enabled;
    if steps != [] {
      StepKeepsClients(st, steps[0]);
      StepKeepsStreams(st, steps[0]);
      StepKeepsOwnership(st, steps[0]);
      RunKeepsValid(Apply(st, steps[0]), steps[1..]);
    }
  }

  // ------------------------------------------------------------ main results

  lemma StartIsValid()
    ensures Valid(Start())
  {
  }

  lemma ClientSeesOneSlice(st: State, c: ClientId)
    requires Valid(st) && c in st.clients
    ensures var client := st.clients[c];
            && (client.lastId.None? ==> client.accepted == [])
            && (client.lastId.Some? ==>
                  client.base <= client.lastId.value <= |st.full| &&
                  client.accepted == st.full[client.base..client.lastId.value])
  {
    assert Contiguous(st.full, st.clients[c]);
  }

  lemma BlockedWriterCanMove(st: State, s: StreamId)
    requires Valid(st) && s in st.streams && st.streams[s].phase.Blocked?
    ensures st.streams[s].cursor.Some?
    ensures st.streams[s].cursor.value < |st.full| ==> Enabled(st, Wake(s)) || Enabled(st, SeeClosed(s))
  {
    assert NotStranded(st.tail.offset, st.streams[s]);
  }

  /**
   In every run, through evictions, lost writes and reconnects, what each client has
   accepted is one contiguous slice of the shell's output that ends at its resume id.
   */
  lemma {:induction false} ClientsSeeOneSlice(steps: seq<Step>, c: ClientId)
    requires ValidRun(Start(), steps) && c in After(Start(), steps).clients
    ensures var st := After(Start(), steps);
            var client := st.clients[c];
            && (client.lastId.None? ==> client.accepted == [])
            && (client.lastId.Some? ==>
                  client.base <= client.lastId.value <= |st.full| &&
                  client.accepted == st.full[client.base..client.lastId.value])
  {
    hide *;
    StartIsValid();
    RunKeepsValid(Start(), steps);
    ClientSeesOneSlice(After(Start(), steps), c);
  }

  /** In every run, a blocked writer with output beyond its cursor has a step that moves it on. */
  lemma {:induction false} NoWakeupIsLost(steps: seq<Step>, s: StreamId)
    requires ValidRun(Start(), steps) && s in After(Start(), steps).streams
    ensures var st := After(Start(), steps);
            var stream := st.streams[s];
            stream.phase.Blocked? ==>
              && stream.cursor.Some?
              && (stream.cursor.value < |st.full| ==> Enabled(st, Wake(s)) || Enabled(st, SeeClosed(s)))
  {
    hide *;
    StartIsValid();
    RunKeepsValid(Start(), steps);
    if After(Start(), steps).streams[s].phase.Blocked? {
      BlockedWriterCanMove(After(Start(), steps), s);
    }
  }

  /** A write that fails ends its stream, whether or not the client got the event; nothing to send is nothing to fail. */
  lemma FailedWritesEndTheStream(stream: Stream, r: Reply, fate: Fate)
    requires !fate.Sent?
    ensures var failed, sent := Written(stream, r, fate), Written(stream, r, Sent);
      if !r.ok || r.data == [] then failed == sent
      else failed.phase.Ended? && failed.wire == (if fate.Lost? then stream.wire else sent.wire)
  {
  }

  /** A heartbeat carries the cursor as its id and no output, and ends the stream only if it fails. */
  lemma HeartbeatsCarryTheCursor(st: State, s: StreamId, fate: Fate)
    requires Enabled(st, Beat(s, fate))
    ensures var stream, after := st.streams[s], Apply(st, Beat(s, fate)).streams[s];
      && (after.phase.Ended? <==> !fate.Sent?) && after.cursor == stream.cursor
      && after.wire == stream.wire + (if fate.Lost? then [] else [Event(stream.cursor.value, [])])
  {
  }

  /** Each wake-up is used for one read of everything beyond the cursor. */
  lemma WakeupsAreUsedOneByOne(st: State, s: StreamId)
    requires Enabled(st, Wake(s))
    ensures var stream, after := st.streams[s], Apply(st, Wake(s)).streams[s];
      after == stream.(queued := after.queued, phase := Ready) && after.queued + 1 == stream.queued && Enabled(Apply(st, Wake(s)), Write(s, Sent))
  {
  }

  /** A writer that finds its channel closed says so and ends, and a client that reads it is told and takes nothing for output. */
  lemma ClosedTerminalsAreTold(st: State, s: StreamId, c: ClientId)
    ensures Enabled(st, SeeClosed(s)) ==>
      var stream, after := st.streams[s], Apply(st, SeeClosed(s)).streams[s];
      after.phase.Ended? && after.wire == stream.wire + [Closed]
    ensures Enabled(st, Receive(c)) && st.streams[st.clients[c].connection.value].wire[0].Closed? ==>
      var client, after := st.clients[c], Apply(st, Receive(c)).clients[c];
      after.told && after.accepted == client.accepted && after.lastId == client.lastId
  {
  }

  /**
   A writer's read, from its cursor or without one from the baseline, either brings its cursor to
   the present or tells the client that the terminal is closed, and it does the latter exactly
   when its starting point cannot be served.
   */
  lemma WriteServesOrTells(st: State, s: StreamId)
    requires Valid(st) && Enabled(st, Write(s, Sent))
    ensures var start, stream' := StartOf(st.tail, st.streams[s].cursor), Apply(st, Write(s, Sent)).streams[s];
            if st.tail.closed || start < BufferStart(st.tail) || start > |st.full|
            then stream'.phase.Ended? && stream'.wire == st.streams[s].wire + [Closed]
            else stream'.phase.Blocked? && stream'.cursor == Some(|st.full|) &&
                 stream'.wire == st.streams[s].wire + (if start == |st.full| then [] else [Event(|st.full|, st.full[start..])])
  {
    hide ReadAfter, Retains, StartOf, StreamsValid, ClientsValid, ConnectionsOwned;
    ReadServesExactly(st.tail, st.full, st.streams[s].cursor);
    ReadFailsExactlyWhen(st.tail, st.full, st.streams[s].cursor);
  }
}
