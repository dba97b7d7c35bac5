/**
 Closing terminal sessions: explicitly, at shutdown, and when idle.

 A shell must be closed once and only once, an idle timer must never close a shell
 somebody watched since the timer's baseline, and no watched-by-nobody session may be
 left without a timer. Time is a stamp that every step advances.
 */
module TerminalIdle {

  type SessionId = nat
  type StreamId = nat

  /** A past subscription. */
  datatype Visit = Visit(from: nat, until: nat)

  /**
   `since` gives the subscription time of each current watcher. `visits` (finished
   subscriptions) and `shellCloses` are history.
   */
  datatype Session = Session(
    inHub: bool, closed: bool, since: map<StreamId, nat>, idleSince: nat, visits: seq<Visit>, shellCloses: nat)

  /** What a closer still has to do after taking a session out of the hub. */
  datatype Closing = CloseChannels | CloseShell

  /** A stream is open until it cancels; then it sets an idle timer and is done. */
  datatype Stream = Stream(session: SessionId, leaving: bool)

  datatype Timer = Timer(session: SessionId, idleBefore: nat)

  datatype State = State(
    now: nat,
    sessions: map<SessionId, Session>,
    streams: map<StreamId, Stream>,
    timers: set<Timer>,
    creators: set<SessionId>,
    closing: map<SessionId, Closing>)

  datatype Step =
    | Add(s: SessionId)
    | Arm(s: SessionId)
    | Subscribe(w: StreamId, s: SessionId)
    | Cancel(w: StreamId)
    | ArmAfterStream(w: StreamId)
    | Fire(t: Timer)
    | TakeOut(s: SessionId)
    | Proceed(s: SessionId)

  /** The condition `closeSessionIfIdle` tests under both locks. */
  predicate Idle(st: State, t: Timer) {
    && t.session in st.sessions
    && var s := st.sessions[t.session];
       s.inHub && !s.closed && s.since == map[] && s.idleSince <= t.idleBefore
  }

  predicate Enabled(st: State, step: Step) {
    match step
    case Add(s) => s !in st.sessions
    case Arm(s) => s in st.creators
    case Subscribe(w, s) => w !in st.streams && s in st.sessions
    case Cancel(w) => w in st.streams && !st.streams[w].leaving && st.streams[w].session in st.sessions
    case ArmAfterStream(w) => w in st.streams && st.streams[w].leaving
    case Fire(t) => t in st.timers
    case TakeOut(s) => s in st.sessions && st.sessions[s].inHub
    case Proceed(s) => s in st.closing && s in st.sessions
  }

  function Left(session: Session, w: StreamId, now: nat): Session {
    if w !in session.since then session else
    var rest := session.since - {w};
    session.(since := rest, visits := session.visits + [Visit(session.since[w], now)],
             idleSince := if rest == map[] then now else session.idleSince)
  }

  function Apply(before: State, step: Step): State
    requires Enabled(before, step)
  {
    var st := before.(now := before.now + 1);
    match step
    case Add(s) =>
      st.(sessions := st.sessions[s := Session(true, false, map[], st.now, [], 0)], creators := st.creators + {s})
    case Arm(s) => st.(timers := st.timers + {Timer(s, st.now)}, creators := st.creators - {s})
    case Subscribe(w, s) =>
      var session := st.sessions[s];
      st.(streams := st.streams[w := Stream(s, false)],
          sessions := if session.closed then st.sessions
                      else st.sessions[s := session.(since := session.since[w := st.now])])
    case Cancel(w) =>
      var s := st.streams[w].session;
      st.(streams := st.streams[w := Stream(s, true)], sessions := st.sessions[s := Left(st.sessions[s], w, st.now)])
    case ArmAfterStream(w) =>
      st.(timers := st.timers + {Timer(st.streams[w].session, st.now)}, streams := st.streams - {w})
    case Fire(t) =>
      if Idle(st, t) then
        st.(timers := st.timers - {t}, closing := st.closing[t.session := CloseShell],
            sessions := st.sessions[t.session := st.sessions[t.session].(inHub := false, closed := true)])
      else st.(timers := st.timers - {t})
    case TakeOut(s) =>
      st.(closing := st.closing[s := CloseChannels], sessions := st.sessions[s := st.sessions[s].(inHub := false)])
    case Proceed(s) =>
      if st.closing[s].CloseChannels? then
        st.(closing := st.closing[s := CloseShell],
            sessions := st.sessions[s := st.sessions[s].(closed := true, since := map[])])
      else
        st.(closing := st.closing - {s},
            sessions := st.sessions[s := st.sessions[s].(shellCloses := st.sessions[s].shellCloses + 1)])
  }

  predicate ValidRun(st: State, steps: seq<Step>)
    decreases |steps|
  {
    steps == [] || (Enabled(st, steps[0]) && ValidRun(Apply(st, steps[0]), steps[1..]))
  }

  function After(st: State, steps: seq<Step>): State
    requires ValidRun(st, steps)
    decreases |steps|
  {
    if steps == [] then st else After(Apply(st, steps[0]), steps[1..])
  }

  function Start(): State { State(0, map[], map[], {}, {}, map[]) }

  // --------------------------------------------------------------- invariant

  function Unit(b: bool): nat { if b then 1 else 0 }

  /** A session is in the hub, or being closed, or its shell was closed: exactly one of these, once. */
  ghost predicate ClosedOnce(st: State, s: SessionId)
    requires s in st.sessions
  {
    Unit(st.sessions[s].inHub) + Unit(s in st.closing) + st.sessions[s].shellCloses == 1
  }

  /** Stamps lie in the past, and while nobody watches an open session its visits ended by `idleSince`. */
  ghost predicate Stamped(st: State, s: SessionId)
    requires s in st.sessions
  {
    var session := st.sessions[s];
    && session.idleSince <= st.now
    && (session.inHub ==> !session.closed)
    && (session.closed ==> session.since == map[])
    && (forall v :: v in session.visits ==> v.until <= st.now)
    && (session.since == map[] && !session.closed ==> forall v :: v in session.visits ==> v.until <= session.idleSince)
    && (forall w :: w in session.since ==> w in st.streams && st.streams[w] == Stream(s, false))
  }

  /** Something will still close the session if it stays idle. */
  ghost predicate Attended(st: State, s: SessionId)
    requires s in st.sessions
  {
    || s in st.creators
    || (exists w :: w in st.streams && st.streams[w] == Stream(s, true))
    || (exists t :: t in st.timers && t.session == s && st.sessions[s].idleSince <= t.idleBefore)
  }

  ghost predicate AllClosedOnce(st: State) {
    forall s :: s in st.sessions ==> ClosedOnce(st, s)
  }

  ghost predicate AllStamped(st: State) {
    forall s :: s in st.sessions ==> Stamped(st, s)
  }

  ghost predicate AllAttended(st: State) {
    forall s :: s in st.sessions && st.sessions[s].inHub && st.sessions[s].since == map[] ==> Attended(st, s)
  }

  ghost predicate TimersStamped(st: State) {
    forall t :: t in st.timers ==>
      t.idleBefore <= st.now && t.session in st.sessions && t.idleBefore != st.sessions[t.session].idleSince
  }

  ghost predicate Linked(st: State) {
    && (forall w :: w in st.streams ==> st.streams[w].session in st.sessions)
    && st.creators <= st.sessions.Keys && st.closing.Keys <= st.sessions.Keys
  }

  ghost predicate Valid(st: State) {
    AllClosedOnce(st) && AllStamped(st) && AllAttended(st) && TimersStamped(st) && Linked(st)
  }

  // ------------------------------------------------------------ preservation

  lemma StepClosesOnce(st: State, step: Step)
    requires AllClosedOnce(st) && Linked(st) && Enabled(st, step)
    ensures AllClosedOnce(Apply(st, step)) && Linked(Apply(st, step))
  {
    var st' := Apply(st, step);
    forall s | s in st'.sessions
      ensures ClosedOnce(st', s)
    {
      if s in st.sessions { StepClosesOneOnce(st, step, s); } else { assert s !in st.closing; }
    }
    assert Linked(st');
  }

  lemma StepClosesOneOnce(st: State, step: Step, s: SessionId)
    requires Enabled(st, step) && s in st.sessions && ClosedOnce(st, s)
    ensures ClosedOnce(Apply(st, step), s)
  {
  }

  lemma StepStampsOne(st: State, step: Step, s: SessionId)
    requires Enabled(st, step) && s in st.sessions && Stamped(st, s) && ClosedOnce(st, s)
    ensures Stamped(Apply(st, step), s)
  {
    if step.Cancel? { CancelStamps(st, step.w, s); }
  }

  lemma CancelStamps(st: State, w: StreamId, s: SessionId)
    requires Enabled(st, Cancel(w)) && s in st.sessions && Stamped(st, s)
    ensures Stamped(Apply(st, Cancel(w)), s)
  {
    var session' := Apply(st, Cancel(w)).sessions[s];
    assert forall v :: v in session'.visits ==> v in st.sessions[s].visits || v.until == st.now + 1;
  }

  lemma StepStamps(st: State, step: Step)
    requires AllStamped(st) && AllClosedOnce(st) && Enabled(st, step)
    ensures AllStamped(Apply(st, step))
  {
    var st' := Apply(st, step);
    forall s | s in st'.sessions
      ensures Stamped(st', s)
    {
      if s in st.sessions { StepStampsOne(st, step, s); }
    }
  }

  lemma StepStampsTimers(st: State, step: Step)
    requires AllStamped(st) && TimersStamped(st) && Linked(st) && Enabled(st, step)
    ensures TimersStamped(Apply(st, step))
  {
    var st' := Apply(st, step);
    forall t | t in st'.timers
      ensures t.idleBefore <= st'.now && t.session in st'.sessions && t.idleBefore != st'.sessions[t.session].idleSince
    {
      if t in st.timers { assert t.session in st.sessions; }
    }
  }

  /** A session that was idle before the step and still is keeps something that will close it. */
  lemma StillAttended(st: State, step: Step, s: SessionId)
    requires Enabled(st, step) && s in st.sessions && Stamped(st, s) && Attended(st, s) && st.sessions[s].since == map[]
    requires Apply(st, step).sessions[s].inHub && Apply(st, step).sessions[s].since == map[]
    ensures Attended(Apply(st, step), s)
  {
    var st' := Apply(st, step);
    assert st'.sessions[s].idleSince == st.sessions[s].idleSince;
    if s in st.creators {
      if step == Arm(s) { assert Timer(s, st'.now) in st'.timers; }
    } else if w :| w in st.streams && st.streams[w] == Stream(s, true) {
      if step == ArmAfterStream(w) {
        assert Timer(s, st'.now) in st'.timers;
      } else {
        assert w in st'.streams && st'.streams[w] == Stream(s, true);
      }
    } else {
      var t :| t in st.timers && t.session == s && st.sessions[s].idleSince <= t.idleBefore;
      assert t in st'.timers;
    }
  }

  lemma StepAttends(st: State, step: Step)
    requires AllStamped(st) && AllClosedOnce(st) && AllAttended(st) && Enabled(st, step)
    ensures AllAttended(Apply(st, step))
  {
    hide Stamped, Attended;
    var st' := Apply(st, step);
    forall s | s in st'.sessions && st'.sessions[s].inHub && st'.sessions[s].since == map[]
      ensures Attended(st', s)
    {
      if s in st.sessions && st.sessions[s].since == map[] {
        StillAttended(st, step, s);
      } else {
        NewlyAttended(st, step, s);
      }
    }
  }

  lemma NewlyAttended(st: State, step: Step, s: SessionId)
    requires Enabled(st, step) && s in Apply(st, step).sessions
    requires Apply(st, step).sessions[s].inHub && Apply(st, step).sessions[s].since == map[]
    requires s in st.sessions ==> st.sessions[s].since != map[] && ClosedOnce(st, s)
    ensures Attended(Apply(st, step), s)
  {
    var st' := Apply(st, step);
    if s in st.sessions {
      assert step.Cancel? && st'.streams[step.w] == Stream(s, true);
    }
  }

  lemma {:induction false} RunKeepsValid(st: State, steps: seq<Step>)
    requires Valid(st) && ValidRun(st, steps)
    ensures Valid(After(st, steps))
    decreases |steps|
  {
    if steps != [] {
      StepClosesOnce(st, steps[0]);
      StepStamps(st, steps[0]);
      StepStampsTimers(st, steps[0]);
      StepAttends(st, steps[0]);
      RunKeepsValid(Apply(st, steps[0]), steps[1..]);
    }
  }

  // ------------------------------------------------------------ main results

  /** In every run each shell is closed at most once, and only after its session left the hub. */
  lemma {:induction false} ShellClosedAtMostOnce(steps: seq<Step>, s: SessionId)
    requires ValidRun(Start(), steps) && s in After(Start(), steps).sessions
    ensures var st := After(Start(), steps);
            && st.sessions[s].shellCloses <= 1
            && (st.sessions[s].inHub || s in st.closing ==> st.sessions[s].shellCloses == 0)
            && (!st.sessions[s].inHub && s !in st.closing ==> st.sessions[s].shellCloses == 1)
  {
    RunKeepsValid(Start(), steps);
    assert ClosedOnce(After(Start(), steps), s);
  }

  /** When a timer closes a session, every subscription it ever had ended before the timer's baseline. */
  lemma {:induction false} IdleCloseSawNobody(steps: seq<Step>, t: Timer)
    requires ValidRun(Start(), steps) && Enabled(After(Start(), steps), Fire(t)) && Idle(After(Start(), steps), t)
    ensures var session := After(Start(), steps).sessions[t.session];
            session.since == map[] && forall v :: v in session.visits ==> v.until < t.idleBefore
  {
    RunKeepsValid(Start(), steps);
    assert Stamped(After(Start(), steps), t.session);
  }

  /**
   No session is forgotten: one in the hub that nobody watches has a timer that would close
   it now, or a creator or a leaving stream that is about to set one.
   */
  lemma {:induction false} IdleSessionsAreAttended(steps: seq<Step>, s: SessionId)
    requires ValidRun(Start(), steps) && s in After(Start(), steps).sessions
    requires After(Start(), steps).sessions[s].inHub && After(Start(), steps).sessions[s].since == map[]
    ensures var st := After(Start(), steps);
            || Enabled(st, Arm(s))
            || (exists w :: w in st.streams && st.streams[w].session == s && Enabled(st, ArmAfterStream(w)))
            || (exists t :: t in st.timers && t.session == s && Idle(st, t) && Apply(st, Fire(t)).sessions[s].closed)
  {
    RunKeepsValid(Start(), steps);
    var st := After(Start(), steps);
    assert Stamped(st, s) && Attended(st, s);
    if t :| t in st.timers && t.session == s && st.sessions[s].idleSince <= t.idleBefore {
      assert Apply(st, Fire(t)).sessions[s].closed;
    } else if w :| w in st.streams && st.streams[w] == Stream(s, true) {
      assert Enabled(st, ArmAfterStream(w));
    }
  }
}
