/**
 Runner admission under every interleaving.

 Any number of attempts observe, read Store counts, reserve, write the creating
 state and finish, while requests end at any time. No lock spans two of these
 steps. The model is one step relation over the admission ledger and the Store.
 */
module AdmissionProtocol {
  import opened AdmissionLedger
  import Sets

  type Attempt = nat
  type Request = nat

  /** Fixed for a run: the keys a request counts towards, and the limits (0 is unlimited except for Global). */
  datatype Env = Env(keys: Request -> set<Key>, limit: Dim -> int)

  /** A count the Store returned; `seen` is history: the in-flight attempts it was taken over. */
  datatype Reading = Reading(count: int, seen: set<Attempt>)

  /**
   `inflight` maps a request that took the creating transition and has not ended
   to the attempt that took it. `stray` holds requests that a stop moved to
   stopping without a creating transition: the Store counts them as well.
   */
  datatype State = State(
    ledger: Ledger<Attempt>,
    request: map<Attempt, Request>,
    readings: map<(Attempt, Dim), Reading>,
    written: set<Attempt>,
    inflight: map<Request, Attempt>,
    stray: set<Request>)

  datatype Step =
    | DoObserve(a: Attempt, r: Request)
    | DoCount(a: Attempt, d: Dim)
    | DoReserve(a: Attempt)
    | DoWrite(a: Attempt, ok: bool)
    | DoFinish(a: Attempt)
    | End(r: Request)
    | StopIdle(r: Request)

  predicate Limited(env: Env, d: Dim) {
    d.Global? || env.limit(d) > 0
  }

  /** Requests among `rs` that count towards `d`. */
  function Of(env: Env, rs: set<Request>, d: Dim): set<Request> {
    set r | r in rs && Covers(env.keys(r), d)
  }

  /** What the Store reports: every request in creating, running or stopping. */
  function StoreCount(env: Env, s: State, d: Dim): nat {
    |Of(env, s.inflight.Keys + s.stray, d)|
  }

  /** Reservations whose creating write has not happened. */
  function Unwritten(s: State): set<Attempt> {
    Reserved(s.ledger) - s.written
  }

  function Waiting(s: State, d: Dim): set<Attempt> {
    With(s.ledger.who, Unwritten(s), d)
  }

  /** Counted requests plus reserved-but-unwritten ones. */
  function Load(env: Env, s: State, d: Dim): nat {
    |Of(env, s.inflight.Keys, d)| + |Waiting(s, d)|
  }

  /** Every configured limit that applies to the attempt exceeds the load it must assume. */
  ghost predicate Admits(env: Env, s: State, a: Attempt)
    requires a in s.ledger.live && a in s.ledger.who
  {
    forall d :: Covers(s.ledger.who[a], d) && Limited(env, d) ==>
      (a, d) in s.readings && Assumed(s.ledger, a, s.readings[(a, d)].count, d) < env.limit(d)
  }

  ghost predicate Enabled(env: Env, s: State, step: Step) {
    match step
    case DoObserve(a, r) => a !in s.ledger.who
    case DoCount(a, d) => a in s.ledger.live
    case DoReserve(a) =>
      a in s.ledger.live && a in s.ledger.who && !s.ledger.live[a].reserved && Admits(env, s, a)
    case DoWrite(a, ok) =>
      && a in Unwritten(s) && a in s.request
      && (ok ==> s.request[a] !in s.inflight && s.request[a] !in s.stray)
    case DoFinish(a) => a in s.ledger.live
    case End(r) => r in s.inflight || r in s.stray
    case StopIdle(r) => r !in s.inflight && r !in s.stray
  }

  ghost function Apply(env: Env, s: State, step: Step): State
    requires Enabled(env, s, step)
  {
    match step
    case DoObserve(a, r) =>
      s.(ledger := Observe(s.ledger, a, env.keys(r)), request := s.request[a := r])
    case DoCount(a, d) =>
      s.(readings := s.readings[(a, d) := Reading(StoreCount(env, s, d), s.inflight.Values)])
    case DoReserve(a) => s.(ledger := Reserve(s.ledger, a))
    case DoWrite(a, ok) =>
      if ok then s.(inflight := s.inflight[s.request[a] := a], written := s.written + {a}) else s
    case DoFinish(a) => s.(ledger := Finish(s.ledger, a), written := s.written - {a})
    case End(r) => s.(inflight := s.inflight - {r}, stray := s.stray - {r})
    case StopIdle(r) => s.(stray := s.stray + {r})
  }

  ghost predicate ValidRun(env: Env, s: State, steps: seq<Step>)
    decreases |steps|
  {
    steps == [] || (Enabled(env, s, steps[0]) && ValidRun(env, Apply(env, s, steps[0]), steps[1..]))
  }

  ghost function After(env: Env, s: State, steps: seq<Step>): State
    requires ValidRun(env, s, steps)
    decreases |steps|
  {
    if steps == [] then s else After(env, Apply(env, s, steps[0]), steps[1..])
  }

  // ---------------------------------------------------------------- invariant

  ghost predicate WellFormed(env: Env, s: State) {
    && Consistent(s.ledger)
    && s.request.Keys == s.ledger.who.Keys
    && (forall a :: a in s.request ==> s.ledger.who[a] == env.keys(s.request[a]))
    && s.written <= Reserved(s.ledger)
    && s.inflight.Keys !! s.stray
    && (forall r :: r in s.inflight ==> s.inflight[r] in s.request && s.request[s.inflight[r]] == r)
    && (forall r :: r in s.inflight && s.inflight[r] in s.ledger.live ==> s.inflight[r] in s.written)
    && (forall k :: k in s.readings ==> k.0 in s.ledger.who && s.readings[k].seen <= s.ledger.who.Keys)
  }

  /** A count misses no in-flight attempt that neither `before` nor `since` records. */
  ghost predicate ReadingCovers(s: State, k: (Attempt, Dim))
    requires k in s.readings && k.0 in s.ledger.live
  {
    var e, reading := s.ledger.live[k.0], s.readings[k];
    && |With(s.ledger.who, reading.seen, k.1)| <= reading.count
    && s.inflight.Values <= reading.seen + e.before + e.since
  }

  ghost predicate Valid(env: Env, s: State) {
    && WellFormed(env, s)
    && forall k :: k in s.readings && k.0 in s.ledger.live ==> ReadingCovers(s, k)
  }

  /** A fresh process: nothing observed is live, any requests may already be in flight. */
  ghost predicate Start(env: Env, s: State) {
    WellFormed(env, s) && s.ledger.live == map[]
  }

  // ------------------------------------------------------------ preservation

  /** The in-flight attempts of `d` are at least as many as its in-flight requests, and conversely. */
  lemma InflightSizes(env: Env, s: State, d: Dim)
    requires WellFormed(env, s)
    ensures |Of(env, s.inflight.Keys, d)| == |With(s.ledger.who, s.inflight.Values, d)|
  {
    var rs := Of(env, s.inflight.Keys, d);
    var attempts := With(s.ledger.who, s.inflight.Values, d);
    Sets.InjectionSize(rs, attempts, s.inflight);
    Sets.InjectionSize(attempts, rs, s.request);
  }

  lemma CountIsCovered(env: Env, s: State, a: Attempt, d: Dim)
    requires Valid(env, s) && a in s.ledger.live
    ensures Valid(env, Apply(env, s, DoCount(a, d)))
  {
    var s' := Apply(env, s, DoCount(a, d));
    InflightSizes(env, s, d);
    Sets.SubsetSize(Of(env, s.inflight.Keys, d), Of(env, s.inflight.Keys + s.stray, d));
    forall k | k in s'.readings && k.0 in s'.ledger.live
      ensures ReadingCovers(s', k)
    {
      if k != (a, d) {
        assert ReadingCovers(s, k);
      }
    }
  }

  lemma LedgerStepKeepsReadings(env: Env, s: State, step: Step)
    requires Valid(env, s) && Enabled(env, s, step)
    requires step.DoObserve? || step.DoReserve? || step.DoFinish?
    ensures Valid(env, Apply(env, s, step))
  {
    var s' := Apply(env, s, step);
    OperationsKeepConsistent(s.ledger, step.a, if step.DoObserve? then env.keys(step.r) else {});
    forall k | k in s'.readings && k.0 in s'.ledger.live
      ensures ReadingCovers(s', k)
    {
      assert k.0 in s.ledger.live;
      assert ReadingCovers(s, k);
      assert With(s'.ledger.who, s.readings[k].seen, k.1) == With(s.ledger.who, s.readings[k].seen, k.1);
    }
  }

  lemma StepKeepsValid(env: Env, s: State, step: Step)
    requires Valid(env, s) && Enabled(env, s, step)
    ensures Valid(env, Apply(env, s, step))
  {
    var s' := Apply(env, s, step);
    match step
    case DoObserve(_, _) => LedgerStepKeepsReadings(env, s, step);
    case DoReserve(_) => LedgerStepKeepsReadings(env, s, step);
    case DoFinish(_) => LedgerStepKeepsReadings(env, s, step);
    case DoCount(a, d) => CountIsCovered(env, s, a, d);
    case DoWrite(a, ok) =>
      assert s'.inflight.Values <= s.inflight.Values + {a};
      forall k | k in s'.readings && k.0 in s'.ledger.live
        ensures ReadingCovers(s', k)
      {
        assert ReadingCovers(s, k);
      }
    case End(_) =>
      assert s'.inflight.Values <= s.inflight.Values;
      forall k | k in s'.readings && k.0 in s'.ledger.live
        ensures ReadingCovers(s', k)
      {
        assert ReadingCovers(s, k);
      }
    case StopIdle(_) =>
      forall k | k in s'.readings && k.0 in s'.ledger.live
        ensures ReadingCovers(s', k)
      {
        assert ReadingCovers(s, k);
      }
  }

  // ------------------------------------------------------------------ safety

  /**
   The heart of the protocol: whatever happened between the observation, the
   stale count and now, the load an attempt assumes is never below the real one.
   */
  lemma AssumedCoversLoad(env: Env, s: State, a: Attempt, d: Dim)
    requires Valid(env, s) && a in s.ledger.live && (a, d) in s.readings
    ensures Load(env, s, d) <= Assumed(s.ledger, a, s.readings[(a, d)].count, d)
  {
    var who, e, reading := s.ledger.who, s.ledger.live[a], s.readings[(a, d)];
    assert ReadingCovers(s, (a, d));
    var flying, waiting := With(who, s.inflight.Values, d), Waiting(s, d);
    InflightSizes(env, s, d);
    assert flying !! waiting;
    assert |flying + waiting| == |flying| + |waiting|;
    Sets.CoverSize(flying + waiting, With(who, reading.seen, d), With(who, e.before, d), With(who, e.since, d));
  }

  predicate Admission(s: State, step: Step, d: Dim) {
    step.DoReserve? && step.a in s.ledger.who && Covers(s.ledger.who[step.a], d)
  }

  predicate CreatingWrite(env: Env, s: State, step: Step, d: Dim) {
    step.DoWrite? && step.ok && step.a in s.request && Covers(env.keys(s.request[step.a]), d)
  }

  lemma UnwrittenAfter(env: Env, s: State, step: Step)
    requires WellFormed(env, s) && Enabled(env, s, step)
    ensures Unwritten(Apply(env, s, step)) ==
            if step.DoReserve? then Unwritten(s) + {step.a}
            else if step.DoFinish? || (step.DoWrite? && step.ok) then Unwritten(s) - {step.a}
            else Unwritten(s)
  {
    var s' := Apply(env, s, step);
    var reserved, reserved' := Reserved(s.ledger), Reserved(s'.ledger);
    match step
    case DoObserve(_, _) => assert reserved' == reserved;
    case DoReserve(a) => assert reserved' == reserved + {a};
    case DoFinish(a) => assert reserved' == reserved - {a};
    case _ =>
  }

  /** How each step changes the unwritten reservations that count towards `d`. */
  lemma WaitingAfter(env: Env, s: State, step: Step, d: Dim)
    requires WellFormed(env, s) && Enabled(env, s, step)
    ensures Waiting(Apply(env, s, step), d) ==
            if Admission(s, step, d) then Waiting(s, d) + {step.a}
            else if step.DoFinish? || CreatingWrite(env, s, step, d) then Waiting(s, d) - {step.a}
            else Waiting(s, d)
    ensures Admission(s, step, d) ==> step.a !in Waiting(s, d)
    ensures CreatingWrite(env, s, step, d) ==> step.a in Waiting(s, d)
  {
    UnwrittenAfter(env, s, step);
    WhoAfter(env, s, step);
    StepsOwnAttempt(env, s, step, d);
    hide *;
    WaitingIs(s, d);
    WaitingIs(Apply(env, s, step), d);
    var who, who', u := s.ledger.who, Apply(env, s, step).ledger.who, Unwritten(Apply(env, s, step));
    WithAgrees(who, who', u, d);
    if step.DoReserve? {
      WithAdded(who, Unwritten(s), step.a, d);
    } else if step.DoFinish? || step.DoWrite? {
      WithRemoved(who, Unwritten(s), step.a, d);
    }
  }

  lemma WaitingIs(s: State, d: Dim)
    ensures Waiting(s, d) == With(s.ledger.who, Unwritten(s), d)
  {
  }

  lemma WithAgrees(who: map<Attempt, set<Key>>, who': map<Attempt, set<Key>>, u: set<Attempt>, d: Dim)
    requires forall a :: a in u ==> a in who && a in who' && who'[a] == who[a]
    ensures With(who', u, d) == With(who, u, d)
  {
  }

  lemma WithAdded(who: map<Attempt, set<Key>>, u: set<Attempt>, a: Attempt, d: Dim)
    requires a in who && a !in u
    ensures With(who, u + {a}, d) == if Covers(who[a], d) then With(who, u, d) + {a} else With(who, u, d)
    ensures a !in With(who, u, d)
  {
  }

  lemma WithRemoved(who: map<Attempt, set<Key>>, u: set<Attempt>, a: Attempt, d: Dim)
    ensures With(who, u - {a}, d) == With(who, u, d) - {a}
    ensures a in u && a in who ==> (a in With(who, u, d) <==> Covers(who[a], d))
  {
  }

  /** Only an observation adds an attempt, and it is not one that holds a reservation. */
  lemma WhoAfter(env: Env, s: State, step: Step)
    requires WellFormed(env, s) && Enabled(env, s, step)
    ensures forall a :: a in Unwritten(s) ==> a in s.ledger.who
    ensures forall a :: a in s.ledger.who ==>
      a in Apply(env, s, step).ledger.who && Apply(env, s, step).ledger.who[a] == s.ledger.who[a]
  {
  }

  lemma StepsOwnAttempt(env: Env, s: State, step: Step, d: Dim)
    requires WellFormed(env, s) && Enabled(env, s, step)
    ensures step.DoReserve? ==> step.a in s.ledger.who && step.a !in Unwritten(s) && (Admission(s, step, d) <==> Covers(s.ledger.who[step.a], d))
    ensures step.DoWrite? ==>
      step.a in Unwritten(s) && step.a in s.ledger.who && (CreatingWrite(env, s, step, d) <==> step.ok && Covers(s.ledger.who[step.a], d))
    ensures Admission(s, step, d) ==> step.DoReserve?
    ensures CreatingWrite(env, s, step, d) ==> step.DoWrite?
  {
  }

  lemma WaitingSize(env: Env, s: State, step: Step, d: Dim)
    requires WellFormed(env, s) && Enabled(env, s, step)
    ensures Admission(s, step, d) ==> |Waiting(Apply(env, s, step), d)| == |Waiting(s, d)| + 1
    ensures CreatingWrite(env, s, step, d) ==> |Waiting(Apply(env, s, step), d)| == |Waiting(s, d)| - 1
    ensures !Admission(s, step, d) ==> |Waiting(Apply(env, s, step), d)| <= |Waiting(s, d)|
  {
    WaitingAfter(env, s, step, d);
    if !Admission(s, step, d) {
      Sets.SubsetSize(Waiting(Apply(env, s, step), d), Waiting(s, d));
    }
  }

  /** How each step changes the in-flight requests that count towards `d`. */
  lemma InflightAfter(env: Env, s: State, step: Step, d: Dim)
    requires WellFormed(env, s) && Enabled(env, s, step)
    ensures |Of(env, Apply(env, s, step).inflight.Keys, d)| <=
            |Of(env, s.inflight.Keys, d)| + if CreatingWrite(env, s, step, d) then 1 else 0
  {
    var s' := Apply(env, s, step);
    match step
    case DoWrite(a, ok) =>
      if ok {
        assert s'.inflight.Keys == s.inflight.Keys + {s.request[a]};
        OfOneMore(env, s.inflight.Keys, s.request[a], d);
      }
    case End(r) => Sets.SubsetSize(Of(env, s'.inflight.Keys, d), Of(env, s.inflight.Keys, d));
    case _ =>
  }

  /** A step raises the load of `d` only by admitting one attempt, and then to at most the limit. */
  lemma StepRaisesLoadOnlyToLimit(env: Env, s: State, step: Step, d: Dim)
    requires Valid(env, s) && Enabled(env, s, step) && Limited(env, d)
    ensures Load(env, Apply(env, s, step), d) <= Load(env, s, d) ||
            (Admission(s, step, d) && Load(env, Apply(env, s, step), d) <= env.limit(d))
  {
    WaitingSize(env, s, step, d);
    InflightAfter(env, s, step, d);
    if Admission(s, step, d) {
      AssumedCoversLoad(env, s, step.a, d);
    }
  }

  function Max(a: int, b: int): int { if a < b then b else a }

  lemma {:induction false} RunKeepsBound(env: Env, s: State, steps: seq<Step>, d: Dim, bound: int)
    requires Valid(env, s) && ValidRun(env, s, steps) && Limited(env, d)
    requires Load(env, s, d) <= bound && env.limit(d) <= bound
    ensures Valid(env, After(env, s, steps))
    ensures Load(env, After(env, s, steps), d) <= bound
    decreases |steps|
  {
    if steps != [] {
      StepKeepsValid(env, s, steps[0]);
      StepRaisesLoadOnlyToLimit(env, s, steps[0], d);
      RunKeepsBound(env, Apply(env, s, steps[0]), steps[1..], d, bound);
    }
  }

  /**
   In every run from a fresh process, counted requests plus reserved-but-unwritten
   ones stay within each configured limit, or within what was in flight at the start.
   */
  lemma {:induction false} AdmissionNeverExceedsLimit(env: Env, s: State, steps: seq<Step>, d: Dim)
    requires Start(env, s) && ValidRun(env, s, steps) && (d.Global? || env.limit(d) > 0)
    ensures Load(env, After(env, s, steps), d) <= Max(env.limit(d), Load(env, s, d))
  {
    RunKeepsBound(env, s, steps, d, Max(env.limit(d), Load(env, s, d)));
  }

  // -------------------------------------------------- the Store's own count

  /** The Store's in-flight count plus reservations that no write has turned into a count. */
  function StoreLoad(env: Env, s: State, d: Dim): nat {
    StoreCount(env, s, d) + |Waiting(s, d)|
  }

  /** The Store's figure exceeds the protocol's by exactly the requests stopped without a creating transition. */
  lemma StoreLoadIsLoadPlusStray(env: Env, s: State, d: Dim)
    requires WellFormed(env, s)
    ensures StoreLoad(env, s, d) == Load(env, s, d) + |Of(env, s.stray, d)|
  {
    var a, b := Of(env, s.inflight.Keys, d), Of(env, s.stray, d);
    assert Of(env, s.inflight.Keys + s.stray, d) == a + b;
    assert a !! b;
  }

  /**
   "Only creating transitions increase in-flight capacity" fails for the Store's
   figure, and fails exactly here: besides an admission, the one step that raises
   it is a stop of a request that was not in flight.
   */
  lemma StoreLoadGrowsExactlyWhen(env: Env, s: State, step: Step, d: Dim)
    requires Valid(env, s) && Enabled(env, s, step)
    ensures StoreLoad(env, Apply(env, s, step), d) > StoreLoad(env, s, d) <==>
            Admission(s, step, d) || (step.StopIdle? && Covers(env.keys(step.r), d))
  {
    WaitingSize(env, s, step, d);
    StoreCountAfter(env, s, step, d);
  }

  lemma StoreCountAfter(env: Env, s: State, step: Step, d: Dim)
    requires WellFormed(env, s) && Enabled(env, s, step)
    ensures var grows := CreatingWrite(env, s, step, d) || (step.StopIdle? && Covers(env.keys(step.r), d));
            if grows then StoreCount(env, Apply(env, s, step), d) == StoreCount(env, s, d) + 1
            else StoreCount(env, Apply(env, s, step), d) <= StoreCount(env, s, d)
    ensures Admission(s, step, d) ==> StoreCount(env, Apply(env, s, step), d) == StoreCount(env, s, d)
  {
    var s' := Apply(env, s, step);
    var all, all' := s.inflight.Keys + s.stray, s'.inflight.Keys + s'.stray;
    match step
    case DoWrite(a, ok) =>
      if ok {
        assert all' == all + {s.request[a]};
        OfOneMore(env, all, s.request[a], d);
      }
    case StopIdle(r) =>
      assert all' == all + {r};
      OfOneMore(env, all, r, d);
    case End(r) =>
      assert all' == all - {r};
      Sets.SubsetSize(Of(env, all - {r}, d), Of(env, all, d));
    case _ =>
  }

  lemma OfOneMore(env: Env, rs: set<Request>, r: Request, d: Dim)
    requires r !in rs
    ensures |Of(env, rs + {r}, d)| == |Of(env, rs, d)| + if Covers(env.keys(r), d) then 1 else 0
  {
    assert Of(env, rs + {r}, d) == if Covers(env.keys(r), d) then Of(env, rs, d) + {r} else Of(env, rs, d);
  }

  function OneInFlight(): State {
    State(Ledger(map[], map[0 := {}]), map[0 := 7], map[], {}, map[7 := 0], {})
  }

  /** A concrete run in which the Store's in-flight count passes the limit: stop a queued request at capacity. */
  lemma StopOfQueuedRequestPassesLimit(env: Env)
    requires env.keys(7) == {} && env.limit(Global) == 1
    ensures Start(env, OneInFlight()) && StoreCount(env, OneInFlight(), Global) == 1
    ensures Enabled(env, OneInFlight(), StopIdle(8))
    ensures StoreCount(env, Apply(env, OneInFlight(), StopIdle(8)), Global) == 2
  {
    var s := OneInFlight();
    assert s.inflight.Keys == {7};
    EveryoneIsGlobal(env, {7});
    EveryoneIsGlobal(env, {7, 8});
    hide Of;
    assert s.inflight.Keys + s.stray == {7};
    var s' := Apply(env, s, StopIdle(8));
    assert s'.inflight.Keys + s'.stray == {7, 8};
  }

  lemma EveryoneIsGlobal(env: Env, rs: set<Request>)
    ensures Of(env, rs, Global) == rs
  {
  }
}
