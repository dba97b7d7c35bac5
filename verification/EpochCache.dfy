/**
 Caches guarded by an invalidation epoch, with loads shared between readers.

 Two caches of the server follow this scheme: the repository access of an account,
 whose readers recheck the epoch before they use a shared load (`Recheck`), and the
 public runner templates, whose loads are discarded when the epoch moved (`Discard`).
 A load is identified by when it began; every step happens at its own time.
 */
module EpochCache {
  import opened Basics

  type Account = nat
  type ReaderId = nat

  datatype Policy = Recheck | Discard

  /** A shared load of one account, started for one epoch. */
  datatype Flight = Starting | Loading(begun: nat) | Loaded(begun: nat)

  datatype Phase =
    | Start
    | LoopHead
    | Joining
    | Waiting
    | Got(begun: nat)
    | Returned(loadBegun: nat, at: nat)
    | Failed

  /**
   `began` is when the read was called. `epoch` is the epoch of the current round,
   `first` that of the first round and `rounds` how many rounds there were.
   */
  datatype Reader = Reader(account: Account, began: nat, phase: Phase, epoch: nat, first: nat, rounds: nat)

  /** `invalidations` holds the times of an account's invalidations; their number is its epoch. */
  datatype State = State(
    now: nat,
    cache: map<Account, nat>,
    invalidations: map<Account, seq<nat>>,
    flights: map<(Account, nat), Flight>,
    readers: map<ReaderId, Reader>)

  datatype Step =
    | Call(r: ReaderId, a: Account, background: bool)
    | Hit(r: ReaderId)
    | Miss(r: ReaderId)
    | ReadEpoch(r: ReaderId)
    | Join(r: ReaderId)
    | BeginLoad(a: Account, e: nat)
    | EndLoad(a: Account, e: nat, evicted: Option<Account>)
    | FlightHit(a: Account, e: nat)
    | Deliver(a: Account, e: nat)
    | FailLoad(a: Account, e: nat, rejected: bool)
    | Check(r: ReaderId)
    | GiveUp(r: ReaderId)
    | Invalidate(a: Account)
    | Expire(a: Account)

  /** The most accounts the repository access cache holds. */
  const MAX_ITEMS: nat := 512

  function Times(st: State, a: Account): seq<nat> {
    if a in st.invalidations then st.invalidations[a] else []
  }

  function Epoch(st: State, a: Account): nat { |Times(st, a)| }

  predicate Enabled(policy: Policy, st: State, step: Step) {
    match step
    case Call(r, a, _) => r !in st.readers
    case Hit(r) => r in st.readers && st.readers[r].phase.Start? && st.readers[r].account in st.cache
    case Miss(r) => r in st.readers && st.readers[r].phase.Start?
    case ReadEpoch(r) => r in st.readers && st.readers[r].phase.LoopHead?
    case Join(r) => r in st.readers && st.readers[r].phase.Joining?
    case BeginLoad(a, e) =>
      (a, e) in st.flights && st.flights[(a, e)].Starting? && (policy.Discard? ==> Epoch(st, a) == e)
    case EndLoad(a, e, evicted) =>
      && (a, e) in st.flights && st.flights[(a, e)].Loading?
      && (evicted.Some? <==> policy.Recheck? && Epoch(st, a) == e && Full(st.cache, a))
      && (evicted.Some? ==> evicted.value in st.cache)
    case FlightHit(a, e) =>
      policy.Discard? && (a, e) in st.flights && st.flights[(a, e)].Starting? && Epoch(st, a) == e && a in st.cache
    case Deliver(a, e) =>
      && (a, e) in st.flights
      && (st.flights[(a, e)].Loaded? || (policy.Discard? && st.flights[(a, e)].Starting? && Epoch(st, a) != e))
    case FailLoad(a, e, _) => (a, e) in st.flights && st.flights[(a, e)].Loading?
    case Check(r) => r in st.readers && st.readers[r].phase.Got?
    case GiveUp(r) => r in st.readers && !st.readers[r].phase.Returned?
    case Invalidate(_) => true
    case Expire(a) => a in st.cache
  }

  predicate Full<V>(cache: map<Account, V>, a: Account) {
    a !in cache && |cache| >= MAX_ITEMS
  }

  /** The cache after storing `v` for `a`, making room by dropping `evicted`. */
  function Stored<V>(cache: map<Account, V>, a: Account, v: V, evicted: Option<Account>): map<Account, V> {
    (if evicted.Some? then cache - {evicted.value} else cache)[a := v]
  }

  function Bumped(st: State, a: Account): State {
    st.(invalidations := st.invalidations[a := Times(st, a) + [st.now]], cache := st.cache - {a})
  }

  /** Hands a finished flight's outcome to every reader waiting on it. */
  function Released(st: State, a: Account, e: nat, outcome: Phase): State {
    st.(flights := st.flights - {(a, e)},
        readers := map r | r in st.readers ::
          if st.readers[r].phase.Waiting? && st.readers[r].account == a && st.readers[r].epoch == e
          then st.readers[r].(phase := outcome) else st.readers[r])
  }

  function Moved(st: State, r: ReaderId, phase: Phase): State
    requires r in st.readers
  {
    st.(readers := st.readers[r := st.readers[r].(phase := phase)])
  }

  function Apply(policy: Policy, before: State, step: Step): State
    requires Enabled(policy, before, step)
  {
    var st := before.(now := before.now + 1);
    match step
    case Call(r, a, background) =>
      st.(readers := st.readers[r := Reader(a, st.now, if policy.Recheck? && !background then Start else LoopHead, 0, 0, 0)])
    case Hit(r) => Moved(st, r, Returned(st.cache[st.readers[r].account], st.now))
    case Miss(r) => Moved(st, r, LoopHead)
    case ReadEpoch(r) =>
      var reader := st.readers[r];
      var e := Epoch(st, reader.account);
      if policy.Discard? && reader.account in st.cache then
        Moved(st, r, Returned(st.cache[reader.account], st.now))
      else
        st.(readers := st.readers[r := reader.(phase := Joining, epoch := e, rounds := reader.rounds + 1,
                                              first := if reader.rounds == 0 then e else reader.first)])
    case Join(r) =>
      var key := (st.readers[r].account, st.readers[r].epoch);
      Moved(st.(flights := if key in st.flights then st.flights else st.flights[key := Starting]), r, Waiting)
    case BeginLoad(a, e) => st.(flights := st.flights[(a, e) := Loading(st.now)])
    case EndLoad(a, e, evicted) =>
      var begun := st.flights[(a, e)].begun;
      if Epoch(st, a) == e then
        st.(cache := Stored(st.cache, a, begun, evicted), flights := st.flights[(a, e) := Loaded(begun)])
      else if policy.Discard? then Released(st, a, e, LoopHead)
      else st.(flights := st.flights[(a, e) := Loaded(begun)])
    case FlightHit(a, e) => st.(flights := st.flights[(a, e) := Loaded(st.cache[a])])
    case Deliver(a, e) =>
      if st.flights[(a, e)].Loaded? then Released(st, a, e, Got(st.flights[(a, e)].begun))
      else Released(st, a, e, LoopHead)
    case FailLoad(a, e, rejected) =>
      Released(if policy.Recheck? && rejected && Epoch(st, a) == e then Bumped(st, a) else st, a, e, Failed)
    case Check(r) =>
      var reader := st.readers[r];
      if policy.Discard? || Epoch(st, reader.account) == reader.epoch
      then Moved(st, r, Returned(reader.phase.begun, st.now)) else Moved(st, r, LoopHead)
    case GiveUp(r) => Moved(st, r, Failed)
    case Invalidate(a) => Bumped(st, a)
    case Expire(a) => st.(cache := st.cache - {a})
  }

  predicate ValidRun(policy: Policy, st: State, steps: seq<Step>)
    decreases |steps|
  {
    steps == [] || (Enabled(policy, st, steps[0]) && ValidRun(policy, Apply(policy, st, steps[0]), steps[1..]))
  }

  function After(policy: Policy, st: State, steps: seq<Step>): State
    requires ValidRun(policy, st, steps)
    decreases |steps|
  {
    if steps == [] then st else After(policy, Apply(policy, st, steps[0]), steps[1..])
  }

  function Empty(): State { State(0, map[], map[], map[], map[]) }

  // --------------------------------------------------------------- invariant

  /** The load began after the first `e` invalidations. */
  ghost predicate Fresh(times: seq<nat>, e: nat, begun: nat) {
    e <= |times| && forall i :: 0 <= i < e ==> times[i] < begun
  }

  /** Every invalidation before time `t` is among the first `e`. */
  ghost predicate Knows(times: seq<nat>, e: nat, t: nat) {
    forall i :: 0 <= i < |times| && times[i] < t ==> i < e
  }

  ghost predicate ReaderValid(policy: Policy, times: seq<nat>, now: nat, reader: Reader) {
    && reader.began <= now
    && (reader.rounds > 0 ==> reader.rounds <= 1 + |times| - reader.first)
    && match reader.phase
       case Start => reader.rounds == 0
       case LoopHead => reader.rounds > 0 ==> reader.rounds <= |times| - reader.first
       case Returned(load, at) =>
         && reader.began <= at <= now
         && (forall i :: 0 <= i < |times| && times[i] < (if policy.Recheck? then at else reader.began) ==> times[i] < load)
       case Failed => true
       case _ =>
         && reader.rounds >= 1 && reader.epoch <= |times| && Knows(times, reader.epoch, reader.began)
         && reader.rounds - 1 <= reader.epoch - reader.first
         && (reader.phase.Got? ==> Fresh(times, reader.epoch, reader.phase.begun))
  }

  ghost predicate FlightValid(times: seq<nat>, e: nat, flight: Flight) {
    e <= |times| && (flight.Starting? || Fresh(times, e, flight.begun))
  }

  ghost predicate TimesPast(st: State) {
    forall a, i :: a in st.invalidations && 0 <= i < |st.invalidations[a]| ==> st.invalidations[a][i] <= st.now
  }

  ghost predicate CacheFresh(st: State) {
    forall a :: a in st.cache ==> Fresh(Times(st, a), Epoch(st, a), st.cache[a])
  }

  ghost predicate FlightsFresh(st: State) {
    forall k :: k in st.flights ==> FlightValid(Times(st, k.0), k.1, st.flights[k])
  }

  ghost predicate ReadersFresh(policy: Policy, st: State) {
    forall r :: r in st.readers ==> ReaderValid(policy, Times(st, st.readers[r].account), st.now, st.readers[r])
  }

  /** Every waiting reader has a flight that will answer it. */
  ghost predicate Attended(st: State) {
    forall r :: r in st.readers && st.readers[r].phase.Waiting? ==>
      (st.readers[r].account, st.readers[r].epoch) in st.flights
  }

  ghost predicate Valid(policy: Policy, st: State) {
    && TimesPast(st) && CacheFresh(st) && FlightsFresh(st) && ReadersFresh(policy, st) && Attended(st)
    && (policy.Recheck? ==> |st.cache| <= MAX_ITEMS)
  }

  lemma ReaderAges(policy: Policy, times: seq<nat>, now: nat, later: nat, reader: Reader)
    requires ReaderValid(policy, times, now, reader) && now <= later
    ensures ReaderValid(policy, times, later, reader)
  {
  }

  lemma ReaderOutlivesInvalidation(policy: Policy, times: seq<nat>, now: nat, reader: Reader)
    requires ReaderValid(policy, times, now, reader)
    ensures ReaderValid(policy, times + [now + 1], now + 1, reader)
  {
  }

  lemma StepKeepsTimes(policy: Policy, st: State, step: Step)
    requires Enabled(policy, st, step) && TimesPast(st)
    ensures TimesPast(Apply(policy, st, step))
  {
  }

  /** An invalidation extends exactly one account's times, at the time of the step. */
  lemma StepTimes(policy: Policy, st: State, step: Step, a: Account)
    requires Enabled(policy, st, step)
    ensures var after := Apply(policy, st, step);
      && after.now == st.now + 1
      && (Times(after, a) == Times(st, a) || (Times(after, a) == Times(st, a) + [after.now] && a !in after.cache))
  {
  }

  lemma StepKeepsEntry(policy: Policy, st: State, step: Step, a: Account)
    requires Enabled(policy, st, step) && CacheFresh(st) && FlightsFresh(st)
    requires a in Apply(policy, st, step).cache
    ensures var after := Apply(policy, st, step); Fresh(Times(after, a), Epoch(after, a), after.cache[a])
  {
    hide Fresh;
    StepTimes(policy, st, step, a);
  }

  lemma StepKeepsSize(policy: Policy, st: State, step: Step)
    requires Enabled(policy, st, step) && policy.Recheck? && |st.cache| <= MAX_ITEMS
    ensures |Apply(policy, st, step).cache| <= MAX_ITEMS
  {
    match step
    case EndLoad(a, e, evicted) =>
      if Epoch(st, a) == e {
        StoredSize(st.cache, a, st.flights[(a, e)].begun, evicted);
      }
    case FailLoad(a, e, _) => DroppedSize(st.cache, a);
    case Invalidate(a) => DroppedSize(st.cache, a);
    case Expire(a) => DroppedSize(st.cache, a);
    case _ =>
  }

  lemma DroppedSize<V>(cache: map<Account, V>, a: Account)
    ensures |cache - {a}| == |cache| - if a in cache then 1 else 0
  {
    assert (cache - {a}).Keys == cache.Keys - {a};
  }

  /** Storing keeps the cache within its bound when room is made exactly if it is full. */
  lemma StoredSize<V>(cache: map<Account, V>, a: Account, v: V, evicted: Option<Account>)
    requires |cache| <= MAX_ITEMS
    requires Full(cache, a) ==> evicted.Some? && evicted.value in cache
    ensures |Stored(cache, a, v, evicted)| <= MAX_ITEMS
  {
    if evicted.Some? {
      DroppedSize(cache, evicted.value);
    }
    var kept := if evicted.Some? then cache - {evicted.value} else cache;
    assert kept[a := v].Keys == kept.Keys + {a};
  }

  lemma FlightOutlivesInvalidation(times: seq<nat>, at: nat, e: nat, flight: Flight)
    requires FlightValid(times, e, flight)
    ensures FlightValid(times + [at], e, flight)
  {
  }

  /** A step that makes or moves a flight leaves it fresh for its epoch. */
  lemma OwnStepKeepsFlight(policy: Policy, st: State, step: Step, k: (Account, nat))
    requires Enabled(policy, st, step) && Valid(policy, st)
    requires step.Join? || step.BeginLoad? || step.EndLoad? || step.FlightHit?
    requires k in Apply(policy, st, step).flights
    ensures FlightValid(Times(st, k.0), k.1, Apply(policy, st, step).flights[k])
  {
    if k in st.flights {
      assert FlightValid(Times(st, k.0), k.1, st.flights[k]);
    }
  }

  lemma StepKeepsFlight(policy: Policy, st: State, step: Step, k: (Account, nat))
    requires Enabled(policy, st, step) && Valid(policy, st)
    requires k in Apply(policy, st, step).flights
    ensures var after := Apply(policy, st, step); FlightValid(Times(after, k.0), k.1, after.flights[k])
  {
    hide FlightValid, ReaderValid, Fresh;
    StepTimes(policy, st, step, k.0);
    if step.Join? || step.BeginLoad? || step.EndLoad? || step.FlightHit? {
      OwnStepKeepsFlight(policy, st, step, k);
    } else {
      assert FlightValid(Times(st, k.0), k.1, st.flights[k]);
      FlightOutlivesInvalidation(Times(st, k.0), st.now + 1, k.1, st.flights[k]);
    }
  }

  /** A reader the step does not move keeps its claim, whether or not its account was invalidated. */
  lemma OtherReaderKept(policy: Policy, st: State, step: Step, reader: Reader)
    requires Enabled(policy, st, step)
    requires ReaderValid(policy, Times(st, reader.account), st.now, reader)
    ensures ReaderValid(policy, Times(Apply(policy, st, step), reader.account), st.now + 1, reader)
  {
    StepTimes(policy, st, step, reader.account);
    var times := Times(st, reader.account);
    if Times(Apply(policy, st, step), reader.account) == times {
      ReaderAges(policy, times, st.now, st.now + 1, reader);
    } else {
      ReaderOutlivesInvalidation(policy, times, st.now, reader);
    }
  }

  /** A reader's own step: its round is fresh for every invalidation it must know of. */
  lemma OwnStepKeepsReader(policy: Policy, st: State, step: Step, r: ReaderId)
    requires Enabled(policy, st, step) && TimesPast(st) && CacheFresh(st)
    requires step in {Hit(r), Miss(r), ReadEpoch(r), Join(r), Check(r), GiveUp(r)}
    requires ReaderValid(policy, Times(st, st.readers[r].account), st.now, st.readers[r])
    ensures var after := Apply(policy, st, step);
      ReaderValid(policy, Times(after, after.readers[r].account), after.now, after.readers[r])
  {
  }

  /** A flight hands a waiting reader a load that is fresh for the reader's epoch. */
  lemma ReleaseKeepsReader(policy: Policy, times: seq<nat>, now: nat, reader: Reader, outcome: Phase)
    requires reader.phase.Waiting? && ReaderValid(policy, times, now, reader)
    requires
      || outcome.Failed?
      || (outcome.LoopHead? && reader.epoch != |times|)
      || (outcome.Got? && Fresh(times, reader.epoch, outcome.begun))
    ensures ReaderValid(policy, times, now, reader.(phase := outcome))
  {
  }

  lemma FlightStepKeepsReader(policy: Policy, st: State, step: Step, r: ReaderId)
    requires Enabled(policy, st, step) && FlightsFresh(st)
    requires step.EndLoad? || step.Deliver? || step.FailLoad?
    requires r in st.readers && ReaderValid(policy, Times(st, st.readers[r].account), st.now, st.readers[r])
    ensures var after := Apply(policy, st, step);
      ReaderValid(policy, Times(after, after.readers[r].account), after.now, after.readers[r])
  {
    hide Fresh, Knows, ReaderValid;
    var after := Apply(policy, st, step);
    var reader := st.readers[r];
    OtherReaderKept(policy, st, step, reader);
    if after.readers[r] != reader {
      assert FlightValid(Times(st, step.a), step.e, st.flights[(step.a, step.e)]);
      ReleaseKeepsReader(policy, Times(after, reader.account), after.now, reader, after.readers[r].phase);
    }
  }

  lemma StepKeepsReader(policy: Policy, st: State, step: Step, r: ReaderId)
    requires Enabled(policy, st, step) && Valid(policy, st)
    requires r in Apply(policy, st, step).readers
    ensures var after := Apply(policy, st, step);
      ReaderValid(policy, Times(after, after.readers[r].account), after.now, after.readers[r])
  {
    hide ReaderValid, FlightsFresh, CacheFresh;
    if step.Call? && step.r == r {
      NewReader(policy, st, step);
    } else if step.EndLoad? || step.Deliver? || step.FailLoad? {
      FlightStepKeepsReader(policy, st, step, r);
    } else if step in {Hit(r), Miss(r), ReadEpoch(r), Join(r), Check(r), GiveUp(r)} {
      OwnStepKeepsReader(policy, st, step, r);
    } else {
      OtherReaderKept(policy, st, step, st.readers[r]);
    }
  }

  lemma NewReader(policy: Policy, st: State, step: Step)
    requires step.Call? && Enabled(policy, st, step)
    ensures var after := Apply(policy, st, step);
      ReaderValid(policy, Times(after, after.readers[step.r].account), after.now, after.readers[step.r])
  {
  }

  lemma StepKeepsAttended(policy: Policy, st: State, step: Step, r: ReaderId)
    requires Enabled(policy, st, step) && Attended(st)
    requires r in Apply(policy, st, step).readers && Apply(policy, st, step).readers[r].phase.Waiting?
    ensures var after := Apply(policy, st, step); (after.readers[r].account, after.readers[r].epoch) in after.flights
  {
  }

  lemma StepKeepsValid(policy: Policy, st: State, step: Step)
    requires Enabled(policy, st, step) && Valid(policy, st)
    ensures Valid(policy, Apply(policy, st, step))
  {
    hide Apply, Enabled, Fresh, ReaderValid, FlightValid, TimesPast;
    var after := Apply(policy, st, step);
    StepKeepsTimes(policy, st, step);
    forall a | a in after.cache ensures Fresh(Times(after, a), Epoch(after, a), after.cache[a]) {
      StepKeepsEntry(policy, st, step, a);
    }
    forall k | k in after.flights ensures FlightValid(Times(after, k.0), k.1, after.flights[k]) {
      StepKeepsFlight(policy, st, step, k);
    }
    forall r | r in after.readers
      ensures ReaderValid(policy, Times(after, after.readers[r].account), after.now, after.readers[r])
    {
      StepKeepsReader(policy, st, step, r);
    }
    forall r | r in after.readers && after.readers[r].phase.Waiting?
      ensures (after.readers[r].account, after.readers[r].epoch) in after.flights
    {
      StepKeepsAttended(policy, st, step, r);
    }
    if policy.Recheck? {
      StepKeepsSize(policy, st, step);
    }
  }

  lemma {:induction false} RunKeepsValid(policy: Policy, st: State, steps: seq<Step>)
    requires Valid(policy, st) && ValidRun(policy, st, steps)
    ensures Valid(policy, After(policy, st, steps))
    decreases |steps|
  {
    hide Apply, Enabled, Valid;
    if steps != [] {
      StepKeepsValid(policy, st, steps[0]);
      RunKeepsValid(policy, Apply(policy, st, steps[0]), steps[1..]);
    }
  }

  // ------------------------------------------------------- what loads are for

  /**
   A load that ends in the epoch it was started for is cached, at the cost of the evicted account only;
   one that ends in a later epoch is not: it leaves the cache as it was, and where loads are discarded
   those who waited on it start another round.
   */
  lemma CurrentLoadsAreCached(policy: Policy, st: State, a: Account, e: nat, evicted: Option<Account>)
    requires Enabled(policy, st, EndLoad(a, e, evicted))
    ensures var after := Apply(policy, st, EndLoad(a, e, evicted));
      && (Epoch(st, a) == e ==>
            && a in after.cache && after.cache[a] == st.flights[(a, e)].begun
            && after.flights == st.flights[(a, e) := Loaded(st.flights[(a, e)].begun)]
            && (forall b :: b in st.cache && b != a ==> (b in after.cache && after.cache[b] == st.cache[b]) || evicted == Some(b))
            && (forall b :: b in after.cache ==> b in st.cache || b == a))
      && (Epoch(st, a) != e ==> after.cache == st.cache && after.invalidations == st.invalidations)
      && (Epoch(st, a) != e && policy.Discard? ==>
            && (a, e) !in after.flights
            && forall r :: r in st.readers && st.readers[r].phase.Waiting? && st.readers[r].account == a && st.readers[r].epoch == e ==>
                 after.readers[r].phase.LoopHead?)
      && (evicted.Some? ==> policy.Recheck? && a !in st.cache && |st.cache| >= 512)
  {
  }

  /**
   A read answers from the cache when it can: an account's read looks there first unless it is a refresh in the
   background, a template read in every round. What it finds it returns at once; otherwise its round is for the current epoch.
   */
  lemma ReadsLookInTheCache(policy: Policy, st: State, r: ReaderId, a: Account, background: bool)
    ensures Enabled(policy, st, Call(r, a, background)) ==>
      var reader := Apply(policy, st, Call(r, a, background)).readers[r];
      reader.account == a && reader.rounds == 0 && (reader.phase == if policy.Recheck? && !background then Start else LoopHead)
    ensures Enabled(policy, st, Hit(r)) ==>
      Apply(policy, st, Hit(r)).readers[r].phase == Returned(st.cache[st.readers[r].account], st.now + 1)
    ensures Enabled(policy, st, ReadEpoch(r)) ==>
      var before, reader := st.readers[r], Apply(policy, st, ReadEpoch(r)).readers[r];
      if policy.Discard? && before.account in st.cache then reader.phase == Returned(st.cache[before.account], st.now + 1)
      else reader.phase.Joining? && reader.epoch == Epoch(st, before.account) && reader.rounds == before.rounds + 1
    ensures forall e :: Enabled(policy, st, FlightHit(a, e)) ==>
      Apply(policy, st, FlightHit(a, e)).flights[(a, e)] == Loaded(st.cache[a])
  {
  }

  /** A reader that was handed a load returns it, unless it rechecks and finds its account invalidated: then it starts another round. */
  lemma HandedLoadsAreReturned(policy: Policy, st: State, r: ReaderId)
    requires Enabled(policy, st, Check(r))
    ensures var before, reader := st.readers[r], Apply(policy, st, Check(r)).readers[r];
      if policy.Recheck? && Epoch(st, before.account) != before.epoch then reader.phase.LoopHead? && reader.rounds == before.rounds
      else reader.phase == Returned(before.phase.begun, st.now + 1)
  {
  }

  /** Everyone who waits on a load is handed it; a load that was outrun by an invalidation sends them round again. */
  lemma WaitersShareTheLoad(policy: Policy, st: State, a: Account, e: nat, r: ReaderId)
    requires Enabled(policy, st, Deliver(a, e)) && r in st.readers
    ensures var after := Apply(policy, st, Deliver(a, e));
      && (a, e) !in after.flights && r in after.readers
      && (if st.readers[r].phase.Waiting? && st.readers[r].account == a && st.readers[r].epoch == e
          then after.readers[r] == st.readers[r].(phase := if st.flights[(a, e)].Loaded? then Got(st.flights[(a, e)].begun) else LoopHead)
          else after.readers[r] == st.readers[r])
  {
  }

  /** A reader joins the load that is under way for its epoch, or starts one; only one is ever under way. */
  lemma ReadersJoinTheLoadUnderWay(policy: Policy, st: State, r: ReaderId)
    requires Enabled(policy, st, Join(r))
    ensures var after := Apply(policy, st, Join(r));
      var key := (st.readers[r].account, st.readers[r].epoch);
      && after.readers[r].phase.Waiting? && key in after.flights
      && (forall k :: k in st.flights ==> k in after.flights && after.flights[k] == st.flights[k])
      && (forall k :: k in after.flights ==> k in st.flights || (k == key && after.flights[k].Starting?))
  {
  }

  /** A load that GitHub rejects invalidates its account, if it is still in the load's epoch and readers recheck; no other failure does. */
  lemma RejectedLoadsInvalidate(policy: Policy, st: State, a: Account, e: nat, rejected: bool, b: Account)
    requires Enabled(policy, st, FailLoad(a, e, rejected))
    ensures var after := Apply(policy, st, FailLoad(a, e, rejected));
      var invalidates := policy.Recheck? && rejected && Epoch(st, a) == e;
      && Epoch(after, b) == Epoch(st, b) + (if invalidates && a == b then 1 else 0)
      && (b in after.cache <==> b in st.cache && !(invalidates && a == b))
      && (b in after.cache ==> after.cache[b] == st.cache[b])
      && forall r :: r in st.readers && st.readers[r].phase.Waiting? && st.readers[r].account == a && st.readers[r].epoch == e ==>
           after.readers[r].phase.Failed?
  {
  }

  // ---------------------------------------------------------------- theorems

  /**
   A read never returns what was loaded before an invalidation that preceded the call;
   where readers recheck, not even one that preceded the return.
   */
  lemma ReadsAreFresh(policy: Policy, steps: seq<Step>, r: ReaderId, i: nat)
    requires ValidRun(policy, Empty(), steps)
    requires var st := After(policy, Empty(), steps);
      r in st.readers && st.readers[r].phase.Returned? && i < |Times(st, st.readers[r].account)|
    ensures var st := After(policy, Empty(), steps);
      var reader := st.readers[r];
      var invalidated := Times(st, reader.account)[i];
      && (invalidated < reader.began ==> invalidated < reader.phase.loadBegun)
      && (policy.Recheck? && invalidated < reader.phase.at ==> invalidated < reader.phase.loadBegun)
  {
    hide Apply, Enabled;
    RunKeepsValid(policy, Empty(), steps);
    var st := After(policy, Empty(), steps);
    assert ReaderValid(policy, Times(st, st.readers[r].account), st.now, st.readers[r]);
  }

  /** Every round after a read's first is paid for by an invalidation since that first round. */
  lemma RoundsArePaidByInvalidations(policy: Policy, steps: seq<Step>, r: ReaderId)
    requires ValidRun(policy, Empty(), steps)
    requires var st := After(policy, Empty(), steps);
      r in st.readers && st.readers[r].rounds > 0
    ensures var st := After(policy, Empty(), steps);
      var reader := st.readers[r];
      reader.rounds <= 1 + Epoch(st, reader.account) - reader.first
  {
    hide Apply, Enabled;
    RunKeepsValid(policy, Empty(), steps);
    var st := After(policy, Empty(), steps);
    assert ReaderValid(policy, Times(st, st.readers[r].account), st.now, st.readers[r]);
  }

  /** A cached load began after the account's every invalidation; the access cache stays bounded. */
  lemma CacheHoldsNothingInvalidated(policy: Policy, steps: seq<Step>)
    requires ValidRun(policy, Empty(), steps)
    ensures var st := After(policy, Empty(), steps);
      && (forall a, i :: a in st.cache && 0 <= i < |Times(st, a)| ==> Times(st, a)[i] < st.cache[a])
      && (policy.Recheck? ==> |st.cache| <= MAX_ITEMS)
  {
    RunKeepsValid(policy, Empty(), steps);
  }

  /** A waiting reader always has a flight for its own epoch left to answer it. */
  lemma WaitersHaveAFlight(policy: Policy, steps: seq<Step>, r: ReaderId)
    requires ValidRun(policy, Empty(), steps)
    requires r in After(policy, Empty(), steps).readers
    requires After(policy, Empty(), steps).readers[r].phase.Waiting?
    ensures var st := After(policy, Empty(), steps);
      && (st.readers[r].account, st.readers[r].epoch) in st.flights
      && Knows(Times(st, st.readers[r].account), st.readers[r].epoch, st.readers[r].began)
  {
    RunKeepsValid(policy, Empty(), steps);
  }
}
