/**
 Per-request locks kept in a map by reference count.

 A thread that wants a request's lock finds or makes its entry and takes a reference,
 then waits for the entry's mutex; releasing frees the mutex first and gives the
 reference back afterwards, and the last reference removes the entry.
 `L` is the identity of a lock object.
 */
module LockMap {
  import opened Sets

  type RequestId = string
  type ThreadId = nat

  datatype Phase = Waiting | Holding | Unlocked

  datatype Thread<L> = Thread(id: RequestId, lock: L, phase: Phase)

  /** `refs` covers every lock ever made; `held` are the locked mutexes. */
  datatype State<!L(==)> = State(
    entries: map<RequestId, L>,
    refs: map<L, nat>,
    held: set<L>,
    threads: map<ThreadId, Thread<L>>)

  datatype Step<L> =
    | Enter(t: ThreadId, id: RequestId, made: L)
    | Acquire(t: ThreadId)
    | Unlock(t: ThreadId)
    | Leave(t: ThreadId)

  predicate In<L(==)>(st: State<L>, t: ThreadId, phase: Phase) {
    t in st.threads && st.threads[t].phase == phase
  }

  predicate Enabled<L(==)>(st: State<L>, step: Step<L>) {
    match step
    case Enter(t, id, made) => t !in st.threads && (id in st.entries || made !in st.refs)
    case Acquire(t) => In(st, t, Waiting) && st.threads[t].lock !in st.held
    case Unlock(t) => In(st, t, Holding)
    case Leave(t) => In(st, t, Unlocked)
  }

  function RefsOf<L(==)>(st: State<L>, l: L): nat {
    if l in st.refs then st.refs[l] else 0
  }

  function Moved<L(==)>(st: State<L>, t: ThreadId, phase: Phase): State<L>
    requires t in st.threads
  {
    st.(threads := st.threads[t := st.threads[t].(phase := phase)])
  }

  function Apply<L(==)>(st: State<L>, step: Step<L>): State<L>
    requires Enabled(st, step)
  {
    match step
    case Enter(t, id, made) =>
      var lock := if id in st.entries then st.entries[id] else made;
      State(st.entries[id := lock], st.refs[lock := RefsOf(st, lock) + 1], st.held, st.threads[t := Thread(id, lock, Waiting)])
    case Acquire(t) => Moved(st, t, Holding).(held := st.held + {st.threads[t].lock})
    case Unlock(t) => Moved(st, t, Unlocked).(held := st.held - {st.threads[t].lock})
    case Leave(t) =>
      var Thread(id, lock, _) := st.threads[t];
      var left := if RefsOf(st, lock) > 0 then RefsOf(st, lock) - 1 else 0;
      State(
        if left == 0 && id in st.entries && st.entries[id] == lock then st.entries - {id} else st.entries,
        st.refs[lock := left],
        st.held,
        st.threads - {t})
  }

  predicate ValidRun<L(==)>(st: State<L>, steps: seq<Step<L>>)
    decreases |steps|
  {
    steps == [] || (Enabled(st, steps[0]) && ValidRun(Apply(st, steps[0]), steps[1..]))
  }

  function After<L(==)>(st: State<L>, steps: seq<Step<L>>): State<L>
    requires ValidRun(st, steps)
    decreases |steps|
  {
    if steps == [] then st else After(Apply(st, steps[0]), steps[1..])
  }

  function Empty<L(==)>(): State<L> { State(map[], map[], {}, map[]) }

  // --------------------------------------------------------------- invariant

  ghost function Users<L>(st: State<L>, l: L): set<ThreadId> {
    set t | t in st.threads && st.threads[t].lock == l
  }

  /** Every thread in the protocol uses the lock its request has in the map. */
  ghost predicate Shared<L>(st: State<L>) {
    forall t :: t in st.threads ==>
      st.threads[t].id in st.entries && st.entries[st.threads[t].id] == st.threads[t].lock
  }

  ghost predicate Separate<L>(st: State<L>) {
    forall i, j :: i in st.entries && j in st.entries && st.entries[i] == st.entries[j] ==> i == j
  }

  ghost predicate Counted<L>(st: State<L>) {
    && (forall l :: l in st.refs ==> st.refs[l] == |Users(st, l)|)
    && (forall i :: i in st.entries ==> st.entries[i] in st.refs && st.refs[st.entries[i]] > 0)
  }

  ghost predicate Exclusive<L>(st: State<L>) {
    && (forall t :: In(st, t, Holding) ==> st.threads[t].lock in st.held)
    && (forall t, u :: In(st, t, Holding) && In(st, u, Holding) && st.threads[t].lock == st.threads[u].lock ==> t == u)
    && (forall l :: l in st.held ==> exists t :: In(st, t, Holding) && st.threads[t].lock == l)
  }

  ghost predicate Valid<L>(st: State<L>) {
    Shared(st) && Separate(st) && Counted(st) && Exclusive(st)
  }

  lemma UsersAfter<L>(st: State<L>, step: Step<L>, l: L)
    requires Enabled(st, step)
    ensures Users(Apply(st, step), l) ==
      match step
      case Enter(t, id, made) =>
        if l == (if id in st.entries then st.entries[id] else made) then Users(st, l) + {t} else Users(st, l)
      case Leave(t) => Users(st, l) - {t}
      case _ => Users(st, l)
  {
  }

  lemma StepKeepsCount<L>(st: State<L>, step: Step<L>, l: L)
    requires Enabled(st, step) && Shared(st) && Counted(st) && l in Apply(st, step).refs
    ensures Apply(st, step).refs[l] == |Users(Apply(st, step), l)|
  {
    UsersAfter(st, step, l);
    if l !in st.refs {
      NoUsers(st, l);
    } else if step.Leave? {
      assert step.t in Users(st, st.threads[step.t].lock);
    }
    hide Users;
  }

  lemma StepKeepsCounted<L>(st: State<L>, step: Step<L>)
    requires Enabled(st, step) && Shared(st) && Separate(st) && Counted(st)
    ensures Counted(Apply(st, step))
  {
    hide Users;
    forall l | l in Apply(st, step).refs ensures Apply(st, step).refs[l] == |Users(Apply(st, step), l)| {
      StepKeepsCount(st, step, l);
    }
  }

  /** A lock never entered in the count has no users. */
  lemma NoUsers<L>(st: State<L>, l: L)
    requires Shared(st) && Counted(st) && l !in st.refs
    ensures Users(st, l) == {}
  {
  }

  lemma StepKeepsSeparate<L>(st: State<L>, step: Step<L>)
    requires Enabled(st, step) && Separate(st) && Counted(st)
    ensures Separate(Apply(st, step))
  {
    hide Users;
  }

  lemma StepKeepsThread<L>(st: State<L>, step: Step<L>, u: ThreadId)
    requires Enabled(st, step) && Shared(st) && Counted(st) && u in Apply(st, step).threads
    ensures var after := Apply(st, step);
      after.threads[u].id in after.entries && after.entries[after.threads[u].id] == after.threads[u].lock
  {
    hide Users;
    if step.Leave? {
      SecondUser(st, step.t, u);
    }
  }

  lemma StepKeepsShared<L>(st: State<L>, step: Step<L>)
    requires Enabled(st, step) && Shared(st) && Separate(st) && Counted(st)
    ensures Shared(Apply(st, step)) && Separate(Apply(st, step))
  {
    hide Apply, Enabled, Separate, Counted;
    StepKeepsSeparate(st, step);
    var after := Apply(st, step);
    forall u | u in after.threads
      ensures after.threads[u].id in after.entries && after.entries[after.threads[u].id] == after.threads[u].lock
    {
      StepKeepsThread(st, step, u);
    }
  }

  /** Two threads of one lock are two references. */
  lemma SecondUser<L>(st: State<L>, t: ThreadId, u: ThreadId)
    requires Shared(st) && Counted(st) && t in st.threads && u in st.threads && t != u
    ensures st.threads[t].lock == st.threads[u].lock ==> st.refs[st.threads[t].lock] >= 2
  {
    if st.threads[t].lock == st.threads[u].lock {
      SubsetSize({t, u}, Users(st, st.threads[t].lock));
    }
  }

  lemma StepKeepsExclusive<L>(st: State<L>, step: Step<L>)
    requires Enabled(st, step) && Exclusive(st)
    ensures Exclusive(Apply(st, step))
  {
    var after := Apply(st, step);
    forall l | l in after.held ensures exists t :: In(after, t, Holding) && after.threads[t].lock == l {
      if step.Acquire? && l !in st.held {
        assert In(after, step.t, Holding);
      } else {
        var t :| In(st, t, Holding) && st.threads[t].lock == l;
        assert In(after, t, Holding);
      }
    }
  }

  lemma StepKeepsValid<L>(st: State<L>, step: Step<L>)
    requires Enabled(st, step) && Valid(st)
    ensures Valid(Apply(st, step))
  {
    StepKeepsShared(st, step);
    StepKeepsCounted(st, step);
    StepKeepsExclusive(st, step);
  }

  lemma {:induction false} RunKeepsValid<L>(st: State<L>, steps: seq<Step<L>>)
    requires Valid(st) && ValidRun(st, steps)
    ensures Valid(After(st, steps))
    decreases |steps|
  {
    if steps != [] {
      StepKeepsValid(st, steps[0]);
      RunKeepsValid(Apply(st, steps[0]), steps[1..]);
    }
  }

  // ---------------------------------------------------------------- theorems

  /** In every run at most one thread holds a request's lock. */
  lemma OneHolderPerRequest<L>(steps: seq<Step<L>>, t: ThreadId, u: ThreadId)
    requires ValidRun(Empty(), steps)
    requires In(After(Empty(), steps), t, Holding) && In(After(Empty(), steps), u, Holding)
    requires After(Empty(), steps).threads[t].id == After(Empty(), steps).threads[u].id
    ensures t == u
  {
    RunKeepsValid(Empty<L>(), steps);
  }

  /** An entry is in the map exactly while some thread still waits for, holds or gives back its lock. */
  lemma EntriesAreExactlyTheRequestsInUse<L>(steps: seq<Step<L>>, id: RequestId)
    requires ValidRun(Empty(), steps)
    ensures var st := After(Empty(), steps);
      id in st.entries <==> exists t :: t in st.threads && st.threads[t].id == id
  {
    RunKeepsValid(Empty<L>(), steps);
    var st := After(Empty(), steps);
    if id in st.entries {
      assert Users(st, st.entries[id]) != {};
      var t :| t in Users(st, st.entries[id]);
      assert t in st.threads && st.threads[t].id == id;
    }
  }

  /** A waiting thread can take the lock unless another thread of the same request holds it. */
  lemma OnlyTheSameRequestBlocks<L>(steps: seq<Step<L>>, t: ThreadId)
    requires ValidRun(Empty(), steps) && In(After(Empty(), steps), t, Waiting)
    ensures var st := After(Empty(), steps);
      || Enabled(st, Acquire(t))
      || exists u :: u != t && In(st, u, Holding) && st.threads[u].id == st.threads[t].id
  {
    RunKeepsValid(Empty<L>(), steps);
    var st := After(Empty(), steps);
    if st.threads[t].lock in st.held {
      var u :| In(st, u, Holding) && st.threads[u].lock == st.threads[t].lock;
      assert u != t && st.threads[u].id == st.threads[t].id;
    }
  }

  // ------------------------------------------------------------ the lock map

  class Lock {
    var refs: nat
    var held: bool

    constructor ()
      ensures refs == 0 && !held
    {
      refs, held := 0, false;
    }
  }

  /** The map as the server updates it; `model` follows which thread is where. */
  class Locks {
    var entries: map<RequestId, Lock>
    ghost var model: State<Lock>

    ghost predicate Represents()
      reads this, model.refs.Keys
    {
      && entries == model.entries
      && (forall l :: l in model.refs ==> l.refs == model.refs[l])
      && (forall l :: l in model.refs ==> (l.held <==> l in model.held))
      && model.held <= model.refs.Keys
    }

    constructor ()
      ensures Represents() && model == Empty()
    {
      entries, model := map[], Empty();
    }

    method EnterRequest(ghost t: ThreadId, id: RequestId) returns (lock: Lock)
      requires Represents() && Valid(model) && t !in model.threads
      modifies this, if id in entries then {entries[id]} else {}
      ensures Represents() && Valid(model)
      ensures Enabled(old(model), Enter(t, id, lock)) && model == Apply(old(model), Enter(t, id, lock))
    {
      hide Valid;
      EntriesAreCounted(model);
      if id in entries {
        lock := entries[id];
      } else {
        lock := new Lock();
        entries := entries[id := lock];
      }
      lock.refs := lock.refs + 1;
      StepKeepsValid(model, Enter(t, id, lock));
      model := Apply(model, Enter(t, id, lock));
    }

    /** Takes the lock's mutex, once nobody holds it. */
    method AcquireLock(ghost t: ThreadId, lock: Lock)
      requires Represents() && Valid(model) && In(model, t, Waiting) && model.threads[t].lock == lock && !lock.held
      modifies this, lock
      ensures Represents() && Valid(model)
      ensures Enabled(old(model), Acquire(t)) && model == Apply(old(model), Acquire(t))
    {
      hide Valid;
      HasCount(model, t);
      lock.held := true;
      StepKeepsValid(model, Acquire(t));
      model := Apply(model, Acquire(t));
    }

    method UnlockLock(ghost t: ThreadId, lock: Lock)
      requires Represents() && Valid(model) && In(model, t, Holding) && model.threads[t].lock == lock
      modifies this, lock
      ensures Represents() && Valid(model)
      ensures Enabled(old(model), Unlock(t)) && model == Apply(old(model), Unlock(t))
    {
      hide Valid;
      HasCount(model, t);
      lock.held := false;
      StepKeepsValid(model, Unlock(t));
      model := Apply(model, Unlock(t));
    }

    method LeaveRequest(ghost t: ThreadId, id: RequestId, lock: Lock)
      requires Represents() && Valid(model) && In(model, t, Unlocked) && model.threads[t] == Thread(id, lock, Unlocked)
      modifies this, lock
      ensures Represents() && Valid(model)
      ensures Enabled(old(model), Leave(t)) && model == Apply(old(model), Leave(t))
    {
      hide Valid;
      HasCount(model, t);
      lock.refs := lock.refs - 1;
      if lock.refs == 0 && id in entries && entries[id] == lock {
        entries := entries - {id};
      }
      StepKeepsValid(model, Leave(t));
      model := Apply(model, Leave(t));
    }
  }

  lemma HasCount<L>(st: State<L>, t: ThreadId)
    requires Valid(st) && t in st.threads
    ensures st.threads[t].lock in st.refs && st.refs[st.threads[t].lock] > 0
  {
  }

  lemma EntriesAreCounted<L>(st: State<L>)
    requires Valid(st)
    ensures forall i :: i in st.entries ==> st.entries[i] in st.refs
  {
  }
}
