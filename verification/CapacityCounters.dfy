/**
 The reference-counted counters of `runnerAdmissionCapacity`.

 The three Go maps are one map whose keys carry a tag. The class keeps the
 admission ledger as history and `Valid` says how the counters represent it:
 live observations of a key share one counter object, a counter exists exactly
 while it has readers, and every snapshot measures the ledger's sets. Each method
 is one region under the mutex, so any interleaving is a sequence of these calls.
 */
module CapacityCounters {
  import opened AdmissionLedger
  import Sets

  class Counter {
    var started: nat
    var pending: nat
    var readers: nat

    constructor ()
      ensures started == 0 && pending == 0 && readers == 0
    {
      started, pending, readers := 0, 0, 0;
    }
  }

  datatype Snapshot = Snapshot(started: nat, pending: nat)

  function SnapshotOf(t: Tally): Snapshot { Snapshot(t.started, t.pending) }

  /** The counts and limits handed to `reserve`. A limit of zero is unlimited, except the global one. */
  datatype Query = Query(
    globalCount: int, globalLimit: int, profileCount: int, profileLimit: int,
    accountCount: int, accountLimit: int, repositoryCount: int, repositoryLimit: int)

  /** The keys an observation counts towards; an empty name has no counter. */
  function KeysOf(profile: ProfileKey, account: string, repository: string): (keys: set<Key>)
    ensures forall k :: k in keys <==>
      match k
      case Profile(p) => p == profile
      case Account(owner) => owner == account && owner != ""
      case Repository(name) => name == repository && name != ""
  {
    {Profile(profile)}
    + (if account != "" then {Account(account)} else {})
    + (if repository != "" then {Repository(repository)} else {})
  }

  class Observation {
    const profile: ProfileKey
    const account: string
    const repository: string
    const keys: set<Key>
    const refs: map<Key, Counter>
    const total: Snapshot
    const snaps: map<Key, Snapshot>
    var reserved: bool

    constructor (profile: ProfileKey, account: string, repository: string,
                 refs: map<Key, Counter>, total: Snapshot, snaps: map<Key, Snapshot>)
      ensures this.profile == profile && this.account == account && this.repository == repository
      ensures keys == KeysOf(profile, account, repository) && this.refs == refs && this.total == total && this.snaps == snaps && !reserved
    {
      this.profile, this.account, this.repository := profile, account, repository;
      this.refs, this.total, this.snaps := refs, total, snaps;
      keys := KeysOf(profile, account, repository);
      reserved := false;
    }
  }

  /** The load assumed for one dimension; a dimension the observation has no counter for adds nothing to its count. */
  ghost function AssumedFor(l: Ledger<Observation>, o: Observation, count: int, d: Dim): int
    requires o in l.live && o in l.who
  {
    if Covers(l.who[o], d) then Assumed(l, o, count, d) else count
  }

  /** The stage that refuses an observation, or the empty string when it is admitted. */
  ghost function Verdict(l: Ledger<Observation>, o: Observation, q: Query): string
    requires o in l.live && o in l.who
  {
    if AssumedFor(l, o, q.globalCount, Global) >= q.globalLimit then "global_capacity_check"
    else if q.profileLimit > 0 && AssumedFor(l, o, q.profileCount, Keyed(Profile(o.profile))) >= q.profileLimit
    then "profile_capacity_check"
    else if q.accountLimit > 0 && AssumedFor(l, o, q.accountCount, Keyed(Account(o.account))) >= q.accountLimit
    then "account_capacity_check"
    else if q.repositoryLimit > 0 && AssumedFor(l, o, q.repositoryCount, Keyed(Repository(o.repository))) >= q.repositoryLimit
    then "repository_capacity_check"
    else ""
  }

  /** What a counter holds. */
  datatype Tally = Tally(started: nat, pending: nat, readers: nat)

  ghost function TallyOf(c: Counter): Tally
    reads c
  {
    Tally(c.started, c.pending, c.readers)
  }

  ghost predicate Distinct(table: map<Key, Counter>) {
    forall k1, k2 :: k1 in table && k2 in table && k1 != k2 ==> table[k1] != table[k2]
  }

  /** Readers and pending reservations of a key are its live observations and reservations. */
  ghost predicate Counted(l: Ledger<Observation>, k: Key, t: Tally) {
    && t.readers == |With(l.who, l.live.Keys, Keyed(k))|
    && t.pending == |With(l.who, Reserved(l), Keyed(k))|
  }

  /** A snapshot measures the reservations pending then; growth since measures the admissions since. */
  ghost predicate Measured(l: Ledger<Observation>, o: Observation, k: Key, t: Tally)
    requires o in l.live
  {
    && k in o.snaps
    && o.snaps[k].pending == |With(l.who, l.live[o].before, Keyed(k))|
    && t.started == o.snaps[k].started + |With(l.who, l.live[o].since, Keyed(k))|
  }

  ghost predicate MeasuredTotal(l: Ledger<Observation>, o: Observation, started: nat)
    requires o in l.live
  {
    && o.total.pending == |l.live[o].before|
    && started == o.total.started + |l.live[o].since|
  }

  /** Live observations of a key hold the one counter object the table has for it. */
  ghost predicate Shares(l: Ledger<Observation>, o: Observation, table: map<Key, Counter>)
    requires o in l.who
  {
    forall k :: k in l.who[o] ==> k in table && k in o.refs && o.refs[k] == table[k]
  }

  // ------------------------------------- what one operation does to one counter

  /** 1 when the attempt counts towards the key. */
  function Unit(b: bool): nat { if b then 1 else 0 }

  lemma NotYetAdmitted(l: Ledger<Observation>, o: Observation, b: Observation)
    requires Consistent(l) && o in l.live && !l.live[o].reserved && b in l.live
    ensures o !in l.live[b].since
  {
    var e := l.live[b];
    assert o !in (e.before + e.since) * l.live.Keys;
  }

  lemma UnusedCounts(l: Ledger<Observation>, k: Key)
    requires Consistent(l)
    requires forall o :: o in l.live ==> k !in l.who[o]
    ensures Counted(l, k, Tally(0, 0, 0))
  {
    assert With(l.who, l.live.Keys, Keyed(k)) == {};
    assert With(l.who, Reserved(l), Keyed(k)) == {};
  }

  lemma ObserveCounts(l: Ledger<Observation>, o: Observation, keys: set<Key>, k: Key, t: Tally)
    requires Consistent(l) && o !in l.who && Counted(l, k, t)
    ensures Counted(AdmissionLedger.Observe(l, o, keys), k, t.(readers := t.readers + Unit(k in keys)))
  {
    var l' := AdmissionLedger.Observe(l, o, keys);
    assert Reserved(l') == Reserved(l);
    WithIgnoresNew(l.who, Reserved(l), Keyed(k), o, keys);
    WithIgnoresNew(l.who, l.live.Keys, Keyed(k), o, keys);
    assert l'.live.Keys == l.live.Keys + {o};
    WithOneMore(l'.who, l.live.Keys, Keyed(k), o);
  }

  lemma ObserveMeasures(l: Ledger<Observation>, o: Observation, keys: set<Key>, b: Observation, k: Key, t: Tally)
    requires Consistent(l) && o !in l.who
    requires b in l.live ==> Measured(l, b, k, t)
    requires b == o ==> k in o.snaps && o.snaps[k] == SnapshotOf(t) && Counted(l, k, t)
    requires b in l.live || b == o
    ensures Measured(AdmissionLedger.Observe(l, o, keys), b, k, t)
  {
    if b == o {
      WithIgnoresNew(l.who, Reserved(l), Keyed(k), o, keys);
      assert With(l.who[o := keys], {}, Keyed(k)) == {};
    } else {
      WithIgnoresNew(l.who, l.live[b].before, Keyed(k), o, keys);
      WithIgnoresNew(l.who, l.live[b].since, Keyed(k), o, keys);
    }
  }

  lemma ReserveCounts(l: Ledger<Observation>, o: Observation, k: Key, t: Tally)
    requires Consistent(l) && o in l.live && !l.live[o].reserved && Counted(l, k, t)
    ensures Counted(AdmissionLedger.Reserve(l, o), k, t.(pending := t.pending + Unit(k in l.who[o])))
  {
    var l' := AdmissionLedger.Reserve(l, o);
    assert Reserved(l') == Reserved(l) + {o};
    assert l'.live.Keys == l.live.Keys;
    WithOneMore(l.who, Reserved(l), Keyed(k), o);
  }

  lemma ReserveMeasures(l: Ledger<Observation>, o: Observation, b: Observation, k: Key, t: Tally)
    requires Consistent(l) && o in l.live && !l.live[o].reserved && b in l.live && Measured(l, b, k, t)
    ensures Measured(AdmissionLedger.Reserve(l, o), b, k, t.(started := t.started + Unit(k in l.who[o])))
  {
    NotYetAdmitted(l, o, b);
    WithOneMore(l.who, l.live[b].since, Keyed(k), o);
  }

  lemma FinishCounts(l: Ledger<Observation>, o: Observation, k: Key, t: Tally)
    requires Consistent(l) && o in l.live && Counted(l, k, t)
    ensures k in l.who[o] ==> t.readers >= 1 && t.pending >= Unit(l.live[o].reserved)
    ensures k in l.who[o] ==>
              Counted(AdmissionLedger.Finish(l, o), k,
                      t.(readers := t.readers - 1, pending := t.pending - Unit(l.live[o].reserved)))
    ensures k !in l.who[o] ==> Counted(AdmissionLedger.Finish(l, o), k, t)
  {
    var l' := AdmissionLedger.Finish(l, o);
    assert Reserved(l') == Reserved(l) - {o};
    assert l'.live.Keys == l.live.Keys - {o};
    WithOneMore(l.who, l'.live.Keys, Keyed(k), o);
    assert l'.live.Keys + {o} == l.live.Keys;
    WithOneMore(l.who, Reserved(l'), Keyed(k), o);
    assert Reserved(l) == if l.live[o].reserved then Reserved(l') + {o} else Reserved(l');
  }

  // ------------------------------------------- what the counters represent

  ghost predicate AllCounted(l: Ledger<Observation>, ts: map<Key, Tally>) {
    forall k :: k in ts ==> ts[k].readers > 0 && Counted(l, k, ts[k])
  }

  ghost predicate AllMeasured(l: Ledger<Observation>, ts: map<Key, Tally>) {
    forall o, k :: o in l.live && o in l.who && k in l.who[o] ==> k in ts && Measured(l, o, k, ts[k])
  }

  ghost predicate AllTotals(l: Ledger<Observation>, started: nat, pending: nat) {
    pending == |Reserved(l)| && forall o :: o in l.live ==> MeasuredTotal(l, o, started)
  }

  ghost predicate AllShared(l: Ledger<Observation>, table: map<Key, Counter>) {
    Distinct(table) && forall o :: o in l.live && o in l.who ==> Shares(l, o, table)
  }

  function Known(ts: map<Key, Tally>, k: Key): Tally {
    if k in ts then ts[k] else Tally(0, 0, 0)
  }

  /** A key without a counter is one no live observation uses. */
  lemma KnownCounts(l: Ledger<Observation>, ts: map<Key, Tally>, k: Key)
    requires Consistent(l) && AllCounted(l, ts) && AllMeasured(l, ts)
    ensures Counted(l, k, Known(ts, k))
  {
    if k !in ts { UnusedCounts(l, k); }
  }

  lemma ObserveCountsAll(l: Ledger<Observation>, o: Observation, keys: set<Key>, ts: map<Key, Tally>, ts': map<Key, Tally>)
    requires Consistent(l) && AllCounted(l, ts) && AllMeasured(l, ts) && o !in l.who
    requires ts'.Keys == ts.Keys + keys
    requires forall k :: k in ts' ==> ts'[k] == Known(ts, k).(readers := Known(ts, k).readers + Unit(k in keys))
    ensures AllCounted(AdmissionLedger.Observe(l, o, keys), ts')
  {
    var l' := AdmissionLedger.Observe(l, o, keys);
    forall k | k in ts'
      ensures ts'[k].readers > 0 && Counted(l', k, ts'[k])
    {
      KnownCounts(l, ts, k);
      ObserveCounts(l, o, keys, k, Known(ts, k));
    }
  }

  lemma ObserveMeasuresAll(l: Ledger<Observation>, o: Observation, keys: set<Key>, ts: map<Key, Tally>, ts': map<Key, Tally>)
    requires Consistent(l) && AllCounted(l, ts) && AllMeasured(l, ts) && o !in l.who
    requires ts'.Keys == ts.Keys + keys
    requires forall k :: k in ts' ==> ts'[k].started == Known(ts, k).started
    requires forall k :: k in keys ==>
      k in o.snaps && o.snaps[k] == SnapshotOf(Known(ts, k))
    ensures AllMeasured(AdmissionLedger.Observe(l, o, keys), ts')
  {
    var l' := AdmissionLedger.Observe(l, o, keys);
    forall b, k | b in l'.live && b in l'.who && k in l'.who[b]
      ensures k in ts' && Measured(l', b, k, ts'[k])
    {
      if b == o { KnownCounts(l, ts, k); } else { assert Measured(l, b, k, ts[k]); }
      ObserveMeasures(l, o, keys, b, k, Known(ts, k));
    }
  }

  lemma ObserveTotals(l: Ledger<Observation>, o: Observation, keys: set<Key>, started: nat, pending: nat)
    requires Consistent(l) && AllTotals(l, started, pending) && o !in l.who && o.total == Snapshot(started, pending)
    ensures AllTotals(AdmissionLedger.Observe(l, o, keys), started, pending)
  {
    assert Reserved(AdmissionLedger.Observe(l, o, keys)) == Reserved(l);
  }

  lemma ReserveCountsAll(l: Ledger<Observation>, o: Observation, ts: map<Key, Tally>, ts': map<Key, Tally>)
    requires Consistent(l) && AllCounted(l, ts) && o in l.live && !l.live[o].reserved && ts'.Keys == ts.Keys
    requires forall k :: k in ts ==>
      ts'[k].readers == ts[k].readers && ts'[k].pending == ts[k].pending + Unit(k in l.who[o])
    ensures AllCounted(AdmissionLedger.Reserve(l, o), ts')
  {
    forall k | k in ts'
      ensures Counted(AdmissionLedger.Reserve(l, o), k, ts'[k])
    {
      ReserveCounts(l, o, k, ts[k]);
    }
  }

  lemma ReserveMeasuresAll(l: Ledger<Observation>, o: Observation, ts: map<Key, Tally>, ts': map<Key, Tally>)
    requires Consistent(l) && AllMeasured(l, ts) && o in l.live && !l.live[o].reserved && ts'.Keys == ts.Keys
    requires forall k :: k in ts ==> ts'[k].started == ts[k].started + Unit(k in l.who[o])
    ensures AllMeasured(AdmissionLedger.Reserve(l, o), ts')
  {
    var l' := AdmissionLedger.Reserve(l, o);
    forall b, k | b in l'.live && b in l'.who && k in l'.who[b]
      ensures k in ts' && Measured(l', b, k, ts'[k])
    {
      ReserveMeasures(l, o, b, k, ts[k]);
    }
  }

  lemma ReserveTotals(l: Ledger<Observation>, o: Observation, started: nat, pending: nat)
    requires Consistent(l) && AllTotals(l, started, pending) && o in l.live && !l.live[o].reserved
    ensures AllTotals(AdmissionLedger.Reserve(l, o), started + 1, pending + 1)
  {
    var l' := AdmissionLedger.Reserve(l, o);
    assert Reserved(l') == Reserved(l) + {o} && o !in Reserved(l);
    forall b | b in l'.live
      ensures MeasuredTotal(l', b, started + 1)
    {
      assert MeasuredTotal(l, b, started);
      ReserveMeasured(l, o, b, started);
    }
  }

  lemma ReserveMeasured(l: Ledger<Observation>, o: Observation, b: Observation, started: nat)
    requires Consistent(l) && o in l.live && !l.live[o].reserved && b in l.live && MeasuredTotal(l, b, started)
    ensures MeasuredTotal(AdmissionLedger.Reserve(l, o), b, started + 1)
  {
    NotYetAdmitted(l, o, b);
    assert |l.live[b].since + {o}| == |l.live[b].since| + 1;
  }

  /** Finishing drops the counters whose last reader leaves. */
  lemma FinishCountsAll(l: Ledger<Observation>, o: Observation, ts: map<Key, Tally>, ts': map<Key, Tally>)
    requires Consistent(l) && AllCounted(l, ts) && o in l.live
    requires forall k :: k in ts' <==> k in ts && !(k in l.who[o] && ts[k].readers == 1)
    requires forall k :: k in ts' ==>
      && ts'[k].readers == ts[k].readers - Unit(k in l.who[o])
      && ts'[k].pending == ts[k].pending - Unit(k in l.who[o] && l.live[o].reserved)
    ensures AllCounted(AdmissionLedger.Finish(l, o), ts')
  {
    forall k | k in ts'
      ensures ts'[k].readers > 0 && Counted(AdmissionLedger.Finish(l, o), k, ts'[k])
    {
      FinishCounts(l, o, k, ts[k]);
    }
  }

  /** A key whose only reader leaves is used by no other live observation. */
  lemma LastReader(l: Ledger<Observation>, o: Observation, b: Observation, k: Key, t: Tally)
    requires Consistent(l) && Counted(l, k, t) && t.readers == 1
    requires o in l.live && b in l.live && k in l.who[o] && k in l.who[b]
    ensures b == o
  {
    if b != o {
      Sets.SubsetSize({o, b}, With(l.who, l.live.Keys, Keyed(k)));
    }
  }

  lemma FinishMeasuresAll(l: Ledger<Observation>, o: Observation, ts: map<Key, Tally>, ts': map<Key, Tally>)
    requires Consistent(l) && AllCounted(l, ts) && AllMeasured(l, ts) && o in l.live
    requires forall k :: k in ts' <==> k in ts && !(k in l.who[o] && ts[k].readers == 1)
    requires forall k :: k in ts' ==> ts'[k].started == ts[k].started
    ensures AllMeasured(AdmissionLedger.Finish(l, o), ts')
  {
    var l' := AdmissionLedger.Finish(l, o);
    forall b, k | b in l'.live && b in l'.who && k in l'.who[b]
      ensures k in ts' && Measured(l', b, k, ts'[k])
    {
      assert Measured(l, b, k, ts[k]);
      if k in l.who[o] && ts[k].readers == 1 { LastReader(l, o, b, k, ts[k]); }
    }
  }

  lemma FinishTotals(l: Ledger<Observation>, o: Observation, started: nat, pending: nat)
    requires Consistent(l) && AllTotals(l, started, pending) && o in l.live
    ensures pending >= Unit(l.live[o].reserved)
    ensures AllTotals(AdmissionLedger.Finish(l, o), started, pending - Unit(l.live[o].reserved))
  {
    assert Reserved(AdmissionLedger.Finish(l, o)) == Reserved(l) - {o};
    assert o in Reserved(l) <==> l.live[o].reserved;
  }

  /** The counters in memory represent the ledger. */
  ghost predicate Represents(l: Ledger<Observation>, started: nat, pending: nat,
                             table: map<Key, Counter>, ts: map<Key, Tally>)
  {
    && Consistent(l)
    && AllShared(l, table)
    && AllCounted(l, ts)
    && AllMeasured(l, ts)
    && AllTotals(l, started, pending)
  }

  lemma ObserveRepresents(l: Ledger<Observation>, started: nat, pending: nat, table: map<Key, Counter>, ts: map<Key, Tally>,
                          o: Observation, keys: set<Key>, table': map<Key, Counter>, ts': map<Key, Tally>)
    requires Represents(l, started, pending, table, ts) && o !in l.who && Distinct(table') && keys <= table'.Keys
    requires ts'.Keys == ts.Keys + keys
    requires forall k :: k in table ==> k in table' && table'[k] == table[k]
    requires forall k :: k in ts' ==> ts'[k] == Known(ts, k).(readers := Known(ts, k).readers + Unit(k in keys))
    requires o.total == Snapshot(started, pending)
    requires forall k :: k in keys ==>
      && k in o.refs && o.refs[k] == table'[k]
      && k in o.snaps && o.snaps[k] == SnapshotOf(Known(ts, k))
    ensures Represents(AdmissionLedger.Observe(l, o, keys), started, pending, table', ts')
  {
    OperationsKeepConsistent(l, o, keys);
    ObserveCountsAll(l, o, keys, ts, ts');
    ObserveMeasuresAll(l, o, keys, ts, ts');
    ObserveTotals(l, o, keys, started, pending);
    forall b | b in AdmissionLedger.Observe(l, o, keys).live
      ensures Shares(AdmissionLedger.Observe(l, o, keys), b, table')
    {
      if b != o { assert Shares(l, b, table); }
    }
  }

  lemma ReserveRepresents(l: Ledger<Observation>, started: nat, pending: nat, table: map<Key, Counter>, ts: map<Key, Tally>,
                          o: Observation, ts': map<Key, Tally>)
    requires Represents(l, started, pending, table, ts) && o in l.live && !l.live[o].reserved && ts'.Keys == ts.Keys
    requires forall k :: k in ts ==>
      ts'[k] == ts[k].(started := ts[k].started + Unit(k in l.who[o]), pending := ts[k].pending + Unit(k in l.who[o]))
    ensures Represents(AdmissionLedger.Reserve(l, o), started + 1, pending + 1, table, ts')
  {
    OperationsKeepConsistent(l, o, {});
    ReserveCountsAll(l, o, ts, ts');
    ReserveMeasuresAll(l, o, ts, ts');
    ReserveTotals(l, o, started, pending);
    forall b | b in AdmissionLedger.Reserve(l, o).live
      ensures Shares(AdmissionLedger.Reserve(l, o), b, table)
    {
      assert Shares(l, b, table);
    }
  }

  lemma FinishRepresents(l: Ledger<Observation>, started: nat, pending: nat, table: map<Key, Counter>, ts: map<Key, Tally>,
                         o: Observation, table': map<Key, Counter>, ts': map<Key, Tally>)
    requires Represents(l, started, pending, table, ts) && o in l.live && Distinct(table') && ts'.Keys == table'.Keys
    requires forall k :: k in table' ==> k in table && table'[k] == table[k]
    requires forall k :: k in ts' <==> k in ts && !(k in l.who[o] && ts[k].readers == 1)
    requires forall k :: k in ts' ==>
      && ts'[k].started == ts[k].started
      && ts'[k].readers == ts[k].readers - Unit(k in l.who[o])
      && ts'[k].pending == ts[k].pending - Unit(k in l.who[o] && l.live[o].reserved)
    ensures pending >= Unit(l.live[o].reserved)
    ensures Represents(AdmissionLedger.Finish(l, o), started, pending - Unit(l.live[o].reserved), table', ts')
  {
    hide Consistent, AllCounted, AllMeasured, AllTotals, AllShared, Distinct;
    OperationsKeepConsistent(l, o, {});
    FinishCountsAll(l, o, ts, ts');
    FinishMeasuresAll(l, o, ts, ts');
    FinishTotals(l, o, started, pending);
    FinishShares(l, o, table, table', ts');
  }

  lemma FinishShares(l: Ledger<Observation>, o: Observation, table: map<Key, Counter>, table': map<Key, Counter>, ts': map<Key, Tally>)
    requires AllShared(l, table) && Distinct(table') && ts'.Keys == table'.Keys
    requires forall k :: k in table' ==> k in table && table'[k] == table[k]
    requires AllMeasured(AdmissionLedger.Finish(l, o), ts')
    ensures AllShared(AdmissionLedger.Finish(l, o), table')
  {
    var l' := AdmissionLedger.Finish(l, o);
    forall b | b in l'.live && b in l'.who
      ensures Shares(l', b, table')
    {
      assert Shares(l, b, table);
    }
  }

  /** The load the ledger assumes is what the shared counter and the snapshot say. */
  lemma CountersGiveAssumed(l: Ledger<Observation>, started: nat, pending: nat, table: map<Key, Counter>, ts: map<Key, Tally>,
                            o: Observation, k: Key, count: int)
    requires Represents(l, started, pending, table, ts) && o in l.live && k in l.who[o]
    ensures k in table && k in o.refs && o.refs[k] == table[k] && k in o.snaps && k in ts
    ensures Assumed(l, o, count, Keyed(k)) == count + o.snaps[k].pending + (ts[k].started - o.snaps[k].started)
  {
    assert Shares(l, o, table);
    assert Measured(l, o, k, ts[k]);
  }

  lemma CountersGiveTotal(l: Ledger<Observation>, started: nat, pending: nat, table: map<Key, Counter>, ts: map<Key, Tally>,
                          o: Observation, count: int)
    requires Represents(l, started, pending, table, ts) && o in l.live
    ensures Assumed(l, o, count, Global) == count + o.total.pending + (started - o.total.started)
  {
    assert MeasuredTotal(l, o, started);
    WithGlobal(l.who, l.live[o].before);
    WithGlobal(l.who, l.live[o].since);
  }

  lemma ReserveDescribes(l: Ledger<Observation>, o: Observation)
    requires o in l.live
    ensures AdmissionLedger.Reserve(l, o).live.Keys == l.live.Keys
    ensures forall b, r :: b in l.live && Describes(l, b, r) ==> Describes(AdmissionLedger.Reserve(l, o), b, r || b == o)
  {
  }

  lemma FinishDescribes(l: Ledger<Observation>, o: Observation)
    requires o in l.live
    ensures AdmissionLedger.Finish(l, o).live.Keys == l.live.Keys - {o}
    ensures forall b, r :: b in l.live && b != o && Describes(l, b, r) ==> Describes(AdmissionLedger.Finish(l, o), b, r)
    ensures forall r :: Describes(l, o, r) ==> r == l.live[o].reserved
  {
  }

  lemma ObserveDescribes(l: Ledger<Observation>, o: Observation, b: Observation, reserved: bool)
    requires o.keys == o.refs.Keys == KeysOf(o.profile, o.account, o.repository)
    requires b != o ==> b in l.live && Describes(l, b, reserved)
    requires b == o ==> !reserved
    ensures Describes(AdmissionLedger.Observe(l, o, o.keys), b, reserved)
  {
  }

  lemma KeysHaveCounters(l: Ledger<Observation>, started: nat, pending: nat, table: map<Key, Counter>, ts: map<Key, Tally>, o: Observation)
    requires Represents(l, started, pending, table, ts) && o in l.live
    ensures l.who[o] <= table.Keys && l.who[o] <= ts.Keys
  {
    forall k | k in l.who[o]
      ensures k in table && k in ts
    {
      CountersGiveAssumed(l, started, pending, table, ts, o, k, 0);
    }
  }

  lemma LeaversCounted(l: Ledger<Observation>, started: nat, pending: nat, table: map<Key, Counter>, ts: map<Key, Tally>, o: Observation)
    requires Represents(l, started, pending, table, ts) && o in l.live
    ensures forall k :: k in l.who[o] ==> k in ts && ts[k].readers >= 1 && ts[k].pending >= Unit(l.live[o].reserved)
  {
    forall k | k in l.who[o]
      ensures k in ts && ts[k].readers >= 1 && ts[k].pending >= Unit(l.live[o].reserved)
    {
      assert Measured(l, o, k, ts[k]);
      FinishCounts(l, o, k, ts[k]);
    }
  }

  // The effect of one counter operation on what the table holds.

  function Joined(ts: map<Key, Tally>, k: Key): map<Key, Tally> {
    ts[k := Known(ts, k).(readers := Known(ts, k).readers + 1)]
  }

  function Granted(ts: map<Key, Tally>, k: Key): map<Key, Tally> {
    ts[k := Known(ts, k).(started := Known(ts, k).started + 1, pending := Known(ts, k).pending + 1)]
  }

  function Left(ts: map<Key, Tally>, k: Key, reserved: bool): map<Key, Tally>
    requires k in ts && ts[k].readers >= 1 && ts[k].pending >= Unit(reserved)
  {
    if ts[k].readers == 1 then ts - {k}
    else ts[k := ts[k].(readers := ts[k].readers - 1, pending := ts[k].pending - Unit(reserved))]
  }

  function JoinedAll(ts: map<Key, Tally>, profile: ProfileKey, account: string, repository: string): map<Key, Tally> {
    var ts1 := Joined(ts, Profile(profile));
    var ts2 := if account != "" then Joined(ts1, Account(account)) else ts1;
    if repository != "" then Joined(ts2, Repository(repository)) else ts2
  }

  function GrantedAll(ts: map<Key, Tally>, profile: ProfileKey, account: string, repository: string): map<Key, Tally> {
    var ts1 := Granted(ts, Profile(profile));
    var ts2 := if account != "" then Granted(ts1, Account(account)) else ts1;
    if repository != "" then Granted(ts2, Repository(repository)) else ts2
  }

  predicate CanLeave(ts: map<Key, Tally>, profile: ProfileKey, account: string, repository: string, reserved: bool) {
    forall k :: k in KeysOf(profile, account, repository) ==>
      k in ts && ts[k].readers >= 1 && ts[k].pending >= Unit(reserved)
  }

  function LeftAll(ts: map<Key, Tally>, profile: ProfileKey, account: string, repository: string, reserved: bool): map<Key, Tally>
    requires CanLeave(ts, profile, account, repository, reserved)
  {
    assert Account(account) in KeysOf(profile, account, repository) || account == "";
    var ts1 := Left(ts, Profile(profile), reserved);
    var ts2 := if account != "" then Left(ts1, Account(account), reserved) else ts1;
    if repository != "" then Left(ts2, Repository(repository), reserved) else ts2
  }

  lemma JoinedAllAt(ts: map<Key, Tally>, profile: ProfileKey, account: string, repository: string)
    ensures var ts', keys := JoinedAll(ts, profile, account, repository), KeysOf(profile, account, repository);
            && ts'.Keys == ts.Keys + keys
            && forall k :: k in ts' ==> ts'[k] == Known(ts, k).(readers := Known(ts, k).readers + Unit(k in keys))
  {
  }

  lemma GrantedAllAt(ts: map<Key, Tally>, profile: ProfileKey, account: string, repository: string)
    requires KeysOf(profile, account, repository) <= ts.Keys
    ensures var ts', keys := GrantedAll(ts, profile, account, repository), KeysOf(profile, account, repository);
            && ts'.Keys == ts.Keys
            && forall k :: k in ts' ==>
                 ts'[k] == ts[k].(started := ts[k].started + Unit(k in keys), pending := ts[k].pending + Unit(k in keys))
  {
  }

  lemma LeftAllAt(ts: map<Key, Tally>, profile: ProfileKey, account: string, repository: string, reserved: bool, k: Key)
    requires CanLeave(ts, profile, account, repository, reserved)
    ensures var ts', keys := LeftAll(ts, profile, account, repository, reserved), KeysOf(profile, account, repository);
            && (k in ts' <==> k in ts && !(k in keys && ts[k].readers == 1))
            && (k in ts' ==>
                 && ts'[k].started == ts[k].started
                 && ts'[k].readers == ts[k].readers - Unit(k in keys)
                 && ts'[k].pending == ts[k].pending - Unit(k in keys && reserved))
  {
  }

  lemma GrantRepresents(l: Ledger<Observation>, started: nat, pending: nat, table: map<Key, Counter>, ts: map<Key, Tally>, o: Observation)
    requires Represents(l, started, pending, table, ts) && o in l.live && Describes(l, o, false)
    ensures KeysOf(o.profile, o.account, o.repository) <= table.Keys
    ensures Represents(AdmissionLedger.Reserve(l, o), started + 1, pending + 1, table,
                       GrantedAll(ts, o.profile, o.account, o.repository))
  {
    hide Represents, GrantedAll, KeysOf;
    KeysHaveCounters(l, started, pending, table, ts, o);
    GrantedAllAt(ts, o.profile, o.account, o.repository);
    ReserveRepresents(l, started, pending, table, ts, o, GrantedAll(ts, o.profile, o.account, o.repository));
  }

  lemma MayLeave(l: Ledger<Observation>, started: nat, pending: nat, table: map<Key, Counter>, ts: map<Key, Tally>, o: Observation)
    requires Represents(l, started, pending, table, ts) && o in l.live && Describes(l, o, l.live[o].reserved)
    ensures CanLeave(ts, o.profile, o.account, o.repository, l.live[o].reserved)
  {
    hide Represents, KeysOf;
    LeaversCounted(l, started, pending, table, ts, o);
  }

  lemma LeaveRepresents(l: Ledger<Observation>, started: nat, pending: nat, table: map<Key, Counter>, ts: map<Key, Tally>,
                        o: Observation, table': map<Key, Counter>, ts': map<Key, Tally>)
    requires Represents(l, started, pending, table, ts) && o in l.live && Describes(l, o, l.live[o].reserved)
    requires CanLeave(ts, o.profile, o.account, o.repository, l.live[o].reserved)
    requires ts' == LeftAll(ts, o.profile, o.account, o.repository, l.live[o].reserved)
    requires Distinct(table') && ts'.Keys == table'.Keys
    requires forall k :: k in table' ==> k in table && table'[k] == table[k]
    ensures pending >= Unit(l.live[o].reserved)
    ensures Represents(AdmissionLedger.Finish(l, o), started, pending - Unit(l.live[o].reserved), table', ts')
  {
    hide Represents, KeysOf, LeftAll, Distinct, CanLeave;
    forall k { LeftAllAt(ts, o.profile, o.account, o.repository, l.live[o].reserved, k); }
    FinishRepresents(l, started, pending, table, ts, o, table', ts');
  }

  /** The fields of an observation agree with its ledger entry. */
  ghost predicate Describes(l: Ledger<Observation>, o: Observation, reserved: bool)
    requires o in l.live
  {
    && reserved == l.live[o].reserved
    && o in l.who && l.who[o] == o.keys == o.refs.Keys == KeysOf(o.profile, o.account, o.repository)
  }

  /** The counter maps: which counter object a key has, and what each one holds. */
  class CounterTable {
    var counters: map<Key, Counter>
    ghost var tallies: map<Key, Tally>

    ghost predicate Valid()
      reads this, counters.Values
    {
      && Distinct(counters)
      && tallies.Keys == counters.Keys
      && forall k :: k in counters ==> tallies[k] == TallyOf(counters[k])
    }

    constructor ()
      ensures Valid() && counters == map[] && tallies == map[]
    {
      counters, tallies := map[], map[];
    }

    /** Joins the counter of a key, created on demand. */
    method Join(k: Key)
      requires Valid()
      modifies this, counters.Values
      ensures Valid() && fresh(counters.Values - old(counters.Values))
      ensures tallies == Joined(old(tallies), k)
      ensures forall j :: j in old(counters) ==> j in counters && counters[j] == old(counters)[j]
    {
      if k !in counters {
        var created := new Counter();
        counters := counters[k := created];
      }
      var c := counters[k];
      c.readers := c.readers + 1;
      tallies := Joined(tallies, k);
    }

    method Admit(k: Key)
      requires Valid() && k in counters
      modifies this`tallies, counters[k]
      ensures Valid() && tallies == Granted(old(tallies), k)
    {
      counters[k].started := counters[k].started + 1;
      counters[k].pending := counters[k].pending + 1;
      tallies := Granted(tallies, k);
    }

    /** Leaves the counter of a key and deletes it when it has no reader left. */
    method Leave(k: Key, reserved: bool)
      requires Valid() && k in counters && tallies[k].readers >= 1 && tallies[k].pending >= Unit(reserved)
      modifies this, counters[k]
      ensures Valid() && tallies == Left(old(tallies), k, reserved)
      ensures forall j :: j in counters ==> j in old(counters) && counters[j] == old(counters)[j]
    {
      var c := counters[k];
      if reserved { c.pending := c.pending - 1; }
      c.readers := c.readers - 1;
      if c.readers == 0 { counters := counters - {k}; }
      tallies := Left(tallies, k, reserved);
    }

    method JoinAll(profile: ProfileKey, account: string, repository: string)
      requires Valid()
      modifies this, counters.Values
      ensures Valid() && fresh(counters.Values - old(counters.Values))
      ensures tallies == JoinedAll(old(tallies), profile, account, repository)
      ensures forall k :: k in old(counters) ==> k in counters && counters[k] == old(counters)[k]
    {
      Join(Profile(profile));
      if account != "" { Join(Account(account)); }
      if repository != "" { Join(Repository(repository)); }
    }

    /** The counters an observation keeps, and their values when it is taken. */
    method Look(keys: set<Key>) returns (refs: map<Key, Counter>, snaps: map<Key, Snapshot>)
      requires Valid() && keys <= counters.Keys
      ensures refs.Keys == snaps.Keys == keys
      ensures forall k :: k in keys ==> refs[k] == counters[k] && snaps[k] == SnapshotOf(tallies[k])
    {
      refs := map k | k in keys :: counters[k];
      snaps := map k | k in keys :: Snapshot(counters[k].started, counters[k].pending);
    }

    method AdmitAll(profile: ProfileKey, account: string, repository: string)
      requires Valid() && KeysOf(profile, account, repository) <= counters.Keys
      modifies this`tallies, counters.Values
      ensures Valid() && tallies == GrantedAll(old(tallies), profile, account, repository)
    {
      Admit(Profile(profile));
      if account != "" { Admit(Account(account)); }
      if repository != "" { Admit(Repository(repository)); }
    }

    method LeaveAll(profile: ProfileKey, account: string, repository: string, reserved: bool)
      requires Valid() && CanLeave(tallies, profile, account, repository, reserved)
      modifies this, counters.Values
      ensures Valid() && tallies == LeftAll(old(tallies), profile, account, repository, reserved)
      ensures forall k :: k in counters ==> k in old(counters) && counters[k] == old(counters)[k]
    {
      Leave(Profile(profile), reserved);
      if account != "" { Leave(Account(account), reserved); }
      if repository != "" { Leave(Repository(repository), reserved); }
    }
  }

  /** A Store count, or the error its query returned. */
  datatype Read = Count(n: nat) | Failed

  /** One capacity question: what the Store answered and the configured limit. */
  datatype Ask = Ask(read: Read, limit: int)

  datatype Outcome = Admitted | Deferred(stage: string) | ReadError(stage: string)

  /** A key with an empty name has no configured limit. */
  function Without(ask: Ask, name: string): Ask {
    if name == "" then ask.(limit := 0) else ask
  }

  predicate Unread(ask: Ask) { ask.limit > 0 && ask.read.Failed? }

  predicate Full(ask: Ask) { ask.limit > 0 && ask.read.Count? && ask.read.n >= ask.limit }

  /** The Store reads of one attempt, in order; only limited dimensions are asked about. */
  function ReadCounts(g: Ask, p: Ask, a: Ask, r: Ask): Outcome {
    if g.read.Failed? then ReadError("global_capacity_check")
    else if g.read.n >= g.limit then Deferred("global_capacity_check")
    else if Unread(p) then ReadError("profile_capacity_check")
    else if Unread(a) then ReadError("account_capacity_check")
    else if Unread(r) then ReadError("repository_capacity_check")
    else Admitted
  }

  /** Admission without concurrency: every configured limit must exceed its count. */
  function SimpleCheck(g: Ask, p: Ask, a: Ask, r: Ask): Outcome {
    if !ReadCounts(g, p, a, r).Admitted? then ReadCounts(g, p, a, r)
    else if Full(p) then Deferred("profile_capacity_check")
    else if Full(a) then Deferred("account_capacity_check")
    else if Full(r) then Deferred("repository_capacity_check")
    else Admitted
  }

  /** Every limit that applies exceeds its count: the global one always, the others for a named key with a positive limit. */
  predicate HasRoom(g: Ask, requested: string, p: Ask, account: string, a: Ask, repository: string, r: Ask) {
    && g.read.Count? && g.read.n < g.limit
    && (requested != "" && p.limit > 0 ==> p.read.Count? && p.read.n < p.limit)
    && (account != "" && a.limit > 0 ==> a.read.Count? && a.read.n < a.limit)
    && (repository != "" && r.limit > 0 ==> r.read.Count? && r.read.n < r.limit)
  }

  /** The attempt ends at `stage` because its count could not be read; every count asked for before it was. */
  predicate FailsAt(stage: string, g: Ask, requested: string, p: Ask, account: string, a: Ask, repository: string, r: Ask) {
    if g.read.Failed? then stage == "global_capacity_check"
    else
      && g.read.n < g.limit
      && if requested != "" && p.limit > 0 && p.read.Failed? then stage == "profile_capacity_check"
         else if account != "" && a.limit > 0 && a.read.Failed? then stage == "account_capacity_check"
         else repository != "" && r.limit > 0 && r.read.Failed? && stage == "repository_capacity_check"
  }

  /** `stage` is the first limit that its count reaches; a full system is found before anything else is asked. */
  predicate FullAt(stage: string, g: Ask, requested: string, p: Ask, account: string, a: Ask, repository: string, r: Ask) {
    && g.read.Count?
    && if g.read.n >= g.limit then stage == "global_capacity_check"
       else
         && (requested != "" && p.limit > 0 ==> p.read.Count?)
         && (account != "" && a.limit > 0 ==> a.read.Count?)
         && (repository != "" && r.limit > 0 ==> r.read.Count?)
         && if requested != "" && p.limit > 0 && p.read.n >= p.limit then stage == "profile_capacity_check"
            else if account != "" && a.limit > 0 && a.read.n >= a.limit then stage == "account_capacity_check"
            else repository != "" && r.limit > 0 && r.read.n >= r.limit && stage == "repository_capacity_check"
  }

  /** What the simple check decides, in terms of names, counts and limits. */
  lemma SimpleCheckDecides(g: Ask, requested: string, p: Ask, account: string, a: Ask, repository: string, r: Ask)
    ensures var simple := SimpleCheck(g, Without(p, requested), Without(a, account), Without(r, repository));
      && (simple.Admitted? <==> HasRoom(g, requested, p, account, a, repository, r))
      && (forall stage :: simple == ReadError(stage) <==> FailsAt(stage, g, requested, p, account, a, repository, r))
      && (forall stage :: simple == Deferred(stage) <==> FullAt(stage, g, requested, p, account, a, repository, r))
  {
  }

  function CountOf(ask: Ask): int { if ask.read.Count? then ask.read.n else 0 }

  function QueryOf(g: Ask, p: Ask, a: Ask, r: Ask): Query {
    Query(CountOf(g), g.limit, CountOf(p), p.limit, CountOf(a), a.limit, CountOf(r), r.limit)
  }

  /**
   However many attempts were pending at the observation and however many were admitted since, they only
   make the check stricter; an observation that saw neither is decided by the simple one.
   */
  lemma OverlapOnlyRefuses(l: Ledger<Observation>, o: Observation, g: Ask, p: Ask, a: Ask, r: Ask)
    requires o in l.live && o in l.who && ReadCounts(g, p, a, r).Admitted?
    ensures var stage := Verdict(l, o, QueryOf(g, p, a, r));
            && (stage == "" ==> SimpleCheck(g, p, a, r).Admitted?)
            && (l.live[o].before == {} && l.live[o].since == {} ==>
                  (if stage == "" then Admitted else Deferred(stage)) == SimpleCheck(g, p, a, r))
  {
    assert forall d, n :: AssumedFor(l, o, n, d) >= n;
    assert l.live[o].before == {} && l.live[o].since == {} ==> forall d, n :: AssumedFor(l, o, n, d) == n;
  }

  /** In every dimension whose limit applies, the count was read and the load the observation must assume is below the limit. */
  ghost predicate RoomFor(l: Ledger<Observation>, o: Observation, g: Ask, requested: string, p: Ask, a: Ask, r: Ask)
    requires o in l.live && o in l.who
  {
    && g.read.Count? && AssumedFor(l, o, g.read.n, Global) < g.limit
    && (requested != "" && p.limit > 0 ==> p.read.Count? && AssumedFor(l, o, p.read.n, Keyed(Profile(o.profile))) < p.limit)
    && (o.account != "" && a.limit > 0 ==> a.read.Count? && AssumedFor(l, o, a.read.n, Keyed(Account(o.account))) < a.limit)
    && (o.repository != "" && r.limit > 0 ==> r.read.Count? && AssumedFor(l, o, r.read.n, Keyed(Repository(o.repository))) < r.limit)
  }

  /** Reading the counts and deciding on them admits exactly when there is room. */
  lemma VerdictAsked(l: Ledger<Observation>, o: Observation, g: Ask, requested: string, p: Ask, a: Ask, r: Ask)
    requires o in l.live && o in l.who
    ensures var p', a', r' := Without(p, requested), Without(a, o.account), Without(r, o.repository);
      && (ReadCounts(g, p', a', r').Admitted? && Verdict(l, o, QueryOf(g, p', a', r')) == "" <==> RoomFor(l, o, g, requested, p, a, r))
      && (forall stage :: ReadCounts(g, p', a', r') == ReadError(stage) <==> FailsAt(stage, g, requested, p, o.account, a, o.repository, r))
  {
    hide Assumed, AssumedFor;
    AssumesItsCount(l, o, CountOf(g), Global);
  }

  lemma AssumesItsCount(l: Ledger<Observation>, o: Observation, count: int, d: Dim)
    requires o in l.live && o in l.who
    ensures AssumedFor(l, o, count, d) >= count
  {
  }

  /** What a query says about a dimension of an observation: its count and, if any, its limit. */
  function AskedCount(q: Query, d: Dim): int {
    match d
    case Global => q.globalCount
    case Keyed(Profile(_)) => q.profileCount
    case Keyed(Account(_)) => q.accountCount
    case Keyed(Repository(_)) => q.repositoryCount
  }

  function AskedLimit(q: Query, d: Dim): int {
    match d
    case Global => q.globalLimit
    case Keyed(Profile(_)) => q.profileLimit
    case Keyed(Account(_)) => q.accountLimit
    case Keyed(Repository(_)) => q.repositoryLimit
  }

  /** A query sets limits only for keys the observation has. */
  predicate Fits(q: Query, o: Observation) {
    (q.accountLimit > 0 ==> o.account != "") && (q.repositoryLimit > 0 ==> o.repository != "")
  }

  /**
   The decision is the rule of the protocol: admitted exactly when in every dimension that covers
   the observation and is limited, the load it must assume is below the limit.
   */
  lemma VerdictIsTheProtocolsRule(l: Ledger<Observation>, o: Observation, q: Query)
    requires o in l.live && o in l.who && l.who[o] == KeysOf(o.profile, o.account, o.repository) && Fits(q, o)
    ensures Verdict(l, o, q) == "" <==>
      forall d :: Covers(l.who[o], d) && (d.Global? || AskedLimit(q, d) > 0) ==>
        Assumed(l, o, AskedCount(q, d), d) < AskedLimit(q, d)
  {
    hide Assumed;
    var profile, account, repository := Keyed(Profile(o.profile)), Keyed(Account(o.account)), Keyed(Repository(o.repository));
    assert Covers(l.who[o], Global) && Covers(l.who[o], profile);
    assert o.account != "" ==> Covers(l.who[o], account);
    assert o.repository != "" ==> Covers(l.who[o], repository);
    assert forall d :: Covers(l.who[o], d) ==> d == Global || d == profile || d == account || d == repository;
  }

  /** When no observation is live nothing is pending and no counter is left. */
  lemma QuietCountersAreEmpty(l: Ledger<Observation>, started: nat, pending: nat, table: map<Key, Counter>, ts: map<Key, Tally>)
    requires Represents(l, started, pending, table, ts) && l.live == map[]
    ensures pending == 0 && ts == map[]
  {
    assert Reserved(l) == {};
    assert forall k :: With(l.who, l.live.Keys, Keyed(k)) == {};
    assert ts.Keys == {};
  }

  class AdmissionCapacity {
    var started: nat
    var pending: nat
    const table: CounterTable
    ghost var ledger: Ledger<Observation>

    ghost predicate Valid()
      reads this, table, table.counters.Values, ledger.live.Keys
    {
      && table.Valid()
      && Represents(ledger, started, pending, table.counters, table.tallies)
      && forall o :: o in ledger.live ==> Describes(ledger, o, o.reserved)
    }

    constructor ()
      ensures Valid() && ledger == Ledger(map[], map[]) && fresh(table)
    {
      started, pending := 0, 0;
      table := new CounterTable();
      ledger := Ledger(map[], map[]);
    }

    method Observe(profile: ProfileKey, account: string, repository: string) returns (o: Observation)
      requires Valid()
      modifies this, table, table.counters.Values
      ensures Valid() && fresh(o) && !o.reserved && fresh(table.counters.Values - old(table.counters.Values))
      ensures o.profile == profile && o.account == account && o.repository == repository
      ensures ledger == AdmissionLedger.Observe(old(ledger), o, KeysOf(profile, account, repository))
    {
      hide Represents, JoinedAll, Reserved, KeysOf, Known, Distinct, Unit, Describes;
      ghost var ts := table.tallies;
      table.JoinAll(profile, account, repository);
      JoinedAllAt(ts, profile, account, repository);
      var refs, snaps := table.Look(KeysOf(profile, account, repository));
      o := new Observation(profile, account, repository, refs, Snapshot(started, pending), snaps);
      ledger := AdmissionLedger.Observe(ledger, o, o.keys);
      ObserveRepresents(old(ledger), started, pending, old(table.counters), ts, o, o.keys, table.counters, table.tallies);
      forall b | b in ledger.live
        ensures Describes(ledger, b, b.reserved)
      {
        ObserveDescribes(old(ledger), o, b, b.reserved);
      }
    }

    /** The load an observation assumes for one of its keys, from its snapshot and the counter it shares. */
    method AssumedFromCounters(o: Observation, count: int, k: Key) returns (load: int)
      requires Valid() && o in ledger.live
      ensures load == AssumedFor(ledger, o, count, Keyed(k))
    {
      hide Represents, Assumed, KeysOf;
      load := count;
      if k in o.refs {
        CountersGiveAssumed(ledger, started, pending, table.counters, table.tallies, o, k, count);
        load := count + o.snaps[k].pending + (o.refs[k].started - o.snaps[k].started);
      }
    }

    /** Decides from the counters; the decision is the ledger's. */
    method Reserve(o: Observation, q: Query) returns (stage: string)
      requires Valid() && o in ledger.live && !o.reserved
      modifies this, o, table, table.counters.Values
      ensures Valid() && table.counters == old(table.counters)
      ensures stage == old(Verdict(ledger, o, q))
      ensures ledger == if stage == "" then AdmissionLedger.Reserve(old(ledger), o) else old(ledger)
    {
      hide Represents, Verdict, Describes, AdmissionLedger.Reserve;
      stage := Decide(o, q);
      if stage == "" {
        Grant(o);
      }
    }

    method Decide(o: Observation, q: Query) returns (stage: string)
      requires Valid() && o in ledger.live
      ensures stage == Verdict(ledger, o, q)
    {
      hide Represents, Assumed, KeysOf;
      CountersGiveTotal(ledger, started, pending, table.counters, table.tallies, o, q.globalCount);
      if q.globalCount + o.total.pending + (started - o.total.started) >= q.globalLimit {
        return "global_capacity_check";
      }
      if q.profileLimit > 0 {
        var load := AssumedFromCounters(o, q.profileCount, Profile(o.profile));
        if load >= q.profileLimit { return "profile_capacity_check"; }
      }
      if q.accountLimit > 0 {
        var load := AssumedFromCounters(o, q.accountCount, Account(o.account));
        if load >= q.accountLimit { return "account_capacity_check"; }
      }
      if q.repositoryLimit > 0 {
        var load := AssumedFromCounters(o, q.repositoryCount, Repository(o.repository));
        if load >= q.repositoryLimit { return "repository_capacity_check"; }
      }
      stage := "";
    }

    method Grant(o: Observation)
      requires Valid() && o in ledger.live && !o.reserved
      modifies this, o, table`tallies, table.counters.Values
      ensures Valid() && ledger == AdmissionLedger.Reserve(old(ledger), o)
    {
      hide Represents, GrantedAll, KeysOf, Distinct, Describes, AdmissionLedger.Reserve;
      ghost var l, ts := ledger, table.tallies;
      ReserveDescribes(l, o);
      GrantRepresents(l, started, pending, table.counters, ts, o);
      table.AdmitAll(o.profile, o.account, o.repository);
      started, pending := started + 1, pending + 1;
      o.reserved := true;
      ledger := AdmissionLedger.Reserve(l, o);
    }

    /** Ends an observation; the counters it was the last reader of disappear. */
    method Finish(o: Observation)
      requires Valid() && o in ledger.live
      modifies this, table, table.counters.Values
      ensures Valid() && ledger == AdmissionLedger.Finish(old(ledger), o)
      ensures table.counters.Values <= old(table.counters.Values)
    {
      hide Represents, LeftAll, KeysOf, Distinct, CanLeave, Describes, AdmissionLedger.Finish;
      ghost var l, ts := ledger, table.tallies;
      FinishDescribes(l, o);
      MayLeave(l, started, pending, table.counters, ts, o);
      table.LeaveAll(o.profile, o.account, o.repository, o.reserved);
      LeaveRepresents(l, started, pending, old(table.counters), ts, o, table.counters, table.tallies);
      if o.reserved { pending := pending - 1; }
      ledger := AdmissionLedger.Finish(l, o);
    }

    /**
     The decision of an attempt about its observation, whatever other attempts did since it was taken.
     A path that does not admit ends the observation; an admitted one stays live.
     */
    method ReserveObserved(o: Observation, requested: string, g: Ask, p: Ask, a: Ask, r: Ask) returns (outcome: Outcome)
      requires Valid() && o in ledger.live && !o.reserved
      modifies this, o, table, table.counters.Values
      ensures Valid() && table.counters.Values <= old(table.counters.Values)
      ensures ledger == if outcome.Admitted? then AdmissionLedger.Reserve(old(ledger), o) else AdmissionLedger.Finish(old(ledger), o)
      ensures var simple := SimpleCheck(g, Without(p, requested), Without(a, o.account), Without(r, o.repository));
        && (outcome.Admitted? ==> simple.Admitted?)
        && (old(ledger.live[o].before) == {} && old(ledger.live[o].since) == {} ==> outcome == simple)
      ensures outcome.Admitted? <==>
        old(RoomFor(ledger, o, g, requested, p, a, r))
      ensures forall stage :: outcome == ReadError(stage) <==> FailsAt(stage, g, requested, p, o.account, a, o.repository, r)
      ensures g.read.Count? && g.read.n >= g.limit ==> outcome == Deferred("global_capacity_check")
    {
      hide Represents, KeysOf, Verdict, AdmissionLedger.Reserve, AdmissionLedger.Finish;
      VerdictAsked(ledger, o, g, requested, p, a, r);
      outcome := ReadCounts(g, Without(p, requested), Without(a, o.account), Without(r, o.repository));
      if outcome.Admitted? {
        assert Describes(ledger, o, o.reserved);
        OverlapOnlyRefuses(ledger, o, g, Without(p, requested), Without(a, o.account), Without(r, o.repository));
        var stage := Reserve(o, QueryOf(g, Without(p, requested), Without(a, o.account), Without(r, o.repository)));
        if stage == "" { return; }
        outcome := Deferred(stage);
      }
      Finish(o);
    }

    /**
     One admission attempt. Every path that does not admit ends its observation;
     an admitted one stays live until the caller finishes it after the creating write.
     */
    method ReserveRunnerCapacity(profile: ProfileKey, requested: string, account: string, repository: string,
                                 g: Ask, p: Ask, a: Ask, r: Ask)
      returns (outcome: Outcome, o: Observation)
      requires Valid()
      modifies this, table, table.counters.Values
      ensures Valid() && fresh(o) && fresh(table.counters.Values - old(table.counters.Values))
      ensures outcome.Admitted? ==>
        ledger == AdmissionLedger.Reserve(AdmissionLedger.Observe(old(ledger), o, KeysOf(profile, account, repository)), o)
      ensures !outcome.Admitted? ==> ledger.live == old(ledger.live)
      ensures outcome.Admitted? ==> SimpleCheck(g, Without(p, requested), Without(a, account), Without(r, repository)).Admitted?
      ensures old(ledger.live) == map[] ==> outcome == SimpleCheck(g, Without(p, requested), Without(a, account), Without(r, repository))
      ensures outcome.Admitted? ==> HasRoom(g, requested, p, account, a, repository, r)
      ensures forall stage :: outcome == ReadError(stage) <==> FailsAt(stage, g, requested, p, account, a, repository, r)
      ensures old(ledger.live) == map[] ==>
        && (outcome.Admitted? <==> HasRoom(g, requested, p, account, a, repository, r))
        && (forall stage :: outcome == Deferred(stage) <==> FullAt(stage, g, requested, p, account, a, repository, r))
    {
      hide Represents, KeysOf, Describes, SimpleCheck, Without, HasRoom, FailsAt, FullAt, RoomFor;
      SimpleCheckDecides(g, requested, p, account, a, repository, r);
      o := Observe(profile, account, repository);
      assert ledger.live - {o} == old(ledger.live);
      assert old(ledger.live) == map[] ==> Reserved(old(ledger)) == {};
      outcome := ReserveObserved(o, requested, g, p, a, r);
    }

    /**
     The capacity part of a start: reserve, write the creating state, which may fail, and give the
     capacity back. Every path finishes the attempt's observation exactly once.
     */
    method StartWithCapacity(profile: ProfileKey, requested: string, account: string, repository: string,
                             g: Ask, p: Ask, a: Ask, r: Ask, writable: bool)
      returns (outcome: Outcome, creating: bool, ghost o: Observation)
      requires Valid()
      modifies this, table, table.counters.Values
      ensures Valid() && fresh(o) && ledger.live.Keys == old(ledger.live.Keys)
      ensures creating <==> outcome.Admitted? && writable
      ensures forall b :: b in ledger.live ==>
        ledger.live[b] == old(ledger.live[b]).(since := old(ledger.live[b]).since + if outcome.Admitted? then {o} else {})
      ensures old(ledger.live) == map[] ==>
        && outcome == SimpleCheck(g, Without(p, requested), Without(a, account), Without(r, repository))
        && table.counters == map[] && pending == 0
        && (creating <==> writable && HasRoom(g, requested, p, account, a, repository, r))
      ensures creating ==> HasRoom(g, requested, p, account, a, repository, r)
    {
      hide Represents, KeysOf, Describes, SimpleCheck, Without, HasRoom, FailsAt, FullAt;
      var observation;
      outcome, observation := ReserveRunnerCapacity(profile, requested, account, repository, g, p, a, r);
      o := observation;
      creating := outcome.Admitted? && writable;
      if outcome.Admitted? {
        Finish(observation);
      }
      if ledger.live == map[] {
        QuietCountersAreEmpty(ledger, started, pending, table.counters, table.tallies);
      }
    }
  }
}
