/**
 The bookkeeping behind runner admission, stated over sets of attempts.

 `runnerAdmissionCapacity` keeps counters; what those counters stand for is a
 ledger of live observations. Each observation remembers which reservations were
 pending when it was taken (`before`) and which admissions followed (`since`).
 CapacityCounters proves that the counters compute exactly the sizes used here,
 and AdmissionProtocol proves what the ledger's rule guarantees in every run.
 */
module AdmissionLedger {

  datatype ProfileKey = ProfileKey(source: string, scopeType: string, name: string, scopeID: int)

  /** A key of one of the three counter maps. */
  datatype Key = Profile(profile: ProfileKey) | Account(owner: string) | Repository(name: string)

  /** What a limit applies to: every runner, or the runners of one key. */
  datatype Dim = Global | Keyed(key: Key)

  /** One live observation. */
  datatype Entry<A(==)> = Entry(before: set<A>, since: set<A>, reserved: bool)

  /** `who` gives the keys of every attempt ever observed; `live` holds the unfinished ones. */
  datatype Ledger<A(==)> = Ledger(live: map<A, Entry<A>>, who: map<A, set<Key>>)

  predicate Covers(keys: set<Key>, d: Dim) {
    d.Global? || d.key in keys
  }

  /** The attempts of `s` that count towards `d`. */
  function With<A>(who: map<A, set<Key>>, s: set<A>, d: Dim): set<A> {
    set a | a in s && a in who && Covers(who[a], d)
  }

  /** Attempts that hold a reservation: admitted and not yet finished. */
  function Reserved<A>(l: Ledger<A>): set<A> {
    set a | a in l.live && l.live[a].reserved
  }

  ghost predicate Consistent<A>(l: Ledger<A>) {
    && l.live.Keys <= l.who.Keys
    && forall a :: a in l.live ==>
      && l.live[a].before <= l.who.Keys
      && l.live[a].since <= l.who.Keys
      && Reserved(l) <= l.live[a].before + l.live[a].since
      && (l.live[a].before + l.live[a].since) * l.live.Keys <= Reserved(l)
  }

  function Observe<A>(l: Ledger<A>, a: A, keys: set<Key>): Ledger<A> {
    Ledger(l.live[a := Entry(Reserved(l), {}, false)], l.who[a := keys])
  }

  function Reserve<A>(l: Ledger<A>, a: A): Ledger<A> {
    l.(live := map b | b in l.live ::
         Entry(l.live[b].before, l.live[b].since + {a}, l.live[b].reserved || b == a))
  }

  function Finish<A>(l: Ledger<A>, a: A): Ledger<A> {
    l.(live := l.live - {a})
  }

  /** The load an attempt must assume for `d` when the Store reported `count`. */
  function Assumed<A>(l: Ledger<A>, a: A, count: int, d: Dim): int
    requires a in l.live
  {
    count + |With(l.who, l.live[a].before, d)| + |With(l.who, l.live[a].since, d)|
  }

  lemma OperationsKeepConsistent<A>(l: Ledger<A>, a: A, keys: set<Key>)
    requires Consistent(l)
    ensures a !in l.who ==> Consistent(Observe(l, a, keys))
    ensures a in l.live ==> Consistent(Reserve(l, a))
    ensures Consistent(Finish(l, a))
  {
    if a !in l.who {
      var o := Observe(l, a, keys);
      assert Reserved(o) == Reserved(l);
    }
    if a in l.live {
      var r := Reserve(l, a);
      assert Reserved(r) == Reserved(l) + {a};
    }
    var f := Finish(l, a);
    assert Reserved(f) == Reserved(l) - {a};
  }

  /** No attempt was pending at an observation and admitted after it. */
  ghost predicate Apart<A(!new)>(l: Ledger<A>) {
    forall a :: a in l.live ==> l.live[a].before !! l.live[a].since
  }

  lemma OperationsKeepApart<A(!new)>(l: Ledger<A>, a: A, keys: set<Key>)
    requires Consistent(l) && Apart(l)
    ensures Apart(Observe(l, a, keys)) && Apart(Finish(l, a))
    ensures a in l.live && !l.live[a].reserved ==> Apart(Reserve(l, a))
  {
    if a in l.live && !l.live[a].reserved {
      forall b | b in l.live ensures a !in l.live[b].before {
        assert a !in (l.live[b].before + l.live[b].since) * l.live.Keys;
      }
    }
  }

  /** What an attempt assumes beyond the count is one for each reservation that overlapped it, and no more. */
  lemma AssumedCountsOverlapOnce<A(!new)>(l: Ledger<A>, a: A, count: int, d: Dim)
    requires Apart(l) && a in l.live
    ensures Assumed(l, a, count, d) == count + |With(l.who, l.live[a].before + l.live[a].since, d)|
  {
    var before, since := With(l.who, l.live[a].before, d), With(l.who, l.live[a].since, d);
    assert With(l.who, l.live[a].before + l.live[a].since, d) == before + since;
    assert before !! since;
  }

  /** Observing a new attempt changes no set of earlier attempts. */
  lemma WithIgnoresNew<A>(who: map<A, set<Key>>, s: set<A>, d: Dim, a: A, keys: set<Key>)
    requires s <= who.Keys && a !in who
    ensures With(who[a := keys], s, d) == With(who, s, d)
  {
  }

  lemma WithOneMore<A>(who: map<A, set<Key>>, s: set<A>, d: Dim, a: A)
    requires a !in s && a in who
    ensures |With(who, s + {a}, d)| == |With(who, s, d)| + if Covers(who[a], d) then 1 else 0
  {
    assert With(who, s + {a}, d) == if Covers(who[a], d) then With(who, s, d) + {a} else With(who, s, d);
  }

  lemma WithGlobal<A>(who: map<A, set<Key>>, s: set<A>)
    requires s <= who.Keys
    ensures With(who, s, Global) == s
  {
  }
}
