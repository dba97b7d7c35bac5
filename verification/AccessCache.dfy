/**
 The server's table of repository access per account, as its guarded methods update it.
 Every method runs under one mutex; times are in nanoseconds.
 */
module AccessCache {
  import opened Basics
  import opened EpochCache

  const REFRESH_AFTER: nat := 20_000_000_000
  const TTL: nat := 30_000_000_000
  const REFRESH_RETRY: nat := 5_000_000_000

  datatype Entry<V> = Entry(access: V, refreshAfter: nat, expiresAt: nat, refreshing: bool)

  class UserAccess<V> {
    var entries: map<Account, Entry<V>>
    var epochs: map<Account, nat>

    ghost predicate Valid()
      reads this
    {
      && |entries| <= MAX_ITEMS
      && forall a :: a in entries ==> entries[a].refreshAfter <= entries[a].expiresAt
    }

    /** What the table answers, whatever the clock says. */
    function Values(): (m: map<Account, V>)
      reads this
    {
      map a | a in entries :: entries[a].access
    }

    function EpochOf(a: Account): nat
      reads this
    {
      if a in epochs then epochs[a] else 0
    }

    constructor ()
      ensures Valid() && entries == map[] && epochs == map[]
    {
      entries, epochs := map[], map[];
    }

    /**
     Answers from the table while the entry is unexpired. Exactly one caller is told to
     refresh an entry that is due: the flag it sets holds off the others.
     */
    method Lookup(a: Account, now: nat) returns (found: Option<V>, refresh: bool)
      requires Valid()
      modifies `entries
      ensures Valid()
      ensures found == if a in old(entries) && now < old(entries)[a].expiresAt then Some(old(entries)[a].access) else None
      ensures Values() == if found.Some? || a !in old(entries) then old(Values()) else old(Values()) - {a}
      ensures refresh <==> found.Some? && old(entries)[a].refreshAfter <= now && !old(entries)[a].refreshing
      ensures refresh ==> a in entries && entries[a] == old(entries)[a].(refreshing := true)
      ensures found.Some? && !refresh ==> entries == old(entries)
      ensures forall b :: b in entries && b != a ==> b in old(entries) && entries[b] == old(entries)[b]
    {
      if a !in entries {
        return None, false;
      }
      var cached := entries[a];
      if now >= cached.expiresAt {
        DroppedSize(entries, a);
        entries := entries - {a};
        return None, false;
      }
      refresh := now >= cached.refreshAfter && !cached.refreshing;
      if refresh {
        assert entries.Keys + {a} == entries.Keys;
        assert entries[a := cached.(refreshing := true)].Keys == entries.Keys;
        entries := entries[a := cached.(refreshing := true)];
      }
      found := Some(cached.access);
    }

    /** Stores a load only when the account was not invalidated since `epoch`. */
    method StoreIfCurrent(a: Account, epoch: nat, access: V, now: nat) returns (stored: bool, ghost evicted: Option<Account>)
      requires Valid()
      modifies `entries
      ensures Valid()
      ensures stored <==> EpochOf(a) == epoch
      ensures evicted.Some? <==> stored && Full(old(entries), a)
      ensures evicted.Some? ==> evicted.value in old(entries)
      ensures Values() == if stored then Stored(old(Values()), a, access, evicted) else old(Values())
      ensures stored ==> a in entries && entries[a] == Entry(access, now + REFRESH_AFTER, now + TTL, false)
      ensures forall b :: b in entries && b != a ==> b in old(entries) && entries[b] == old(entries)[b]
    {
      evicted := None;
      if EpochOf(a) != epoch {
        return false, None;
      }
      ghost var entry := Entry(access, now + REFRESH_AFTER, now + TTL, false);
      ghost var before := entries;
      if a !in entries && |entries| >= MAX_ITEMS {
        var victim := EvictOne();
        evicted := Some(victim);
      }
      StoredSize(before, a, entry, evicted);
      entries := entries[a := Entry(access, now + REFRESH_AFTER, now + TTL, false)];
      stored := true;
    }

    method EvictOne() returns (victim: Account)
      requires |entries| > 0
      modifies `entries
      ensures victim in old(entries) && entries == old(entries) - {victim}
    {
      victim :| victim in entries;
      entries := entries - {victim};
    }

    /** A failed refresh keeps the entry and lets a later caller try again, never past the expiry. */
    method FinishRefresh(a: Account, epoch: nat, now: nat)
      requires Valid()
      modifies `entries
      ensures Valid() && Values() == old(Values())
      ensures EpochOf(a) != epoch || a !in old(entries) ==> entries == old(entries)
      ensures EpochOf(a) == epoch && a in old(entries) ==>
        && a in entries && !entries[a].refreshing
        && entries[a].expiresAt == old(entries)[a].expiresAt
        && entries[a].refreshAfter == (if now + REFRESH_RETRY <= entries[a].expiresAt then now + REFRESH_RETRY else entries[a].expiresAt)
      ensures forall b :: b in entries && b != a ==> b in old(entries) && entries[b] == old(entries)[b]
    {
      if EpochOf(a) != epoch || a !in entries {
        return;
      }
      var cached := entries[a];
      var next := now + REFRESH_RETRY;
      if next > cached.expiresAt {
        next := cached.expiresAt;
      }
      assert entries[a := cached.(refreshing := false, refreshAfter := next)].Keys == entries.Keys;
      entries := entries[a := cached.(refreshing := false, refreshAfter := next)];
    }

    /** Forgets the account and makes every load begun under an earlier epoch unstorable. */
    method Invalidate(a: Account)
      requires Valid()
      modifies this
      ensures Valid() && Values() == old(Values()) - {a}
      ensures EpochOf(a) == old(EpochOf(a)) + 1
      ensures forall b :: b != a ==> EpochOf(b) == old(EpochOf(b))
      ensures forall b :: b in entries ==> b in old(entries) && entries[b] == old(entries)[b]
    {
      epochs := epochs[a := EpochOf(a) + 1];
      DroppedSize(entries, a);
      entries := entries - {a};
    }

    method InvalidateIfCurrent(a: Account, epoch: nat)
      requires Valid()
      modifies this
      ensures Valid()
      ensures Values() == if old(EpochOf(a)) == epoch then old(Values()) - {a} else old(Values())
      ensures EpochOf(a) == old(EpochOf(a)) + if old(EpochOf(a)) == epoch then 1 else 0
      ensures forall b :: b != a ==> EpochOf(b) == old(EpochOf(b))
      ensures forall b :: b in entries ==> b in old(entries) && entries[b] == old(entries)[b]
    {
      if EpochOf(a) == epoch {
        Invalidate(a);
      }
    }
  }
}
