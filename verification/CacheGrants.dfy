/**
 What cache grants mean: which object keys a pattern reaches, that the scopes of different
 pull requests and of branches never reach the same key, and when the prefixes told to the
 runner are the ones its policy grants.
 */
module CacheGrants {
  import opened Basics
  import opened Text
  import opened CacheScopes
  import opened CachePolicy

  // ---------------------------------------------------------------- patterns

  predicate Glob(p: string, key: string)
    decreases |p|, |key|
  {
    if p == "" then key == ""
    else if p[0] == '*' then Glob(p[1..], key) || (key != "" && Glob(p, key[1..]))
    else key != "" && (p[0] == '?' || p[0] == key[0]) && Glob(p[1..], key[1..])
  }

  lemma {:induction false} StarMatchesAll(key: string)
    ensures Glob("*", key)
    decreases |key|
  {
    if key == "" {
      assert "*"[1..] == "";
    } else {
      StarMatchesAll(key[1..]);
    }
  }

  /** A literal followed by a star matches exactly the keys that begin with the literal. */
  lemma {:induction false} LiteralStarMatchesPrefix(literal: string, key: string)
    requires NoWildcard(literal)
    ensures Glob(literal + "*", key) <==> literal <= key
    decreases |literal|
  {
    var p := literal + "*";
    if literal == "" {
      assert p == "*";
      StarMatchesAll(key);
    } else {
      assert p[0] == literal[0] && !Wild(literal[0]);
      assert p[1..] == literal[1..] + "*";
      if key != "" {
        LiteralStarMatchesPrefix(literal[1..], key[1..]);
        assert literal == [literal[0]] + literal[1..] && key == [key[0]] + key[1..];
      }
    }
  }

  function Literal(bucket: string, prefix: string, scope: string): string {
    "qrn:kodo:::bucket/" + bucket + "/" + prefix + "/" + scope + "/"
  }

  lemma LiteralHasNoWildcard(bucket: string, prefix: string, scope: string)
    requires ValidBucket(bucket) && ValidPrefix(prefix) && NoWildcard(scope)
    ensures NoWildcard(Literal(bucket, prefix, scope))
  {
    hide ValidPrefix;
    ValidPrefixIsLiteral(prefix);
    assert NoWildcard(bucket);
    Joined("qrn:kodo:::bucket/", bucket);
    Joined("qrn:kodo:::bucket/" + bucket, "/");
    Joined("qrn:kodo:::bucket/" + bucket + "/", prefix);
    Joined("qrn:kodo:::bucket/" + bucket + "/" + prefix, "/");
    Joined("qrn:kodo:::bucket/" + bucket + "/" + prefix + "/", scope);
    Joined("qrn:kodo:::bucket/" + bucket + "/" + prefix + "/" + scope, "/");
  }

  lemma Joined(a: string, b: string)
    requires NoWildcard(a) && NoWildcard(b)
    ensures NoWildcard(a + b)
  {
  }

  /** A granted resource reaches exactly the keys below its scope. */
  lemma ResourceReachesScope(bucket: string, prefix: string, scope: string, key: string)
    requires ValidBucket(bucket) && ValidPrefix(prefix) && NoWildcard(scope)
    ensures Glob(Resource(bucket, prefix, scope), key) <==> Literal(bucket, prefix, scope) <= key
  {
    LiteralHasNoWildcard(bucket, prefix, scope);
    var literal := Literal(bucket, prefix, scope);
    assert Resource(bucket, prefix, scope) == literal + "*";
    LiteralStarMatchesPrefix(literal, key);
  }

  /** The keys a policy lets a run read are exactly those below its read scopes, and the keys it lets it write those below its own. */
  lemma PolicyReachesItsScopes(bucket: string, base: string, own: string, scopes: seq<string>, key: string)
    requires Granted(bucket, base, own, scopes)
    ensures var policy := PolicyOf(bucket, base, own, scopes);
      var name, prefix := TrimSpace(bucket), PolicyPrefix(base);
      && ((exists i :: 0 <= i < |policy.readable| && Glob(policy.readable[i], key)) <==>
          exists j :: 0 <= j < |scopes| && Normal(scopes[j]) != "" && Literal(name, prefix, Normal(scopes[j])) <= key)
      && (policy.writable.Some? && Glob(policy.writable.value, key) <==>
          Normal(own) != "" && Literal(name, prefix, Normal(own)) <= key)
      && (policy.writable.None? <==> Normal(own) == "")
  {
    hide ValidPrefix, ValidBucket, Glob, Normal, TrimSpace, PolicyPrefix, NoWildcard, Resource, Literal, Unique;
    var policy := PolicyOf(bucket, base, own, scopes);
    var name, prefix, all := TrimSpace(bucket), PolicyPrefix(base), Unique(scopes);
    UniqueListsEachOnce(scopes);
    forall j | 0 <= j < |scopes| && Normal(scopes[j]) != "" ensures NoWildcard(Normal(scopes[j])) {
      ValidPrefixIsLiteral(Normal(scopes[j]));
    }
    forall i | 0 <= i < |all| ensures Glob(policy.readable[i], key) <==> Literal(name, prefix, all[i]) <= key {
      assert all[i] in all;
      ResourceReachesScope(name, prefix, all[i], key);
    }
    if i :| 0 <= i < |policy.readable| && Glob(policy.readable[i], key) {
      assert all[i] in all;
    }
    if j :| 0 <= j < |scopes| && Normal(scopes[j]) != "" && Literal(name, prefix, Normal(scopes[j])) <= key {
      assert Normal(scopes[j]) in all;
      var i :| 0 <= i < |all| && all[i] == Normal(scopes[j]);
      assert Glob(policy.readable[i], key);
    }
    if Normal(own) != "" {
      ValidPrefixIsLiteral(Normal(own));
      ResourceReachesScope(name, prefix, Normal(own), key);
    }
  }

  /** The names a run may list are exactly those of the keys it may read, scope by scope. */
  lemma ListsWhatItReads(bucket: string, base: string, own: string, scopes: seq<string>, i: nat, name: string)
    requires Granted(bucket, base, own, scopes) && i < |PolicyOf(bucket, base, own, scopes).readable|
    ensures var policy := PolicyOf(bucket, base, own, scopes);
      && |policy.listable| == |policy.readable|
      && (Glob(policy.listable[i], name) <==> Glob(policy.readable[i], "qrn:kodo:::bucket/" + TrimSpace(bucket) + "/" + name))
  {
    hide ValidPrefix, ValidBucket, Glob, Normal, TrimSpace, PolicyPrefix, NoWildcard, Unique, Literal;
    var prefix, all := PolicyPrefix(base), Unique(scopes);
    var scope, head := all[i], "qrn:kodo:::bucket/" + TrimSpace(bucket) + "/";
    UniqueListsEachOnce(scopes);
    assert scope in all;
    ValidPrefixIsLiteral(scope);
    ValidPrefixIsLiteral(prefix);
    ResourceReachesScope(TrimSpace(bucket), prefix, scope, head + name);
    var literal := prefix + "/" + scope + "/";
    NoWildcards(prefix, scope);
    LiteralStarMatchesPrefix(literal, name);
    assert ListPattern(prefix, scope) == literal + "*";
    LiteralOf(TrimSpace(bucket), prefix, scope);
    if head + literal <= head + name {
      CancelPrefix(head, literal, name);
    }
    if literal <= name {
      assert head + name == head + literal + name[|literal|..];
    }
  }

  lemma NoWildcards(prefix: string, scope: string)
    requires NoWildcard(prefix) && NoWildcard(scope)
    ensures NoWildcard(prefix + "/" + scope + "/")
  {
  }

  lemma LiteralOf(bucket: string, prefix: string, scope: string)
    ensures Literal(bucket, prefix, scope) == "qrn:kodo:::bucket/" + bucket + "/" + (prefix + "/" + scope + "/")
  {
  }

  // ------------------------------------------------------------- disjointness

  /** Two scopes of which neither lies below the other. */
  predicate Apart(s: string, t: string) { !(s + "/" <= t + "/") && !(t + "/" <= s + "/") }

  lemma PrefixesOfOne(a: string, b: string, key: string)
    requires a <= key && b <= key && |a| <= |b|
    ensures a <= b
  {
  }

  lemma CancelPrefix(head: string, a: string, b: string)
    requires head + a <= head + b
    ensures a <= b
  {
    assert (head + a)[|head|..] == a && (head + b)[|head|..] == b;
  }

  /** No object key is reached through both of two scopes that lie apart. */
  lemma ApartScopesShareNoKey(bucket: string, prefix: string, s: string, t: string, key: string)
    requires ValidBucket(bucket) && ValidPrefix(prefix) && NoWildcard(s) && NoWildcard(t) && Apart(s, t)
    ensures !(Glob(Resource(bucket, prefix, s), key) && Glob(Resource(bucket, prefix, t), key))
  {
    ResourceReachesScope(bucket, prefix, s, key);
    ResourceReachesScope(bucket, prefix, t, key);
    var head := "qrn:kodo:::bucket/" + bucket + "/" + prefix + "/";
    var a, b := Literal(bucket, prefix, s), Literal(bucket, prefix, t);
    assert a == head + (s + "/") && b == head + (t + "/");
    if a <= key && b <= key {
      if |a| <= |b| {
        PrefixesOfOne(a, b, key);
        CancelPrefix(head, s + "/", t + "/");
      } else {
        PrefixesOfOne(b, a, key);
        CancelPrefix(head, t + "/", s + "/");
      }
    }
  }

  lemma DecimalsLieApart(m: nat, n: nat)
    ensures Decimal(m) + "/" <= Decimal(n) + "/" ==> m == n
  {
    hide Decimal, Value;
    var a, b := Decimal(m), Decimal(n);
    var s, t := a + "/", b + "/";
    assert s[|a|] == '/' && s[..|a|] == a && t[..|b|] == b;
    assert forall i :: 0 <= i < |b| ==> t[i] == b[i] != '/';
    if s <= t {
      assert t[|a|] == '/';
      assert |a| == |b|;
      assert a == b;
      DecimalReadsBack(m);
      DecimalReadsBack(n);
    }
  }

  lemma PullScopesLieApart(m: int, n: int)
    requires m > 0 && n > 0 && m != n
    ensures Apart(ScopeForPull(m), ScopeForPull(n))
  {
    var head := "scopes/pr-";
    var a, b := Decimal(m) + "/", Decimal(n) + "/";
    assert ScopeForPull(m) + "/" == head + a && ScopeForPull(n) + "/" == head + b;
    if head + a <= head + b {
      CancelPrefix(head, a, b);
      DecimalsLieApart(m, n);
    }
    if head + b <= head + a {
      CancelPrefix(head, b, a);
      DecimalsLieApart(n, m);
    }
  }

  lemma PullAndBranchLieApart(env: Env, n: int, branch: string)
    requires Hex(env.hash)
    ensures Apart(ScopeForPull(n), ScopeForBranch(env, branch))
  {
    hide TrimSpace, TrimPrefix;
    var s, t := ScopeForPull(n) + "/", ScopeForBranch(env, branch) + "/";
    assert |s| > 7 && |t| > 7;
    assert s[7] == 'p' && t[7] == 'b';
  }

  lemma ScopesHaveNoWildcard(env: Env, n: int, branch: string)
    requires Hex(env.hash)
    ensures NoWildcard(ScopeForPull(n)) && NoWildcard(ScopeForBranch(env, branch))
  {
    hide TrimSpace, TrimPrefix;
    if n > 0 {
      Joined("scopes/pr-", Decimal(n));
    }
    var name := TrimPrefix(TrimSpace(branch), "refs/heads/");
    var h := env.hash(if name == "" then "default" else name);
    assert forall i :: 0 <= i < |h| ==> HexDigit(h[i]);
    Joined("scopes/branch-", h);
  }

  /** Different pull requests of a repository never reach the same cached object. */
  lemma PullRequestsShareNoKey(env: Env, bucket: string, prefix: string, m: int, n: int, key: string)
    requires ValidBucket(bucket) && ValidPrefix(prefix) && Hex(env.hash) && m > 0 && n > 0 && m != n
    ensures !(Glob(Resource(bucket, prefix, ScopeForPull(m)), key) && Glob(Resource(bucket, prefix, ScopeForPull(n)), key))
  {
    ScopesHaveNoWildcard(env, m, "");
    ScopesHaveNoWildcard(env, n, "");
    PullScopesLieApart(m, n);
    ApartScopesShareNoKey(bucket, prefix, ScopeForPull(m), ScopeForPull(n), key);
  }

  /** A pull request's scope and a branch's never reach the same cached object. */
  lemma PullRequestAndBranchShareNoKey(env: Env, bucket: string, prefix: string, n: int, branch: string, key: string)
    requires ValidBucket(bucket) && ValidPrefix(prefix) && Hex(env.hash)
    ensures !(Glob(Resource(bucket, prefix, ScopeForPull(n)), key) && Glob(Resource(bucket, prefix, ScopeForBranch(env, branch)), key))
  {
    ScopesHaveNoWildcard(env, n, branch);
    PullAndBranchLieApart(env, n, branch);
    ApartScopesShareNoKey(bucket, prefix, ScopeForPull(n), ScopeForBranch(env, branch), key);
  }

  /** In the policy of any workflow the resource it may write is the first one it may read. */
  lemma WriteResourceIsFirstReadResource(env: Env, bucket: string, prefix: string, repository: string, runId: int,
                                         run: Option<Run>, info: Option<RepositoryInfo>, pull: Option<Pull>)
    requires Hex(env.hash)
    ensures var d := ScopesForWorkflow(env, repository, runId, run, info, pull);
      d.writeScope != "" ==>
        && Unique(d.readScopes) != [] && Normal(d.writeScope) == d.writeScope
        && Resources(bucket, prefix, Unique(d.readScopes))[0] == Resource(bucket, prefix, Normal(d.writeScope))
  {
    hide ScopesForWorkflow, Normal, Unique, Plain, Resource;
    WriteScopeIsFirstReadScope(env, repository, runId, run, info, pull);
    var d := ScopesForWorkflow(env, repository, runId, run, info, pull);
    if d.writeScope != "" {
      PlainIsNormal(d.writeScope);
      FirstLeads(d.readScopes);
    }
  }

  lemma PullScopeApartFromOthers(env: Env, n: int, other: int, scope: string)
    requires Hex(env.hash) && n > 0 && n != other && Belongs(env, other, scope)
    ensures Apart(ScopeForPull(n), scope) && NoWildcard(ScopeForPull(n)) && NoWildcard(scope)
  {
    hide ScopeForPull, ScopeForBranch, NoWildcard, Apart, Hex;
    ScopesHaveNoWildcard(env, n, "");
    if other > 0 && scope == ScopeForPull(other) {
      PullScopesLieApart(n, other);
      ScopesHaveNoWildcard(env, other, "");
    } else {
      var b :| scope == ScopeForBranch(env, b);
      PullAndBranchLieApart(env, n, b);
      ScopesHaveNoWildcard(env, n, b);
    }
  }

  /**
   Whatever a pull request's policy lets its run write is beyond the reach of every other workflow's policy:
   no object key matches both the writable resource of the one and a readable resource of the other.
   */
  lemma PullRequestWritesReachNobodyElse(env: Env, bucket: string, base: string, d: Decision, e: Decision, key: string, i: nat)
    requires Hex(env.hash) && Granted(bucket, base, d.writeScope, d.readScopes) && Granted(bucket, base, e.writeScope, e.readScopes)
    requires d.pullRequest > 0 && d.writeScope == ScopeForPull(d.pullRequest) && d.pullRequest != e.pullRequest
    requires forall s :: s in e.readScopes ==> Belongs(env, e.pullRequest, s)
    requires i < |PolicyOf(bucket, base, e.writeScope, e.readScopes).readable|
    ensures var own, others := PolicyOf(bucket, base, d.writeScope, d.readScopes), PolicyOf(bucket, base, e.writeScope, e.readScopes);
      own.writable.Some? && !(Glob(own.writable.value, key) && Glob(others.readable[i], key))
  {
    hide ValidPrefix, ValidBucket, ScopeForPull, Belongs, Normal, Unique, Hex, Glob, Apart, NoWildcard, Resource, TrimSpace, PolicyPrefix, Plain;
    PullScopeIsPlain(d.pullRequest);
    PlainIsNormal(d.writeScope);
    SomeScope(d.writeScope);
    UniqueBelongs(env, e.pullRequest, e.readScopes);
    var scope := Unique(e.readScopes)[i];
    PullScopeApartFromOthers(env, d.pullRequest, e.pullRequest, scope);
    ApartScopesShareNoKey(TrimSpace(bucket), PolicyPrefix(base), d.writeScope, scope, key);
  }

  lemma SomeScope(s: string)
    requires Plain(s)
    ensures s != ""
  {
  }

  /** The same for the decisions the server makes, about any two workflows of which one is another pull request's. */
  lemma PullRequestRunsAreIsolated(env: Env, bucket: string, base: string, repository: string, key: string, i: nat,
                                   runId: int, run: Option<Run>, info: Option<RepositoryInfo>, pull: Option<Pull>,
                                   runId': int, run': Option<Run>, info': Option<RepositoryInfo>, pull': Option<Pull>)
    requires Hex(env.hash)
    requires var d := ScopesForWorkflow(env, repository, runId, run, info, pull);
      var e := ScopesForWorkflow(env, repository, runId', run', info', pull');
      && Granted(bucket, base, d.writeScope, d.readScopes) && Granted(bucket, base, e.writeScope, e.readScopes)
      && d.pullRequest != 0 && d.pullRequest != e.pullRequest && i < |Unique(e.readScopes)|
    ensures var d := ScopesForWorkflow(env, repository, runId, run, info, pull);
      var e := ScopesForWorkflow(env, repository, runId', run', info', pull');
      var own, others := PolicyOf(bucket, base, d.writeScope, d.readScopes), PolicyOf(bucket, base, e.writeScope, e.readScopes);
      own.writable.Some? && !(Glob(own.writable.value, key) && Glob(others.readable[i], key))
  {
    hide ScopesForWorkflow, Granted, Glob, Hex, Belongs, ScopeForPull;
    DecisionsReadTheirOwn(env, repository, runId, run, info, pull);
    DecisionsReadTheirOwn(env, repository, runId', run', info', pull');
    PullRequestWritesReachNobodyElse(env, bucket, base, ScopesForWorkflow(env, repository, runId, run, info, pull),
                                     ScopesForWorkflow(env, repository, runId', run', info', pull'), key, i);
  }

  // ------------------------------------------------------- injected prefixes

  function Injected(base: string, scopes: seq<string>): (r: seq<string>)
    ensures |r| == |scopes| && forall i :: 0 <= i < |r| ==> r[i] == TrimRight(base, IsSlash) + "/" + scopes[i]
  {
    seq(|scopes|, i requires 0 <= i < |scopes| => TrimRight(base, IsSlash) + "/" + scopes[i])
  }

  /** The read prefixes a runner is told. */
  method CacheScopePrefixes(base: string, scopes: seq<string>) returns (prefixes: seq<string>)
    ensures prefixes == Injected(base, Unique(scopes))
  {
    hide Unique, TrimRight;
    var all := UniqueCacheScopes(scopes);
    prefixes := [];
    var i := 0;
    while i < |all|
      invariant 0 <= i <= |all|
      invariant prefixes == Injected(base, all)[..i]
    {
      prefixes := prefixes + [TrimRight(base, IsSlash) + "/" + all[i]];
      i := i + 1;
    }
  }

  /** The base is written the way the policy reads it. */
  predicate Tidy(base: string) { TrimSpace(base) == base && !("/" <= base) }

  lemma TidyBaseAgrees(base: string)
    requires Tidy(base) && ValidPrefix(PolicyPrefix(base))
    ensures TrimRight(base, IsSlash) == PolicyPrefix(base)
  {
    hide ValidPrefix, TrimSpace;
    ValidPrefixIsLiteral(PolicyPrefix(base));
    var n := |base|;
    if n > 0 && base[n - 1] == '/' {
      assert base[n - 1..] == "/";
      assert PolicyPrefix(base) == base[..n - 1];
    } else if n > 0 {
      assert base[n - 1..] != "/";
    }
  }

  lemma TrimSpaceShape(base: string) returns (i: nat, j: nat)
    ensures i <= j <= |base| && TrimSpace(base) == base[i..j] && i == SkipLeft(base, IsSpace, 0)
    ensures forall t :: j <= t < |base| ==> IsSpace(base[t])
    ensures i < |base| ==> i < j && !IsSpace(base[i]) && !IsSpace(base[j - 1])
  {
    hide IsSpace, SkipLeft, SkipRight;
    i := SkipLeft(base, IsSpace, 0);
    var left := base[i..];
    var kept := SkipRight(left, IsSpace, |left|);
    j := i + kept;
    assert left[..kept] == base[i..j];
    assert forall t :: 0 <= t < |left| ==> left[t] == base[i + t];
    forall t | j <= t < |base| ensures IsSpace(base[t]) {
      assert left[t - i] == base[t];
    }
  }

  lemma SliceOfSlice(s: string, a: nat, b: nat, x: nat, y: nat)
    requires a <= b <= |s| && x <= y <= b - a
    ensures s[a..b][x..y] == s[a + x..a + y]
  {
    var t, u := s[a..b], s[a + x..a + y];
    assert forall i :: 0 <= i < y - x ==> t[x..y][i] == t[x + i] == s[a + (x + i)] == u[i];
    assert t[x..y] == u;
  }

  /** Stripping one slash at either end. */
  lemma StripOnceShape(t: string) returns (i: nat, j: nat)
    ensures i <= j <= |t| && TrimSuffix(TrimPrefix(t, "/"), "/") == t[i..j]
    ensures (i == 0 <==> !("/" <= t)) && |t| - 1 <= j
  {
    i := if t != "" && t[0] == '/' then 1 else 0;
    var p := t[i..];
    assert TrimPrefix(t, "/") == p;
    assert p != "" ==> p[|p| - 1..] == [p[|p| - 1]];
    j := if p != "" && p[|p| - 1] == '/' then |t| - 1 else |t|;
    assert p[..j - i] == t[i..j];
  }

  /** The policy's prefix is an inner stretch of the base, and all of it but a closing slash only if the base is tidy. */
  lemma PolicyPrefixShape(base: string) returns (i: nat, j: nat)
    ensures i <= j <= |base| && PolicyPrefix(base) == base[i..j]
    ensures j < |base| - 1 ==> IsSpace(base[|base| - 1])
    ensures i == 0 && (j == |base| || !IsSpace(base[|base| - 1])) ==> Tidy(base)
  {
    hide IsSpace, TrimSpace, TrimPrefix, TrimSuffix, SkipLeft;
    var a, b := TrimSpaceShape(base);
    var t := base[a..b];
    var x, y := StripOnceShape(t);
    i, j := a + x, a + y;
    SliceOfSlice(base, a, b, x, y);
    if i == 0 && (j == |base| || !IsSpace(base[|base| - 1])) {
      assert b == |base| && t == base;
    }
  }

  lemma AgreementIsTidy(base: string)
    requires ValidPrefix(PolicyPrefix(base)) && TrimRight(base, IsSlash) == PolicyPrefix(base)
    ensures Tidy(base)
  {
    hide ValidPrefix, PolicyPrefix, Tidy, IsSpace, TrimRight;
    ValidPrefixIsLiteral(PolicyPrefix(base));
    SomePrefix(PolicyPrefix(base));
    SlashIsNoSpace();
    var i, j := PolicyPrefixShape(base);
    var n := |base|;
    var k := TrimRightShape(base);
    assert base[..k] == base[i..j] && k == j - i;
    assert base[i..j][j - i - 1] == base[j - 1] != '/';
    if k < n {
      assert base[n - 1] == '/';
      assert j == n - 1;
    }
  }

  lemma TrimRightShape(base: string) returns (k: nat)
    ensures k <= |base| && TrimRight(base, IsSlash) == base[..k] && forall j :: k <= j < |base| ==> base[j] == '/'
  {
    hide SkipRight;
    k := SkipRight(base, IsSlash, |base|);
    assert forall j :: k <= j < |base| ==> IsSlash(base[j]);
  }

  lemma SomePrefix(s: string)
    requires ValidPrefix(s)
    ensures s != ""
  {
  }

  lemma SlashIsNoSpace()
    ensures !IsSpace('/')
  {
  }

  /** For any base, the prefixes told and granted are the same, in order, exactly when the base is tidy. */
  lemma BaseAgreesExactlyWhenTidy(bucket: string, base: string, scopes: seq<string>)
    requires ValidPrefix(PolicyPrefix(base)) && Unique(scopes) != []
    ensures Tidy(base) <==>
      Resources(bucket, PolicyPrefix(base), Unique(scopes)) == Patterns(bucket, Injected(base, Unique(scopes)))
  {
    hide ValidPrefix, PolicyPrefix, Tidy, Unique;
    var all := Unique(scopes);
    var granted, told := Resources(bucket, PolicyPrefix(base), all), Injected(base, all);
    if Tidy(base) {
      TidyBaseAgrees(base);
      forall i | 0 <= i < |all| ensures granted[i] == Pattern(bucket, told[i]) {
        SamePattern(bucket, PolicyPrefix(base), all[i]);
      }
      assert granted == Patterns(bucket, told);
    }
    if granted == Patterns(bucket, told) {
      assert granted[0] == Pattern(bucket, told[0]);
      PatternNamesBase(bucket, PolicyPrefix(base), TrimRight(base, IsSlash), all[0]);
      AgreementIsTidy(base);
    }
  }

  // ---------------------------------------------------- the configured prefix

  /** The prefix kept from a request to configure the cache, or nothing when it is refused. */
  function Configured(input: string): (kept: Option<string>)
    ensures kept.Some? ==> kept.value == Normal(input) && (kept.value == "" || ValidPrefix(kept.value))
    ensures kept.None? ==> Normal(input) != "" && !ValidPrefix(Normal(input))
  {
    var prefix := Normal(input);
    if prefix != "" && !ValidPrefix(prefix) then None else Some(prefix)
  }

  /** The prefix of the storage made from a kept one. */
  function StoragePrefix(kept: string): (p: string)
    ensures p != "" && p[0] != '/'
  {
    var prefix := Normal(kept);
    if prefix == "" then "gh-actions-cache" else prefix
  }

  /** The base of a repository's cache, as a start builds it. */
  function CacheBase(kept: string, repository: string): string { StoragePrefix(kept) + "/" + repository }

  /**
   After white space and slashes the kept prefix has more white space before anything else:
   stripping its ends once more leaves white space in front.
   */
  predicate Misread(kept: string) {
    var m := SkipLeft(kept, IsSlash, SkipLeft(kept, IsSpace, 0));
    m < |kept| && IsSpace(kept[m]) && !Blank(kept[m..])
  }

  predicate EndsInSpace(s: string) { s != "" && IsSpace(s[|s| - 1]) }

  /** What is left of a string when white space and then slashes are stripped begins after both, if anything is left. */
  lemma NormalBegins(s: string, j: nat) returns (m: nat)
    requires var i := SkipLeft(s, IsSpace, 0);
      i <= j <= |s| && TrimSpace(s) == s[i..j] && forall t :: j <= t < |s| ==> IsSpace(s[t])
    ensures m == SkipLeft(s, IsSlash, SkipLeft(s, IsSpace, 0)) && m <= j
    ensures if m == j then Normal(s) == "" else Normal(s) != "" && Normal(s)[0] == s[m]
  {
    hide IsSpace, SkipLeft, SkipRight, TrimSpace;
    var i := SkipLeft(s, IsSpace, 0);
    var t := s[i..j];
    var a := SkipLeft(t, IsSlash, 0);
    m := i + a;
    assert forall x :: 0 <= x < |t| ==> t[x] == s[i + x];
    assert forall x :: i <= x < m ==> s[x] == t[x - i];
    SlashesAreNoSpace();
    SkipLeftIs(s, IsSlash, i, m);
    var u := t[a..];
    var kept := SkipRight(u, IsSlash, |u|);
    assert Normal(s) == u[..kept];
    assert u != "" ==> u[0] == s[m];
  }

  lemma SlashesAreNoSpace()
    ensures forall c :: IsSpace(c) ==> !IsSlash(c)
  {
  }

  /** The storage's prefix begins with white space exactly when the kept prefix is misread. */
  lemma MisreadLeavesSpace(kept: string)
    ensures IsSpace(StoragePrefix(kept)[0]) <==> Misread(kept)
  {
    hide IsSpace, SkipLeft, Normal;
    var i, j := TrimSpaceShape(kept);
    var m := NormalBegins(kept, j);
    DefaultIsTidy();
    if m < j {
      assert kept[m..][j - 1 - m] == kept[j - 1];
    }
  }

  lemma DefaultIsTidy()
    ensures !IsSpace("gh-actions-cache"[0])
  {
  }

  lemma TrimSpaceKeepsExactlyWhen(s: string)
    requires s != ""
    ensures TrimSpace(s) == s <==> !IsSpace(s[0]) && !IsSpace(s[|s| - 1])
  {
    hide IsSpace;
    if !IsSpace(s[0]) && !IsSpace(s[|s| - 1]) {
      TrimKeeps(s, IsSpace);
    }
  }

  lemma BaseIsTidyExactlyWhen(kept: string, repository: string)
    ensures Tidy(CacheBase(kept, repository)) <==> !Misread(kept) && !EndsInSpace(repository)
  {
    hide IsSpace, TrimSpace, Misread, StoragePrefix;
    var base, p := CacheBase(kept, repository), StoragePrefix(kept);
    assert base[0] == p[0];
    assert base[|base| - 1] == if repository == "" then '/' else repository[|repository| - 1];
    SlashIsNoSpace();
    TrimSpaceKeepsExactlyWhen(base);
    MisreadLeavesSpace(kept);
  }

  /**
   Whatever prefix a request configures and whatever the repository is called, the prefixes told
   to the runner are those of the policy's read resources, one by one in order, exactly when the
   kept prefix is not misread and the repository's name does not end in white space.
   */
  lemma InjectedPrefixesAreGrantedExactlyWhen(bucket: string, input: string, repository: string, scopes: seq<string>)
    requires Configured(input).Some? && Unique(scopes) != []
    requires ValidPrefix(PolicyPrefix(CacheBase(Configured(input).value, repository)))
    ensures var kept := Configured(input).value;
      var base := CacheBase(kept, repository);
      !Misread(kept) && !EndsInSpace(repository) <==>
      Resources(bucket, PolicyPrefix(base), Unique(scopes)) == Patterns(bucket, Injected(base, Unique(scopes)))
  {
    hide Configured, ValidPrefix, PolicyPrefix, Tidy, Misread, Unique, CacheBase;
    var kept := Configured(input).value;
    BaseIsTidyExactlyWhen(kept, repository);
    BaseAgreesExactlyWhenTidy(bucket, CacheBase(kept, repository), scopes);
  }

  lemma NestedKept()
    ensures Configured("/ / foo") == Some(" / foo")
  {
    hide Split, SkipLeft;
    var s, t := "/ / foo", " / foo";
    TrimKeeps(s, IsSpace);
    SkipLeftIs(s, IsSlash, 0, 1);
    assert Normal(s) == t;
    SplitWord(" foo", '/');
    SplitFirst(" ", " foo", '/');
    assert t == " " + "/" + " foo";
  }

  lemma NestedStorage()
    ensures StoragePrefix(" / foo") == " foo" && Misread(" / foo")
  {
    var s := " / foo";
    SkipLeftIs(s, IsSpace, 0, 1);
    SkipLeftIs(s, IsSlash, 1, 2);
    assert s[2..][1] == 'f';
    var i, j := TrimSpaceShape(s);
    assert j == 6;
    var t := "/ foo";
    assert TrimSpace(s) == t;
    SkipLeftIs(t, IsSlash, 0, 1);
    assert Normal(s) == " foo";
  }

  lemma NestedPolicy()
    ensures PolicyPrefix(" foo/o/r") == "foo/o/r"
  {
    hide SkipLeft;
    var s, t := " foo/o/r", "foo/o/r";
    SkipLeftIs(s, IsSpace, 0, 1);
    var i, j := TrimSpaceShape(s);
    hide TrimSpace;
    assert j == 8;
    assert TrimSpace(s) == t;
    assert t[0] != '/' && t[6..] == "r";
  }

  lemma NestedValid()
    ensures ValidPrefix("foo/o/r")
  {
    hide Split;
    var t := "foo/o/r";
    SplitWord("r", '/');
    SplitFirst("o", "r", '/');
    assert "o/r" == "o" + "/" + "r";
    SplitFirst("foo", "o/r", '/');
    assert t == "foo" + "/" + "o/r";
    assert Split(t, '/') == ["foo", "o", "r"];
  }

  /** Such an input: the server keeps and serves this prefix, and tells its runners one that no resource grants. */
  lemma NestedPrefixIsToldButNotGranted(bucket: string, scopes: seq<string>)
    requires Unique(scopes) != []
    ensures Configured("/ / foo") == Some(" / foo")
    ensures CacheBase(" / foo", "o/r") == " foo/o/r" && PolicyPrefix(" foo/o/r") == "foo/o/r" && ValidPrefix("foo/o/r")
    ensures Resources(bucket, "foo/o/r", Unique(scopes)) != Patterns(bucket, Injected(" foo/o/r", Unique(scopes)))
  {
    hide ValidPrefix, PolicyPrefix, Misread, Unique, Configured, StoragePrefix;
    NestedKept();
    NestedStorage();
    assert CacheBase(" / foo", "o/r") == " foo/o/r";
    NestedPolicy();
    NestedValid();
    InjectedPrefixesAreGrantedExactlyWhen(bucket, "/ / foo", "o/r", scopes);
  }

  function Pattern(bucket: string, prefix: string): string { "qrn:kodo:::bucket/" + bucket + "/" + prefix + "/*" }

  function Patterns(bucket: string, prefixes: seq<string>): (r: seq<string>)
    ensures |r| == |prefixes| && forall i :: 0 <= i < |r| ==> r[i] == Pattern(bucket, prefixes[i])
  {
    seq(|prefixes|, i requires 0 <= i < |prefixes| => Pattern(bucket, prefixes[i]))
  }

  lemma SamePattern(bucket: string, prefix: string, scope: string)
    ensures Resource(bucket, prefix, scope) == Pattern(bucket, prefix + "/" + scope)
  {
    var head := "qrn:kodo:::bucket/" + bucket + "/";
    assert Resource(bucket, prefix, scope) == head + (prefix + "/" + scope) + "/*";
  }

  lemma PatternNamesBase(bucket: string, p: string, r: string, scope: string)
    requires Resource(bucket, p, scope) == Pattern(bucket, r + "/" + scope)
    ensures p == r
  {
    var head := "qrn:kodo:::bucket/" + bucket + "/";
    var tail := "/" + scope + "/*";
    var a, b := Resource(bucket, p, scope), Pattern(bucket, r + "/" + scope);
    assert a == head + p + tail && b == head + r + tail;
    assert |p| == |r|;
    assert a[|head|..|head| + |p|] == p && b[|head|..|head| + |r|] == r;
  }
}
