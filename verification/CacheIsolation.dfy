/**
 Cache grants across repositories that share one storage, and the write prefix a runner is told.
 */
module CacheIsolation {
  import opened Basics
  import opened Text
  import opened CacheScopes
  import opened CachePolicy
  import opened CacheGrants

  // ------------------------------------------------------------ write prefix

  predicate EndsInSlash(s: string) { s != "" && s[|s| - 1] == '/' }

  /**
   The write prefix told to a runner is the one its policy's write resource names exactly when the read
   prefixes are and the repository's name is not empty and does not end in a slash.
   */
  lemma ToldWritePrefixIsGrantedExactlyWhen(bucket: string, input: string, repository: string, scope: string)
    requires Configured(input).Some?
    requires ValidPrefix(PolicyPrefix(CacheBase(Configured(input).value, repository)))
    ensures var kept := Configured(input).value;
      var base := CacheBase(kept, repository);
      !Misread(kept) && !EndsInSpace(repository) && repository != "" && !EndsInSlash(repository) <==>
      Resource(bucket, PolicyPrefix(base), scope) == Pattern(bucket, base + "/" + scope)
  {
    hide Configured, ValidPrefix, PolicyPrefix, Tidy, Misread, EndsInSpace, Resource, Pattern;
    var kept := Configured(input).value;
    var base, p := CacheBase(kept, repository), PolicyPrefix(CacheBase(kept, repository));
    BaseIsTidyExactlyWhen(kept, repository);
    ValidPrefixIsLiteral(p);
    SomePrefix(p);
    var k := TrimRightShape(base);
    assert base[|base| - 1] == if repository == "" then '/' else repository[|repository| - 1];
    if base == p {
      assert k == |base|;
      assert base[..k] == base;
      AgreementIsTidy(base);
      SamePattern(bucket, p, scope);
    }
    if Tidy(base) {
      TidyBaseAgrees(base);
      if base[|base| - 1] != '/' {
        assert k == |base| && base[..k] == base;
      }
    }
    if Resource(bucket, p, scope) == Pattern(bucket, base + "/" + scope) {
      PatternNamesBase(bucket, p, base, scope);
    }
  }

  /** The misread prefix again: the runner is told a write prefix that is not the one its write resource names. */
  lemma NestedWritePrefixIsNotGranted(bucket: string, scope: string)
    ensures Configured("/ / foo") == Some(" / foo") && CacheBase(" / foo", "o/r") == " foo/o/r"
    ensures ValidPrefix(PolicyPrefix(" foo/o/r"))
    ensures Resource(bucket, PolicyPrefix(" foo/o/r"), scope) != Pattern(bucket, " foo/o/r" + "/" + scope)
  {
    hide ValidPrefix, PolicyPrefix, Misread, Configured, StoragePrefix, Resource, Pattern;
    NestedKept();
    NestedStorage();
    assert CacheBase(" / foo", "o/r") == " foo/o/r";
    NestedPolicy();
    NestedValid();
    ToldWritePrefixIsGrantedExactlyWhen(bucket, "/ / foo", "o/r", scope);
  }

  // ------------------------------------------------------ other repositories

  /** A full name: owner and name, one slash between them. */
  predicate Named(repository: string, owner: string, name: string) {
    repository == owner + "/" + name && owner != "" && name != "" && '/' !in owner && '/' !in name && !EndsInSpace(name)
  }

  /** What the policies of one storage put before the repository's name. */
  function Head(kept: string): string {
    var s := StoragePrefix(kept) + "/";
    TrimPrefix(s[SkipLeft(s, IsSpace, 0)..], "/")
  }

  lemma HeadIsShared(kept: string, repository: string, owner: string, name: string)
    requires Named(repository, owner, name)
    ensures PolicyPrefix(CacheBase(kept, repository)) == Head(kept) + repository
  {
    hide IsSpace, TrimSpace, SkipLeft, StoragePrefix;
    var s := StoragePrefix(kept) + "/";
    var base, n := s + repository, |s + repository|;
    SlashIsNoSpace();
    assert s[|s| - 1] == '/';
    var k := SkipLeft(s, IsSpace, 0);
    assert k < |s|;
    assert forall j :: 0 <= j < |s| ==> base[j] == s[j];
    SkipLeftIs(base, IsSpace, 0, k);
    assert base[n - 1] == repository[|repository| - 1] == name[|name| - 1] != '/';
    var i, j := TrimSpaceShape(base);
    assert i == k && j == n;
    var t, u := base[k..], s[k..];
    assert t == u + repository;
    assert base[i..j] == t;
    StripFront(u, repository);
  }

  lemma StripFront(u: string, repository: string)
    requires u != "" && repository != "" && repository[|repository| - 1] != '/'
    ensures TrimSuffix(TrimPrefix(u + repository, "/"), "/") == TrimPrefix(u, "/") + repository
  {
    var t := u + repository;
    assert t[0] == u[0];
    assert ("/" <= t) == ("/" <= u);
    var p := TrimPrefix(u, "/") + repository;
    assert TrimPrefix(t, "/") == p;
    assert p[|p| - 1..] == [repository[|repository| - 1]];
  }

  /** Of two strings of slash-separated parts one begins the other only if their first parts are equal. */
  lemma FirstPartsAgree(a: string, x: string, b: string, y: string)
    requires '/' !in a && '/' !in b && a + "/" + x <= b + "/" + y
    ensures a == b && x <= y
  {
    var s, t := a + "/" + x, b + "/" + y;
    assert s[|a|] == '/' && t[|b|] == '/';
    assert forall i :: 0 <= i < |a| ==> s[i] == a[i];
    assert forall i :: 0 <= i < |b| ==> t[i] == b[i];
    assert |a| == |b|;
    assert s[..|a|] == a && t[..|b|] == b;
    assert s[|a| + 1..] == x && t[|b| + 1..] == y;
  }

  function Below(owner: string, name: string, scope: string): string { owner + "/" + (name + "/" + (scope + "/")) }

  lemma LiteralIsBelow(bucket: string, head: string, repository: string, owner: string, name: string, scope: string)
    requires Named(repository, owner, name)
    ensures Literal(bucket, head + repository, scope) == "qrn:kodo:::bucket/" + bucket + "/" + head + Below(owner, name, scope)
  {
  }

  lemma DifferentRepositoriesLieApart(owner: string, name: string, scope: string, owner': string, name': string, scope': string)
    requires '/' !in owner && '/' !in name && '/' !in owner' && '/' !in name'
    requires Below(owner, name, scope) <= Below(owner', name', scope')
    ensures owner == owner' && name == name'
  {
    FirstPartsAgree(owner, name + "/" + (scope + "/"), owner', name' + "/" + (scope' + "/"));
    FirstPartsAgree(name, scope + "/", name', scope' + "/");
  }

  lemma DifferentRepositoriesShareNoKey(bucket: string, head: string, repository: string, owner: string, name: string, scope: string,
                                        repository': string, owner': string, name': string, scope': string, key: string)
    requires Named(repository, owner, name) && Named(repository', owner', name') && repository != repository'
    requires ValidBucket(bucket) && ValidPrefix(head + repository) && ValidPrefix(head + repository')
    requires NoWildcard(scope) && NoWildcard(scope')
    ensures !(Glob(Resource(bucket, head + repository, scope), key) && Glob(Resource(bucket, head + repository', scope'), key))
  {
    hide ValidPrefix, ValidBucket, NoWildcard, Glob, Resource, Literal, Below;
    ResourceReachesScope(bucket, head + repository, scope, key);
    ResourceReachesScope(bucket, head + repository', scope', key);
    LiteralIsBelow(bucket, head, repository, owner, name, scope);
    LiteralIsBelow(bucket, head, repository', owner', name', scope');
    var front := "qrn:kodo:::bucket/" + bucket + "/" + head;
    var x, y := Below(owner, name, scope), Below(owner', name', scope');
    if front + x <= key && front + y <= key {
      if |x| <= |y| {
        PrefixesOfOne(front + x, front + y, key);
        CancelPrefix(front, x, y);
        DifferentRepositoriesLieApart(owner, name, scope, owner', name', scope');
      } else {
        PrefixesOfOne(front + y, front + x, key);
        CancelPrefix(front, y, x);
        DifferentRepositoriesLieApart(owner', name', scope', owner, name, scope);
      }
    }
  }

  /** The resources a policy grants, to read or to write. */
  predicate Grants(policy: Policy, resource: string) {
    resource in policy.readable || policy.writable == Some(resource)
  }

  lemma GrantsNameScopes(bucket: string, base: string, own: string, scopes: seq<string>, resource: string) returns (scope: string)
    requires Granted(bucket, base, own, scopes) && Grants(PolicyOf(bucket, base, own, scopes), resource)
    ensures resource == Resource(TrimSpace(bucket), PolicyPrefix(base), scope) && NoWildcard(scope)
  {
    hide Normal, ValidPrefix, ValidBucket, Resource, TrimSpace, PolicyPrefix, NoWildcard, ListPattern, Unique;
    var policy := PolicyOf(bucket, base, own, scopes);
    if resource in policy.readable {
      var i :| 0 <= i < |policy.readable| && policy.readable[i] == resource;
      scope := Unique(scopes)[i];
      UniqueListsEachOnce(scopes);
      assert scope in Unique(scopes);
      var j :| 0 <= j < |scopes| && Normal(scopes[j]) == scope;
    } else {
      scope := Normal(own);
    }
    ValidPrefixIsLiteral(scope);
  }

  /** No object key is granted by policies of two different repositories, even of one storage and bucket. */
  lemma RepositoriesAreIsolated(bucket: string, kept: string, key: string,
                                repository: string, owner: string, name: string, own: string, scopes: seq<string>, resource: string,
                                repository': string, owner': string, name': string, own': string, scopes': seq<string>, resource': string)
    requires Named(repository, owner, name) && Named(repository', owner', name') && repository != repository'
    requires Granted(bucket, CacheBase(kept, repository), own, scopes) && Granted(bucket, CacheBase(kept, repository'), own', scopes')
    requires Grants(PolicyOf(bucket, CacheBase(kept, repository), own, scopes), resource)
    requires Grants(PolicyOf(bucket, CacheBase(kept, repository'), own', scopes'), resource')
    ensures !(Glob(resource, key) && Glob(resource', key))
  {
    hide ValidPrefix, ValidBucket, NoWildcard, Glob, Resource, PolicyOf, PolicyPrefix, CacheBase, TrimSpace, Grants, Named, ScopesValid;
    var scope := GrantsNameScopes(bucket, CacheBase(kept, repository), own, scopes, resource);
    var scope' := GrantsNameScopes(bucket, CacheBase(kept, repository'), own', scopes', resource');
    HeadIsShared(kept, repository, owner, name);
    HeadIsShared(kept, repository', owner', name');
    DifferentRepositoriesShareNoKey(TrimSpace(bucket), Head(kept), repository, owner, name, scope,
                                    repository', owner', name', scope', key);
  }
}
