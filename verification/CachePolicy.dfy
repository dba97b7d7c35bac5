/**
 The credential policy built from cache scopes, and the object keys its patterns match.

 A resource pattern is a literal but for `*`, any stretch of characters, and `?`, any one.
 */
module CachePolicy {
  import opened Basics
  import opened Text
  import opened CacheScopes

  // -------------------------------------------------------------- validation

  predicate Wild(c: char) { c == '*' || c == '?' }

  predicate NoWildcard(s: string) { forall i :: 0 <= i < |s| ==> !Wild(s[i]) }

  predicate ValidComponent(s: string) { s != "" && s != "." && s != ".." && NoWildcard(s) }

  predicate ValidPrefix(s: string) {
    s != "" && forall i :: 0 <= i < |Split(s, '/')| ==> ValidComponent(Split(s, '/')[i])
  }

  predicate ValidBucket(s: string) {
    s != "" && s != "." && s != ".." && forall i :: 0 <= i < |s| ==> s[i] !in {'/', '\\', '*', '?'}
  }

  method ValidateCachePrefix(prefix: string) returns (ok: bool)
    ensures ok == ValidPrefix(prefix)
  {
    if prefix == "" {
      return false;
    }
    var components := Split(prefix, '/');
    var i := 0;
    while i < |components|
      invariant 0 <= i <= |components|
      invariant forall j :: 0 <= j < i ==> ValidComponent(components[j])
    {
      if !ValidComponent(components[i]) {
        return false;
      }
      i := i + 1;
    }
    ok := true;
  }

  /** What holds of every component holds of the whole but for the separators. */
  lemma {:induction false} SplitCovers(s: string, i: nat)
    requires i < |s| && s[i] != '/'
    ensures exists k :: 0 <= k < |Split(s, '/')| && s[i] in Split(s, '/')[k]
  {
    var parts, rest := Split(s, '/'), Split(s[1..], '/');
    if i == 0 {
      assert s[0] in parts[0];
    } else {
      SplitCovers(s[1..], i - 1);
      var k :| 0 <= k < |rest| && s[i] in rest[k];
      if s[0] == '/' {
        assert parts[k + 1] == rest[k];
      } else if k > 0 {
        assert parts[k] == rest[k];
      } else {
        assert s[i] in parts[0];
      }
    }
  }

  /** A leading or trailing separator leaves an empty component. */
  lemma {:induction false} SplitEnds(s: string)
    requires s != ""
    ensures s[0] == '/' ==> Split(s, '/')[0] == ""
    ensures s[|s| - 1] == '/' ==> |Split(s, '/')| > 1 && Split(s, '/')[|Split(s, '/')| - 1] == ""
  {
    if |s| == 1 {
      assert Split(s[1..], '/') == [""];
    } else {
      SplitEnds(s[1..]);
    }
  }

  /** A valid prefix holds no wildcard and has no slash at either end. */
  lemma ValidPrefixIsLiteral(s: string)
    requires ValidPrefix(s)
    ensures NoWildcard(s) && s[0] != '/' && s[|s| - 1] != '/'
  {
    forall i | 0 <= i < |s| ensures !Wild(s[i]) {
      if s[i] != '/' {
        SplitCovers(s, i);
      }
    }
    SplitEnds(s);
  }

  lemma SplitStep(s: string)
    requires s != ""
    ensures var rest := Split(s[1..], '/'); Split(s, '/') == if s[0] == '/' then [""] + rest else [[s[0]] + rest[0]] + rest[1..]
  {
  }

  lemma {:induction false} SplitJoined(a: string, b: string)
    ensures Split(a + "/" + b, '/') == Split(a, '/') + Split(b, '/')
  {
    hide Split;
    var s := a + "/" + b;
    if a == "" {
      SplitWord("", '/');
      SplitFirst("", b, '/');
    } else {
      SplitJoined(a[1..], b);
      assert s[0] == a[0] && s[1..] == a[1..] + "/" + b;
      SplitStep(s);
      SplitStep(a);
    }
  }

  /**
   What a prefix may be: one word that is not empty, not a dot or two and holds no wildcard, or two
   prefixes with a slash between them.
   */
  lemma ValidPrefixesAreWordsBetweenSlashes(a: string, b: string, word: string)
    requires '/' !in word
    ensures ValidPrefix(word) <==> word !in {"", ".", ".."} && '*' !in word && '?' !in word
    ensures ValidPrefix(a + "/" + b) <==> ValidPrefix(a) && ValidPrefix(b)
  {
    hide Split;
    SplitWord(word, '/');
    SplitWord("", '/');
    assert Split(word, '/')[0] == word;
    SplitJoined(a, b);
    var x, y := Split(a, '/'), Split(b, '/');
    if ValidPrefix(a + "/" + b) {
      assert forall i :: 0 <= i < |x| ==> (x + y)[i] == x[i];
      assert forall i :: 0 <= i < |y| ==> (x + y)[|x| + i] == y[i];
      assert ValidComponent(x[0]) && ValidComponent(y[0]);
    }
  }

  /** A bucket's name is a prefix of one word that holds no backslash. */
  lemma ValidBucketsAreWords(s: string)
    ensures ValidBucket(s) <==> ValidPrefix(s) && '/' !in s && '\\' !in s
  {
    if '/' !in s {
      ValidPrefixesAreWordsBetweenSlashes("", "", s);
    }
  }

  // ------------------------------------------------------------------ policy

  /** The patterns a policy grants: reading in order, listing in order, and writing if any. */
  datatype Policy = Policy(readable: seq<string>, listable: seq<string>, writable: Option<string>)

  function Resource(bucket: string, prefix: string, scope: string): string {
    "qrn:kodo:::bucket/" + bucket + "/" + prefix + "/" + scope + "/*"
  }

  function ListPattern(prefix: string, scope: string): string { prefix + "/" + scope + "/*" }

  /** The prefix the policy is built on. */
  function PolicyPrefix(base: string): string { TrimSuffix(TrimPrefix(TrimSpace(base), "/"), "/") }

  function Resources(bucket: string, prefix: string, scopes: seq<string>): (r: seq<string>)
    ensures |r| == |scopes| && forall i :: 0 <= i < |r| ==> r[i] == Resource(bucket, prefix, scopes[i])
  {
    seq(|scopes|, i requires 0 <= i < |scopes| => Resource(bucket, prefix, scopes[i]))
  }

  function ListPatterns(prefix: string, scopes: seq<string>): (r: seq<string>)
    ensures |r| == |scopes| && forall i :: 0 <= i < |r| ==> r[i] == ListPattern(prefix, scopes[i])
  {
    seq(|scopes|, i requires 0 <= i < |scopes| => ListPattern(prefix, scopes[i]))
  }

  /** Every scope that names something is a valid prefix. */
  predicate ScopesValid(scopes: seq<string>) {
    forall i :: 0 <= i < |scopes| && Normal(scopes[i]) != "" ==> ValidPrefix(Normal(scopes[i]))
  }

  lemma ResourceIsInjective(bucket: string, prefix: string, s: string, t: string)
    requires Resource(bucket, prefix, s) == Resource(bucket, prefix, t)
    ensures s == t
  {
    var head := "qrn:kodo:::bucket/" + bucket + "/" + prefix + "/";
    var a, b := Resource(bucket, prefix, s), Resource(bucket, prefix, t);
    assert a == head + s + "/*" && b == head + t + "/*";
    assert |s| == |t|;
    assert a[|head|..|head| + |s|] == s && b[|head|..|head| + |t|] == t;
  }

  /** One pass of the loop that collects read resources, told apart by the resource itself. */
  lemma SeenByResource(bucket: string, prefix: string, earlier: seq<string>, scope: string)
    ensures Resource(bucket, prefix, scope) in Resources(bucket, prefix, earlier) <==> scope in earlier
  {
    hide Resource;
    var all := Resources(bucket, prefix, earlier);
    if Resource(bucket, prefix, scope) in all {
      var i :| 0 <= i < |all| && all[i] == Resource(bucket, prefix, scope);
      ResourceIsInjective(bucket, prefix, earlier[i], scope);
    }
    if scope in earlier {
      var i :| 0 <= i < |earlier| && earlier[i] == scope;
      assert all[i] == Resource(bucket, prefix, scope);
    }
  }

  method CollectReads(bucket: string, prefix: string, scopes: seq<string>) returns (ok: bool, readable: seq<string>, listable: seq<string>)
    ensures ok <==> ScopesValid(scopes)
    ensures ok ==> readable == Resources(bucket, prefix, Unique(scopes)) && listable == ListPatterns(prefix, Unique(scopes))
  {
    hide Normal, ValidPrefix, Resource, ListPattern;
    readable, listable := [], [];
    var seen: set<string> := {};
    var i := 0;
    assert scopes[..0] == [];
    while i < |scopes|
      invariant 0 <= i <= |scopes|
      invariant readable == Resources(bucket, prefix, Unique(scopes[..i]))
      invariant listable == ListPatterns(prefix, Unique(scopes[..i]))
      invariant forall s :: s in seen <==> s in readable
      invariant forall j :: 0 <= j < i && Normal(scopes[j]) != "" ==> ValidPrefix(Normal(scopes[j]))
    {
      var scope := Normal(scopes[i]);
      ghost var earlier := Unique(scopes[..i]);
      assert scopes[..i + 1][..i] == scopes[..i];
      if scope != "" {
        var valid := ValidateCachePrefix(scope);
        if !valid {
          return false, [], [];
        }
        var resource := Resource(bucket, prefix, scope);
        SeenByResource(bucket, prefix, earlier, scope);
        if resource !in seen {
          seen := seen + {resource};
          readable := readable + [resource];
          listable := listable + [ListPattern(prefix, scope)];
        }
      }
      i := i + 1;
    }
    assert scopes[..i] == scopes;
    ok := true;
  }

  /** When a policy is granted at all. */
  predicate Granted(bucket: string, base: string, ownScope: string, readScopes: seq<string>) {
    && ValidBucket(TrimSpace(bucket)) && ValidPrefix(PolicyPrefix(base))
    && ScopesValid(readScopes) && Unique(readScopes) != []
    && (Normal(ownScope) != "" ==> ValidPrefix(Normal(ownScope)))
  }

  /** The policy granted then. */
  function PolicyOf(bucket: string, base: string, ownScope: string, readScopes: seq<string>): Policy {
    var name, prefix, all := TrimSpace(bucket), PolicyPrefix(base), Unique(readScopes);
    Policy(Resources(name, prefix, all), ListPatterns(prefix, all),
           if Normal(ownScope) == "" then None else Some(Resource(name, prefix, Normal(ownScope))))
  }

  method BuildPolicy(bucket: string, base: string, ownScope: string, readScopes: seq<string>) returns (policy: Option<Policy>)
    ensures policy.Some? <==> Granted(bucket, base, ownScope, readScopes)
    ensures policy.Some? ==> policy.value == PolicyOf(bucket, base, ownScope, readScopes)
  {
    hide Normal, ValidPrefix, ValidBucket, Resource, ListPattern, PolicyPrefix, TrimSpace, ScopesValid, Unique;
    var name := TrimSpace(bucket);
    var prefix := PolicyPrefix(base);
    var validPrefix := ValidateCachePrefix(prefix);
    if !ValidBucket(name) || !validPrefix {
      return None;
    }
    var ok, readable, listable := CollectReads(name, prefix, readScopes);
    if !ok || readable == [] {
      return None;
    }
    var write: Option<string> := None;
    var own := Normal(ownScope);
    if own != "" {
      var validOwn := ValidateCachePrefix(own);
      if !validOwn {
        return None;
      }
      write := Some(Resource(name, prefix, own));
    }
    policy := Some(Policy(readable, listable, write));
  }
}
