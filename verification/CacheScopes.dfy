/**
 Which cache scopes a workflow may read and write.

 `hash` is the hexadecimal branch digest and `fold` the case folding that compares
 repository names; what GitHub answered comes in as values, absent when a lookup failed.
 */
module CacheScopes {
  import opened Basics
  import opened Text

  datatype Env = Env(hash: string -> string, fold: string -> string)

  datatype RepositoryInfo = RepositoryInfo(fullName: string, defaultBranch: string)

  /** `event` is trimmed and in lower case. */
  datatype Run = Run(event: string, fullName: string, defaultBranch: string, headRepository: string, headBranch: string, pulls: seq<int>)

  datatype Pull = Pull(number: int, baseRepository: string, baseBranch: string, headRepository: string)

  datatype Decision = Decision(writeScope: string, readScopes: seq<string>, pullRequest: int)

  // ------------------------------------------------------------------ scopes

  function ScopeForBranch(env: Env, branch: string): string {
    var name := TrimPrefix(TrimSpace(branch), "refs/heads/");
    "scopes/branch-" + env.hash(if name == "" then "default" else name)
  }

  function ScopeForPull(number: int): string {
    if number <= 0 then "scopes/pr-unknown" else "scopes/pr-" + Decimal(number)
  }

  function Normal(scope: string): string { Trim(TrimSpace(scope), IsSlash) }

  /** The scopes in order of first appearance, normalized, without blanks and repeats. */
  function Unique(scopes: seq<string>): (r: seq<string>)
  {
    if scopes == [] then []
    else
      var earlier := Unique(scopes[..|scopes| - 1]);
      var scope := Normal(scopes[|scopes| - 1]);
      if scope == "" || scope in earlier then earlier else earlier + [scope]
  }

  method UniqueCacheScopes(scopes: seq<string>) returns (result: seq<string>)
    ensures result == Unique(scopes)
  {
    hide Normal;
    result := [];
    var seen: set<string> := {};
    var i := 0;
    while i < |scopes|
      invariant 0 <= i <= |scopes|
      invariant result == Unique(scopes[..i])
      invariant forall s :: s in seen <==> s in result
    {
      var scope := Normal(scopes[i]);
      assert scopes[..i + 1][..i] == scopes[..i];
      if scope != "" && scope !in seen {
        seen := seen + {scope};
        result := result + [scope];
      }
      i := i + 1;
    }
    assert scopes[..i] == scopes;
  }

  /** No scope is listed twice, and exactly the normalized non-blank ones are listed. */
  lemma {:induction false} UniqueListsEachOnce(scopes: seq<string>)
    ensures forall i, j :: 0 <= i < j < |Unique(scopes)| ==> Unique(scopes)[i] != Unique(scopes)[j]
    ensures forall s :: s in Unique(scopes) <==> s != "" && exists i :: 0 <= i < |scopes| && Normal(scopes[i]) == s
  {
    hide Normal;
    if scopes != [] {
      var n := |scopes| - 1;
      UniqueListsEachOnce(scopes[..n]);
      assert forall i :: 0 <= i < n ==> scopes[..n][i] == scopes[i];
    }
  }

  /** Scopes are listed in the order they first appear. */
  lemma {:induction false} UniqueKeepsOrder(scopes: seq<string>, k: nat)
    requires k <= |scopes|
    ensures Unique(scopes[..k]) <= Unique(scopes)
    decreases |scopes|
  {
    hide Normal;
    if k == |scopes| {
      assert scopes[..k] == scopes;
    } else {
      var earlier := scopes[..|scopes| - 1];
      UniqueKeepsOrder(earlier, k);
      assert earlier[..k] == scopes[..k];
    }
  }

  /** The first scope of a list leads, unless it is blank. */
  lemma FirstLeads(scopes: seq<string>)
    requires |scopes| > 0 && Normal(scopes[0]) != ""
    ensures |Unique(scopes)| > 0 && Unique(scopes)[0] == Normal(scopes[0])
  {
    hide Normal;
    UniqueKeepsOrder(scopes, 1);
    assert scopes[..1][..0] == [];
    assert Unique(scopes[..1]) == [Normal(scopes[0])];
  }

  // ---------------------------------------------------------------- decision

  predicate TrustedEvent(event: string) {
    event in {"push", "workflow_dispatch", "repository_dispatch", "delete", "registry_package", "page_build", "schedule"}
  }

  predicate SameName(env: Env, a: string, b: string) { env.fold(a) == env.fold(b) }

  const NO_CACHE := Decision("", [], 0)

  function ReadOnly(scope: string): Decision { Decision("", [scope], 0) }

  /** The default branch's scope, from what GitHub says about the repository itself. */
  function RepositoryScope(env: Env, repository: string, info: Option<RepositoryInfo>): Option<string> {
    if info.None? then None
    else if !SameName(env, TrimSpace(info.value.fullName), repository) || TrimSpace(info.value.defaultBranch) == "" then None
    else Some(ScopeForBranch(env, info.value.defaultBranch))
  }

  function PullDecision(env: Env, repository: string, run: Run, pull: Option<Pull>, defaultScope: string): Decision {
    if |run.pulls| == 0 || run.pulls[0] <= 0 || pull.None? then ReadOnly(defaultScope)
    else
      var p := pull.value;
      var baseRepository, baseBranch := TrimSpace(p.baseRepository), TrimSpace(p.baseBranch);
      if p.number != run.pulls[0] || baseRepository == "" || baseBranch == "" || TrimSpace(p.headRepository) == ""
         || !SameName(env, baseRepository, repository) then ReadOnly(defaultScope)
      else
        var scope := ScopeForPull(p.number);
        Decision(scope, Unique([scope, ScopeForBranch(env, baseBranch), defaultScope]), p.number)
  }

  function BranchDecision(env: Env, repository: string, run: Run, defaultScope: string): Decision {
    var head, base, branch := TrimSpace(run.headRepository), TrimSpace(run.fullName), TrimSpace(run.headBranch);
    if run.event in {"pull_request_target", "workflow_run", "issue_comment"} then ReadOnly(defaultScope)
    else if head == "" || base == "" || !SameName(env, base, repository) || !SameName(env, head, base) then ReadOnly(defaultScope)
    else if branch == "" || !TrustedEvent(run.event) then ReadOnly(defaultScope)
    else
      var scope := ScopeForBranch(env, branch);
      Decision(scope, Unique([scope, defaultScope]), 0)
  }

  function ScopesForWorkflow(env: Env, repository: string, runId: int, run: Option<Run>, info: Option<RepositoryInfo>,
                             pull: Option<Pull>): Decision {
    var fallback := RepositoryScope(env, repository, info);
    if runId <= 0 || run.None? then if fallback.None? then NO_CACHE else ReadOnly(fallback.value)
    else
      var named := TrimSpace(run.value.defaultBranch);
      if named == "" && fallback.None? then NO_CACHE
      else
        var defaultScope := if named != "" then ScopeForBranch(env, named) else fallback.value;
        if run.value.event == "pull_request" then PullDecision(env, repository, run.value, pull, defaultScope)
        else BranchDecision(env, repository, run.value, defaultScope)
  }

  // -------------------------------------------------------------- properties

  predicate HexDigit(c: char) { '0' <= c <= '9' || 'a' <= c <= 'f' }

  /** The digest is sixteen bytes in hexadecimal. */
  ghost predicate Hex(hash: string -> string) {
    forall b :: |hash(b)| == 32 && forall i :: 0 <= i < 32 ==> HexDigit(hash(b)[i])
  }

  predicate Plain(s: string) {
    s != "" && !IsSpace(s[0]) && !IsSpace(s[|s| - 1]) && !IsSlash(s[0]) && !IsSlash(s[|s| - 1])
  }

  lemma PlainIsNormal(s: string)
    requires Plain(s)
    ensures Normal(s) == s
  {
    TrimKeeps(s, IsSpace);
    TrimKeeps(s, IsSlash);
  }

  lemma AppendIsPlain(a: string, b: string)
    requires a != "" && b != "" && !IsSpace(a[0]) && !IsSlash(a[0])
    requires '0' <= b[|b| - 1] <= '9' || 'a' <= b[|b| - 1] <= 'f'
    ensures Plain(a + b)
  {
    var s := a + b;
    assert s[0] == a[0] && s[|s| - 1] == b[|b| - 1];
  }

  lemma PullScopeIsPlain(number: int)
    ensures Plain(ScopeForPull(number))
  {
    hide Plain;
    if number > 0 {
      AppendIsPlain("scopes/pr-", Decimal(number));
    } else {
      UnknownIsPlain();
    }
  }

  lemma UnknownIsPlain()
    ensures Plain("scopes/pr-unknown")
  {
  }

  lemma BranchScopeIsPlain(env: Env, branch: string)
    requires Hex(env.hash)
    ensures Plain(ScopeForBranch(env, branch))
  {
    hide Plain, TrimSpace, TrimPrefix;
    var name := TrimPrefix(TrimSpace(branch), "refs/heads/");
    var h := env.hash(if name == "" then "default" else name);
    assert |h| == 32 && HexDigit(h[31]);
    AppendIsPlain("scopes/branch-", h);
  }

  /** Whoever may write a scope reads that scope first; what GitHub answered does not matter. */
  lemma WriteScopeIsFirstReadScope(env: Env, repository: string, runId: int, run: Option<Run>, info: Option<RepositoryInfo>, pull: Option<Pull>)
    requires Hex(env.hash)
    ensures var d := ScopesForWorkflow(env, repository, runId, run, info, pull);
      d.writeScope != "" ==> |d.readScopes| > 0 && d.readScopes[0] == d.writeScope && Plain(d.writeScope)
  {
    hide ScopeForPull, ScopeForBranch, Normal, Plain, Unique, TrimSpace, SameName;
    var d := ScopesForWorkflow(env, repository, runId, run, info, pull);
    if d.writeScope != "" {
      if run.value.event == "pull_request" {
        PullScopeIsPlain(pull.value.number);
      } else {
        BranchScopeIsPlain(env, TrimSpace(run.value.headBranch));
      }
      PlainIsNormal(d.writeScope);
      var named := TrimSpace(run.value.defaultBranch);
      var defaultScope := if named != "" then ScopeForBranch(env, named) else RepositoryScope(env, repository, info).value;
      FirstLeads(if run.value.event == "pull_request" then
                   [d.writeScope, ScopeForBranch(env, TrimSpace(pull.value.baseBranch)), defaultScope]
                 else [d.writeScope, defaultScope]);
    }
  }

  /** A pull request's run writes its own pull request's scope or nothing. */
  lemma PullRequestsWriteOnlyTheirOwnScope(env: Env, repository: string, runId: int, run: Run, info: Option<RepositoryInfo>, pull: Option<Pull>)
    requires run.event == "pull_request"
    ensures var d := ScopesForWorkflow(env, repository, runId, Some(run), info, pull);
      d.writeScope != "" ==>
        && |run.pulls| > 0 && run.pulls[0] > 0 && d.pullRequest == run.pulls[0]
        && d.writeScope == ScopeForPull(run.pulls[0])
  {
    hide ScopeForPull, ScopeForBranch, Unique, TrimSpace, SameName;
  }

  /** Only a trusted event of the repository's own branch, or a pull request, writes at all. */
  lemma OnlyTrustedRunsWrite(env: Env, repository: string, runId: int, run: Option<Run>, info: Option<RepositoryInfo>, pull: Option<Pull>)
    ensures ScopesForWorkflow(env, repository, runId, run, info, pull).writeScope != "" ==>
      && runId > 0 && run.Some?
      && (run.value.event == "pull_request" ||
          (TrustedEvent(run.value.event) && SameName(env, TrimSpace(run.value.headRepository), repository)))
  {
    hide ScopeForPull, ScopeForBranch, Unique, TrimSpace;
  }

  /** A scope of the pull request, if there is one, or of some branch. */
  ghost predicate Belongs(env: Env, pullRequest: int, scope: string) {
    (pullRequest > 0 && scope == ScopeForPull(pullRequest)) || exists b :: scope == ScopeForBranch(env, b)
  }

  lemma UniqueBelongs(env: Env, pullRequest: int, scopes: seq<string>)
    requires Hex(env.hash) && forall s :: s in scopes ==> Belongs(env, pullRequest, s)
    ensures forall s :: s in Unique(scopes) ==> Belongs(env, pullRequest, s)
  {
    hide ScopeForPull, ScopeForBranch, Normal, Unique, Hex;
    UniqueListsEachOnce(scopes);
    forall s | s in Unique(scopes) ensures Belongs(env, pullRequest, s) {
      var i :| 0 <= i < |scopes| && Normal(scopes[i]) == s;
      assert Belongs(env, pullRequest, scopes[i]);
      BelongingIsNormal(env, pullRequest, scopes[i]);
    }
  }

  lemma BelongingIsNormal(env: Env, pullRequest: int, scope: string)
    requires Hex(env.hash) && Belongs(env, pullRequest, scope)
    ensures Normal(scope) == scope
  {
    hide ScopeForPull, ScopeForBranch, Normal, Plain, Hex;
    if pullRequest > 0 && scope == ScopeForPull(pullRequest) {
      PullScopeIsPlain(pullRequest);
    } else {
      var b :| scope == ScopeForBranch(env, b);
      BranchScopeIsPlain(env, b);
    }
    PlainIsNormal(scope);
  }

  ghost predicate ReadsItsOwn(env: Env, d: Decision) {
    && (forall s :: s in d.readScopes ==> Belongs(env, d.pullRequest, s))
    && (d.pullRequest != 0 ==> d.pullRequest > 0 && d.writeScope == ScopeForPull(d.pullRequest))
  }

  lemma PullDecisionReadsItsOwn(env: Env, repository: string, run: Run, pull: Option<Pull>, branch: string)
    requires Hex(env.hash)
    ensures ReadsItsOwn(env, PullDecision(env, repository, run, pull, ScopeForBranch(env, branch)))
  {
    hide ScopeForPull, ScopeForBranch, Unique, TrimSpace, SameName, Hex;
    if pull.Some? && pull.value.number > 0 {
      UniqueBelongs(env, pull.value.number,
                    [ScopeForPull(pull.value.number), ScopeForBranch(env, TrimSpace(pull.value.baseBranch)), ScopeForBranch(env, branch)]);
    }
  }

  lemma BranchDecisionReadsItsOwn(env: Env, repository: string, run: Run, branch: string)
    requires Hex(env.hash)
    ensures ReadsItsOwn(env, BranchDecision(env, repository, run, ScopeForBranch(env, branch)))
  {
    hide ScopeForPull, ScopeForBranch, Unique, TrimSpace, SameName, Hex;
    UniqueBelongs(env, 0, [ScopeForBranch(env, TrimSpace(run.headBranch)), ScopeForBranch(env, branch)]);
  }

  /** A decision reads its own pull request's scope and branches' scopes, nothing else, and writes the former if it is for one. */
  lemma DecisionsReadTheirOwn(env: Env, repository: string, runId: int, run: Option<Run>, info: Option<RepositoryInfo>, pull: Option<Pull>)
    requires Hex(env.hash)
    ensures ReadsItsOwn(env, ScopesForWorkflow(env, repository, runId, run, info, pull))
  {
    hide ScopeForPull, ScopeForBranch, TrimSpace, SameName, Hex, PullDecision, BranchDecision;
    if run.Some? {
      var named := TrimSpace(run.value.defaultBranch);
      var branch := if named == "" && info.Some? then info.value.defaultBranch else named;
      PullDecisionReadsItsOwn(env, repository, run.value, pull, branch);
      BranchDecisionReadsItsOwn(env, repository, run.value, branch);
    }
  }

  // ------------------------------------------------ which scopes a run is given

  /** The branch whose scope everyone may read: the run's answer names it or else the repository's own answer, if that is about the repository. */
  ghost predicate DefaultBranch(env: Env, repository: string, run: Option<Run>, info: Option<RepositoryInfo>, branch: string) {
    if run.Some? && !Blank(run.value.defaultBranch) then branch == run.value.defaultBranch
    else
      && info.Some? && !Blank(info.value.defaultBranch) && branch == info.value.defaultBranch
      && env.fold(TrimSpace(info.value.fullName)) == env.fold(repository)
  }

  /** The run that GitHub's answer is trusted for. */
  function Asked(runId: int, run: Option<Run>): Option<Run> { if runId > 0 then run else None }

  /** One of the seven events of the repository itself, on a branch with a name. */
  ghost predicate OwnBranchRun(env: Env, repository: string, run: Run) {
    && run.event in {"push", "workflow_dispatch", "repository_dispatch", "delete", "registry_package", "page_build", "schedule"}
    && !Blank(run.headRepository) && !Blank(run.fullName) && !Blank(run.headBranch)
    && env.fold(TrimSpace(run.fullName)) == env.fold(repository)
    && env.fold(TrimSpace(run.headRepository)) == env.fold(TrimSpace(run.fullName))
  }

  /** A pull request of the repository that GitHub describes in full, and that the run is for. */
  ghost predicate KnownPull(env: Env, repository: string, run: Run, pull: Option<Pull>) {
    && |run.pulls| > 0 && run.pulls[0] > 0 && pull.Some? && pull.value.number == run.pulls[0]
    && !Blank(pull.value.baseRepository) && !Blank(pull.value.baseBranch) && !Blank(pull.value.headRepository)
    && env.fold(TrimSpace(pull.value.baseRepository)) == env.fold(repository)
  }

  /** `scopes` without the ones that stand earlier in it. */
  function Distinct(scopes: seq<string>): seq<string> {
    if scopes == [] then []
    else
      var earlier := scopes[..|scopes| - 1];
      Distinct(earlier) + if scopes[|scopes| - 1] in earlier then [] else [scopes[|scopes| - 1]]
  }

  lemma {:induction false} DistinctLists(scopes: seq<string>)
    ensures forall s :: s in Distinct(scopes) <==> s in scopes
  {
    if scopes != [] {
      var n := |scopes| - 1;
      DistinctLists(scopes[..n]);
      assert scopes == scopes[..n] + [scopes[n]];
    }
  }

  lemma {:induction false} UniqueIsDistinct(scopes: seq<string>)
    requires forall s :: s in scopes ==> Plain(s)
    ensures Unique(scopes) == Distinct(scopes)
  {
    hide Plain, Normal;
    if scopes != [] {
      var n := |scopes| - 1;
      UniqueIsDistinct(scopes[..n]);
      DistinctLists(scopes[..n]);
      PlainIsNormal(scopes[n]);
      PlainIsSomething(scopes[n]);
    }
  }

  lemma PlainIsSomething(s: string)
    requires Plain(s)
    ensures s != ""
  {
  }

  lemma ScopeOfTrimmed(env: Env, branch: string)
    ensures ScopeForBranch(env, TrimSpace(branch)) == ScopeForBranch(env, branch)
  {
    hide SkipLeft, SkipRight, IsSpace;
    var t := TrimSpace(branch);
    TrimKeeps(t, IsSpace);
  }

  /** Reading only the default branch's scope. */
  predicate ReadsDefault(env: Env, d: Decision, branch: string) {
    d == Decision("", [ScopeForBranch(env, branch)], 0)
  }

  /**
   A run that is not a pull request's writes its head branch's scope exactly when it is one of the repository's own,
   and then reads it and after it the default branch's, if that is another; every other run only reads the default branch's.
   */
  lemma BranchRunsWriteTheirBranch(env: Env, repository: string, runId: int, run: Run, info: Option<RepositoryInfo>, pull: Option<Pull>, branch: string)
    requires Hex(env.hash) && runId > 0 && run.event != "pull_request" && DefaultBranch(env, repository, Some(run), info, branch)
    ensures var d := ScopesForWorkflow(env, repository, runId, Some(run), info, pull);
      var own, default := ScopeForBranch(env, run.headBranch), ScopeForBranch(env, branch);
      if OwnBranchRun(env, repository, run)
      then d == Decision(own, if own == default then [own] else [own, default], 0) && own != ""
      else ReadsDefault(env, d, branch)
  {
    hide ScopeForBranch, TrimSpace, Unique, Hex, Plain;
    BlankTrims(run.defaultBranch);
    BlankTrims(run.headBranch);
    BlankTrims(run.headRepository);
    BlankTrims(run.fullName);
    ScopeOfTrimmed(env, run.headBranch);
    ScopeOfTrimmed(env, branch);
    if info.Some? {
      BlankTrims(info.value.defaultBranch);
    }
    var own, default := ScopeForBranch(env, run.headBranch), ScopeForBranch(env, branch);
    BranchScopeIsPlain(env, run.headBranch);
    BranchScopeIsPlain(env, branch);
    UniqueOfTwo(own, default);
    PlainIsSomething(own);
  }

  /**
   A pull request's run writes the pull request's scope exactly when GitHub describes the pull request in full as the run's own,
   and then reads it, the base branch's and the default branch's, in that order and each once; otherwise it only reads the last.
   */
  lemma PullRequestRunsWriteTheirPull(env: Env, repository: string, runId: int, run: Run, info: Option<RepositoryInfo>, pull: Option<Pull>, branch: string)
    requires Hex(env.hash) && runId > 0 && run.event == "pull_request" && DefaultBranch(env, repository, Some(run), info, branch)
    ensures var d := ScopesForWorkflow(env, repository, runId, Some(run), info, pull);
      if KnownPull(env, repository, run, pull)
      then
        var own, base := ScopeForPull(run.pulls[0]), ScopeForBranch(env, pull.value.baseBranch);
        d == Decision(own, Distinct([own, base, ScopeForBranch(env, branch)]), run.pulls[0]) && own != ""
      else ReadsDefault(env, d, branch)
  {
    hide ScopeForBranch, ScopeForPull, TrimSpace, Unique, Hex, Plain, Distinct;
    BlankTrims(run.defaultBranch);
    ScopeOfTrimmed(env, branch);
    if info.Some? {
      BlankTrims(info.value.defaultBranch);
    }
    if pull.Some? {
      BlankTrims(pull.value.baseRepository);
      BlankTrims(pull.value.baseBranch);
      BlankTrims(pull.value.headRepository);
      ScopeOfTrimmed(env, pull.value.baseBranch);
      var own, base, default := ScopeForPull(pull.value.number), ScopeForBranch(env, pull.value.baseBranch), ScopeForBranch(env, branch);
      PullScopeIsPlain(pull.value.number);
      BranchScopeIsPlain(env, pull.value.baseBranch);
      BranchScopeIsPlain(env, branch);
      UniqueIsDistinct([own, base, default]);
      PlainIsSomething(own);
    }
  }

  lemma UniqueOfTwo(a: string, b: string)
    requires Plain(a) && Plain(b)
    ensures Unique([a, b]) == if a == b then [a] else [a, b]
  {
    hide Plain, Normal, Unique;
    UniqueIsDistinct([a, b]);
    assert [a, b][..1] == [a] && [a][..0] == [];
    assert Distinct([a]) == [a];
  }

  /** Without a run to ask about, a request only reads the default branch's scope. */
  lemma UnknownRunsReadTheDefault(env: Env, repository: string, runId: int, run: Option<Run>, info: Option<RepositoryInfo>, pull: Option<Pull>, branch: string)
    requires Asked(runId, run).None? && DefaultBranch(env, repository, None, info, branch)
    ensures ReadsDefault(env, ScopesForWorkflow(env, repository, runId, run, info, pull), branch)
  {
    hide ScopeForBranch, TrimSpace;
    BlankTrims(info.value.defaultBranch);
  }

  /** Where no default branch is known, caching is off. */
  lemma NoDefaultBranchNoCache(env: Env, repository: string, runId: int, run: Option<Run>, info: Option<RepositoryInfo>, pull: Option<Pull>)
    requires forall branch :: !DefaultBranch(env, repository, Asked(runId, run), info, branch)
    ensures ScopesForWorkflow(env, repository, runId, run, info, pull) == Decision("", [], 0)
  {
    hide ScopeForBranch, TrimSpace, Blank;
    if run.Some? {
      BlankTrims(run.value.defaultBranch);
      assert !DefaultBranch(env, repository, Asked(runId, run), info, run.value.defaultBranch);
    }
    if info.Some? {
      BlankTrims(info.value.defaultBranch);
      assert !DefaultBranch(env, repository, Asked(runId, run), info, info.value.defaultBranch);
    }
  }

  /** A branch's own name, as against its reference. */
  predicate BranchName(name: string) {
    name != "" && !IsSpace(name[0]) && !IsSpace(name[|name| - 1]) && !("refs/heads/" <= name)
  }

  /** A branch has one scope, by name or by reference, and where the digest tells names apart so do the scopes. */
  lemma BranchScopesAreTheBranches(env: Env, a: string, b: string)
    requires BranchName(a) && BranchName(b)
    ensures ScopeForBranch(env, "refs/heads/" + a) == ScopeForBranch(env, a)
    ensures ScopeForBranch(env, a) == ScopeForBranch(env, b) <==> env.hash(a) == env.hash(b)
    ensures ScopeForBranch(env, "") == ScopeForBranch(env, "default")
  {
    hide Trim;
    var ref := "refs/heads/" + a;
    assert ref[0] == 'r' && ref[|ref| - 1] == a[|a| - 1];
    TrimKeeps(a, IsSpace);
    TrimKeeps(b, IsSpace);
    TrimKeeps(ref, IsSpace);
    TrimKeeps("", IsSpace);
    TrimKeeps("default", IsSpace);
    assert ref[|"refs/heads/"|..] == a;
    assert ScopeForBranch(env, a)[|"scopes/branch-"|..] == env.hash(a);
    assert ScopeForBranch(env, b)[|"scopes/branch-"|..] == env.hash(b);
  }
}
