/**
 Sharing one shrinking time budget among the recoveries of a restart.

 A pool of workers takes requests in order. When a worker picks one up it divides the
 time that is left by the number of waves still ahead. Times are integers
 (nanoseconds) counted from the start of the recovery.
 */
module RecoveryBudget {
  import opened Basics
  import Sets

  const MAX_SINGLE_RECOVERY_TIMEOUT: int := 30_000_000_000

  /** How long a recovery may take: the configured total and the context's deadline, if any. */
  datatype Budget = Budget(configured: int, deadline: Option<int>)

  function Min(a: int, b: int): int { if a < b then a else b }

  /** Rounds of `workers` recoveries needed for `requests`. */
  function Waves(requests: int, workers: int): int
    requires workers > 0
  {
    (requests + workers - 1) / workers
  }

  /** The part of the budget available at `now`; not positive when it is spent. */
  function Available(b: Budget, now: int): int {
    if b.deadline.Some? && (b.configured <= 0 || b.deadline.value - now < b.configured)
    then b.deadline.value - now else b.configured
  }

  function TimeoutPerRunner(b: Budget, now: int, requests: int, workers: int): Option<int> {
    if requests <= 0 || workers <= 0 then None
    else if Available(b, now) <= 0 then
      if b.deadline.None? then Some(MAX_SINGLE_RECOVERY_TIMEOUT) else None
    else if Waves(requests, workers) <= 0 then None
    else
      var timeout := Available(b, now) / Waves(requests, workers);
      if timeout <= 0 then None else Some(Min(timeout, MAX_SINGLE_RECOVERY_TIMEOUT))
  }

  // ---------------------------------------------------------------- schedules

  /** One dispatched request: when a worker picked it up, which one, and how long it took. */
  datatype Job = Job(start: int, worker: int, took: int)

  ghost predicate FreeAt(jobs: seq<Job>, k: int, t: int) {
    forall j :: 0 <= j < |jobs| && jobs[j].worker == k ==> jobs[j].start + jobs[j].took <= t
  }

  function PreviousStart(jobs: seq<Job>): int {
    if jobs == [] then 0 else jobs[|jobs| - 1].start
  }

  /**
   `job` may follow `jobs`: a free worker takes it, no earlier than its predecessor and not
   later than the first moment some worker is free; it returns by its own timeout, and at
   once when it gets none.
   */
  ghost predicate Follows(b: Budget, n: int, workers: int, jobs: seq<Job>, job: Job) {
    && 0 <= job.worker < workers
    && PreviousStart(jobs) <= job.start
    && FreeAt(jobs, job.worker, job.start)
    && (forall k, t :: 0 <= k < workers && PreviousStart(jobs) <= t < job.start ==> !FreeAt(jobs, k, t))
    && 0 <= job.took <= (match TimeoutPerRunner(b, job.start, n - |jobs|, workers) case Some(d) => d case None => 0)
  }

  ghost predicate Schedule(b: Budget, n: int, workers: int, jobs: seq<Job>) {
    |jobs| <= n && forall i :: 0 <= i < |jobs| ==> Follows(b, n, workers, jobs[..i], jobs[i])
  }

  // --------------------------------------------------------------- arithmetic

  /** Order of multiples of `w`. */
  lemma {:induction false} Multiples(a: int, b: int, w: int)
    requires w >= 0
    ensures a < b ==> a * w + w <= b * w
    decreases b - a
  {
    if a < b {
      assert b * w == (b - 1) * w + w;
      Multiples(a, b - 1, w);
    }
  }

  lemma QuotientIs(a: int, w: int, q: int)
    requires w > 0 && q * w <= a < q * w + w
    ensures a / w == q
  {
    var d := a / w;
    assert a == d * w + a % w;
    Multiples(d, q, w);
    Multiples(q, d, w);
  }

  lemma QuotientBounds(a: int, w: int)
    requires w > 0
    ensures (a / w) * w <= a < (a / w) * w + w
  {
  }

  lemma WavesOneMore(m: int, w: int)
    requires w > 0
    ensures Waves(m + w, w) == Waves(m, w) + 1
  {
    var a := m + w - 1;
    QuotientBounds(a, w);
    assert (a / w + 1) * w == (a / w) * w + w;
    QuotientIs(a + w, w, a / w + 1);
  }

  lemma WavesMonotone(m1: int, m2: int, w: int)
    requires w > 0 && m1 <= m2
    ensures Waves(m1, w) <= Waves(m2, w)
  {
    var a1, a2 := m1 + w - 1, m2 + w - 1;
    QuotientBounds(a1, w);
    QuotientBounds(a2, w);
    Multiples(a2 / w, a1 / w, w);
  }

  lemma WavesPositive(m: int, w: int)
    requires w > 0 && m > 0
    ensures Waves(m, w) >= 1
  {
    WavesOneMore(m - w, w);
    WavesMonotone(1 - w, m - w, w);
    QuotientIs(0, w, 0);
  }

  /** Dividing `left >= v * q` into `v` parts gives each at least `q`, and one part leaves `(v - 1) * q`. */
  lemma PartAndRest(left: int, v: int, q: int, part: int)
    requires v >= 1 && q >= 0 && left >= v * q && part <= left / v
    ensures left / v >= q
    ensures left - part >= (v - 1) * q
  {
    var each := left / v;
    QuotientBounds(left, v);
    Multiples(each, q, v);
    Multiples(part, each, v);
    Multiples(q, part, v - 1);
    assert part * v == part * (v - 1) + part;
    assert v * q == q * (v - 1) + q;
  }

  /** `t` is the largest time that `waves` recoveries in a row can each have of `left`. */
  predicate Divides(left: int, waves: int, t: int) {
    t * waves <= left < (t + 1) * waves
  }

  /** The waves are just enough: they take in every request, and one fewer would not. */
  lemma WavesAreEnough(requests: int, workers: int)
    requires workers > 0
    ensures (Waves(requests, workers) - 1) * workers < requests <= Waves(requests, workers) * workers
  {
    QuotientBounds(requests + workers - 1, workers);
    var w := Waves(requests, workers);
    assert (w - 1) * workers == w * workers - workers;
  }

  /** Time is left until the deadline and within the configured total, whichever there are, and up to one of them. */
  lemma AvailableIsTheLeast(b: Budget, now: int)
    ensures b.deadline.Some? ==> Available(b, now) <= b.deadline.value - now
    ensures b.configured > 0 ==> Available(b, now) <= b.configured
    ensures Available(b, now) == b.configured || (b.deadline.Some? && Available(b, now) == b.deadline.value - now)
  {
  }

  /**
   A timeout is positive and at most thirty seconds. With time left it is thirty seconds or, if that is
   less, the time left divided by the waves; there is none when that is not even a nanosecond, and none after the deadline.
   */
  lemma TimeoutIsTheCappedPart(b: Budget, now: int, requests: int, workers: int)
    requires requests > 0 && workers > 0
    ensures var timeout := TimeoutPerRunner(b, now, requests, workers);
      && (timeout.Some? ==> 0 < timeout.value <= 30_000_000_000)
      && (timeout.None? <==> if b.deadline.Some? then Available(b, now) < Waves(requests, workers)
                             else 0 < b.configured < Waves(requests, workers))
      && (timeout.Some? && Available(b, now) > 0 ==>
            exists t :: Divides(Available(b, now), Waves(requests, workers), t) && timeout.value == Min(30_000_000_000, t))
      && (timeout.Some? && Available(b, now) <= 0 ==> b.deadline.None? && timeout.value == 30_000_000_000)
  {
    WavesPositive(requests, workers);
    if Available(b, now) > 0 {
      var w := Waves(requests, workers);
      var t := Available(b, now) / w;
      QuotientBounds(Available(b, now), w);
      assert (t + 1) * w == t * w + w;
      assert Divides(Available(b, now), w, t);
      Multiples(t, 0, w);
      Multiples(0, t, w);
    }
  }

  /** No timeout is given to nobody. */
  lemma NobodyGetsNoTimeout(b: Budget, now: int, requests: int, workers: int)
    requires requests <= 0 || workers <= 0
    ensures TimeoutPerRunner(b, now, requests, workers).None?
  {
  }

  // -------------------------------------------------------------- fair share

  /** The share the initial budget guarantees every request. */
  function Share(b: Budget, n: int, workers: int): int
    requires workers > 0 && Waves(n, workers) > 0
  {
    Available(b, 0) / Waves(n, workers)
  }

  /** At the deadline minus `v` shares there is still time for `v` waves. */
  ghost predicate StartsInTime(b: Budget, n: int, workers: int, i: int, start: int)
    requires workers > 0 && Waves(n, workers) > 0
  {
    b.deadline.Some? ==> start <= b.deadline.value - Waves(n - i, workers) * Share(b, n, workers)
  }

  /** A request that starts in time gets its share, and its worker is free one share before the next wave needs it. */
  lemma InTimeGetsShare(b: Budget, n: int, workers: int, i: int, start: int)
    requires workers > 0 && 0 <= i < n && start >= 0
    requires TimeoutPerRunner(b, 0, n, workers).Some? && Waves(n, workers) > 0
    requires StartsInTime(b, n, workers, i, start)
    ensures var q, timeout := Share(b, n, workers), TimeoutPerRunner(b, start, n - i, workers);
            && timeout.Some?
            && timeout.value >= (if Available(b, 0) <= 0 then MAX_SINGLE_RECOVERY_TIMEOUT else Min(q, MAX_SINGLE_RECOVERY_TIMEOUT))
            && (b.deadline.Some? ==>
                  && start < b.deadline.value
                  && start + timeout.value <= b.deadline.value - (Waves(n - i, workers) - 1) * q)
  {
    var q, v := Share(b, n, workers), Waves(n - i, workers);
    WavesPositive(n - i, workers);
    WavesMonotone(n - i, n, workers);
    if Available(b, 0) > 0 {
      var w := Waves(n, workers);
      QuotientBounds(Available(b, 0), w);
      assert v * q <= w * q;
      if b.deadline.Some? {
        var left := b.deadline.value - start;
        PartAndRest(left, v, q, left / v);
        ShareOfAvailable(b, start, v, q);
        var timeout := TimeoutPerRunner(b, start, n - i, workers).value;
        PartAndRest(left, v, q, timeout);
      } else {
        ShareOfAvailable(b, start, v, q);
      }
    }
  }

  lemma ShareOfAvailable(b: Budget, start: int, v: int, q: int)
    requires v >= 1 && q >= 1 && start >= 0 && Available(b, 0) > 0 && Available(b, 0) >= v * q
    requires b.deadline.Some? ==> b.deadline.value - start >= v * q
    ensures Available(b, start) >= v * q && Available(b, start) / v >= q
    ensures b.deadline.Some? ==> Available(b, start) / v <= (b.deadline.value - start) / v
  {
    PartAndRest(Available(b, start), v, q, 0);
    if b.deadline.Some? { QuotientMonotone(Available(b, start), b.deadline.value - start, v); }
  }

  lemma QuotientMonotone(a1: int, a2: int, w: int)
    requires w > 0 && a1 <= a2
    ensures a1 / w <= a2 / w
  {
    QuotientBounds(a1, w);
    QuotientBounds(a2, w);
    Multiples(a2 / w, a1 / w, w);
  }

  function Range(n: int): (r: set<int>)
    ensures forall k :: k in r <==> 0 <= k < n
    decreases n
  {
    if n <= 0 then {} else Range(n - 1) + {n - 1}
  }

  lemma {:induction false} RangeSize(n: int)
    requires n >= 0
    ensures |Range(n)| == n
  {
    if n > 0 { RangeSize(n - 1); }
  }

  function Workers(jobs: seq<Job>): (r: set<int>)
    ensures forall j :: 0 <= j < |jobs| ==> jobs[j].worker in r
  {
    if jobs == [] then {} else {jobs[0].worker} + Workers(jobs[1..])
  }

  lemma {:induction false} WorkersSize(jobs: seq<Job>)
    ensures |Workers(jobs)| <= |jobs|
  {
    if jobs != [] { WorkersSize(jobs[1..]); }
  }

  /** Fewer jobs than workers leave some worker unused. */
  lemma UnusedWorker(jobs: seq<Job>, workers: int) returns (k: int)
    requires |jobs| < workers
    ensures 0 <= k < workers && forall j :: 0 <= j < |jobs| ==> jobs[j].worker != k
  {
    WorkersSize(jobs);
    RangeSize(workers);
    assert !(Range(workers) <= Workers(jobs)) by {
      if Range(workers) <= Workers(jobs) { Sets.SubsetSize(Range(workers), Workers(jobs)); }
    }
    k :| k in Range(workers) && k !in Workers(jobs);
  }

  /** Some worker took none of the last `workers - 1` jobs. */
  lemma UnusedLately(jobs: seq<Job>, workers: int) returns (k: int)
    requires workers > 0
    ensures 0 <= k < workers && forall j :: 0 <= j < |jobs| && |jobs| - workers < j ==> jobs[j].worker != k
  {
    var lo := if |jobs| < workers then 0 else |jobs| - workers + 1;
    var late := jobs[lo..];
    k := UnusedWorker(late, workers);
    assert forall j :: lo <= j < |jobs| ==> late[j - lo] == jobs[j];
  }

  /** Everything before the last `workers - 1` jobs is over one share before the next wave's turn. */
  lemma FreeInTime(b: Budget, n: int, workers: int, jobs: seq<Job>) returns (k: int)
    requires workers > 0 && 0 <= |jobs| < n && Schedule(b, n, workers, jobs) && b.deadline.Some?
    requires TimeoutPerRunner(b, 0, n, workers).Some? && Waves(n, workers) > 0
    requires forall j :: 0 <= j < |jobs| ==> jobs[j].start >= 0 && StartsInTime(b, n, workers, j, jobs[j].start)
    ensures 0 <= k < workers
    ensures FreeAt(jobs, k, b.deadline.value - Waves(n - |jobs|, workers) * Share(b, n, workers))
  {
    hide StartsInTime, Schedule, TimeoutPerRunner, Waves;
    var i, q := |jobs|, Share(b, n, workers);
    k := UnusedLately(jobs, workers);
    forall j | 0 <= j < i && jobs[j].worker == k
      ensures jobs[j].start + jobs[j].took <= b.deadline.value - Waves(n - i, workers) * q
    {
      OverOneWaveEarlier(b, n, workers, jobs, j);
    }
  }

  /** A job at least one wave back is over by the next wave's turn. */
  lemma OverOneWaveEarlier(b: Budget, n: int, workers: int, jobs: seq<Job>, j: int)
    requires workers > 0 && 0 <= |jobs| < n && Schedule(b, n, workers, jobs) && b.deadline.Some?
    requires TimeoutPerRunner(b, 0, n, workers).Some? && Waves(n, workers) > 0
    requires 0 <= j <= |jobs| - workers && jobs[j].start >= 0 && StartsInTime(b, n, workers, j, jobs[j].start)
    ensures jobs[j].start + jobs[j].took <= b.deadline.value - Waves(n - |jobs|, workers) * Share(b, n, workers)
  {
    var i, q := |jobs|, Share(b, n, workers);
    assert |jobs[..j]| == j && Follows(b, n, workers, jobs[..j], jobs[j]);
    InTimeGetsShare(b, n, workers, j, jobs[j].start);
    WavesOneMore(n - i, workers);
    WavesMonotone(n - i + workers, n - j, workers);
    Multiples(Waves(n - i, workers), Waves(n - j, workers) - 1, q);
  }

  lemma {:induction false} AllStartInTime(b: Budget, n: int, workers: int, jobs: seq<Job>)
    requires workers > 0 && n > 0 && Schedule(b, n, workers, jobs)
    requires TimeoutPerRunner(b, 0, n, workers).Some? && Waves(n, workers) > 0
    ensures forall i :: 0 <= i < |jobs| ==> jobs[i].start >= 0 && StartsInTime(b, n, workers, i, jobs[i].start)
    decreases |jobs|
  {
    hide Follows, TimeoutPerRunner, Waves, Share, StartsInTime;
    if jobs != [] {
      var i := |jobs| - 1;
      var front := jobs[..i];
      assert forall j :: 0 <= j < i ==> front[..j] == jobs[..j];
      AllStartInTime(b, n, workers, front);
      assert Follows(b, n, workers, front, jobs[i]);
      StartsLater(b, n, workers, front, jobs[i]);
      if b.deadline.Some? {
        LastStartsInTime(b, n, workers, front, jobs[i]);
      } else {
        NeverLate(b, n, workers, i, jobs[i].start);
      }
    }
  }

  lemma StartsLater(b: Budget, n: int, workers: int, front: seq<Job>, job: Job)
    requires Follows(b, n, workers, front, job) && forall j :: 0 <= j < |front| ==> front[j].start >= 0
    ensures job.start >= 0
  {
    hide TimeoutPerRunner, FreeAt;
  }

  lemma NeverLate(b: Budget, n: int, workers: int, i: int, start: int)
    requires b.deadline.None? && workers > 0 && Waves(n, workers) > 0
    ensures StartsInTime(b, n, workers, i, start)
  {
  }

  lemma LastStartsInTime(b: Budget, n: int, workers: int, front: seq<Job>, job: Job)
    requires workers > 0 && 0 <= |front| < n && Schedule(b, n, workers, front) && b.deadline.Some?
    requires TimeoutPerRunner(b, 0, n, workers).Some? && Waves(n, workers) > 0
    requires Follows(b, n, workers, front, job)
    requires forall j :: 0 <= j < |front| ==> front[j].start >= 0 && StartsInTime(b, n, workers, j, front[j].start)
    ensures StartsInTime(b, n, workers, |front|, job.start)
  {
    hide Schedule, Waves;
    var i, q, previous := |front|, Share(b, n, workers), PreviousStart(front);
    var turn := b.deadline.value - Waves(n - i, workers) * q;
    assert previous <= turn by {
      if i == 0 {
        QuotientBounds(Available(b, 0), Waves(n, workers));
      } else {
        assert StartsInTime(b, n, workers, i - 1, front[i - 1].start);
        WavesMonotone(n - i, n - (i - 1), workers);
        Multiples(Waves(n - i, workers), Waves(n - (i - 1), workers), q);
      }
    }
    var k := FreeInTime(b, n, workers, front);
  }

  /**
   Fair share: however long the recoveries take within their timeouts and whichever workers
   take them, every request gets at least the initial budget divided by the initial number of
   waves (capped at thirty seconds), and none starts at or after the deadline.
   */
  lemma EveryRequestGetsItsShare(b: Budget, n: int, workers: int, jobs: seq<Job>, i: int)
    requires workers > 0 && n > 0 && Schedule(b, n, workers, jobs) && 0 <= i < |jobs|
    requires TimeoutPerRunner(b, 0, n, workers).Some?
    ensures Waves(n, workers) > 0
    ensures var timeout := TimeoutPerRunner(b, jobs[i].start, n - i, workers);
            && timeout.Some?
            && timeout.value >= (if Available(b, 0) <= 0 then MAX_SINGLE_RECOVERY_TIMEOUT
                                 else Min(Available(b, 0) / Waves(n, workers), MAX_SINGLE_RECOVERY_TIMEOUT))
            && 0 < timeout.value <= 30_000_000_000
            && (b.deadline.Some? ==> jobs[i].start < b.deadline.value && jobs[i].start + timeout.value <= b.deadline.value)
  {
    WavesPositive(n, workers);
    AllStartInTime(b, n, workers, jobs);
    InTimeGetsShare(b, n, workers, i, jobs[i].start);
    TimeoutIsTheCappedPart(b, jobs[i].start, n - i, workers);
    WavesPositive(n - i, workers);
    if Available(b, 0) > 0 { Multiples(0, Waves(n - i, workers) - 1, Share(b, n, workers)); }
  }

  // ---------------------------------------------------------------- dispatch

  const MAX_CONCURRENT_RECOVERIES: int := 4

  /** `free[k]` is when worker `k` has finished what it was given. */
  ghost predicate Tracks(jobs: seq<Job>, free: seq<int>) {
    forall k, t :: 0 <= k < |free| && 0 <= t ==> (FreeAt(jobs, k, t) <==> free[k] <= t)
  }

  lemma TracksNext(jobs: seq<Job>, free: seq<int>, job: Job)
    requires Tracks(jobs, free) && 0 <= job.worker < |free|
    requires 0 <= free[job.worker] <= job.start && job.took >= 0
    ensures Tracks(jobs + [job], free[job.worker := job.start + job.took])
  {
    var free' := free[job.worker := job.start + job.took];
    forall k, t | 0 <= k < |free'| && 0 <= t
      ensures FreeAt(jobs + [job], k, t) <==> free'[k] <= t
    {
      assert FreeAt(jobs + [job], k, t) <==> FreeAt(jobs, k, t) && (job.worker == k ==> job.start + job.took <= t) by {
        assert forall j :: 0 <= j < |jobs| ==> (jobs + [job])[j] == jobs[j];
        assert (jobs + [job])[|jobs|] == job;
      }
    }
  }

  method FirstFree(free: seq<int>) returns (k: int)
    requires free != []
    ensures 0 <= k < |free| && forall j :: 0 <= j < |free| ==> free[k] <= free[j]
    ensures FreeFirst(free, k)
  {
    k := 0;
    for j := 1 to |free|
      invariant 0 <= k < |free|
      invariant forall i :: 0 <= i < j ==> free[k] <= free[i]
    {
      if free[j] < free[k] { k := j; }
    }
  }

  lemma ScheduleNext(b: Budget, n: int, workers: int, jobs: seq<Job>, job: Job)
    requires Schedule(b, n, workers, jobs) && |jobs| < n && Follows(b, n, workers, jobs, job)
    ensures Schedule(b, n, workers, jobs + [job])
  {
    assert forall i :: 0 <= i < |jobs| ==> (jobs + [job])[..i] == jobs[..i];
    assert (jobs + [job])[..|jobs|] == jobs;
  }

  /** The job the dispatch loop makes next, given to a worker that is free first. */
  function NextJob(b: Budget, workers: int, left: int, previous: int, k: int, free: int, want: nat): Job {
    var start := if free < previous then previous else free;
    var timeout := TimeoutPerRunner(b, start, left, workers);
    Job(start, k, if timeout.None? then 0 else Min(want, timeout.value))
  }

  /** Recovery `i` runs until it is done or its timeout cuts it off; without a timeout it does not run. */
  predicate Runs(b: Budget, n: int, workers: int, i: int, job: Job, want: nat) {
    match TimeoutPerRunner(b, job.start, n - i, workers)
    case None => job.took == 0
    case Some(timeout) => job.took == (if want < timeout then want else timeout)
  }

  predicate AllRun(b: Budget, workers: int, jobs: seq<Job>, want: seq<nat>) {
    |jobs| <= |want| && forall i :: 0 <= i < |jobs| ==> Runs(b, |want|, workers, i, jobs[i], want[i])
  }

  lemma AllRunNext(b: Budget, workers: int, jobs: seq<Job>, job: Job, want: seq<nat>)
    requires AllRun(b, workers, jobs, want) && |jobs| < |want| && Runs(b, |want|, workers, |jobs|, job, want[|jobs|])
    ensures AllRun(b, workers, jobs + [job], want)
  {
    hide Runs;
  }

  lemma NextJobFollows(b: Budget, n: int, workers: int, jobs: seq<Job>, free: seq<int>, k: int, want: nat)
    requires |free| == workers && Tracks(jobs, free) && 0 <= PreviousStart(jobs) && |jobs| < n
    requires 0 <= k < workers && 0 <= free[k] && forall j :: 0 <= j < workers ==> free[k] <= free[j]
    ensures var job := NextJob(b, workers, n - |jobs|, PreviousStart(jobs), k, free[k], want);
      && Follows(b, n, workers, jobs, job) && job.worker == k && free[k] <= job.start && 0 <= job.took
      && Runs(b, n, workers, |jobs|, job, want)
  {
    hide FreeAt;
  }

  /** Where the dispatch loop stands: `free` tells when each worker is done with the jobs so far. */
  ghost predicate Dispatched(b: Budget, workers: int, jobs: seq<Job>, free: seq<int>, want: seq<nat>) {
    && Schedule(b, |want|, workers, jobs) && AllRun(b, workers, jobs, want) && 0 <= PreviousStart(jobs)
    && |free| == workers && Tracks(jobs, free) && forall k :: 0 <= k < workers ==> 0 <= free[k]
  }

  ghost predicate FreeFirst(free: seq<int>, k: int) {
    0 <= k < |free| && forall j :: 0 <= j < |free| ==> free[k] <= free[j]
  }

  lemma DispatchedNothing(b: Budget, workers: int, free: seq<int>, want: seq<nat>)
    requires |free| == workers && forall k :: 0 <= k < workers ==> free[k] == 0
    ensures Dispatched(b, workers, [], free, want)
  {
    NothingYet(b, |want|, workers, free);
    hide Schedule, Tracks, Runs;
  }

  /** Giving the next job to a worker that is free first goes on. */
  lemma DispatchedNext(b: Budget, workers: int, jobs: seq<Job>, free: seq<int>, want: seq<nat>)
    requires Dispatched(b, workers, jobs, free, want) && |jobs| < |want|
    ensures |free| == workers
    ensures forall k :: FreeFirst(free, k) ==>
      var job := NextJob(b, workers, |want| - |jobs|, PreviousStart(jobs), k, free[k], want[|jobs|]);
      Dispatched(b, workers, jobs + [job], free[k := job.start + job.took], want)
  {
    hide Schedule, Tracks, AllRun, Runs, Follows, NextJob;
    forall k | FreeFirst(free, k)
      ensures var job := NextJob(b, workers, |want| - |jobs|, PreviousStart(jobs), k, free[k], want[|jobs|]);
        Dispatched(b, workers, jobs + [job], free[k := job.start + job.took], want)
    {
      var job := NextJob(b, workers, |want| - |jobs|, PreviousStart(jobs), k, free[k], want[|jobs|]);
      NextJobFollows(b, |want|, workers, jobs, free, k, want[|jobs|]);
      ScheduleNext(b, |want|, workers, jobs, job);
      AllRunNext(b, workers, jobs, job, want);
      TracksNext(jobs, free, job);
    }
  }

  /** The dispatch loop, when recovery `i` would need `want[i]` if it were not cut off. */
  method Dispatch(b: Budget, workers: int, want: seq<nat>) returns (jobs: seq<Job>)
    requires workers > 0
    ensures |jobs| == |want| && Schedule(b, |want|, workers, jobs)
    ensures AllRun(b, workers, jobs, want)
  {
    hide Follows, FreeAt, TimeoutPerRunner, NextJob, Runs;
    jobs := [];
    var n := |want|;
    var free: seq<int> := seq(workers, _ => 0);
    NothingYet(b, n, workers, free);
    DispatchedNothing(b, workers, free, want);
    hide Dispatched;
    while |jobs| < n
      invariant |jobs| <= n && Dispatched(b, workers, jobs, free, want)
      decreases n - |jobs|
    {
      DispatchedNext(b, workers, jobs, free, want);
      var k := FirstFree(free);
      var previous := PreviousStart(jobs);
      var job := NextJob(b, workers, n - |jobs|, previous, k, free[k], want[|jobs|]);
      jobs, free := jobs + [job], free[k := job.start + job.took];
    }
  }

  lemma NothingYet(b: Budget, n: int, workers: int, free: seq<int>)
    requires n >= 0 && forall k :: 0 <= k < |free| ==> free[k] == 0
    ensures Schedule(b, n, workers, []) && Tracks([], free)
  {
  }

  /** Refuses when the budget is spent before dispatch; otherwise everyone gets a share of it. */
  method Recover(b: Budget, want: seq<nat>) returns (jobs: Option<seq<Job>>)
    ensures jobs.None? <==> want != [] && TimeoutPerRunner(b, 0, |want|, if |want| < 4 then |want| else 4).None?
    ensures jobs.Some? ==> |jobs.value| == |want|
    ensures jobs.Some? && want != [] ==>
      var n, workers := |want|, if |want| < 4 then |want| else 4;
      && Schedule(b, n, workers, jobs.value)
      && Waves(n, workers) > 0
      && forall i :: 0 <= i < n ==>
           var timeout := TimeoutPerRunner(b, jobs.value[i].start, n - i, workers);
           && timeout.Some?
           && timeout.value <= 30_000_000_000
           && jobs.value[i].took == (if want[i] < timeout.value then want[i] else timeout.value)
           && (b.deadline.Some? ==>
                 && jobs.value[i].start < b.deadline.value
                 && timeout.value >= Min(Available(b, 0) / Waves(n, workers), MAX_SINGLE_RECOVERY_TIMEOUT))
  {
    if want == [] { return Some([]); }
    var workers := Min(MAX_CONCURRENT_RECOVERIES, |want|);
    if TimeoutPerRunner(b, 0, |want|, workers).None? { return None; }
    var dispatched := Dispatch(b, workers, want);
    WavesPositive(|want|, workers);
    forall i | 0 <= i < |want|
      ensures var timeout := TimeoutPerRunner(b, dispatched[i].start, |want| - i, workers);
              && timeout.Some?
              && timeout.value <= 30_000_000_000
              && dispatched[i].took == (if want[i] < timeout.value then want[i] else timeout.value)
              && (b.deadline.Some? ==>
                    && dispatched[i].start < b.deadline.value
                    && timeout.value >= Min(Available(b, 0) / Waves(|want|, workers), MAX_SINGLE_RECOVERY_TIMEOUT))
    {
      EveryRequestGetsItsShare(b, |want|, workers, dispatched, i);
      TimeoutIsTheCappedPart(b, dispatched[i].start, |want| - i, workers);
      assert Runs(b, |want|, workers, i, dispatched[i], want[i]);
    }
    jobs := Some(dispatched);
  }
}
