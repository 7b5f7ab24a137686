/**
 Where the bounds of the database queue are attained and where they end: runs in which one worker handles one job,
 long enough for its attempts to pass the limit or its delay to overflow.
 */
module JobLimits {
  import opened Common
  import opened GoInt
  import opened JobTable
  import opened JobProtocol
  import opened JobSafety
  import opened JobSchedule
  import opened JobHazards

  /** Worker 0 has just claimed the only job for the given number of runs. */
  ghost predicate Solo(s: State, limit: int, runs: nat) {
    && s.nextId == 1
    && (forall id :: id in s.rows <==> id == 0)
    && (forall id :: id in s.hist <==> id == 0)
    && (forall w :: w in s.exec <==> w == Worker(0))
    && s.exec[Worker(0)] == Claimed(0, s.rows[0])
    && SoloJob(s.rows[0], s.hist[0], limit, runs, s.now)
  }

  ghost predicate SoloJob(j: Job, t: Track, limit: int, runs: nat, now: Time) {
    && j.queue == t.queue == "default"
    && j.maxAttempts == t.maxAttempts == limit
    && j.status == Processing
    && j.attempts == |t.starts| == runs > 0
    && j.availableAt <= now
    && j.reservedAt == Some(now)
    && t.starts[runs - 1] == now
    && t.firstAvailable == 0
  }

  lemma FirstClaim(limit: int) returns (es: seq<Event>)
    requires limit >= 1
    ensures Valid(Init(0), es) && OnTime(Init(0), es)
    ensures var s := Exec(Init(0), es); Solo(s, limit, 1) && s.hist[0].reclaims == s.hist[0].streak == s.now == 0
  {
    var a, b, c := Dispatch(0, "default", "job", [], limit, 0), Claim(Worker(0)), Tick(0);
    var s1 := Apply(Init(0), a);
    OnlyRowIsPicked(s1);
    ThreeSteps(Init(0), a, b, c);
    es := [a, b, c];
  }

  /** What a retry waits: nothing when the delay has overflowed. */
  function Wait(runs: nat): nat {
    if BackoffNanos(runs) > 0 then BackoffNanos(runs) else 0
  }

  /** The handler fails at once and the job is claimed again as soon as it is due. */
  lemma RetryCycle(s: State, limit: int, runs: nat) returns (es: seq<Event>)
    requires Solo(s, limit, runs) && runs < limit
    ensures Valid(s, es) && OnTime(s, es)
    ensures var s' := Exec(s, es);
            && Solo(s', limit, runs + 1)
            && s'.now == s.now + Wait(runs)
            && s'.hist[0].reclaims == s.hist[0].reclaims
            && s'.hist[0].streak == 0
  {
    var a, b, c := Finish(Worker(0), false), Tick(Wait(runs)), Claim(Worker(0));
    var s1 := Apply(s, a);
    var s2 := Apply(s1, b);
    OnlyRowIsPicked(s2);
    ThreeSteps(s, a, b, c);
    es := [a, b, c];
  }

  /** The worker crashes and its row is reclaimed after the lease. */
  lemma ReclaimCycle(s: State, limit: int, runs: nat) returns (es: seq<Event>)
    requires Solo(s, limit, runs)
    ensures Valid(s, es) && OnTime(s, es)
    ensures Solo(Exec(s, es), limit, runs + 1) && Exec(s, es).hist[0].streak == s.hist[0].streak + 1
    ensures Exec(s, es).now == s.now + LEASE + 1
  {
    var a, b, c := Crash(Worker(0)), Tick(LEASE + 1), Claim(Worker(0));
    var s1 := Apply(s, a);
    var s2 := Apply(s1, b);
    OnlyRowIsPicked(s2);
    ThreeSteps(s, a, b, c);
    es := [a, b, c];
  }

  /** When the schedule starts run number `runs` of a job that became available at 0. */
  function Due(runs: nat): Time {
    (Pow2(runs + 1) - 4) * SECOND
  }

  /** A retry never waits longer than its schedule says, and less as soon as the delay has overflowed. */
  lemma WaitIsShort(runs: nat)
    requires runs >= 1
    ensures Due(runs) + Wait(runs) <= Due(runs + 1)
    ensures runs >= 33 ==> Due(runs) + Wait(runs) < Due(runs + 1)
  {
    BackoffExactIff(runs);
    if runs >= 33 {
      Pow2Values();
      Pow2Monotone(34, runs + 1);
    }
  }

  /**
   A failing job that is claimed whenever it is due. Its run number `runs` starts no later than the schedule says,
   and earlier from run 34 on.
   */
  lemma {:induction false} FailingRun(limit: int, runs: nat) returns (es: seq<Event>)
    requires 1 <= runs <= limit
    ensures Valid(Init(0), es) && OnTime(Init(0), es)
    ensures var s := Exec(Init(0), es); Solo(s, limit, runs) && Unreclaimed(s) && InTime(s, runs)
    decreases runs
  {
    if runs == 1 {
      es := FirstClaim(limit);
    } else {
      var before := FailingRun(limit, runs - 1);
      es := OneMoreRetry(Init(0), before, limit, runs - 1);
    }
  }

  ghost predicate Unreclaimed(s: State) {
    0 in s.hist && s.hist[0].reclaims == s.hist[0].streak == 0
  }

  ghost predicate InTime(s: State, runs: nat) {
    s.now <= Due(runs) && (runs >= 34 ==> s.now < Due(runs))
  }

  lemma OneMoreRetry(start: State, es: seq<Event>, limit: int, runs: nat) returns (fs: seq<Event>)
    requires Valid(start, es) && OnTime(start, es) && runs < limit
    requires var s := Exec(start, es); Solo(s, limit, runs) && Unreclaimed(s) && InTime(s, runs)
    ensures Valid(start, fs) && OnTime(start, fs)
    ensures var s := Exec(start, fs); Solo(s, limit, runs + 1) && Unreclaimed(s) && InTime(s, runs + 1)
  {
    var cycle := RetryCycle(Exec(start, es), limit, runs);
    RunsCompose(start, es, cycle);
    fs := es + cycle;
    WaitIsShort(runs);
  }

  /** A job whose worker crashes n times; each reclaim comes as soon as the lease is over. */
  lemma {:induction false} CrashingRun(limit: int, n: nat) returns (es: seq<Event>)
    requires limit >= 1
    ensures Valid(Init(0), es) && OnTime(Init(0), es)
    ensures var s := Exec(Init(0), es); Solo(s, limit, n + 1) && s.now == n * (LEASE + 1)
    decreases n
  {
    if n == 0 {
      es := FirstClaim(limit);
    } else {
      var before := CrashingRun(limit, n - 1);
      var cycle := ReclaimCycle(Exec(Init(0), before), limit, n);
      RunsCompose(Init(0), before, cycle);
      es := before + cycle;
    }
  }

  /** A run on time in which a job with limit m has been run m + n times, with n stale reclaims in a row. */
  lemma {:induction false} LimitAttained(m: int, n: nat) returns (es: seq<Event>)
    requires m >= 1
    ensures Valid(Init(0), es) && OnTime(Init(0), es)
    ensures var s := Exec(Init(0), es);
            Solo(s, m, m + n) && s.hist[0].streak == n && (n > 0 ==> OverLimit(s, 0))
    decreases n
  {
    if n == 0 {
      es := FailingRun(m, m);
    } else {
      var before := LimitAttained(m, n - 1);
      var cycle := ReclaimCycle(Exec(Init(0), before), m, m + (n - 1));
      RunsCompose(Init(0), before, cycle);
      es := before + cycle;
    }
  }

  // ---------- where bounded bypass ends ----------

  /** Bounded bypass in all continuations of s whose attempt limits are at most m. */
  ghost predicate BypassBoundedFrom(s: State, m: int) {
    forall es: seq<Event>, queue: string, j: nat ::
      && Valid(s, es)
      && LeftAlone(s, es, j)
      && Eligible(s.rows, queue, s.now, j)
      && Capped(s, es, queue, m)
      ==> Claims(s, es, queue) <= Ahead(s, queue, j) + Reclaims(s, es, queue)
  }

  /** Worker 0 is about to fail its run number 33 of job 0 while job 1 waits. */
  ghost predicate Overtaken(s: State) {
    && s.nextId == 2
    && (forall id :: id in s.rows <==> id == 0 || id == 1)
    && (forall id :: id in s.hist <==> id == 0 || id == 1)
    && (forall w :: w in s.exec <==> w == Worker(0))
    && s.exec[Worker(0)] == Claimed(0, s.rows[0])
    && SoloJob(s.rows[0], s.hist[0], 34, 33, s.now)
    && s.rows[1] == NewJob("default", "job", [], 1, s.now, 0)
    && s.hist[1].queue == "default" && s.hist[1].maxAttempts == 1
  }

  lemma OneStep(s: State, e: Event)
    requires Enabled(s, e)
    ensures Valid(s, [e]) && Exec(s, [e]) == Apply(s, e)
    ensures OnTime(s, [e]) <==> (e.Finish? ==> Live(s, e.w))
  {
    assert [e][1..] == [] && Valid(Apply(s, e), []);
  }

  lemma SecondJob() returns (es: seq<Event>)
    ensures Valid(Init(0), es) && OnTime(Init(0), es) && Overtaken(Exec(Init(0), es))
    ensures Exec(Init(0), es).now == 32 * (LEASE + 1)
  {
    var before := CrashingRun(34, 32);
    var s := Exec(Init(0), before);
    var d := Dispatch(1, "default", "job", [], 1, 0);
    OneStep(s, d);
    RunsCompose(Init(0), before, [d]);
    es := before + [d];
  }

  lemma FirstRowIsPicked(s: State)
    requires s.nextId == 2 && Eligible(s.rows, "default", s.now, 0)
    requires Eligible(s.rows, "default", s.now, 1) && Before(s.rows, 0, 1)
    ensures Picked(s, "default") == Some(0)
  {
    assert PickBelow(s.rows, "default", s.now, 1) == Some(0);
  }

  /** The claim that comes after the failure takes job 0 again, although job 1 has waited longer. */
  lemma RetryClaimedFirst(s: State)
    requires Overtaken(s)
    ensures var s1 := Apply(s, Finish(Worker(0), false));
            && Picked(s1, "default") == Some(0)
            && !ClaimsStale(s1, Claim(Worker(0)))
            && Enabled(s1, Claim(Worker(0)))
  {
    var s1 := Apply(s, Finish(Worker(0), false));
    BackoffOverflows();
    assert s1.rows[0].availableAt < s1.now;
    FirstRowIsPicked(s1);
  }

  /** A run of one claim that takes another pending row than j. */
  lemma ClaimsOther(s: State, w: WorkerId, j: nat)
    requires Enabled(s, Claim(w)) && Picked(s, w.queue).Some? && Picked(s, w.queue) != Some(j)
    requires !ClaimsStale(s, Claim(w))
    ensures Valid(s, [Claim(w)]) && OnTime(s, [Claim(w)]) && LeftAlone(s, [Claim(w)], j)
    ensures Claims(s, [Claim(w)], w.queue) == 1 && Reclaims(s, [Claim(w)], w.queue) == 0
  {
    var e := Claim(w);
    OneStep(s, e);
    assert [e][1..] == [] && LeftAlone(Apply(s, e), [], j);
    assert Claims(Apply(s, e), [], w.queue) == 0 && Reclaims(Apply(s, e), [], w.queue) == 0;
  }

  lemma OvertakenRun(s: State, fs: seq<Event>)
    requires Overtaken(s) && fs == [Finish(Worker(0), false), Claim(Worker(0))]
    ensures Valid(s, fs) && OnTime(s, fs) && LeftAlone(s, fs, 1)
    ensures Claims(s, fs, "default") == 1 && Reclaims(s, fs, "default") == 0
  {
    RetryClaimedFirst(s);
    ClaimsOther(Apply(s, fs[0]), Worker(0), 1);
    assert fs[1..] == [Claim(Worker(0))];
  }

  /**
   No pending row is ahead of a waiting job, and yet another job, which has crashed 32 workers in under six hours and
   now fails in the thirty-third, gets ahead of it.
   */
  lemma OverflowJumpsAhead() returns (es: seq<Event>, fs: seq<Event>)
    ensures Valid(Init(0), es) && OnTime(Init(0), es)
    ensures var s := Exec(Init(0), es);
            && s.now < 6 * 3600 * SECOND
            && Valid(s, fs) && OnTime(s, fs) && LeftAlone(s, fs, 1)
            && Eligible(s.rows, "default", s.now, 1)
            && Capped(s, fs, "default", 34)
            && Claims(s, fs, "default") == 1 && Ahead(s, "default", 1) == 0 && Reclaims(s, fs, "default") == 0
  {
    es := SecondJob();
    var s := Exec(Init(0), es);
    fs := [Finish(Worker(0), false), Claim(Worker(0))];
    OvertakenRun(s, fs);
    SumZeroIff(s.nextId, AheadOf(s.rows, "default", 1));
  }

  /** Bounded bypass holds in all runs whose attempt limits are at most m exactly when m is at most 33. */
  lemma BypassBoundedIff(m: int)
    ensures (forall now: Time, es: seq<Event> :: Valid(Init(now), es) ==> BypassBoundedFrom(Exec(Init(now), es), m))
            <==> m <= 33
  {
    if m <= 33 {
      forall now: Time, es: seq<Event> | Valid(Init(now), es) ensures BypassBoundedFrom(Exec(Init(now), es), m) {
        var s := Exec(Init(now), es);
        RunKeepsInv(Init(now), es);
        forall fs: seq<Event>, queue: string, j: nat |
          && Valid(s, fs)
          && LeftAlone(s, fs, j)
          && Eligible(s.rows, queue, s.now, j)
          && Capped(s, fs, queue, m)
          ensures Claims(s, fs, queue) <= Ahead(s, queue, j) + Reclaims(s, fs, queue)
        {
          BoundedBypass(s, fs, queue, j);
        }
      }
    } else {
      var es, fs := OverflowJumpsAhead();
      assert Capped(Exec(Init(0), es), fs, "default", m);
      assert !BypassBoundedFrom(Exec(Init(0), es), m);
    }
  }

  // ---------- where the schedule ends ----------

  /** In all runs, run number k of a job that is never reclaimed keeps the schedule exactly when k is at most 33. */
  lemma BackoffScheduleIff(k: nat)
    requires k >= 1
    ensures (forall now: Time, es: seq<Event>, id: nat ::
               Valid(Init(now), es) && RanUnreclaimed(Exec(Init(now), es), id, k) ==>
                 StartsInTurn(Exec(Init(now), es), id, k))
            <==> k <= 33
  {
    if k <= 33 {
      forall now: Time, es: seq<Event>, id: nat |
        Valid(Init(now), es) && RanUnreclaimed(Exec(Init(now), es), id, k)
        ensures StartsInTurn(Exec(Init(now), es), id, k)
      {
        BackoffSchedule(now, es, id, k);
      }
    } else {
      var es := FailingRun(k, k);
      assert RanUnreclaimed(Exec(Init(0), es), 0, k) && !StartsInTurn(Exec(Init(0), es), 0, k);
    }
  }

  // ---------- how long the final write may take ----------

  /** A step that is no final write matters for neither. */
  lemma QuietFirst(s: State, e: Event, es: seq<Event>, d: Time)
    requires Enabled(s, e) && !e.Finish? && Valid(Apply(s, e), es)
    ensures Valid(s, [e] + es)
    ensures WritesWithin(s, [e] + es, d) <==> WritesWithin(Apply(s, e), es, d)
    ensures OnTime(s, [e] + es) <==> OnTime(Apply(s, e), es)
  {
    assert ([e] + es)[0] == e && ([e] + es)[1..] == es;
  }

  /** The handler takes d and its write still gets through. */
  lemma SlowReturn(d: nat) returns (es: seq<Event>)
    ensures Valid(Init(0), es) && WritesWithin(Init(0), es, d)
    ensures OnTime(Init(0), es) ==> d <= LEASE
  {
    var a, b, c, e := Dispatch(0, "default", "job", [], 1, 0), Claim(Worker(0)), Tick(d), Finish(Worker(0), true);
    var s1 := Apply(Init(0), a);
    OnlyRowIsPicked(s1);
    var s2 := Apply(s1, b);
    var s3 := Apply(s2, c);
    OneStep(s3, e);
    assert [e][1..] == [] && WritesWithin(s3, [e], d);
    QuietFirst(s2, c, [e], d);
    QuietFirst(s1, b, [c] + [e], d);
    QuietFirst(Init(0), a, [b] + ([c] + [e]), d);
    es := [a] + ([b] + ([c] + [e]));
  }

  /** Every run whose final writes come at most d after their claims is on time. */
  ghost predicate OnTimeWithin(d: Time) {
    forall now: Time, es: seq<Event> :: Valid(Init(now), es) && WritesWithin(Init(now), es, d) ==> OnTime(Init(now), es)
  }

  /**
   When handlers honour their deadline and the final write takes at most `slack` after it, runs are on time
   exactly when `slack` is at most 540 s.
   */
  lemma DeadlineIsOnTimeIff(slack: nat)
    ensures OnTimeWithin(HANDLER_TIMEOUT + slack) <==> slack <= 540 * SECOND
  {
    var d: nat := HANDLER_TIMEOUT + slack;
    if slack <= 540 * SECOND {
      forall now: Time, es: seq<Event> | Valid(Init(now), es) && WritesWithin(Init(now), es, d)
        ensures OnTime(Init(now), es)
      {
        WithinLeaseIsOnTime(Init(now), es, d);
      }
    } else {
      var es := SlowReturn(d);
      assert !OnTime(Init(0), es);
    }
  }
}
