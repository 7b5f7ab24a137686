/**
 What every run of the database queue keeps: no job is lost, a row is never rewritten by a stranger,
 attempts count the runs, and (when the final writes of a job come from its latest claims) no two workers within
 their lease run the same job.
 */
module JobSafety {
  import opened Common
  import opened JobTable
  import opened JobProtocol

  // ---------- invariants of every run ----------

  ghost predicate SameJob(j: Job, t: Track) {
    j.queue == t.queue && j.name == t.name && j.payload == t.payload && j.maxAttempts == t.maxAttempts
  }

  ghost predicate StampOk(j: Job, t: Track) {
    && (j.status == Pending ==> j.reservedAt == None)
    && (j.status == Processing ==>
          && |t.starts| > 0
          && j.reservedAt == Some(t.starts[|t.starts| - 1])
          && j.availableAt <= j.reservedAt.value)
  }

  ghost predicate RowOk(s: State, id: nat)
    requires id in s.rows
  {
    && id in s.hist
    && var j, t := s.rows[id], s.hist[id];
       && SameJob(j, t)
       && j.attempts == |t.starts|
       && StampOk(j, t)
  }

  ghost predicate TrackOk(s: State, id: nat)
    requires id in s.hist
  {
    && id < s.nextId
    && s.hist[id].maxAttempts >= 1
    && s.hist[id].streak <= s.hist[id].reclaims
    && (forall k :: 0 <= k < |s.hist[id].starts| ==> s.hist[id].starts[k] <= s.now)
    && (id in s.rows || s.hist[id].succeeded)
  }

  ghost predicate ClaimOk(s: State, w: WorkerId)
    requires w in s.exec
  {
    var Claimed(id, j) := s.exec[w];
    && id in s.hist
    && SameJob(j, s.hist[id])
    && j.queue == w.queue
    && j.status == Processing
    && 1 <= j.attempts <= |s.hist[id].starts|
    && j.reservedAt == Some(s.hist[id].starts[j.attempts - 1])
  }

  ghost predicate Inv(s: State) {
    && (forall id :: id in s.rows ==> RowOk(s, id))
    && (forall id :: id in s.hist ==> TrackOk(s, id))
    && (forall w :: w in s.exec ==> ClaimOk(s, w))
  }

  lemma DispatchKeepsInv(s: State, e: Event)
    requires Inv(s) && Enabled(s, e) && e.Dispatch?
    ensures Inv(Apply(s, e))
  {
    var s' := Apply(s, e);
    assert e.id !in s.hist;
    forall id | id in s'.rows ensures RowOk(s', id) {
      if id != e.id { assert RowOk(s, id); }
    }
    forall id | id in s'.hist ensures TrackOk(s', id) {
      if id != e.id { assert TrackOk(s, id); }
    }
    forall w | w in s'.exec ensures ClaimOk(s', w) {
      assert ClaimOk(s, w);
    }
  }

  lemma ClaimKeepsTracks(s: State, w: WorkerId, id: nat)
    requires Inv(s) && w !in s.exec
    requires Eligible(s.rows, w.queue, s.now, id)
    ensures forall k :: k in AfterClaim(s, w, id).hist ==> TrackOk(AfterClaim(s, w, id), k)
  {
    var s' := AfterClaim(s, w, id);
    assert RowOk(s, id);
    forall k | k in s'.hist ensures TrackOk(s', k) {
      assert TrackOk(s, k);
    }
  }

  lemma ClaimKeepsClaims(s: State, w: WorkerId, id: nat)
    requires Inv(s) && w !in s.exec
    requires Eligible(s.rows, w.queue, s.now, id)
    ensures forall v :: v in AfterClaim(s, w, id).exec ==> ClaimOk(AfterClaim(s, w, id), v)
  {
    var s' := AfterClaim(s, w, id);
    assert RowOk(s, id) && TrackOk(s, id);
    forall v | v in s'.exec ensures ClaimOk(s', v) {
      if v != w { assert ClaimOk(s, v); }
    }
  }

  lemma ClaimKeepsInv(s: State, w: WorkerId, id: nat)
    requires Inv(s) && w !in s.exec
    requires Eligible(s.rows, w.queue, s.now, id)
    ensures Inv(AfterClaim(s, w, id))
  {
    var s' := AfterClaim(s, w, id);
    ClaimKeepsTracks(s, w, id);
    ClaimKeepsClaims(s, w, id);
    forall k | k in s'.rows ensures RowOk(s', k) {
      assert RowOk(s, k) && RowOk(s, id) && TrackOk(s, id);
    }
  }

  lemma ReturnKeepsRow(s: State, w: WorkerId, ok: bool, written: bool, k: nat)
    requires Inv(s) && w in s.exec && k in AfterReturn(s, w, ok, written).rows
    ensures RowOk(AfterReturn(s, w, ok, written), k)
  {
    assert k in s.rows && RowOk(s, k);
  }

  lemma ReturnKeepsTrack(s: State, w: WorkerId, ok: bool, written: bool, k: nat)
    requires Inv(s) && w in s.exec && k in s.hist
    ensures TrackOk(AfterReturn(s, w, ok, written), k)
  {
    assert TrackOk(s, k) && ClaimOk(s, w);
  }

  lemma ReturnKeepsClaim(s: State, w: WorkerId, ok: bool, written: bool, v: WorkerId)
    requires Inv(s) && w in s.exec && v in AfterReturn(s, w, ok, written).exec
    ensures ClaimOk(AfterReturn(s, w, ok, written), v)
  {
    assert ClaimOk(s, v);
  }

  lemma ReturnKeepsInv(s: State, w: WorkerId, ok: bool, written: bool)
    requires Inv(s) && w in s.exec
    ensures Inv(AfterReturn(s, w, ok, written))
  {
    var s' := AfterReturn(s, w, ok, written);
    forall k | k in s'.rows ensures RowOk(s', k) {
      ReturnKeepsRow(s, w, ok, written, k);
    }
    forall k | k in s'.hist ensures TrackOk(s', k) {
      ReturnKeepsTrack(s, w, ok, written, k);
    }
    forall v | v in s'.exec ensures ClaimOk(s', v) {
      ReturnKeepsClaim(s, w, ok, written, v);
    }
  }

  lemma CrashKeepsInv(s: State, w: WorkerId)
    requires Inv(s)
    ensures Inv(s.(exec := s.exec - {w}))
  {
  }

  lemma TickKeepsInv(s: State, d: nat)
    requires Inv(s)
    ensures Inv(s.(now := s.now + d))
  {
    var s' := s.(now := s.now + d);
    assert forall k :: k in s.rows ==> RowOk(s, k) && RowOk(s', k);
    assert forall k :: k in s.hist ==> TrackOk(s, k) && TrackOk(s', k);
    assert forall v :: v in s.exec ==> ClaimOk(s, v) && ClaimOk(s', v);
  }

  lemma StepKeepsInv(s: State, e: Event)
    requires Inv(s) && Enabled(s, e)
    ensures Inv(Apply(s, e))
  {
    match e
    case Dispatch(_, _, _, _, _, _) => DispatchKeepsInv(s, e);
    case Claim(w) =>
      var p := Picked(s, w.queue);
      if p.Some? { ClaimKeepsInv(s, w, p.value); }
    case Finish(w, ok) => ReturnKeepsInv(s, w, ok, true);
    case LoseWrite(w, ok) => ReturnKeepsInv(s, w, ok, false);
    case Crash(w) => CrashKeepsInv(s, w);
    case Tick(d) => TickKeepsInv(s, d);
  }

  lemma {:induction false} RunKeepsInv(s: State, es: seq<Event>)
    requires Inv(s) && Valid(s, es)
    ensures Inv(Exec(s, es))
    decreases |es|
  {
    if es != [] {
      StepKeepsInv(s, es[0]);
      RunKeepsInv(Apply(s, es[0]), es[1..]);
    }
  }

  /**
   A dispatched job is still a row of the table, or one of its own handler runs returned nil.
   Crashes, lost writes and late writers are all allowed.
   */
  lemma NoJobLost(now: Time, es: seq<Event>, id: nat)
    requires Valid(Init(now), es)
    requires id in Exec(Init(now), es).hist
    ensures var s := Exec(Init(now), es); id in s.rows || s.hist[id].succeeded
  {
    RunKeepsInv(Init(now), es);
    assert TrackOk(Exec(Init(now), es), id);
  }

  /** In every run, the attempts column of a row counts the times the job was handed to a handler. */
  lemma AttemptsCountRuns(now: Time, es: seq<Event>, id: nat)
    requires Valid(Init(now), es)
    requires id in Exec(Init(now), es).rows
    ensures var s := Exec(Init(now), es);
            && id in s.hist
            && s.rows[id].attempts == |s.hist[id].starts|
            && SameJob(s.rows[id], s.hist[id])
  {
    RunKeepsInv(Init(now), es);
    assert RowOk(Exec(Init(now), es), id);
  }

  // ---------- jobs whose final writes come from their latest claim ----------

  ghost predicate Holds(s: State, w: WorkerId, id: nat) {
    w in s.exec && s.exec[w].id == id
  }

  /**
   The row of a job is exactly the copy that its latest claimer holds, if that one is still at work. A worker within
   its lease is the latest claimer, and so is every worker of a job that was never reclaimed.
   */
  ghost predicate OwnedAt(s: State, id: nat)
    requires id in s.hist
  {
    && (forall w :: Holds(s, w, id) && Newest(s, w) ==> id in s.rows && s.rows[id] == s.exec[w].job)
    && (forall w :: Holds(s, w, id) && (Live(s, w) || s.hist[id].reclaims == 0) ==> Newest(s, w))
    && (forall v, w :: Holds(s, v, id) && Holds(s, w, id) && v != w ==>
          s.exec[v].job.attempts != s.exec[w].job.attempts)
  }

  ghost predicate AccountOk(s: State, id: nat)
    requires id in s.rows && id in s.hist
  {
    var j, t := s.rows[id], s.hist[id];
    && (j.status == Pending ==> j.attempts < j.maxAttempts)
    && (j.status == Processing ==> j.attempts <= j.maxAttempts + t.streak)
    && (j.status == Failed ==> j.maxAttempts <= j.attempts <= j.maxAttempts + t.streak)
    && t.streak <= t.reclaims
  }

  /** What holds of job `id` as long as only its latest claimers write its row. */
  ghost predicate OrderlyAt(s: State, id: nat) {
    id in s.hist ==> OwnedAt(s, id) && (id in s.rows ==> AccountOk(s, id))
  }

  /** A final write of e to row `id` is made by its latest claimer. */
  ghost predicate OrderlyStep(s: State, e: Event, id: nat)
    requires Enabled(s, e)
  {
    e.Finish? && s.exec[e.w].id == id ==> Newest(s, e.w)
  }

  lemma ClaimKeepsOwned(s: State, w: WorkerId, picked: nat, id: nat)
    requires Inv(s) && id in s.hist && OrderlyAt(s, id) && w !in s.exec
    requires Eligible(s.rows, w.queue, s.now, picked)
    ensures OwnedAt(AfterClaim(s, w, picked), id)
  {
    assert RowOk(s, picked);
    var s' := AfterClaim(s, w, picked);
    forall v | Holds(s', v, id) && v != w
      ensures Holds(s, v, id) && s'.exec[v] == s.exec[v] && ClaimOk(s, v)
      ensures picked == id ==> !Newest(s', v) && !Live(s', v) && s'.hist[id].reclaims > 0
    {
      assert ClaimOk(s, v);
    }
  }

  lemma ClaimKeepsAccount(s: State, w: WorkerId, picked: nat, id: nat)
    requires Inv(s) && OrderlyAt(s, id) && w !in s.exec
    requires Eligible(s.rows, w.queue, s.now, picked)
    requires id in s.hist && id in AfterClaim(s, w, picked).rows
    ensures AccountOk(AfterClaim(s, w, picked), id)
  {
  }

  lemma FinishKeepsOrderly(s: State, w: WorkerId, ok: bool, id: nat)
    requires Inv(s) && OrderlyAt(s, id) && Holds(s, w, id) && Newest(s, w)
    ensures OrderlyAt(AfterReturn(s, w, ok, true), id)
  {
    assert ClaimOk(s, w) && RowOk(s, id) && AccountOk(s, id);
    var s' := AfterReturn(s, w, ok, true);
    forall v | Holds(s', v, id) ensures Holds(s, v, id) && s'.exec[v] == s.exec[v] && !Newest(s', v) && !Live(s', v) {
      assert s.exec[v].job.attempts != s.exec[w].job.attempts;
    }
  }

  /** The job, its row and its claims are the same before and after, and no worker has more of its lease left. */
  ghost predicate Untouched(s: State, s': State, id: nat)
    requires id in s.hist
  {
    && id in s'.hist && s'.hist[id].(succeeded := s.hist[id].succeeded) == s.hist[id]
    && (id in s.rows <==> id in s'.rows)
    && (id in s.rows ==> s'.rows[id] == s.rows[id])
    && (forall w :: Holds(s', w, id) ==> Holds(s, w, id) && s'.exec[w] == s.exec[w])
    && s.now <= s'.now
  }

  lemma UntouchedStaysOrderly(s: State, s': State, id: nat)
    requires id in s.hist && OrderlyAt(s, id) && Untouched(s, s', id)
    ensures OrderlyAt(s', id)
  {
    forall w | Holds(s', w, id)
      ensures Holds(s, w, id) && (Live(s', w) ==> Live(s, w)) && (Newest(s', w) <==> Newest(s, w))
    {
    }
  }

  /** Steps about other rows, lost writes, crashes, dispatches and waiting leave row `id` alone. */
  lemma QuietLeavesUntouched(s: State, e: Event, id: nat)
    requires Inv(s) && id in s.hist && Enabled(s, e) && !e.Claim?
    requires e.Finish? ==> s.exec[e.w].id != id
    ensures Untouched(s, Apply(s, e), id)
  {
    assert TrackOk(s, id);
  }

  lemma NewcomerIsOrderly(s: State, e: Event, id: nat)
    requires Inv(s) && id !in s.hist && Enabled(s, e) && !e.Claim?
    ensures OrderlyAt(Apply(s, e), id)
  {
    assert forall w :: w in s.exec ==> ClaimOk(s, w) && s.exec[w].id in s.hist;
    assert forall w :: !Holds(Apply(s, e), w, id);
  }

  lemma StepKeepsOrderly(s: State, e: Event, id: nat)
    requires Inv(s) && OrderlyAt(s, id) && Enabled(s, e) && OrderlyStep(s, e, id)
    ensures OrderlyAt(Apply(s, e), id)
  {
    if e.Claim? {
      var p := Picked(s, e.w.queue);
      if p.Some? && id in s.hist {
        ClaimKeepsOwned(s, e.w, p.value, id);
        if id in s.rows {
          ClaimKeepsAccount(s, e.w, p.value, id);
        }
      }
    } else if e.Finish? && s.exec[e.w].id == id {
      FinishKeepsOrderly(s, e.w, e.ok, id);
    } else if id in s.hist {
      QuietLeavesUntouched(s, e, id);
      UntouchedStaysOrderly(s, Apply(s, e), id);
    } else {
      NewcomerIsOrderly(s, e, id);
    }
  }

  lemma {:induction false} RunKeepsOrderly(s: State, es: seq<Event>, id: nat)
    requires Inv(s) && OrderlyAt(s, id) && Valid(s, es) && OrderlyFor(s, es, id)
    ensures OrderlyAt(Exec(s, es), id)
    decreases |es|
  {
    if es != [] {
      StepKeepsInv(s, es[0]);
      StepKeepsOrderly(s, es[0], id);
      RunKeepsOrderly(Apply(s, es[0]), es[1..], id);
    }
  }

  /** In an on-time run only the latest claimer of a job writes its row. */
  lemma {:induction false} OnTimeIsOrderly(s: State, es: seq<Event>, id: nat)
    requires Inv(s) && OrderlyAt(s, id) && Valid(s, es) && OnTime(s, es)
    ensures OrderlyFor(s, es, id)
    decreases |es|
  {
    if es != [] {
      if es[0].Finish? {
        assert ClaimOk(s, es[0].w);
      }
      StepKeepsInv(s, es[0]);
      StepKeepsOrderly(s, es[0], id);
      OnTimeIsOrderly(Apply(s, es[0]), es[1..], id);
    }
  }

  lemma StepKeepsReclaims(s: State, e: Event, id: nat)
    requires Inv(s) && Enabled(s, e) && id in s.hist
    ensures id in Apply(s, e).hist && s.hist[id].reclaims <= Apply(s, e).hist[id].reclaims
  {
    assert TrackOk(s, id);
  }

  lemma {:induction false} ReclaimsNeverShrink(s: State, es: seq<Event>, id: nat)
    requires Inv(s) && Valid(s, es) && id in s.hist
    ensures id in Exec(s, es).hist && s.hist[id].reclaims <= Exec(s, es).hist[id].reclaims
    decreases |es|
  {
    if es != [] {
      StepKeepsReclaims(s, es[0], id);
      StepKeepsInv(s, es[0]);
      ReclaimsNeverShrink(Apply(s, es[0]), es[1..], id);
    }
  }

  /** The same of a job that is never reclaimed, however long its handlers take. */
  lemma {:induction false} NeverReclaimedIsOrderly(s: State, es: seq<Event>, id: nat)
    requires Inv(s) && OrderlyAt(s, id) && Valid(s, es)
    requires id in Exec(s, es).hist && Exec(s, es).hist[id].reclaims == 0
    ensures OrderlyFor(s, es, id)
    decreases |es|
  {
    if es != [] {
      if es[0].Finish? && s.exec[es[0].w].id == id {
        assert ClaimOk(s, es[0].w);
        ReclaimsNeverShrink(s, es, id);
      }
      StepKeepsInv(s, es[0]);
      StepKeepsOrderly(s, es[0], id);
      NeverReclaimedIsOrderly(Apply(s, es[0]), es[1..], id);
    }
  }

  /**
   Mutual exclusion. When every final write of a job comes from its latest claimer, a worker within its lease
   finds the row `processing` with exactly its own reservation, and no other worker within its lease holds the job.
   */
  lemma MutualExclusion(now: Time, es: seq<Event>, w: WorkerId)
    requires Valid(Init(now), es)
    requires var s := Exec(Init(now), es);
             w in s.exec && Live(s, w) && OrderlyFor(Init(now), es, s.exec[w].id)
    ensures var s := Exec(Init(now), es);
            && s.exec[w].id in s.rows
            && s.rows[s.exec[w].id] == s.exec[w].job
            && s.rows[s.exec[w].id].status == Processing
            && s.rows[s.exec[w].id].reservedAt == s.exec[w].job.reservedAt
            && forall v :: v in s.exec && v != w && Live(s, v) ==> s.exec[v].id != s.exec[w].id
  {
    var s := Exec(Init(now), es);
    RunKeepsInv(Init(now), es);
    RunKeepsOrderly(Init(now), es, s.exec[w].id);
    OrderlyExcludes(s, w);
  }

  lemma OrderlyExcludes(s: State, w: WorkerId)
    requires Inv(s) && w in s.exec && Live(s, w) && OrderlyAt(s, s.exec[w].id)
    ensures s.exec[w].id in s.rows && s.rows[s.exec[w].id] == s.exec[w].job && s.exec[w].job.status == Processing
    ensures forall v :: v in s.exec && v != w && Live(s, v) ==> s.exec[v].id != s.exec[w].id
  {
    var id := s.exec[w].id;
    assert ClaimOk(s, w) && Holds(s, w, id);
    forall v | v in s.exec && v != w && Live(s, v) ensures s.exec[v].id != id {
      assert ClaimOk(s, v) && Holds(s, v, s.exec[v].id);
    }
  }

  /** Pending rows have tries left, failed rows have none, and only stale reclaims push attempts over the limit. */
  lemma AttemptAccounting(now: Time, es: seq<Event>, id: nat)
    requires Valid(Init(now), es) && OrderlyFor(Init(now), es, id)
    requires id in Exec(Init(now), es).rows
    ensures var s := Exec(Init(now), es); id in s.hist && AccountOk(s, id)
  {
    RunKeepsInv(Init(now), es);
    RunKeepsOrderly(Init(now), es, id);
    assert RowOk(Exec(Init(now), es), id);
  }

  /**
   A job that never succeeded and was never reclaimed is still there, has run at most maxAttempts times,
   less often than that while it waits, and exactly that often when it is marked failed.
   */
  lemma FailingJobRunsExactlyMax(now: Time, es: seq<Event>, id: nat)
    requires Valid(Init(now), es)
    requires id in Exec(Init(now), es).hist
    requires var t := Exec(Init(now), es).hist[id]; !t.succeeded && t.reclaims == 0
    ensures var s := Exec(Init(now), es);
            && id in s.rows
            && |s.hist[id].starts| <= s.hist[id].maxAttempts
            && (s.rows[id].status == Pending ==> |s.hist[id].starts| < s.hist[id].maxAttempts)
            && (s.rows[id].status == Failed ==> |s.hist[id].starts| == s.hist[id].maxAttempts)
  {
    var s := Exec(Init(now), es);
    RunKeepsInv(Init(now), es);
    NeverReclaimedIsOrderly(Init(now), es, id);
    RunKeepsOrderly(Init(now), es, id);
    assert TrackOk(s, id) && RowOk(s, id) && AccountOk(s, id);
  }

  // ---------- exactly when the attempt limit is passed ----------

  /** Job `id` has been handed to a handler more often than its limit says. */
  ghost predicate OverLimit(s: State, id: nat) {
    id in s.hist && |s.hist[id].starts| > s.hist[id].maxAttempts
  }

  /** The step claims row `id` although its attempts are used up. */
  ghost predicate TakesSpent(s: State, e: Event, id: nat) {
    && e.Claim?
    && Picked(s, e.w.queue) == Some(id)
    && s.rows[id].attempts >= s.rows[id].maxAttempts
  }

  ghost predicate EverTakesSpent(s: State, es: seq<Event>, id: nat)
    requires Valid(s, es)
    decreases |es|
  {
    es != [] && (TakesSpent(s, es[0], id) || EverTakesSpent(Apply(s, es[0]), es[1..], id))
  }

  /** It does so because the row is stale: neither the status test nor the lease test looks at the attempts. */
  ghost predicate ReclaimsSpent(s: State, e: Event, id: nat) {
    TakesSpent(s, e, id) && s.rows[id].status == Processing
  }

  ghost predicate EverReclaimsSpent(s: State, es: seq<Event>, id: nat)
    requires Valid(s, es)
    decreases |es|
  {
    es != [] && (ReclaimsSpent(s, es[0], id) || EverReclaimsSpent(Apply(s, es[0]), es[1..], id))
  }

  lemma StepPassesLimitIff(s: State, e: Event, id: nat)
    requires Inv(s) && Enabled(s, e)
    ensures OverLimit(Apply(s, e), id) <==> OverLimit(s, id) || TakesSpent(s, e, id)
  {
    if id in s.hist {
      assert TrackOk(s, id);
    }
    if e.Claim? && Picked(s, e.w.queue) == Some(id) {
      assert RowOk(s, id);
    }
  }

  lemma {:induction false} LimitPassedFrom(s: State, es: seq<Event>, id: nat)
    requires Inv(s) && Valid(s, es)
    ensures OverLimit(Exec(s, es), id) <==> OverLimit(s, id) || EverTakesSpent(s, es, id)
    decreases |es|
  {
    if es != [] {
      StepPassesLimitIff(s, es[0], id);
      StepKeepsInv(s, es[0]);
      LimitPassedFrom(Apply(s, es[0]), es[1..], id);
    }
  }

  lemma {:induction false} OrderlyTakesSpentIff(s: State, es: seq<Event>, id: nat)
    requires Inv(s) && OrderlyAt(s, id) && Valid(s, es) && OrderlyFor(s, es, id)
    ensures EverTakesSpent(s, es, id) <==> EverReclaimsSpent(s, es, id)
    decreases |es|
  {
    if es != [] {
      if TakesSpent(s, es[0], id) {
        assert RowOk(s, id) && AccountOk(s, id);
      }
      StepKeepsInv(s, es[0]);
      StepKeepsOrderly(s, es[0], id);
      OrderlyTakesSpentIff(Apply(s, es[0]), es[1..], id);
    }
  }

  /**
   In every run a job is run more often than its limit exactly when some claim takes its row with all attempts used
   up. If the job is orderly, that claim is the reclaim of a stale row.
   */
  lemma LimitPassedIff(now: Time, es: seq<Event>, id: nat)
    requires Valid(Init(now), es)
    ensures OverLimit(Exec(Init(now), es), id) <==> EverTakesSpent(Init(now), es, id)
    ensures OrderlyFor(Init(now), es, id) ==>
              (OverLimit(Exec(Init(now), es), id) <==> EverReclaimsSpent(Init(now), es, id))
  {
    LimitPassedFrom(Init(now), es, id);
    if OrderlyFor(Init(now), es, id) {
      OrderlyTakesSpentIff(Init(now), es, id);
    }
  }

  // ---------- failed jobs, waiting jobs ----------

  lemma FailedStepAbsorbs(s: State, e: Event, id: nat)
    requires Inv(s) && OrderlyAt(s, id) && Enabled(s, e) && OrderlyStep(s, e, id)
    requires id in s.rows && s.rows[id].status == Failed
    ensures id in Apply(s, e).rows && Apply(s, e).rows[id] == s.rows[id]
  {
    assert RowOk(s, id) && TrackOk(s, id);
    if e.Finish? {
      assert ClaimOk(s, e.w);
    }
  }

  /** Once failed, a job's row never changes again. */
  lemma {:induction false} FailedAbsorbs(s: State, es: seq<Event>, id: nat)
    requires Inv(s) && OrderlyAt(s, id) && Valid(s, es) && OrderlyFor(s, es, id)
    requires id in s.rows && s.rows[id].status == Failed
    ensures id in Exec(s, es).rows && Exec(s, es).rows[id] == s.rows[id]
    decreases |es|
  {
    if es != [] {
      StepKeepsInv(s, es[0]);
      StepKeepsOrderly(s, es[0], id);
      FailedStepAbsorbs(s, es[0], id);
      FailedAbsorbs(Apply(s, es[0]), es[1..], id);
    }
  }

  /** A row that has not failed is claimable after waiting long enough, even when its worker is gone. */
  lemma Recoverable(s: State, id: nat) returns (d: nat)
    requires Inv(s) && id in s.rows && s.rows[id].status != Failed
    ensures Eligible(s.rows, s.rows[id].queue, s.now + d, id)
    ensures Picked(Apply(s, Tick(d)), s.rows[id].queue).Some?
    ensures s.rows[id].status == Processing ==> d <= LEASE + 1
  {
    assert RowOk(s, id) && TrackOk(s, id);
    var j := s.rows[id];
    if j.status == Pending {
      d := if j.availableAt > s.now then j.availableAt - s.now else 0;
    } else {
      d := LEASE + 1;
    }
    var s' := Apply(s, Tick(d));
    assert Eligible(s'.rows, j.queue, s'.now, id);
  }
}
