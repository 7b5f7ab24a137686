/**
 In what order and how often the database queue runs its jobs: bounded bypass, a bound on the total work,
 and the earliest times of the retries.
 */
module JobSchedule {
  import opened Common
  import opened GoInt
  import opened JobTable
  import opened JobProtocol
  import opened JobSafety

  // ---------- sums over the ids of a table ----------

  /** f summed over the ids below n. */
  ghost function Sum(n: nat, f: nat -> nat): nat {
    if n == 0 then 0 else Sum(n - 1, f) + f(n - 1)
  }

  lemma {:induction false} SumLe(n: nat, f: nat -> nat, g: nat -> nat)
    requires forall k: nat :: k < n ==> g(k) <= f(k)
    ensures Sum(n, g) <= Sum(n, f)
  {
    if n > 0 {
      SumLe(n - 1, f, g);
    }
  }

  lemma {:induction false} SumDrop(n: nat, f: nat -> nat, g: nat -> nat, i: nat)
    requires forall k: nat :: k < n ==> g(k) <= f(k)
    requires i < n && g(i) + 1 <= f(i)
    ensures Sum(n, g) + 1 <= Sum(n, f)
  {
    if i == n - 1 {
      SumLe(n - 1, f, g);
    } else {
      SumDrop(n - 1, f, g, i);
    }
  }

  lemma {:induction false} SumExtend(n: nat, m: nat, f: nat -> nat)
    requires n <= m && forall k: nat :: n <= k < m ==> f(k) == 0
    ensures Sum(m, f) == Sum(n, f)
  {
    if n < m {
      SumExtend(n, m - 1, f);
    }
  }

  lemma {:induction false} SumZeroIff(n: nat, f: nat -> nat)
    ensures Sum(n, f) == 0 <==> forall k: nat :: k < n ==> f(k) == 0
  {
    if n > 0 {
      SumZeroIff(n - 1, f);
    }
  }

  // ---------- quiescence ----------

  /** Twice the tries a row has left, and one more while it is being processed. */
  ghost function Weight(rows: Rows, id: nat): nat {
    if id !in rows || rows[id].status == Failed then 0
    else
      var left := rows[id].maxAttempts - rows[id].attempts;
      2 * (if left > 0 then left else 0) + (if rows[id].status == Processing then 1 else 0)
  }

  ghost function Potential(s: State): nat {
    Sum(s.nextId, Weights(s.rows))
  }

  ghost function Weights(rows: Rows): nat -> nat {
    id => Weight(rows, id)
  }

  ghost predicate ClaimsPending(s: State, e: Event) {
    e.Claim? && Picked(s, e.w.queue).Some? && s.rows[Picked(s, e.w.queue).value].status == Pending
  }

  ghost predicate ClaimsStale(s: State, e: Event) {
    e.Claim? && Picked(s, e.w.queue).Some? && s.rows[Picked(s, e.w.queue).value].status == Processing
  }

  /** How many claims of pending rows and final writes a run makes. */
  ghost function Work(s: State, es: seq<Event>): nat
    requires Valid(s, es)
    decreases |es|
  {
    if es == [] then 0
    else (if ClaimsPending(s, es[0]) || es[0].Finish? then 1 else 0) + Work(Apply(s, es[0]), es[1..])
  }

  /** The id whose row a claim or a final write is about. */
  ghost function Touched(s: State, e: Event): nat
    requires Enabled(s, e) && (e.Finish? || ClaimsPending(s, e))
  {
    if e.Finish? then s.exec[e.w].id else Picked(s, e.w.queue).value
  }

  /** Every final write of the run is made by the worker that was the last to claim its row. */
  ghost predicate Orderly(s: State, es: seq<Event>)
    requires Valid(s, es)
  {
    forall id: nat :: OrderlyFor(s, es, id)
  }

  ghost predicate OrderlyInv(s: State) {
    Inv(s) && forall id: nat :: OrderlyAt(s, id)
  }

  /** A final write of e comes from the latest claim of its row. */
  ghost predicate NewestStep(s: State, e: Event)
    requires Enabled(s, e)
  {
    e.Finish? ==> Newest(s, e.w)
  }

  lemma OrderlyStepKeepsInv(s: State, e: Event)
    requires OrderlyInv(s) && Enabled(s, e) && NewestStep(s, e)
    ensures OrderlyInv(Apply(s, e))
  {
    StepKeepsInv(s, e);
    forall id: nat ensures OrderlyAt(Apply(s, e), id) {
      StepKeepsOrderly(s, e, id);
    }
  }

  lemma OrderlySplits(s: State, es: seq<Event>)
    requires Valid(s, es) && es != [] && Orderly(s, es)
    ensures NewestStep(s, es[0]) && Orderly(Apply(s, es[0]), es[1..])
  {
    if es[0].Finish? {
      assert OrderlyFor(s, es, s.exec[es[0].w].id);
    }
    forall id: nat ensures OrderlyFor(Apply(s, es[0]), es[1..], id) {
      assert OrderlyFor(s, es, id);
    }
  }

  lemma WeightNeverGrows(s: State, e: Event, k: nat)
    requires OrderlyInv(s) && Enabled(s, e) && !e.Dispatch? && NewestStep(s, e)
    ensures Weight(Apply(s, e).rows, k) <= Weight(s.rows, k)
  {
    if k in s.rows {
      assert RowOk(s, k) && OrderlyAt(s, k);
    }
    if e.Finish? {
      NewestHasItsRow(s, e.w);
    }
  }

  lemma NewestHasItsRow(s: State, w: WorkerId)
    requires OrderlyInv(s) && w in s.exec && Newest(s, w)
    ensures s.exec[w].id in s.rows && s.rows[s.exec[w].id] == s.exec[w].job && s.exec[w].job.status == Processing
    ensures s.exec[w].id < s.nextId
  {
    assert OrderlyAt(s, s.exec[w].id) && Holds(s, w, s.exec[w].id) && ClaimOk(s, w) && TrackOk(s, s.exec[w].id);
  }

  lemma WeightDrops(s: State, e: Event)
    requires OrderlyInv(s) && Enabled(s, e) && (e.Finish? || ClaimsPending(s, e)) && NewestStep(s, e)
    ensures Touched(s, e) < s.nextId
    ensures Weight(Apply(s, e).rows, Touched(s, e)) + 1 <= Weight(s.rows, Touched(s, e))
  {
    if e.Finish? {
      NewestHasItsRow(s, e.w);
    } else {
      assert OrderlyAt(s, Touched(s, e)) && RowOk(s, Touched(s, e));
    }
  }

  lemma PotentialStep(s: State, e: Event)
    requires OrderlyInv(s) && Enabled(s, e) && !e.Dispatch? && NewestStep(s, e)
    ensures Potential(Apply(s, e)) + (if ClaimsPending(s, e) || e.Finish? then 1 else 0) <= Potential(s)
  {
    var f, g := Weights(s.rows), Weights(Apply(s, e).rows);
    forall k: nat ensures g(k) <= f(k) {
      WeightNeverGrows(s, e, k);
    }
    if e.Finish? || ClaimsPending(s, e) {
      WeightDrops(s, e);
      SumDrop(s.nextId, f, g, Touched(s, e));
    } else {
      SumLe(s.nextId, f, g);
    }
  }

  /**
   Without new dispatches only finitely much work is left: the claims of pending rows and the final writes of
   any orderly run number at most the potential at its start. Stale reclaims never add to it.
   */
  lemma {:induction false} WorkIsBounded(s: State, es: seq<Event>)
    requires OrderlyInv(s) && Valid(s, es) && Orderly(s, es)
    requires forall e :: e in es ==> !e.Dispatch?
    ensures Work(s, es) + Potential(Exec(s, es)) <= Potential(s)
    decreases |es|
  {
    if es != [] {
      OrderlySplits(s, es);
      PotentialStep(s, es[0]);
      OrderlyStepKeepsInv(s, es[0]);
      WorkIsBounded(Apply(s, es[0]), es[1..]);
    }
  }

  /** The potential is used up exactly when every row that is left has failed for good. */
  lemma QuiescentIff(s: State)
    requires OrderlyInv(s)
    ensures Potential(s) == 0 <==> forall id :: id in s.rows ==> s.rows[id].status == Failed
  {
    SumZeroIff(s.nextId, Weights(s.rows));
    forall id | id in s.rows
      ensures id < s.nextId && (Weights(s.rows)(id) == 0 <==> s.rows[id].status == Failed)
    {
      assert RowOk(s, id) && OrderlyAt(s, id) && TrackOk(s, id);
    }
  }

  // ---------- bounded bypass ----------

  /** Every job of the queue, already dispatched or still to come, has an attempt limit of at most m. */
  ghost predicate Capped(s: State, es: seq<Event>, queue: string, m: int) {
    && (forall id :: id in s.hist && s.hist[id].queue == queue ==> s.hist[id].maxAttempts <= m)
    && (forall e :: e in es && e.Dispatch? && e.queue == queue ==> e.maxAttempts <= m)
  }

  /** 1 for a pending row of the queue that the claim order puts ahead of row j. */
  ghost function IsAhead(rows: Rows, queue: string, j: nat, id: nat): nat
    requires j in rows
  {
    if id in rows && rows[id].queue == queue && rows[id].status == Pending && id != j && Before(rows, id, j)
    then 1 else 0
  }

  ghost function AheadOf(rows: Rows, queue: string, j: nat): nat -> nat
    requires j in rows
  {
    id => IsAhead(rows, queue, j, id)
  }

  ghost function Ahead(s: State, queue: string, j: nat): nat
    requires j in s.rows
  {
    Sum(s.nextId, AheadOf(s.rows, queue, j))
  }

  /** The claims of the queue in a run that got a row. */
  ghost function Claims(s: State, es: seq<Event>, queue: string): nat
    requires Valid(s, es)
    decreases |es|
  {
    if es == [] then 0
    else
      (if es[0].Claim? && es[0].w.queue == queue && Picked(s, queue).Some? then 1 else 0)
      + Claims(Apply(s, es[0]), es[1..], queue)
  }

  /** Those among them that reclaimed a stale row. */
  ghost function Reclaims(s: State, es: seq<Event>, queue: string): nat
    requires Valid(s, es)
    decreases |es|
  {
    if es == [] then 0
    else
      (if es[0].Claim? && es[0].w.queue == queue && ClaimsStale(s, es[0]) then 1 else 0)
      + Reclaims(Apply(s, es[0]), es[1..], queue)
  }

  ghost predicate NeverClaims(s: State, es: seq<Event>, j: nat)
    requires Valid(s, es)
    decreases |es|
  {
    es == []
    || (!(es[0].Claim? && Picked(s, es[0].w.queue) == Some(j)) && NeverClaims(Apply(s, es[0]), es[1..], j))
  }

  /** The step neither claims row j nor is the final write of a worker that claimed it earlier. */
  ghost predicate LeavesAlone(s: State, e: Event, j: nat)
    requires Enabled(s, e)
  {
    && (e.Claim? ==> Picked(s, e.w.queue) != Some(j))
    && (e.Finish? ==> s.exec[e.w].id != j)
  }

  ghost predicate LeftAlone(s: State, es: seq<Event>, j: nat)
    requires Valid(s, es)
    decreases |es|
  {
    es == [] || (LeavesAlone(s, es[0], j) && LeftAlone(Apply(s, es[0]), es[1..], j))
  }

  /** An eligible row that is left alone stays as it is. */
  lemma EligibleStays(s: State, e: Event, queue: string, j: nat)
    requires Inv(s) && Enabled(s, e) && LeavesAlone(s, e, j)
    requires Eligible(s.rows, queue, s.now, j)
    ensures j in Apply(s, e).rows && Apply(s, e).rows[j] == s.rows[j]
    ensures Eligible(Apply(s, e).rows, queue, Apply(s, e).now, j)
  {
    assert RowOk(s, j) && TrackOk(s, j);
  }

  /** A worker within its lease does not write to an eligible row. */
  lemma LiveWriterElsewhere(s: State, w: WorkerId, queue: string, j: nat)
    requires Inv(s) && OrderlyAt(s, j) && w in s.exec && Live(s, w)
    requires Eligible(s.rows, queue, s.now, j)
    ensures s.exec[w].id != j
  {
    assert ClaimOk(s, w) && RowOk(s, j);
  }

  /** In an on-time run an eligible row is left alone until it is claimed. */
  lemma {:induction false} OnTimeLeavesAlone(s: State, es: seq<Event>, queue: string, j: nat)
    requires Inv(s) && OrderlyAt(s, j) && Valid(s, es) && OnTime(s, es)
    requires Eligible(s.rows, queue, s.now, j) && NeverClaims(s, es, j)
    ensures LeftAlone(s, es, j)
    decreases |es|
  {
    if es != [] {
      var e := es[0];
      if e.Finish? {
        LiveWriterElsewhere(s, e.w, queue, j);
      }
      EligibleStays(s, e, queue, j);
      StepKeepsInv(s, e);
      StepKeepsOrderly(s, e, j);
      OnTimeLeavesAlone(Apply(s, e), es[1..], queue, j);
    }
  }

  /** A step puts no row ahead of an eligible row j. */
  lemma AheadNeverGrows(s: State, e: Event, queue: string, j: nat, k: nat)
    requires Inv(s) && Enabled(s, e) && LeavesAlone(s, e, j)
    requires Eligible(s.rows, queue, s.now, j) && Capped(s, [e], queue, 33)
    requires j in Apply(s, e).rows && Apply(s, e).rows[j] == s.rows[j]
    ensures IsAhead(Apply(s, e).rows, queue, j, k) <= IsAhead(s.rows, queue, j, k)
  {
    assert RowOk(s, j) && TrackOk(s, j);
    assert s.rows[j].availableAt <= s.now;
    if e.Finish? {
      FinishLandsBehind(s, e.w, e.ok, queue, j, k);
    }
  }

  /** A failed job goes behind every row that is available now, however late its worker is. */
  lemma FinishLandsBehind(s: State, w: WorkerId, ok: bool, queue: string, j: nat, k: nat)
    requires Inv(s) && w in s.exec && Capped(s, [], queue, 33)
    requires j in s.rows && s.rows[j].availableAt <= s.now
    requires j in AfterReturn(s, w, ok, true).rows && AfterReturn(s, w, ok, true).rows[j] == s.rows[j]
    ensures IsAhead(AfterReturn(s, w, ok, true).rows, queue, j, k) <= IsAhead(s.rows, queue, j, k)
  {
    var c := s.exec[w];
    assert ClaimOk(s, w);
    if k == c.id && k in s.rows && s.rows[k].queue == queue && !ok && c.job.attempts < c.job.maxAttempts {
      assert RowOk(s, k);
      BackoffExactIff(c.job.attempts);
      assert BackoffNanos(c.job.attempts) > 0;
    }
  }

  lemma BypassStep(s: State, e: Event, queue: string, j: nat)
    requires Inv(s) && Enabled(s, e) && LeavesAlone(s, e, j)
    requires Eligible(s.rows, queue, s.now, j) && Capped(s, [e], queue, 33)
    ensures j in Apply(s, e).rows
    ensures Ahead(Apply(s, e), queue, j)
            + (if e.Claim? && e.w.queue == queue && ClaimsPending(s, e) then 1 else 0) <= Ahead(s, queue, j)
  {
    EligibleStays(s, e, queue, j);
    var s' := Apply(s, e);
    var f, g := AheadOf(s.rows, queue, j), AheadOf(s'.rows, queue, j);
    forall k: nat ensures g(k) <= f(k) {
      AheadNeverGrows(s, e, queue, j, k);
    }
    if e.Dispatch? {
      assert forall k :: k in s.rows ==> RowOk(s, k) && TrackOk(s, k) && k < s.nextId;
      SumExtend(s.nextId, s'.nextId, g);
    }
    if e.Claim? && e.w.queue == queue && ClaimsPending(s, e) {
      assert RowOk(s, j) && TrackOk(s, j);
      SumDrop(s.nextId, f, g, Picked(s, queue).value);
    } else {
      SumLe(s.nextId, f, g);
    }
  }

  lemma CappedStep(s: State, es: seq<Event>, queue: string)
    requires Inv(s) && es != [] && Enabled(s, es[0]) && Capped(s, es, queue, 33)
    ensures Capped(s, [es[0]], queue, 33) && Capped(Apply(s, es[0]), es[1..], queue, 33)
  {
  }

  /**
   Bounded bypass. From the moment a row is eligible until it is claimed, the other claims of its queue number
   at most the pending rows ahead of it at that moment plus the stale reclaims in between: new dispatches,
   delayed dispatches and retries all land behind it, provided that no retry delay overflows.
   */
  lemma {:induction false} BoundedBypass(s: State, es: seq<Event>, queue: string, j: nat)
    requires Inv(s) && Valid(s, es) && LeftAlone(s, es, j)
    requires Eligible(s.rows, queue, s.now, j) && Capped(s, es, queue, 33)
    ensures Claims(s, es, queue) <= Ahead(s, queue, j) + Reclaims(s, es, queue)
    decreases |es|
  {
    if es != [] {
      var e := es[0];
      CappedStep(s, es, queue);
      BypassStep(s, e, queue, j);
      EligibleStays(s, e, queue, j);
      StepKeepsInv(s, e);
      BoundedBypass(Apply(s, e), es[1..], queue, j);
    }
  }

  // ---------- backoff schedule ----------

  /** The earliest a job that keeps failing can start its run number k + 1. */
  function EarliestStart(t: Track, k: nat): Time {
    t.firstAvailable + (Pow2(k + 2) - 4) * SECOND
  }

  ghost predicate TrackScheduled(s: State, id: nat)
    requires id in s.hist
  {
    var t := s.hist[id];
    t.reclaims == 0 ==>
      && (forall k: nat :: k < |t.starts| && k <= 32 ==> EarliestStart(t, k) <= t.starts[k])
      && (id in s.rows && s.rows[id].status == Pending && |t.starts| <= 32 ==>
            EarliestStart(t, |t.starts|) <= s.rows[id].availableAt)
  }

  /** The delay after attempt n takes the earliest start of run n to that of run n + 1. */
  lemma NextStart(t: Track, n: nat, now: Time)
    requires 1 <= n <= 32 && EarliestStart(t, n - 1) <= now
    ensures EarliestStart(t, n) <= now + BackoffNanos(n)
  {
    BackoffExactIff(n);
    assert Pow2(n + 2) == 2 * Pow2(n + 1);
  }

  lemma OwnFinishKeepsScheduled(s: State, w: WorkerId, ok: bool)
    requires w in s.exec && s.exec[w].id in s.hist && s.exec[w].id in s.rows
    requires TrackScheduled(s, s.exec[w].id) && RowOk(s, s.exec[w].id) && TrackOk(s, s.exec[w].id)
    requires s.rows[s.exec[w].id] == s.exec[w].job && s.exec[w].job.status == Processing
    ensures TrackScheduled(AfterReturn(s, w, ok, true), s.exec[w].id)
  {
    var job, t := s.exec[w].job, s.hist[s.exec[w].id];
    if !ok && job.attempts < job.maxAttempts && job.attempts <= 32 && t.reclaims == 0 {
      assert EarliestStart(t, job.attempts - 1) <= t.starts[job.attempts - 1] <= s.now;
      NextStart(t, job.attempts, s.now);
    }
  }

  lemma OtherFinishKeepsScheduled(s: State, w: WorkerId, ok: bool, id: nat)
    requires w in s.exec && id in s.hist && s.exec[w].id != id && TrackScheduled(s, id)
    ensures id in AfterReturn(s, w, ok, true).hist && TrackScheduled(AfterReturn(s, w, ok, true), id)
  {
  }

  lemma FinishKeepsScheduled(s: State, w: WorkerId, ok: bool, id: nat)
    requires Inv(s) && OrderlyAt(s, id) && w in s.exec && (s.exec[w].id == id ==> Newest(s, w))
    requires id in s.hist && TrackScheduled(s, id)
    ensures id in AfterReturn(s, w, ok, true).hist && TrackScheduled(AfterReturn(s, w, ok, true), id)
  {
    if s.exec[w].id == id {
      OwnFinishKeepsScheduled(s, w, ok) by {
        assert ClaimOk(s, w) && TrackOk(s, id) && Holds(s, w, id) && RowOk(s, id);
      }
    } else {
      OtherFinishKeepsScheduled(s, w, ok, id);
    }
  }

  lemma ClaimKeepsScheduled(s: State, w: WorkerId, picked: nat, id: nat)
    requires Inv(s) && w !in s.exec && id in s.hist && TrackScheduled(s, id)
    requires Eligible(s.rows, w.queue, s.now, picked)
    ensures TrackScheduled(AfterClaim(s, w, picked), id)
  {
    assert RowOk(s, picked);
  }

  lemma LoseKeepsScheduled(s: State, w: WorkerId, ok: bool, id: nat)
    requires Inv(s) && w in s.exec && id in s.hist && TrackScheduled(s, id)
    ensures id in AfterReturn(s, w, ok, false).hist && TrackScheduled(AfterReturn(s, w, ok, false), id)
  {
  }

  lemma DispatchKeepsScheduled(s: State, e: Event, id: nat)
    requires Inv(s) && Enabled(s, e) && e.Dispatch?
    requires id in s.hist ==> TrackScheduled(s, id)
    requires id in Apply(s, e).hist
    ensures TrackScheduled(Apply(s, e), id)
  {
  }

  lemma StepKeepsScheduled(s: State, e: Event, id: nat)
    requires Inv(s) && OrderlyAt(s, id) && Enabled(s, e) && OrderlyStep(s, e, id)
    requires id in s.hist ==> TrackScheduled(s, id)
    ensures id in Apply(s, e).hist ==> TrackScheduled(Apply(s, e), id)
  {
    if id in Apply(s, e).hist {
      match e
      case Dispatch(_, _, _, _, _, _) => DispatchKeepsScheduled(s, e, id);
      case Claim(w) =>
        var p := Picked(s, w.queue);
        if p.Some? { ClaimKeepsScheduled(s, w, p.value, id); }
      case Finish(w, ok) => FinishKeepsScheduled(s, w, ok, id);
      case LoseWrite(w, ok) => LoseKeepsScheduled(s, w, ok, id);
      case Crash(_) =>
      case Tick(_) =>
    }
  }

  lemma {:induction false} RunKeepsScheduled(s: State, es: seq<Event>, id: nat)
    requires Inv(s) && OrderlyAt(s, id) && Valid(s, es) && OrderlyFor(s, es, id)
    requires id in s.hist ==> TrackScheduled(s, id)
    ensures id in Exec(s, es).hist ==> TrackScheduled(Exec(s, es), id)
    decreases |es|
  {
    if es != [] {
      StepKeepsScheduled(s, es[0], id);
      StepKeepsInv(s, es[0]);
      StepKeepsOrderly(s, es[0], id);
      RunKeepsScheduled(Apply(s, es[0]), es[1..], id);
    }
  }

  /** Job `id` has been run k times or more without a reclaim. */
  ghost predicate RanUnreclaimed(s: State, id: nat, k: nat) {
    id in s.hist && s.hist[id].reclaims == 0 && 1 <= k <= |s.hist[id].starts|
  }

  /** Run number k (from 1) of job `id` started no earlier than 2^(k+1) - 4 seconds after it first became available. */
  ghost predicate StartsInTurn(s: State, id: nat, k: nat)
    requires RanUnreclaimed(s, id, k)
  {
    s.hist[id].starts[k - 1] >= s.hist[id].firstAvailable + (Pow2(k + 1) - 4) * SECOND
  }

  /** The first 33 runs of a job that is never reclaimed keep the schedule: the delays are 4, 8, 16, ... seconds. */
  lemma BackoffSchedule(now: Time, es: seq<Event>, id: nat, k: nat)
    requires Valid(Init(now), es) && k <= 33
    requires RanUnreclaimed(Exec(Init(now), es), id, k)
    ensures StartsInTurn(Exec(Init(now), es), id, k)
  {
    NeverReclaimedIsOrderly(Init(now), es, id);
    RunKeepsScheduled(Init(now), es, id);
    var s := Exec(Init(now), es);
    assert TrackScheduled(s, id);
    assert EarliestStart(s.hist[id], k - 1) <= s.hist[id].starts[k - 1];
  }
}
