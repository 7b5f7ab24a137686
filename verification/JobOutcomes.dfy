/**
 What becomes of one job: when it may start, what its handler's result does to its row, and when the row goes.
 Times and results are those of the events, not of the rows that the steps write.
 */
module JobOutcomes {
  import opened Common
  import opened GoInt
  import opened JobTable
  import opened JobProtocol
  import opened JobSafety

  // ---------- the delay of a dispatch ----------

  ghost predicate WaitsUntil(s: State, e: Event, due: Time)
    requires e.Dispatch?
  {
    && e.id in s.hist
    && var t := s.hist[e.id];
       && t.queue == e.queue && t.name == e.name && t.payload == e.payload && t.maxAttempts == e.maxAttempts
       && t.firstAvailable == due
       && (forall k :: 0 <= k < |t.starts| ==> t.starts[k] >= due)
       && (t.starts != [] ==> s.now >= due)
       && (t.starts == [] ==>
             e.id in s.rows && s.rows[e.id].status == Pending && s.rows[e.id].availableAt == due)
  }

  lemma ClaimKeepsWaiting(s: State, w: WorkerId, id: nat, e: Event, due: Time)
    requires Inv(s) && w !in s.exec && Eligible(s.rows, w.queue, s.now, id) && e.Dispatch? && WaitsUntil(s, e, due)
    ensures WaitsUntil(AfterClaim(s, w, id), e, due)
  {
    assert RowOk(s, id);
  }

  lemma StepKeepsWaiting(s: State, step: Event, e: Event, due: Time)
    requires Inv(s) && Enabled(s, step) && e.Dispatch? && WaitsUntil(s, e, due)
    ensures WaitsUntil(Apply(s, step), e, due)
  {
    assert TrackOk(s, e.id);
    if step.Claim? {
      var p := Picked(s, step.w.queue);
      if p.Some? {
        ClaimKeepsWaiting(s, step.w, p.value, e, due);
      }
    } else if (step.Finish? || step.LoseWrite?) && s.exec[step.w].id == e.id {
      assert ClaimOk(s, step.w);
    }
  }

  lemma {:induction false} RunKeepsWaiting(s: State, es: seq<Event>, e: Event, due: Time)
    requires Inv(s) && Valid(s, es) && e.Dispatch? && WaitsUntil(s, e, due)
    ensures WaitsUntil(Exec(s, es), e, due)
    decreases |es|
  {
    if es != [] {
      StepKeepsWaiting(s, es[0], e, due);
      StepKeepsInv(s, es[0]);
      RunKeepsWaiting(Apply(s, es[0]), es[1..], e, due);
    }
  }

  lemma WaitingIsEligible(s: State, e: Event, due: Time)
    requires Inv(s) && e.Dispatch? && WaitsUntil(s, e, due) && s.hist[e.id].starts == []
    ensures forall now: Time :: Eligible(s.rows, e.queue, now, e.id) <==> now >= due
  {
    assert RowOk(s, e.id);
  }

  /**
   A dispatched job keeps its queue, name, payload and limit. Whatever happens afterwards, no handler gets it before its
   delay is over, and until one gets it, it may be claimed exactly from then on.
   */
  lemma DelayIsKept(s: State, e: Event, es: seq<Event>)
    requires Inv(s) && Enabled(s, e) && e.Dispatch? && Valid(Apply(s, e), es)
    ensures var s' := Exec(Apply(s, e), es);
            var due := if e.delay > 0 then s.now + e.delay else s.now;
            && e.id in s'.hist
            && var t := s'.hist[e.id];
               && t.queue == e.queue && t.name == e.name && t.payload == e.payload && t.maxAttempts == e.maxAttempts
               && t.firstAvailable == due
               && (forall k :: 0 <= k < |t.starts| ==> t.starts[k] >= due)
               && (t.starts == [] ==> forall now: Time :: Eligible(s'.rows, e.queue, now, e.id) <==> now >= due)
  {
    var due := if e.delay > 0 then s.now + e.delay else s.now;
    StepKeepsInv(s, e);
    RunKeepsInv(Apply(s, e), es);
    assert WaitsUntil(Apply(s, e), e, due);
    RunKeepsWaiting(Apply(s, e), es, e, due);
    var s' := Exec(Apply(s, e), es);
    if s'.hist[e.id].starts == [] {
      WaitingIsEligible(s', e, due);
    }
  }

  // ---------- when the row goes ----------

  /** A worker of job `id` makes its final write after its handler has returned nil. */
  ghost predicate Deletes(s: State, e: Event, id: nat)
    requires Enabled(s, e)
  {
    e.Finish? && e.ok && s.exec[e.w].id == id
  }

  ghost predicate EverDeletes(s: State, es: seq<Event>, id: nat)
    requires Valid(s, es)
    decreases |es|
  {
    es != [] && (Deletes(s, es[0], id) || EverDeletes(Apply(s, es[0]), es[1..], id))
  }

  lemma StepDeletesIff(s: State, e: Event, id: nat)
    requires Inv(s) && Enabled(s, e)
    ensures id in s.hist ==> id in Apply(s, e).hist
    ensures Deletes(s, e, id) ==> id in s.hist
    ensures id in Apply(s, e).hist ==>
              (id !in Apply(s, e).rows <==> (id in s.hist && id !in s.rows) || Deletes(s, e, id))
  {
    if id in s.hist {
      assert TrackOk(s, id);
    }
    assert id in s.rows ==> RowOk(s, id);
    if Deletes(s, e, id) {
      assert ClaimOk(s, e.w);
    }
  }

  lemma {:induction false} DeletedFrom(s: State, es: seq<Event>, id: nat)
    requires Inv(s) && Valid(s, es)
    ensures id in s.hist ==> id in Exec(s, es).hist
    ensures EverDeletes(s, es, id) ==> id in Exec(s, es).hist
    ensures id in Exec(s, es).hist ==>
              (id !in Exec(s, es).rows <==> (id in s.hist && id !in s.rows) || EverDeletes(s, es, id))
    decreases |es|
  {
    if es != [] {
      StepDeletesIff(s, es[0], id);
      StepKeepsInv(s, es[0]);
      DeletedFrom(Apply(s, es[0]), es[1..], id);
    }
  }

  /**
   In every run, the row of a dispatched job is gone exactly when one of its workers has made its final write after its
   handler returned nil. Errors, crashes and lost writes never remove it, and nothing brings it back.
   */
  lemma DeletedIff(now: Time, es: seq<Event>, id: nat)
    requires Valid(Init(now), es) && id in Exec(Init(now), es).hist
    ensures id !in Exec(Init(now), es).rows <==> EverDeletes(Init(now), es, id)
  {
    DeletedFrom(Init(now), es, id);
  }

  lemma GoneIsNotRun(s: State, e: Event, id: nat)
    requires Inv(s) && Enabled(s, e) && id in s.hist && id !in s.rows
    ensures id in Apply(s, e).hist && id !in Apply(s, e).rows && Apply(s, e).hist[id].starts == s.hist[id].starts
  {
    assert TrackOk(s, id);
  }

  lemma {:induction false} GoneStaysGone(s: State, es: seq<Event>, id: nat)
    requires Inv(s) && Valid(s, es) && id in s.hist && id !in s.rows
    ensures id in Exec(s, es).hist && id !in Exec(s, es).rows && Exec(s, es).hist[id].starts == s.hist[id].starts
    decreases |es|
  {
    if es != [] {
      GoneIsNotRun(s, es[0], id);
      StepKeepsInv(s, es[0]);
      GoneStaysGone(Apply(s, es[0]), es[1..], id);
    }
  }

  /** After a final write that follows a nil result the job is gone for good and is never handed to a handler again. */
  lemma SuccessIsFinal(s: State, w: WorkerId, es: seq<Event>)
    requires Inv(s) && w in s.exec && Valid(Apply(s, Finish(w, true)), es)
    ensures var id, s' := s.exec[w].id, Exec(Apply(s, Finish(w, true)), es);
            && id in s.hist && id in s'.hist
            && id !in s'.rows
            && s'.hist[id].starts == s.hist[id].starts
  {
    assert ClaimOk(s, w);
    StepKeepsInv(s, Finish(w, true));
    StepDeletesIff(s, Finish(w, true), s.exec[w].id);
    GoneStaysGone(Apply(s, Finish(w, true)), es, s.exec[w].id);
  }

  // ---------- an error ----------

  /**
   After an error the row stays. With attempts left it may be claimed again exactly when the delay has passed, which is
   2^(n+1) s after attempt n up to the 32nd, the last whose delay does not overflow; with none left it never is.
   */
  lemma FailureReschedules(s: State, w: WorkerId, now: Time)
    requires Inv(s) && w in s.exec && s.exec[w].id in s.rows
    ensures var c, s' := s.exec[w], Apply(s, Finish(w, false));
            && c.id in s'.rows
            && (c.job.attempts < c.job.maxAttempts ==>
                  (Eligible(s'.rows, w.queue, now, c.id) <==> now >= s.now + BackoffNanos(c.job.attempts)))
            && (c.job.attempts < c.job.maxAttempts && c.job.attempts <= 32 ==>
                  (Eligible(s'.rows, w.queue, now, c.id) <==> now >= s.now + Pow2(c.job.attempts + 1) * SECOND))
            && (c.job.attempts >= c.job.maxAttempts ==> !Eligible(s'.rows, w.queue, now, c.id))
  {
    var c := s.exec[w];
    assert ClaimOk(s, w) && RowOk(s, c.id);
    BackoffExactIff(c.job.attempts);
  }

  /** A final write is about its own row only. */
  lemma OthersStay(s: State, w: WorkerId, ok: bool, id: nat)
    requires w in s.exec && id != s.exec[w].id
    ensures id in Apply(s, Finish(w, ok)).rows <==> id in s.rows
    ensures id in s.rows ==> Apply(s, Finish(w, ok)).rows[id] == s.rows[id]
  {
  }
}
