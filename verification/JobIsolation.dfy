/** Drivers with different queue names on one jobs table do not see each other. */
module JobIsolation {
  import opened Common
  import opened JobTable
  import opened JobProtocol
  import opened JobSafety

  predicate Concerns(e: Event, queue: string) {
    match e
    case Dispatch(_, q, _, _, _, _) => q == queue
    case Tick(_) => true
    case _ => e.w.queue == queue
  }

  /** The steps of a run that one queue's drivers take, and the passing of time. */
  function Project(es: seq<Event>, queue: string): seq<Event> {
    if es == [] then []
    else (if Concerns(es[0], queue) then [es[0]] else []) + Project(es[1..], queue)
  }

  ghost predicate RowsOf(all: Rows, own: Rows, queue: string) {
    && (forall id :: id in own ==> id in all && all[id].queue == queue && own[id] == all[id])
    && (forall id :: id in all && all[id].queue == queue ==> id in own)
  }

  ghost predicate ExecOf(all: map<WorkerId, Claimed>, own: map<WorkerId, Claimed>, queue: string) {
    && (forall w :: w in own ==> w in all && w.queue == queue && own[w] == all[w])
    && (forall w :: w in all && w.queue == queue ==> w in own)
  }

  ghost predicate HistOf(all: map<nat, Track>, own: map<nat, Track>, queue: string) {
    && (forall id :: id in own ==> id in all && all[id].queue == queue && own[id] == all[id])
    && (forall id :: id in all && all[id].queue == queue ==> id in own)
  }

  /** p is what s looks like to one queue: exactly its rows, its workers and the history of its jobs. */
  ghost predicate ViewOf(s: State, p: State, queue: string) {
    && p.now == s.now
    && p.nextId <= s.nextId
    && RowsOf(s.rows, p.rows, queue)
    && ExecOf(s.exec, p.exec, queue)
    && HistOf(s.hist, p.hist, queue)
  }

  lemma SameEligible(s: State, p: State, queue: string, id: nat)
    requires ViewOf(s, p, queue)
    ensures Eligible(s.rows, queue, s.now, id) <==> Eligible(p.rows, queue, p.now, id)
    ensures Eligible(p.rows, queue, p.now, id) ==> p.rows[id] == s.rows[id]
  {
  }

  lemma IdsBounded(s: State)
    requires Inv(s)
    ensures forall id :: id in s.rows ==> id < s.nextId
  {
  }

  lemma SamePick(s: State, p: State, queue: string)
    requires ViewOf(s, p, queue)
    requires forall id :: id in s.rows ==> id < s.nextId
    requires forall id :: id in p.rows ==> id < p.nextId
    ensures Picked(s, queue) == Picked(p, queue)
  {
    PickIsFirst(s.rows, queue, s.now, s.nextId);
    PickIsFirst(p.rows, queue, p.now, p.nextId);
    forall id: nat
      ensures Eligible(s.rows, queue, s.now, id) <==> Eligible(p.rows, queue, p.now, id)
      ensures Eligible(p.rows, queue, p.now, id) ==> p.rows[id] == s.rows[id]
    {
      SameEligible(s, p, queue, id);
    }
    var r := Picked(p, queue);
    if r.Some? {
      assert IsFirst(s.rows, queue, s.now, r.value);
    }
  }

  lemma PutRow(all: Rows, own: Rows, queue: string, id: nat, j: Job)
    requires RowsOf(all, own, queue) && (id in all ==> all[id].queue == j.queue)
    ensures j.queue == queue ==> RowsOf(all[id := j], own[id := j], queue)
    ensures j.queue != queue ==> RowsOf(all[id := j], own, queue)
  {
  }

  lemma PutTrack(all: map<nat, Track>, own: map<nat, Track>, queue: string, id: nat, t: Track)
    requires HistOf(all, own, queue) && (id in all ==> all[id].queue == t.queue)
    ensures t.queue == queue ==> HistOf(all[id := t], own[id := t], queue)
    ensures t.queue != queue ==> HistOf(all[id := t], own, queue)
  {
  }

  /** The job of this id is one of the queue's, in the table and in the history. */
  ghost predicate JobOf(s: State, id: nat, queue: string) {
    (id in s.rows ==> s.rows[id].queue == queue) && (id in s.hist ==> s.hist[id].queue == queue)
  }

  lemma JobsMatch(s: State)
    requires Inv(s)
    ensures forall id :: id in s.rows ==> id in s.hist && JobOf(s, id, s.rows[id].queue)
    ensures forall w :: w in s.exec ==> s.exec[w].id in s.hist && JobOf(s, s.exec[w].id, w.queue)
  {
  }

  lemma OwnClaim(s: State, p: State, w: WorkerId, id: nat)
    requires ViewOf(s, p, w.queue) && id in s.rows && id in s.hist
    requires s.rows[id].queue == w.queue && s.hist[id].queue == w.queue
    ensures id in p.rows && ViewOf(AfterClaim(s, w, id), AfterClaim(p, w, id), w.queue)
  {
    PutRow(s.rows, p.rows, w.queue, id, Reserved(s.rows[id], s.now));
    PutTrack(s.hist, p.hist, w.queue, id, Started(s.hist[id], s.now, s.rows[id].status == Processing));
  }

  lemma ForeignSettle(all: Rows, own: Rows, queue: string, id: nat, mine: Job, ok: bool, now: Time)
    requires RowsOf(all, own, queue) && (id in all ==> all[id].queue != queue)
    ensures RowsOf(Settled(all, id, mine, ok, now), own, queue)
  {
  }

  lemma OwnReturn(s: State, p: State, w: WorkerId, ok: bool, written: bool)
    requires ViewOf(s, p, w.queue) && w in s.exec && s.exec[w].id in s.hist && JobOf(s, s.exec[w].id, w.queue)
    ensures w in p.exec && ViewOf(AfterReturn(s, w, ok, written), AfterReturn(p, w, ok, written), w.queue)
  {
  }

  lemma OwnQuiet(s: State, p: State, e: Event, queue: string)
    requires Inv(s) && ViewOf(s, p, queue) && Enabled(s, e) && Concerns(e, queue)
    requires e.Dispatch? || e.Crash? || e.Tick?
    ensures Enabled(p, e) && ViewOf(Apply(s, e), Apply(p, e), queue)
  {
  }

  lemma ForeignDispatch(s: State, p: State, e: Event, queue: string)
    requires Inv(s) && ViewOf(s, p, queue) && Enabled(s, e) && e.Dispatch? && e.queue != queue
    ensures ViewOf(Apply(s, e), p, queue)
  {
    assert e.id !in s.rows && e.id !in s.hist by {
      assert e.id in s.rows ==> RowOk(s, e.id);
      assert e.id in s.hist ==> TrackOk(s, e.id);
    }
    var j := NewJob(e.queue, e.name, e.payload, e.maxAttempts, s.now, e.delay);
    PutRow(s.rows, p.rows, queue, e.id, j);
    PutTrack(s.hist, p.hist, queue, e.id, Apply(s, e).hist[e.id]);
  }

  lemma ForeignClaim(s: State, p: State, w: WorkerId, id: nat, queue: string)
    requires ViewOf(s, p, queue) && w.queue != queue && id in s.rows && id in s.hist
    requires s.rows[id].queue == w.queue && s.hist[id].queue == w.queue
    ensures ViewOf(AfterClaim(s, w, id), p, queue)
  {
  }

  lemma ForeignReturn(s: State, p: State, w: WorkerId, ok: bool, written: bool, queue: string)
    requires ViewOf(s, p, queue) && w.queue != queue && w in s.exec
    requires s.exec[w].id in s.hist && JobOf(s, s.exec[w].id, w.queue)
    ensures ViewOf(AfterReturn(s, w, ok, written), p, queue)
  {
    var c := s.exec[w];
    ForeignSettle(s.rows, p.rows, queue, c.id, c.job, ok, s.now);
    PutTrack(s.hist, p.hist, queue, c.id, s.hist[c.id].(succeeded := true));
  }

  lemma ForeignCrash(s: State, p: State, w: WorkerId, queue: string)
    requires ViewOf(s, p, queue) && w.queue != queue && w in s.exec
    ensures ViewOf(s.(exec := s.exec - {w}), p, queue)
  {
  }

  lemma ForeignStep(s: State, p: State, e: Event, queue: string)
    requires Inv(s) && ViewOf(s, p, queue) && Enabled(s, e) && !Concerns(e, queue)
    ensures ViewOf(Apply(s, e), p, queue)
  {
    match e
    case Dispatch(_, _, _, _, _, _) => ForeignDispatch(s, p, e, queue);
    case Claim(w) =>
      var r := Picked(s, w.queue);
      if r.Some? {
        ForeignClaim(s, p, w, r.value, queue) by { assert RowOk(s, r.value); }
      }
    case Finish(w, ok) =>
      ForeignReturn(s, p, w, ok, true, queue) by { JobsMatch(s); }
    case LoseWrite(w, ok) =>
      ForeignReturn(s, p, w, ok, false, queue) by { JobsMatch(s); }
    case Crash(w) => ForeignCrash(s, p, w, queue);
  }

  lemma OwnStep(s: State, p: State, e: Event, queue: string)
    requires Inv(s) && Inv(p) && ViewOf(s, p, queue) && Enabled(s, e) && Concerns(e, queue)
    ensures Enabled(p, e) && ViewOf(Apply(s, e), Apply(p, e), queue)
  {
    match e
    case Claim(w) =>
      SamePick(s, p, queue) by { IdsBounded(s); IdsBounded(p); }
      var r := Picked(s, queue);
      if r.Some? {
        OwnClaim(s, p, w, r.value) by { assert RowOk(s, r.value); }
      }
    case Finish(w, ok) =>
      OwnReturn(s, p, w, ok, true) by { JobsMatch(s); }
    case LoseWrite(w, ok) =>
      OwnReturn(s, p, w, ok, false) by { JobsMatch(s); }
    case _ => OwnQuiet(s, p, e, queue);
  }

  lemma {:induction false} IsolationFrom(s: State, p: State, es: seq<Event>, queue: string)
    requires Inv(s) && Inv(p) && ViewOf(s, p, queue) && Valid(s, es)
    ensures Valid(p, Project(es, queue))
    ensures ViewOf(Exec(s, es), Exec(p, Project(es, queue)), queue)
    decreases |es|
  {
    if es != [] {
      var e, rest := es[0], Project(es[1..], queue);
      StepKeepsInv(s, e);
      if Concerns(e, queue) {
        OwnStep(s, p, e, queue);
        StepKeepsInv(p, e);
        IsolationFrom(Apply(s, e), Apply(p, e), es[1..], queue);
        assert Project(es, queue)[0] == e && Project(es, queue)[1..] == rest;
      } else {
        ForeignStep(s, p, e, queue);
        IsolationFrom(Apply(s, e), p, es[1..], queue);
        assert Project(es, queue) == rest;
      }
    }
  }

  /**
   The steps of one queue in any run are themselves a run of that queue alone, with the same claims, the same
   rows and the same history of every job.
   */
  lemma QueueIsolation(now: Time, es: seq<Event>, queue: string)
    requires Valid(Init(now), es)
    ensures Valid(Init(now), Project(es, queue))
    ensures ViewOf(Exec(Init(now), es), Exec(Init(now), Project(es, queue)), queue)
  {
    IsolationFrom(Init(now), Init(now), es, queue);
  }
}
