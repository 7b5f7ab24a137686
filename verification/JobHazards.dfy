/** How long a final write may take: a run with one late write, and exactly when mutual exclusion holds. */
module JobHazards {
  import opened Common
  import opened GoInt
  import opened JobTable
  import opened JobProtocol
  import opened JobSafety

  /** Two workers within their lease hold the same row. */
  ghost predicate Overlap(s: State) {
    exists v, w :: v in s.exec && w in s.exec && v != w && Live(s, v) && Live(s, w) && s.exec[v].id == s.exec[w].id
  }

  function Worker(n: nat): WorkerId { WorkerId("default", n) }

  /** Worker 0 outlives its lease, worker 1 reclaims the row, worker 0 then fails and resets it, worker 2 claims it. */
  function LateRun(): seq<Event> {
    [Dispatch(0, "default", "job", [], 3, 0), Claim(Worker(0)), Tick(LEASE + 1), Claim(Worker(1)),
     Finish(Worker(0), false), Tick(4 * SECOND), Claim(Worker(2))]
  }

  function RunState(k: nat): State
    requires k <= 7
  {
    var j := NewJob("default", "job", [], 3, 0, 0);
    var t := Track("default", "job", [], 3, 0, [], 0, 0, false);
    var j1, t1 := Reserved(j, 0), t.(starts := [0]);
    var late := LEASE + 1;
    var j2, t2 := Reserved(j1, late), t.(starts := [0, late], reclaims := 1, streak := 1);
    var j3 := Retried(j2, 1, late);
    var end := late + 4 * SECOND;
    var j4, t4 := Reserved(j3, end), t.(starts := [0, late, end], reclaims := 1, streak := 0);
    if k == 0 then Init(0)
    else if k == 1 then State(0, 1, map[0 := j], map[], map[0 := t])
    else if k == 2 then State(0, 1, map[0 := j1], map[Worker(0) := Claimed(0, j1)], map[0 := t1])
    else if k == 3 then State(late, 1, map[0 := j1], map[Worker(0) := Claimed(0, j1)], map[0 := t1])
    else if k == 4 then
      State(late, 1, map[0 := j2], map[Worker(0) := Claimed(0, j1), Worker(1) := Claimed(0, j2)], map[0 := t2])
    else if k == 5 then State(late, 1, map[0 := j3], map[Worker(1) := Claimed(0, j2)], map[0 := t2])
    else if k == 6 then State(end, 1, map[0 := j3], map[Worker(1) := Claimed(0, j2)], map[0 := t2])
    else State(end, 1, map[0 := j4], map[Worker(1) := Claimed(0, j2), Worker(2) := Claimed(0, j4)], map[0 := t4])
  }

  lemma SameParts(s: State, r: State)
    requires s.now == r.now && s.nextId == r.nextId
    requires s.rows.Keys == r.rows.Keys && forall id :: id in s.rows ==> s.rows[id] == r.rows[id]
    requires s.exec.Keys == r.exec.Keys && forall w :: w in s.exec ==> s.exec[w] == r.exec[w]
    requires s.hist.Keys == r.hist.Keys && forall id :: id in s.hist ==> s.hist[id] == r.hist[id]
    ensures s == r
  {
  }

  lemma OnlyRowIsPicked(s: State)
    requires s.nextId == 1 && Eligible(s.rows, "default", s.now, 0)
    ensures Picked(s, "default") == Some(0)
  {
  }

  lemma ClaimsOnlyRow(s: State, w: WorkerId)
    requires s.nextId == 1 && w !in s.exec && w.queue == "default" && Eligible(s.rows, "default", s.now, 0)
    ensures Enabled(s, Claim(w)) && Apply(s, Claim(w)) == AfterClaim(s, w, 0)
  {
    OnlyRowIsPicked(s);
  }

  lemma FirstClaimStep()
    ensures Enabled(RunState(1), LateRun()[1]) && Apply(RunState(1), LateRun()[1]) == RunState(2)
  {
    ClaimsOnlyRow(RunState(1), Worker(0));
    SameParts(AfterClaim(RunState(1), Worker(0), 0), RunState(2));
  }

  lemma ReclaimStep()
    ensures Enabled(RunState(3), LateRun()[3]) && Apply(RunState(3), LateRun()[3]) == RunState(4)
  {
    ClaimsOnlyRow(RunState(3), Worker(1));
    SameParts(AfterClaim(RunState(3), Worker(1), 0), RunState(4));
  }

  lemma SecondClaimStep()
    ensures Enabled(RunState(6), LateRun()[6]) && Apply(RunState(6), LateRun()[6]) == RunState(7)
  {
    BackoffExactIff(1);
    assert Pow2(2) == 4;
    ClaimsOnlyRow(RunState(6), Worker(2));
    SameParts(AfterClaim(RunState(6), Worker(2), 0), RunState(7));
  }

  lemma LateRunStep(k: nat)
    requires k < 7
    ensures Enabled(RunState(k), LateRun()[k])
    ensures Apply(RunState(k), LateRun()[k]) == RunState(k + 1)
  {
    if k == 1 {
      FirstClaimStep();
    } else if k == 3 {
      ReclaimStep();
    } else if k == 6 {
      SecondClaimStep();
    } else if k == 4 {
      SameParts(AfterReturn(RunState(4), Worker(0), false, true), RunState(5));
    }
  }

  lemma {:induction false} LateRunFrom(k: nat, es: seq<Event>, d: Time)
    requires k <= 7 && es == LateRun()[k..] && d > LEASE
    ensures Valid(RunState(k), es) && WritesWithin(RunState(k), es, d)
    ensures Exec(RunState(k), es) == RunState(7)
    decreases 7 - k
  {
    if k < 7 {
      LateRunStep(k);
      LateRunFrom(k + 1, es[1..], d);
    }
  }

  /** Two workers share a row only if some worker wrote to a row that another had claimed since, after its lease. */
  lemma OverlapNeedsLateWrite(now: Time, es: seq<Event>)
    requires Valid(Init(now), es) && Overlap(Exec(Init(now), es))
    ensures !OnTime(Init(now), es)
    ensures exists id: nat :: !OrderlyFor(Init(now), es, id)
  {
    var s := Exec(Init(now), es);
    var v, w :| v in s.exec && w in s.exec && v != w && Live(s, v) && Live(s, w) && s.exec[v].id == s.exec[w].id;
    var id := s.exec[w].id;
    if OrderlyFor(Init(now), es, id) {
      MutualExclusion(now, es, w);
      assert false;
    }
    if OnTime(Init(now), es) {
      OnTimeIsOrderly(Init(now), es, id);
    }
  }

  lemma LateRunOverlaps()
    ensures Overlap(RunState(7))
  {
    var s := RunState(7);
    assert Live(s, Worker(1)) && Live(s, Worker(2));
  }

  /** Without the on-time hypothesis mutual exclusion fails: the final write is keyed by id alone. */
  lemma LateWriterBreaksExclusion() returns (es: seq<Event>)
    ensures Valid(Init(0), es) && !OnTime(Init(0), es)
    ensures Overlap(Exec(Init(0), es))
  {
    es := LateRun();
    LateRunFrom(0, es, LEASE + 1);
    LateRunOverlaps();
    OverlapNeedsLateWrite(0, es);
  }

  /** No run whose final writes come at most d after their claims ends with two workers on one row. */
  ghost predicate ExclusiveWithin(d: Time) {
    forall now: Time, es: seq<Event> ::
      Valid(Init(now), es) && WritesWithin(Init(now), es, d) ==> !Overlap(Exec(Init(now), es))
  }

  /** Mutual exclusion holds in all runs exactly when the final writes come within the lease of their claims. */
  lemma ExclusiveWithinIff(d: Time)
    ensures ExclusiveWithin(d) <==> d <= LEASE
  {
    if d <= LEASE {
      forall now: Time, es: seq<Event> | Valid(Init(now), es) && WritesWithin(Init(now), es, d)
        ensures !Overlap(Exec(Init(now), es))
      {
        WithinLeaseIsOnTime(Init(now), es, d);
        if Overlap(Exec(Init(now), es)) {
          OverlapNeedsLateWrite(now, es);
        }
      }
    } else {
      var es := LateRun();
      LateRunFrom(0, es, d);
      LateRunOverlaps();
      assert Overlap(Exec(Init(0), es));
    }
  }
}
