/**
 The claim as the two statements it consists of, a SELECT and a Save, with any steps of other workers in between.
 Mutual exclusion needs less than one atomic step: it is enough that each Save finds its row as the SELECT read it.
 */
module JobSplitClaim {
  import opened Common
  import opened JobTable
  import opened JobProtocol
  import opened JobSafety
  import opened JobHazards

  /** What a worker has read and not yet saved. */
  datatype Copy = Copy(id: nat, job: Job)

  datatype SplitState = SplitState(base: State, copies: map<WorkerId, Copy>)

  datatype SplitEvent = Other(e: Event) | Select(w: WorkerId) | Save(w: WorkerId)

  function SplitInit(now: Time): SplitState {
    SplitState(Init(now), map[])
  }

  predicate SplitEnabled(s: SplitState, x: SplitEvent) {
    match x
    case Other(e) => Enabled(s.base, e) && !e.Claim?
    case Select(w) => w !in s.base.exec && w !in s.copies
    case Save(w) => w in s.copies
  }

  /** Saves every column of the worker's copy, and inserts it again if the row is gone. */
  function AfterSave(s: State, w: WorkerId, read: Copy): State {
    var j := Reserved(read.job, s.now);
    s.(rows := s.rows[read.id := j],
       exec := s.exec[w := Claimed(read.id, j)],
       hist := if read.id in s.hist
               then s.hist[read.id := Started(s.hist[read.id], s.now, read.job.status == Processing)] else s.hist)
  }

  function SplitApply(s: SplitState, x: SplitEvent): SplitState
    requires SplitEnabled(s, x)
  {
    match x
    case Other(e) => s.(base := Apply(s.base, e))
    case Select(w) =>
      var p := Picked(s.base, w.queue);
      if p.None? then s else s.(copies := s.copies[w := Copy(p.value, s.base.rows[p.value])])
    case Save(w) => SplitState(AfterSave(s.base, w, s.copies[w]), s.copies - {w})
  }

  predicate SplitValid(s: SplitState, xs: seq<SplitEvent>)
    decreases |xs|
  {
    xs == [] || (SplitEnabled(s, xs[0]) && SplitValid(SplitApply(s, xs[0]), xs[1..]))
  }

  function SplitExec(s: SplitState, xs: seq<SplitEvent>): SplitState
    requires SplitValid(s, xs)
    decreases |xs|
  {
    if xs == [] then s else SplitExec(SplitApply(s, xs[0]), xs[1..])
  }

  /** A Save finds the row as its SELECT has read it. */
  predicate FindsUnchanged(s: SplitState, x: SplitEvent)
    requires SplitEnabled(s, x)
  {
    x.Save? ==> s.copies[x.w].id in s.base.rows && s.base.rows[s.copies[x.w].id] == s.copies[x.w].job
  }

  predicate AlwaysUnchanged(s: SplitState, xs: seq<SplitEvent>)
    requires SplitValid(s, xs)
    decreases |xs|
  {
    xs == [] || (FindsUnchanged(s, xs[0]) && AlwaysUnchanged(SplitApply(s, xs[0]), xs[1..]))
  }

  /** Every final write of the run lands within the lease of its claim. */
  predicate SplitOnTime(s: SplitState, xs: seq<SplitEvent>)
    requires SplitValid(s, xs)
    decreases |xs|
  {
    xs == []
    || ((xs[0].Other? && xs[0].e.Finish? ==> Live(s.base, xs[0].e.w)) && SplitOnTime(SplitApply(s, xs[0]), xs[1..]))
  }

  // ---------- what is enough ----------

  ghost predicate CopyOk(s: SplitState, w: WorkerId)
    requires w in s.copies
  {
    var job := s.copies[w].job;
    w !in s.base.exec && job.queue == w.queue && (Ready(job, s.base.now) || Stale(job, s.base.now))
  }

  ghost predicate SplitInv(s: SplitState) {
    && Inv(s.base)
    && (forall id: nat :: OrderlyAt(s.base, id))
    && forall w :: w in s.copies ==> CopyOk(s, w)
  }

  /** A copy that was eligible when it was read is eligible as long as its row has not changed. */
  lemma SaveIsClaim(s: SplitState, w: WorkerId)
    requires SplitInv(s) && w in s.copies && FindsUnchanged(s, Save(w))
    ensures Eligible(s.base.rows, w.queue, s.base.now, s.copies[w].id)
    ensures AfterSave(s.base, w, s.copies[w]) == AfterClaim(s.base, w, s.copies[w].id)
  {
    assert CopyOk(s, w);
  }

  lemma StepKeepsCopies(s: SplitState, x: SplitEvent, w: WorkerId)
    requires SplitInv(s) && SplitEnabled(s, x) && w in SplitApply(s, x).copies
    ensures CopyOk(SplitApply(s, x), w)
  {
    assert w in s.copies ==> CopyOk(s, w);
  }

  lemma SaveKeepsOrderly(s: SplitState, w: WorkerId, id: nat)
    requires SplitInv(s) && w in s.copies && FindsUnchanged(s, Save(w))
    ensures OrderlyAt(AfterSave(s.base, w, s.copies[w]), id)
  {
    SaveIsClaim(s, w);
    assert CopyOk(s, w) && OrderlyAt(s.base, id);
    var picked := s.copies[w].id;
    assert RowOk(s.base, picked);
    if id in s.base.hist {
      ClaimKeepsOwned(s.base, w, picked, id);
      if id in s.base.rows {
        ClaimKeepsAccount(s.base, w, picked, id);
      }
    }
  }

  lemma OtherKeepsOrderly(s: SplitState, e: Event, id: nat)
    requires SplitInv(s) && Enabled(s.base, e) && (e.Finish? ==> Live(s.base, e.w))
    ensures OrderlyAt(Apply(s.base, e), id)
  {
    assert OrderlyAt(s.base, id);
    if e.Finish? {
      assert ClaimOk(s.base, e.w) && Holds(s.base, e.w, s.base.exec[e.w].id);
      assert OrderlyAt(s.base, s.base.exec[e.w].id);
    }
    StepKeepsOrderly(s.base, e, id);
  }

  lemma SplitStepKeepsInv(s: SplitState, x: SplitEvent)
    requires SplitInv(s) && SplitEnabled(s, x) && FindsUnchanged(s, x)
    requires x.Other? && x.e.Finish? ==> Live(s.base, x.e.w)
    ensures SplitInv(SplitApply(s, x))
  {
    var s' := SplitApply(s, x);
    match x {
      case Other(e) =>
        StepKeepsInv(s.base, e);
        forall id: nat ensures OrderlyAt(s'.base, id) { OtherKeepsOrderly(s, e, id); }
      case Select(w) =>
      case Save(w) =>
        assert CopyOk(s, w);
        SaveIsClaim(s, w);
        ClaimKeepsInv(s.base, w, s.copies[w].id);
        forall id: nat ensures OrderlyAt(s'.base, id) { SaveKeepsOrderly(s, w, id); }
    }
    forall w | w in s'.copies ensures CopyOk(s', w) {
      StepKeepsCopies(s, x, w);
    }
  }

  lemma {:induction false} SplitRunKeepsInv(s: SplitState, xs: seq<SplitEvent>)
    requires SplitInv(s) && SplitValid(s, xs) && AlwaysUnchanged(s, xs) && SplitOnTime(s, xs)
    ensures SplitInv(SplitExec(s, xs))
    decreases |xs|
  {
    if xs != [] {
      SplitStepKeepsInv(s, xs[0]);
      SplitRunKeepsInv(SplitApply(s, xs[0]), xs[1..]);
    }
  }

  /**
   Mutual exclusion without an atomic claim: in every on-time run whose Saves find their rows unchanged, a worker
   within its lease finds the row as it saved it, and no other worker within its lease holds the job.
   */
  lemma UnchangedSavesExclude(now: Time, xs: seq<SplitEvent>, w: WorkerId)
    requires SplitValid(SplitInit(now), xs) && AlwaysUnchanged(SplitInit(now), xs) && SplitOnTime(SplitInit(now), xs)
    requires var s := SplitExec(SplitInit(now), xs).base; w in s.exec && Live(s, w)
    ensures var s := SplitExec(SplitInit(now), xs).base;
            && s.exec[w].id in s.rows
            && s.rows[s.exec[w].id] == s.exec[w].job
            && forall v :: v in s.exec && v != w && Live(s, v) ==> s.exec[v].id != s.exec[w].id
  {
    SplitRunKeepsInv(SplitInit(now), xs);
    OrderlyExcludes(SplitExec(SplitInit(now), xs).base, w);
  }

  // ---------- what happens without it ----------

  /** Two idle workers read the same row, and both save it. */
  function BothClaim(v: WorkerId, w: WorkerId): seq<SplitEvent> {
    [Select(v), Select(w), Save(v), Save(w)]
  }

  lemma BothClaimRun(s: SplitState, v: WorkerId, w: WorkerId)
    requires v != w && SplitEnabled(s, Select(v)) && SplitEnabled(s, Select(w)) && v.queue == w.queue
    requires Picked(s.base, v.queue).Some?
    ensures var xs := BothClaim(v, w);
            var id := Picked(s.base, v.queue).value;
            var read := Copy(id, s.base.rows[id]);
            && SplitValid(s, xs)
            && SplitOnTime(s, xs)
            && SplitExec(s, xs).base == AfterSave(AfterSave(s.base, v, read), w, read)
  {
    var xs := BothClaim(v, w);
    var s1 := SplitApply(s, xs[0]);
    var s2 := SplitApply(s1, xs[1]);
    var s3 := SplitApply(s2, xs[2]);
    var s4 := SplitApply(s3, xs[3]);
    assert xs[1..] == [Select(w), Save(v), Save(w)] && xs[1..][1..] == [Save(v), Save(w)];
    assert xs[1..][1..][1..] == [Save(w)] && xs[1..][1..][1..][1..] == [];
    assert SplitValid(s4, []) && SplitExec(s4, []) == s4 && SplitOnTime(s4, []);
    assert SplitValid(s3, [Save(w)]) && SplitExec(s3, [Save(w)]) == s4 && SplitOnTime(s3, [Save(w)]);
    assert SplitValid(s2, xs[1..][1..]) && SplitExec(s2, xs[1..][1..]) == s4 && SplitOnTime(s2, xs[1..][1..]);
    assert SplitValid(s1, xs[1..]) && SplitExec(s1, xs[1..]) == s4 && SplitOnTime(s1, xs[1..]);
  }

  /**
   From every state with a row to claim, two idle workers of the queue can both take it in an on-time run: it runs
   twice, and its attempts count only one of the two.
   */
  lemma SplitClaimOverlaps(s: SplitState, v: WorkerId, w: WorkerId)
    requires v != w && SplitEnabled(s, Select(v)) && SplitEnabled(s, Select(w)) && v.queue == w.queue
    requires Picked(s.base, v.queue).Some? && Picked(s.base, v.queue).value in s.base.hist
    ensures var xs, id := BothClaim(v, w), Picked(s.base, v.queue).value;
            && SplitValid(s, xs) && SplitOnTime(s, xs)
            && var s' := SplitExec(s, xs).base;
               && Overlap(s')
               && id in s'.rows && id in s'.hist
               && s'.rows[id].attempts == s.base.rows[id].attempts + 1
               && |s'.hist[id].starts| == |s.base.hist[id].starts| + 2
  {
    BothClaimRun(s, v, w);
    var s' := SplitExec(s, BothClaim(v, w)).base;
    assert v in s'.exec && w in s'.exec && Live(s', v) && Live(s', w) && s'.exec[v].id == s'.exec[w].id;
  }
}
