/**
 The database queue as a state machine: any number of workers of any number of queues share one jobs table.
 Every step happens at one instant of one clock. The claim transaction is one step.
 */
module JobProtocol {
  import opened Common
  import opened GoInt
  import opened JobTable

  /** A worker goroutine: the queue its driver serves and its number. */
  datatype WorkerId = WorkerId(queue: string, number: nat)

  /** What an executing worker holds: the id it claimed and its own copy of the row as it saved it. */
  datatype Claimed = Claimed(id: nat, job: Job)

  /**
   What has happened to one dispatched job so far. Only the properties read it, no step depends on it.
   `streak` counts the stale reclaims since the job was last claimed from pending.
   */
  datatype Track = Track(
    queue: string,
    name: string,
    payload: Bytes,
    maxAttempts: int,
    firstAvailable: Time,
    starts: seq<Time>,
    reclaims: nat,
    streak: nat,
    succeeded: bool)

  /** Workers absent from `exec` are idle (or not running at all). */
  datatype State = State(
    now: Time,
    nextId: nat,
    rows: Rows,
    exec: map<WorkerId, Claimed>,
    hist: map<nat, Track>)

  datatype Event =
    | Dispatch(id: nat, queue: string, name: string, payload: Bytes, maxAttempts: int, delay: int)
    | Claim(w: WorkerId)
    | Finish(w: WorkerId, ok: bool)
      // the handler returned but its final write failed, which the worker ignores
    | LoseWrite(w: WorkerId, ok: bool)
    | Crash(w: WorkerId)
    | Tick(d: nat)

  function Init(now: Time): State {
    State(now, 0, map[], map[], map[])
  }

  /** The database hands out increasing ids, possibly with gaps; a driver's attempt limit is at least 1. */
  predicate Enabled(s: State, e: Event) {
    match e
    case Dispatch(id, _, _, _, maxAttempts, _) => s.nextId <= id && maxAttempts >= 1
    case Claim(w) => w !in s.exec
    case Finish(w, _) => w in s.exec
    case LoseWrite(w, _) => w in s.exec
    case Crash(w) => w in s.exec
    case Tick(_) => true
  }

  function Picked(s: State, queue: string): Option<nat> {
    PickBelow(s.rows, queue, s.now, s.nextId)
  }

  function AfterDispatch(s: State, id: nat, j: Job): State {
    s.(nextId := id + 1,
       rows := s.rows[id := j],
       hist := s.hist[id := Track(j.queue, j.name, j.payload, j.maxAttempts, j.availableAt, [], 0, 0, false)])
  }

  function Started(t: Track, now: Time, stale: bool): Track {
    t.(starts := t.starts + [now],
       reclaims := if stale then t.reclaims + 1 else t.reclaims,
       streak := if stale then t.streak + 1 else 0)
  }

  function AfterClaim(s: State, w: WorkerId, id: nat): State
    requires id in s.rows
  {
    var j := Reserved(s.rows[id], s.now);
    var stale := s.rows[id].status == Processing;
    s.(rows := s.rows[id := j],
       exec := s.exec[w := Claimed(id, j)],
       hist := if id in s.hist then s.hist[id := Started(s.hist[id], s.now, stale)] else s.hist)
  }

  /** The handler of w's job has returned; `written` says whether the final write took effect. */
  function AfterReturn(s: State, w: WorkerId, ok: bool, written: bool): State
    requires w in s.exec
  {
    var c := s.exec[w];
    s.(rows := if written then Settled(s.rows, c.id, c.job, ok, s.now) else s.rows,
       exec := s.exec - {w},
       hist := if ok && c.id in s.hist then s.hist[c.id := s.hist[c.id].(succeeded := true)] else s.hist)
  }

  function Apply(s: State, e: Event): State
    requires Enabled(s, e)
  {
    match e
    case Dispatch(id, queue, name, payload, maxAttempts, delay) =>
      AfterDispatch(s, id, NewJob(queue, name, payload, maxAttempts, s.now, delay))
    case Claim(w) => if Picked(s, w.queue).None? then s else AfterClaim(s, w, Picked(s, w.queue).value)
    case Finish(w, ok) => AfterReturn(s, w, ok, true)
    case LoseWrite(w, ok) => AfterReturn(s, w, ok, false)
    case Crash(w) => s.(exec := s.exec - {w})
    case Tick(d) => s.(now := s.now + d)
  }

  predicate Valid(s: State, es: seq<Event>)
    decreases |es|
  {
    es == [] || (Enabled(s, es[0]) && Valid(Apply(s, es[0]), es[1..]))
  }

  function Exec(s: State, es: seq<Event>): State
    requires Valid(s, es)
    decreases |es|
  {
    if es == [] then s else Exec(Apply(s, es[0]), es[1..])
  }

  /** Still within the lease of its claim. */
  predicate Live(s: State, w: WorkerId)
    requires w in s.exec
  {
    s.exec[w].job.reservedAt.Some? && s.now <= s.exec[w].job.reservedAt.value + LEASE
  }

  /** Every final write of the run lands no later than the lease of its claim. */
  predicate OnTime(s: State, es: seq<Event>)
    requires Valid(s, es)
    decreases |es|
  {
    es == [] || ((es[0].Finish? ==> Live(s, es[0].w)) && OnTime(Apply(s, es[0]), es[1..]))
  }

  /** No other claim of w's row has come after w's. */
  predicate Newest(s: State, w: WorkerId)
    requires w in s.exec
  {
    s.exec[w].id in s.hist && s.exec[w].job.attempts == |s.hist[s.exec[w].id].starts|
  }

  /** Every final write of the run to row `id` is made by the worker that was the last to claim it. */
  predicate OrderlyFor(s: State, es: seq<Event>, id: nat)
    requires Valid(s, es)
    decreases |es|
  {
    es == []
    || ((es[0].Finish? && s.exec[es[0].w].id == id ==> Newest(s, es[0].w)) && OrderlyFor(Apply(s, es[0]), es[1..], id))
  }

  /** The deadline a handler is given. */
  const HANDLER_TIMEOUT: Time := 60 * SECOND

  /** Every final write of the run comes at most d after its claim. */
  predicate WritesWithin(s: State, es: seq<Event>, d: Time)
    requires Valid(s, es)
    decreases |es|
  {
    es == []
    || ((es[0].Finish? ==>
           && s.exec[es[0].w].job.reservedAt.Some?
           && s.now <= s.exec[es[0].w].job.reservedAt.value + d)
        && WritesWithin(Apply(s, es[0]), es[1..], d))
  }

  lemma {:induction false} WithinLeaseIsOnTime(s: State, es: seq<Event>, d: Time)
    requires Valid(s, es) && WritesWithin(s, es, d) && d <= LEASE
    ensures OnTime(s, es)
    decreases |es|
  {
    if es != [] {
      WithinLeaseIsOnTime(Apply(s, es[0]), es[1..], d);
    }
  }

  /** Two runs after each other are one. */
  lemma {:induction false} RunsCompose(s: State, es: seq<Event>, fs: seq<Event>)
    requires Valid(s, es) && Valid(Exec(s, es), fs)
    ensures Valid(s, es + fs) && Exec(s, es + fs) == Exec(Exec(s, es), fs)
    ensures OnTime(s, es) && OnTime(Exec(s, es), fs) ==> OnTime(s, es + fs)
    decreases |es|
  {
    if es == [] {
      assert es + fs == fs;
    } else {
      RunsCompose(Apply(s, es[0]), es[1..], fs);
      assert (es + fs)[0] == es[0] && (es + fs)[1..] == es[1..] + fs;
    }
  }

  /** A run of three steps, spelled out. */
  lemma ThreeSteps(s: State, a: Event, b: Event, c: Event)
    requires Enabled(s, a) && Enabled(Apply(s, a), b) && Enabled(Apply(Apply(s, a), b), c)
    ensures Valid(s, [a, b, c])
    ensures Exec(s, [a, b, c]) == Apply(Apply(Apply(s, a), b), c)
    ensures OnTime(s, [a, b, c]) <==>
            && (a.Finish? ==> Live(s, a.w))
            && (b.Finish? ==> Live(Apply(s, a), b.w))
            && (c.Finish? ==> Live(Apply(Apply(s, a), b), c.w))
  {
    var s1 := Apply(s, a);
    var s2 := Apply(s1, b);
    var s3 := Apply(s2, c);
    assert [a, b, c][1..] == [b, c] && [b, c][1..] == [c] && [c][1..] == [];
    assert Valid(s3, []) && Exec(s3, []) == s3 && OnTime(s3, []);
    assert Valid(s2, [c]) && Exec(s2, [c]) == s3;
    assert OnTime(s2, [c]) <==> (c.Finish? ==> Live(s2, c.w));
    assert Valid(s1, [b, c]) && Exec(s1, [b, c]) == s3;
  }
}
