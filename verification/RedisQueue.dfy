/**
 The Redis list queue. A failed job goes back through DispatchDelayed, which builds a new message whose attempt
 count is zero again; what follows is proved here, and exactly when the attempt limit still holds.
 */
module RedisQueue {
  import opened Common
  import opened GoInt
  import opened QueueCore

  type Time = int

  /** The message of the list; `id` stands for its fresh UUID. The JSON codec is taken to round-trip. */
  datatype Msg = Msg(id: nat, name: string, payload: Bytes, attempts: nat, maxAttempts: int)

  /** A goroutine that pushes its message when the time has come. */
  datatype Timer = Timer(due: Time, msg: Msg)

  /** A run of a handler, or what a caller dispatched. */
  datatype Job = Job(name: string, payload: Bytes)

  /**
   LPUSH adds at the front of `list`, BRPOP takes from its end. The last four fields are history: what was
   dispatched, which dispatch each message comes from, the handler runs of each dispatch, and how many jobs were
   given up for good.
   */
  datatype State = State(
    maxAttempts: int,
    now: Time,
    nextId: nat,
    list: seq<Msg>,
    timers: seq<Timer>,
    exec: map<nat, Msg>,
    quit: bool,
    dispatched: seq<Job>,
    origin: map<nat, nat>,
    runs: seq<seq<Job>>,
    givenUp: nat)

  datatype Event =
    | Dispatch(name: string, payload: Payload, delay: int, pushed: bool)
    | Fire(i: nat, pushed: bool)
    | Cancel(i: nat)
    | Pop(w: nat)
    | Finish(w: nat, ok: bool)
    | Tick(d: nat)
    | Quit

  function Init(maxAttempts: int): State {
    State(maxAttempts, 0, 0, [], [], map[], false, [], map[], [], 0)
  }

  predicate Enabled(s: State, e: Event) {
    match e
    case Dispatch(_, payload, _, _) => MarshalPayload(payload).Ok?
    case Fire(i, _) => i < |s.timers| && s.timers[i].due <= s.now
    case Cancel(i) => i < |s.timers| && s.quit
    case Pop(w) => w !in s.exec && s.list != []
    case Finish(w, _) => w in s.exec
    case Tick(_) => true
    case Quit => true
  }

  function Without<T>(xs: seq<T>, i: nat): seq<T>
    requires i < |xs|
  {
    xs[..i] + xs[i + 1..]
  }

  /** DispatchDelayed for a job that belongs to dispatch number d. */
  function Enqueue(s: State, name: string, payload: Bytes, delay: int, pushed: bool, d: nat): State {
    var msg := Msg(s.nextId, name, payload, 0, s.maxAttempts);
    var s' := s.(nextId := s.nextId + 1, origin := s.origin[s.nextId := d]);
    if delay > 0 then s'.(timers := s.timers + [Timer(s.now + delay, msg)])
    else if pushed then s'.(list := [msg] + s.list)
    else s'
  }

  function Recorded(s: State, msg: Msg): State {
    if msg.id in s.origin && s.origin[msg.id] < |s.runs| then
      var d := s.origin[msg.id];
      s.(runs := s.runs[d := s.runs[d] + [Job(msg.name, msg.payload)]])
    else s
  }

  function AfterFinish(s: State, w: nat, ok: bool): State
    requires w in s.exec
  {
    var msg := s.exec[w];
    var s' := s.(exec := s.exec - {w});
    if ok then s'
    else if msg.attempts < msg.maxAttempts then
      var raw := MarshalPayload(Text(msg.payload)).value;
      Enqueue(s', msg.name, raw, BackoffNanos(msg.attempts), true, if msg.id in s.origin then s.origin[msg.id] else 0)
    else s'.(givenUp := s.givenUp + 1)
  }

  function Apply(s: State, e: Event): State
    requires Enabled(s, e)
  {
    match e
    case Dispatch(name, payload, delay, pushed) =>
      var raw := MarshalPayload(payload).value;
      Enqueue(s.(dispatched := s.dispatched + [Job(name, raw)], runs := s.runs + [[]]), name, raw, delay, pushed,
              |s.dispatched|)
    case Fire(i, pushed) =>
      s.(timers := Without(s.timers, i), list := if pushed then [s.timers[i].msg] + s.list else s.list)
    case Cancel(i) => s.(timers := Without(s.timers, i))
    case Pop(w) =>
      var msg := s.list[|s.list| - 1];
      Recorded(s.(list := s.list[..|s.list| - 1], exec := s.exec[w := msg.(attempts := msg.attempts + 1)]), msg)
    case Finish(w, ok) => AfterFinish(s, w, ok)
    case Tick(d) => s.(now := s.now + d)
    case Quit => s.(quit := true)
  }

  predicate Valid(s: State, es: seq<Event>)
    decreases |es|
  {
    es == [] || (Enabled(s, es[0]) && Valid(Apply(s, es[0]), es[1..]))
  }

  function Exec(s: State, es: seq<Event>): State
    requires Valid(s, es)
    decreases |es|
  {
    if es == [] then s else Exec(Apply(s, es[0]), es[1..])
  }

  // ---------- invariants of every run ----------

  /** A message that belongs to a dispatch and still carries its job. */
  ghost predicate Carries(s: State, m: Msg) {
    && m.id in s.origin && m.id < s.nextId
    && s.origin[m.id] < |s.dispatched|
    && s.dispatched[s.origin[m.id]] == Job(m.name, m.payload)
    && m.maxAttempts == s.maxAttempts
  }

  ghost predicate Inv(s: State) {
    && |s.runs| == |s.dispatched|
    && (forall id :: id in s.origin ==> id < s.nextId)
    && (forall i :: 0 <= i < |s.list| ==> Carries(s, s.list[i]) && s.list[i].attempts == 0)
    && (forall i :: 0 <= i < |s.timers| ==> Carries(s, s.timers[i].msg) && s.timers[i].msg.attempts == 0)
    && (forall w :: w in s.exec ==> Carries(s, s.exec[w]) && s.exec[w].attempts == 1)
    && (forall d, k :: 0 <= d < |s.runs| && 0 <= k < |s.runs[d]| ==> s.runs[d][k] == s.dispatched[d])
    && (s.maxAttempts >= 2 ==> s.givenUp == 0)
  }

  lemma FirstBackoff()
    ensures BackoffNanos(1) == 4 * SECOND
  {
  }

  /** A fresh id for dispatch number d. */
  lemma NewIdKeepsInv(s: State, d: nat, msg: Msg)
    requires Inv(s) && d < |s.dispatched| && s.dispatched[d] == Job(msg.name, msg.payload)
    requires msg.id == s.nextId && msg.maxAttempts == s.maxAttempts
    ensures var s' := s.(nextId := s.nextId + 1, origin := s.origin[s.nextId := d]); Inv(s') && Carries(s', msg)
  {
  }

  lemma AddKeepsInv(s: State, msg: Msg, due: Time)
    requires Inv(s) && Carries(s, msg) && msg.attempts == 0
    ensures Inv(s.(list := [msg] + s.list)) && Inv(s.(timers := s.timers + [Timer(due, msg)]))
  {
  }

  lemma EnqueueKeepsInv(s: State, name: string, payload: Bytes, delay: int, pushed: bool, d: nat)
    requires Inv(s) && d < |s.dispatched| && s.dispatched[d] == Job(name, payload)
    ensures Inv(Enqueue(s, name, payload, delay, pushed, d))
  {
    var msg := Msg(s.nextId, name, payload, 0, s.maxAttempts);
    var s1 := s.(nextId := s.nextId + 1, origin := s.origin[s.nextId := d]);
    NewIdKeepsInv(s, d, msg);
    AddKeepsInv(s1, msg, s.now + delay);
    assert Enqueue(s, name, payload, delay, pushed, d)
        == if delay > 0 then s1.(timers := s1.timers + [Timer(s.now + delay, msg)])
           else if pushed then s1.(list := [msg] + s1.list) else s1;
  }

  lemma DispatchKeepsInv(s: State, e: Event)
    requires Inv(s) && Enabled(s, e) && e.Dispatch?
    ensures Inv(Apply(s, e))
  {
    var raw := MarshalPayload(e.payload).value;
    var s1 := s.(dispatched := s.dispatched + [Job(e.name, raw)], runs := s.runs + [[]]);
    EnqueueKeepsInv(s1, e.name, raw, e.delay, e.pushed, |s.dispatched|);
  }

  lemma FinishKeepsInv(s: State, w: nat, ok: bool)
    requires Inv(s) && w in s.exec
    ensures Inv(AfterFinish(s, w, ok))
  {
  }

  lemma TimerKeepsInv(s: State, e: Event)
    requires Inv(s) && Enabled(s, e) && (e.Fire? || e.Cancel?)
    ensures Inv(Apply(s, e))
  {
  }

  lemma PopKeepsInv(s: State, w: nat)
    requires Inv(s) && Enabled(s, Pop(w))
    ensures Inv(Apply(s, Pop(w)))
  {
  }

  lemma StepKeepsInv(s: State, e: Event)
    requires Inv(s) && Enabled(s, e)
    ensures Inv(Apply(s, e))
  {
    match e
    case Dispatch(_, _, _, _) => DispatchKeepsInv(s, e);
    case Finish(w, ok) => FinishKeepsInv(s, w, ok);
    case Pop(w) => PopKeepsInv(s, w);
    case Fire(_, _) => TimerKeepsInv(s, e);
    case Cancel(_) => TimerKeepsInv(s, e);
    case Tick(_) =>
    case Quit =>
  }

  lemma {:induction false} RunKeepsInv(s: State, es: seq<Event>)
    requires Inv(s) && Valid(s, es)
    ensures Inv(Exec(s, es)) && Exec(s, es).maxAttempts == s.maxAttempts
    decreases |es|
  {
    if es != [] {
      StepKeepsInv(s, es[0]);
      RunKeepsInv(Apply(s, es[0]), es[1..]);
    }
  }

  /** In every reachable state queued and timed messages have made no attempt, and running ones are on their first. */
  lemma AttemptsNeverGrow(maxAttempts: int, es: seq<Event>)
    requires Valid(Init(maxAttempts), es)
    ensures var s := Exec(Init(maxAttempts), es);
            && (forall i :: 0 <= i < |s.list| ==> s.list[i].attempts == 0)
            && (forall i :: 0 <= i < |s.timers| ==> s.timers[i].msg.attempts == 0)
            && (forall w :: w in s.exec ==> s.exec[w].attempts == 1)
  {
    RunKeepsInv(Init(maxAttempts), es);
  }

  /** Every run of a job, first or retried, gets the name and the payload bytes that were dispatched. */
  lemma PayloadUnchanged(maxAttempts: int, es: seq<Event>, d: nat, k: nat)
    requires Valid(Init(maxAttempts), es)
    requires d < |Exec(Init(maxAttempts), es).runs| && k < |Exec(Init(maxAttempts), es).runs[d]|
    ensures var s := Exec(Init(maxAttempts), es); d < |s.dispatched| && s.runs[d][k] == s.dispatched[d]
  {
    RunKeepsInv(Init(maxAttempts), es);
  }

  /** With a limit of at least 2 no job is ever given up, however often it fails. */
  lemma NeverGivenUp(maxAttempts: int, es: seq<Event>)
    requires maxAttempts >= 2 && Valid(Init(maxAttempts), es)
    ensures Exec(Init(maxAttempts), es).givenUp == 0
  {
    RunKeepsInv(Init(maxAttempts), es);
  }

  /** Every retry waits exactly four seconds and is a first attempt again; a limit of 1 retries nothing. */
  lemma RetryIsAFreshStart(maxAttempts: int, es: seq<Event>, w: nat)
    requires Valid(Init(maxAttempts), es) && w in Exec(Init(maxAttempts), es).exec
    ensures var s := Exec(Init(maxAttempts), es);
            var s' := AfterFinish(s, w, false);
            && s'.list == s.list
            && s'.timers == if maxAttempts >= 2
               then s.timers + [Timer(s.now + 4 * SECOND, s.exec[w].(id := s.nextId, attempts := 0))]
               else s.timers
  {
    RunKeepsInv(Init(maxAttempts), es);
    FirstBackoff();
  }

  // ---------- when the attempt limit holds ----------

  /** A state whose one job waits in the list and nothing else goes on. */
  ghost predicate OneWaiting(s: State) {
    Inv(s) && |s.dispatched| == 1 && |s.list| == 1 && s.timers == [] && s.exec == map[] && !s.quit
  }

  lemma {:induction false} ExecAppend(s: State, a: seq<Event>, b: seq<Event>)
    requires Valid(s, a) && Valid(Exec(s, a), b)
    ensures Valid(s, a + b) && Exec(s, a + b) == Exec(Exec(s, a), b)
    decreases |a|
  {
    if a == [] {
      assert a + b == b;
    } else {
      ExecAppend(Apply(s, a[0]), a[1..], b);
      assert (a + b)[1..] == a[1..] + b;
    }
  }

  lemma ExecFirst(s: State, e: Event, rest: seq<Event>)
    requires Enabled(s, e) && Valid(Apply(s, e), rest)
    ensures Valid(s, [e] + rest) && Exec(s, [e] + rest) == Exec(Apply(s, e), rest)
  {
    assert ([e] + rest)[1..] == rest;
  }

  /** A state whose one job waits for the timer of its retry. */
  ghost predicate OneTimed(s: State) {
    Inv(s) && |s.dispatched| == 1 && s.list == [] && |s.timers| == 1 && s.exec == map[] && !s.quit
  }

  lemma PopAndFail(s: State) returns (s': State)
    requires OneWaiting(s) && s.maxAttempts >= 2
    ensures Valid(s, [Pop(0), Finish(0, false)]) && s' == Exec(s, [Pop(0), Finish(0, false)])
    ensures OneTimed(s') && s'.maxAttempts == s.maxAttempts && s'.timers[0].due == s'.now + 4 * SECOND
    ensures |s'.runs[0]| == |s.runs[0]| + 1
  {
    var s1 := Apply(s, Pop(0));
    StepKeepsInv(s, Pop(0));
    assert s.origin[s.list[0].id] == 0;
    s' := Apply(s1, Finish(0, false));
    StepKeepsInv(s1, Finish(0, false));
    assert s1.exec - {0} == map[];
    FirstBackoff();
    ExecFirst(s1, Finish(0, false), []);
    ExecFirst(s, Pop(0), [Finish(0, false)] + []);
    assert [Pop(0)] + ([Finish(0, false)] + []) == [Pop(0), Finish(0, false)];
  }

  lemma WaitAndFire(s: State) returns (s': State)
    requires OneTimed(s) && s.timers[0].due == s.now + 4 * SECOND
    ensures Valid(s, [Tick(4 * SECOND), Fire(0, true)]) && s' == Exec(s, [Tick(4 * SECOND), Fire(0, true)])
    ensures OneWaiting(s') && s'.maxAttempts == s.maxAttempts && s'.runs == s.runs
  {
    var s1 := Apply(s, Tick(4 * SECOND));
    StepKeepsInv(s, Tick(4 * SECOND));
    s' := Apply(s1, Fire(0, true));
    StepKeepsInv(s1, Fire(0, true));
    ExecFirst(s1, Fire(0, true), []);
    ExecFirst(s, Tick(4 * SECOND), [Fire(0, true)] + []);
    assert [Tick(4 * SECOND)] + ([Fire(0, true)] + []) == [Tick(4 * SECOND), Fire(0, true)];
  }

  /** One failing run: popped, failed, four seconds later pushed again. */
  lemma FailOnceRuns(s: State) returns (es: seq<Event>)
    requires OneWaiting(s) && s.maxAttempts >= 2
    ensures Valid(s, es)
    ensures var s' := Exec(s, es);
            OneWaiting(s') && s'.maxAttempts == s.maxAttempts && |s'.runs[0]| == |s.runs[0]| + 1
  {
    var s1 := PopAndFail(s);
    var s2 := WaitAndFire(s1);
    ExecAppend(s, [Pop(0), Finish(0, false)], [Tick(4 * SECOND), Fire(0, true)]);
    es := [Pop(0), Finish(0, false)] + [Tick(4 * SECOND), Fire(0, true)];
  }

  lemma {:induction false} FailTimesRuns(s: State, n: nat) returns (es: seq<Event>)
    requires OneWaiting(s) && s.maxAttempts >= 2
    ensures Valid(s, es)
    ensures OneWaiting(Exec(s, es)) && |Exec(s, es).runs[0]| == |s.runs[0]| + n
    decreases n
  {
    es := [];
    if n > 0 {
      var once := FailOnceRuns(s);
      var rest := FailTimesRuns(Exec(s, once), n - 1);
      ExecAppend(s, once, rest);
      es := once + rest;
    }
  }

  /** With a limit of at least 2 a job that keeps failing is run any number of times. */
  lemma RetriesNeverStop(maxAttempts: int, n: nat) returns (es: seq<Event>)
    requires maxAttempts >= 2
    ensures Valid(Init(maxAttempts), es)
    ensures var s := Exec(Init(maxAttempts), es); |s.dispatched| == 1 && |s.runs| == 1 && |s.runs[0]| == n
  {
    var first := Dispatch("job", Nil, 0, true);
    var s := Apply(Init(maxAttempts), first);
    StepKeepsInv(Init(maxAttempts), first);
    var rest := FailTimesRuns(s, n);
    es := [first] + rest;
    assert es[1..] == rest;
  }

  /** A message of a dispatch that has not been run. */
  ghost predicate Unrun(origin: map<nat, nat>, runs: seq<seq<Job>>, m: Msg) {
    m.id in origin && origin[m.id] < |runs| && runs[origin[m.id]] == []
  }

  /** No message waits twice. */
  ghost predicate Apart(list: seq<Msg>, timers: seq<Timer>) {
    && (forall i, k :: 0 <= i < k < |list| ==> list[i].id != list[k].id)
    && (forall i, k :: 0 <= i < k < |timers| ==> timers[i].msg.id != timers[k].msg.id)
    && (forall i, k :: 0 <= i < |list| && 0 <= k < |timers| ==> list[i].id != timers[k].msg.id)
  }

  lemma ApartAdds(list: seq<Msg>, timers: seq<Timer>, t: Timer)
    requires Apart(list, timers)
    requires forall i :: 0 <= i < |list| ==> list[i].id != t.msg.id
    requires forall i :: 0 <= i < |timers| ==> timers[i].msg.id != t.msg.id
    ensures Apart([t.msg] + list, timers) && Apart(list, timers + [t])
  {
  }

  lemma ApartFires(list: seq<Msg>, timers: seq<Timer>, i: nat)
    requires Apart(list, timers) && i < |timers|
    ensures Apart(list, Without(timers, i)) && Apart([timers[i].msg] + list, Without(timers, i))
  {
  }

  ghost predicate AllUnrun(origin: map<nat, nat>, runs: seq<seq<Job>>, list: seq<Msg>, timers: seq<Timer>) {
    && (forall i :: 0 <= i < |list| ==> Unrun(origin, runs, list[i]))
    && (forall i :: 0 <= i < |timers| ==> Unrun(origin, runs, timers[i].msg))
  }

  /** Every message comes from its own dispatch, and no dispatch has run twice. */
  ghost predicate OneToOne(origin: map<nat, nat>, runs: seq<seq<Job>>) {
    && (forall id :: id in origin ==> origin[id] < |runs|)
    && (forall a, b :: a in origin && b in origin && a != b ==> origin[a] != origin[b])
    && (forall d :: 0 <= d < |runs| ==> |runs[d]| <= 1)
  }

  ghost predicate OnceInv(s: State) {
    && s.maxAttempts == 1
    && OneToOne(s.origin, s.runs)
    && AllUnrun(s.origin, s.runs, s.list, s.timers)
    && Apart(s.list, s.timers)
  }

  lemma DispatchLinks(s: State)
    requires Inv(s) && OnceInv(s)
    ensures var origin, runs := s.origin[s.nextId := |s.runs|], s.runs + [[]];
            && OneToOne(origin, runs)
            && AllUnrun(origin, runs, s.list, s.timers)
            && forall m: Msg :: m.id == s.nextId ==> Unrun(origin, runs, m)
  {
  }

  lemma DispatchWaits(s: State, e: Event, t: Timer)
    requires Inv(s) && OnceInv(s) && Enabled(s, e) && e.Dispatch?
    requires t == Timer(s.now + e.delay, Msg(s.nextId, e.name, MarshalPayload(e.payload).value, 0, 1))
    ensures var s' := Apply(s, e);
            && s'.origin == s.origin[s.nextId := |s.runs|] && s'.runs == s.runs + [[]]
            && s'.list == (if e.delay > 0 || !e.pushed then s.list else [t.msg] + s.list)
            && s'.timers == (if e.delay > 0 then s.timers + [t] else s.timers)
            && s'.maxAttempts == 1
  {
  }

  lemma DispatchKeepsOnce(s: State, e: Event)
    requires Inv(s) && OnceInv(s) && Enabled(s, e) && e.Dispatch?
    ensures OnceInv(Apply(s, e))
  {
    var t := Timer(s.now + e.delay, Msg(s.nextId, e.name, MarshalPayload(e.payload).value, 0, 1));
    DispatchLinks(s);
    DispatchWaits(s, e, t);
    var s' := Apply(s, e);
    assert AllUnrun(s'.origin, s'.runs, s'.list, s'.timers);
    assert Apart(s'.list, s'.timers) by {
      assert forall i :: 0 <= i < |s.list| ==> Carries(s, s.list[i]) && s.list[i].id != t.msg.id;
      assert forall i :: 0 <= i < |s.timers| ==> Carries(s, s.timers[i].msg) && s.timers[i].msg.id != t.msg.id;
      ApartAdds(s.list, s.timers, t);
    }
  }

  lemma PopKeepsOnce(s: State, w: nat)
    requires Inv(s) && OnceInv(s) && Enabled(s, Pop(w))
    ensures OnceInv(Apply(s, Pop(w)))
  {
  }

  lemma TimerKeepsOnce(s: State, e: Event)
    requires OnceInv(s) && Enabled(s, e) && (e.Fire? || e.Cancel?)
    ensures OnceInv(Apply(s, e))
  {
    ApartFires(s.list, s.timers, e.i);
  }

  lemma StepKeepsOnce(s: State, e: Event)
    requires Inv(s) && OnceInv(s) && Enabled(s, e)
    ensures OnceInv(Apply(s, e))
  {
    match e
    case Dispatch(_, _, _, _) => DispatchKeepsOnce(s, e);
    case Pop(w) => PopKeepsOnce(s, w);
    case Fire(_, _) => TimerKeepsOnce(s, e);
    case Cancel(_) => TimerKeepsOnce(s, e);
    case Finish(w, _) => assert s.exec[w].attempts == 1 && s.exec[w].maxAttempts == 1;
    case Tick(_) =>
    case Quit =>
  }

  lemma {:induction false} RunKeepsOnce(s: State, es: seq<Event>)
    requires Inv(s) && OnceInv(s) && Valid(s, es)
    ensures OnceInv(Exec(s, es))
    decreases |es|
  {
    if es != [] {
      StepKeepsInv(s, es[0]);
      StepKeepsOnce(s, es[0]);
      RunKeepsOnce(Apply(s, es[0]), es[1..]);
    }
  }

  /** No job is ever run more often than the attempt limit says. */
  ghost predicate LimitHolds(maxAttempts: int) {
    forall es, d ::
      Valid(Init(maxAttempts), es) && 0 <= d < |Exec(Init(maxAttempts), es).runs|
      ==> |Exec(Init(maxAttempts), es).runs[d]| <= maxAttempts
  }

  /** The attempt limit, which a driver sets to at least 1, is kept exactly when it is 1. */
  lemma LimitHoldsIff(maxAttempts: int)
    requires maxAttempts >= 1
    ensures LimitHolds(maxAttempts) <==> maxAttempts == 1
  {
    if maxAttempts == 1 {
      forall es, d | Valid(Init(1), es) && 0 <= d < |Exec(Init(1), es).runs|
        ensures |Exec(Init(1), es).runs[d]| <= 1
      {
        RunKeepsOnce(Init(1), es);
      }
    } else {
      var es := RetriesNeverStop(maxAttempts, maxAttempts + 1);
      assert |Exec(Init(maxAttempts), es).runs[0]| == maxAttempts + 1;
    }
  }

  // ---------- the driver object ----------

  datatype Config = Config(queueName: string, concurrency: int, maxAttempts: int)

  /** What an element of the Redis list may be. */
  datatype Element = Message(msg: Msg) | Garbage

  /**
   What one turn of a worker's loop meets: whether the client is enabled and the pop succeeds, what the handler returns
   and when, and whether a push of the retry succeeds.
   */
  datatype Turn = Turn(enabled: bool, popFails: bool, returned: Option<Error>, later: Time, pushed: bool)

  class Driver {
    const queueKey: string
    const concurrency: int
    const maxAttempts: int
    const registry: Registry
    /** The Redis list under queueKey: pushed on the left, popped on the right. */
    var list: seq<Element>
    var timers: seq<Timer>
    var nextId: nat

    constructor (cfg: Config, registry: Registry)
      ensures queueKey == "queue:" + (if cfg.queueName == "" then "default" else cfg.queueName)
      ensures concurrency == (if cfg.concurrency <= 0 then 5 else cfg.concurrency) >= 1
      ensures maxAttempts == (if cfg.maxAttempts <= 0 then 3 else cfg.maxAttempts) >= 1
      ensures this.registry == registry && list == [] && timers == [] && nextId == 0
    {
      queueKey := "queue:" + (if cfg.queueName == "" then "default" else cfg.queueName);
      concurrency := if cfg.concurrency <= 0 then 5 else cfg.concurrency;
      maxAttempts := if cfg.maxAttempts <= 0 then 3 else cfg.maxAttempts;
      this.registry := registry;
      list, timers, nextId := [], [], 0;
    }

    method DispatchDelayed(name: string, payload: Payload, delay: int, now: Time, enabled: bool, pushed: bool)
      returns (err: Option<Error>)
      modifies this`list, this`timers, this`nextId
      ensures !enabled ==> err == Some(Disabled)
      ensures enabled && MarshalPayload(payload).Err? ==> err == Some(MarshalFailed)
      ensures !enabled || MarshalPayload(payload).Err? ==>
                list == old(list) && timers == old(timers) && nextId == old(nextId)
      ensures enabled && MarshalPayload(payload).Ok? ==>
                var msg := Msg(old(nextId), name, MarshalPayload(payload).value, 0, maxAttempts);
                && nextId == old(nextId) + 1
                && timers == (if delay > 0 then old(timers) + [Timer(now + delay, msg)] else old(timers))
                && list == (if delay <= 0 && pushed then [Message(msg)] + old(list) else old(list))
                && (err == None <==> delay > 0 || pushed)
    {
      if !enabled {
        return Some(Disabled);
      }
      var raw := MarshalPayload(payload);
      if raw.Err? {
        return Some(raw.error);
      }
      var msg := Msg(nextId, name, raw.value, 0, maxAttempts);
      nextId := nextId + 1;
      if delay > 0 {
        timers := timers + [Timer(now + delay, msg)];
        return None;
      }
      if !pushed {
        return Some(StoreFailed);
      }
      list := [Message(msg)] + list;
      err := None;
    }

    /**
     One turn of a worker's loop. An element that does not decode is popped and gone. A retry puts a fresh message
     behind a timer; if no wait is needed it is pushed, and lost when the push fails.
     */
    method WorkerTurn(t: Turn)
      modifies this`list, this`timers, this`nextId, registry`calls
      ensures !t.enabled || t.popFails || old(list) == [] ==>
                list == old(list) && timers == old(timers) && registry.calls == old(registry.calls)
      ensures t.enabled && !t.popFails && old(list) != [] ==>
                var popped, rest := old(list)[|old(list)| - 1], old(list)[..|old(list)| - 1];
                match popped
                case Garbage => list == rest && timers == old(timers) && registry.calls == old(registry.calls)
                case Message(msg) =>
                  var failed := msg.name !in registry.handlers || t.returned != None;
                  var backoff := BackoffNanos(msg.attempts + 1);
                  var again := Msg(old(nextId), msg.name, msg.payload, 0, maxAttempts);
                  && registry.calls
                     == old(registry.calls)
                        + (if msg.name in registry.handlers then [Call(registry.handlers[msg.name], msg.payload)]
                           else [])
                  && (if !failed || msg.attempts + 1 >= msg.maxAttempts then list == rest && timers == old(timers)
                      else if backoff > 0 then
                        list == rest && timers == old(timers) + [Timer(t.later + backoff, again)]
                      else timers == old(timers) && list == (if t.pushed then [Message(again)] + rest else rest))
    {
      if !t.enabled || t.popFails || list == [] {
        return;
      }
      var popped := list[|list| - 1];
      list := list[..|list| - 1];
      if popped.Garbage? {
        return;
      }
      var msg := popped.msg.(attempts := popped.msg.attempts + 1);
      var err := ExecuteJob(registry, msg.name, msg.payload, t.returned);
      if err != None && msg.attempts < msg.maxAttempts {
        var backoff := Wrap64(Wrap64(Wrap64(Pow2(msg.attempts)) * 2) * SECOND);
        var _ := DispatchDelayed(msg.name, Text(msg.payload), backoff, t.later, true, t.pushed);
      }
    }
  }
}
