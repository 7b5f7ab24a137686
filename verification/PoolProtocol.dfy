/**
 The in-process worker pools as a state machine: dispatchers and workers around one buffered channel, and one
 Start/Stop cycle. Sections under the mutex are single steps; `select` picks any ready case.
 `guarded` is the pool of pkg/worker, whose Dispatch looks at `running` first; the memory queue driver does not.
 */
module PoolProtocol {
  /** What the mutex and the channels hold. `quit` is the quit channel having been closed. */
  datatype Shared<J> = Shared(running: bool, quit: bool, closed: bool, cap: nat, buf: seq<J>)

  datatype SendOutcome = Accepted | NotRunning | Full | SendOnClosed

  /** The critical section of Dispatch: a send that does not block. */
  function Send<J>(sh: Shared<J>, guarded: bool, job: J): (Shared<J>, SendOutcome) {
    if guarded && !sh.running then (sh, NotRunning)
    else if sh.closed then (sh, SendOnClosed)
    else if |sh.buf| < sh.cap then (sh.(buf := sh.buf + [job]), Accepted)
    else (sh, Full)
  }

  /** The critical section of Stop. */
  function Shut<J>(sh: Shared<J>): Shared<J> {
    if sh.running then sh.(running := false, quit := true, closed := true) else sh
  }

  /** Where a worker goroutine is: at its outer select, running a job from there, draining, or gone. */
  datatype Worker<J> =
    | NotStarted
    | Waiting
    | Running(job: J)
    | Draining
    | RunningLast(job: J)
    | Exited

  /**
   `timers` are delayed dispatches not yet due. `accepted`, `received` and `finished` record the jobs in the order
   in which the channel took them, workers received them, and their handlers returned.
   */
  datatype State<J> = State(
    sh: Shared<J>,
    guarded: bool,
    workers: seq<Worker<J>>,
    timers: multiset<J>,
    accepted: seq<J>,
    received: seq<J>,
    finished: seq<J>,
    panicked: bool)

  datatype Event<J> =
    | Start
    | Spawn(i: nat)
    | Dispatch(job: J)
    | Delay(job: J)
    | Fire(job: J)
    | Cancel(job: J)
    | Stop
    | Receive(i: nat)
    | SeeQuit(i: nat)
    | Leave(i: nat)
    | Finish(i: nat)

  function Init<J>(guarded: bool, cap: nat, concurrency: nat): State<J> {
    State(Shared(false, false, false, cap, []), guarded, seq(concurrency, _ => NotStarted), multiset{}, [], [], [],
          false)
  }

  /** One cycle: no Start after Stop, and Stop is called after Start has returned. */
  predicate Enabled<J(==)>(s: State<J>, e: Event<J>) {
    match e
    case Start => !s.sh.quit
    case Spawn(i) => s.sh.running && i < |s.workers| && s.workers[i] == NotStarted
    case Dispatch(_) => true
    case Delay(_) => !s.guarded
    case Fire(job) => job in s.timers
    case Cancel(job) => job in s.timers && s.sh.quit
    case Stop => s.sh.running ==> NotStarted !in s.workers
    case Receive(i) => i < |s.workers| && (s.workers[i] == Waiting || s.workers[i] == Draining) && s.sh.buf != []
    case SeeQuit(i) => i < |s.workers| && s.workers[i] == Waiting && s.sh.quit
    case Leave(i) =>
      i < |s.workers| && s.sh.buf == [] && (s.workers[i] == Draining || (s.workers[i] == Waiting && s.sh.closed))
    case Finish(i) => i < |s.workers| && (s.workers[i].Running? || s.workers[i].RunningLast?)
  }

  function AfterSend<J(==)>(s: State<J>, job: J): State<J> {
    var (sh, outcome) := Send(s.sh, s.guarded, job);
    s.(sh := sh,
       accepted := if outcome == Accepted then s.accepted + [job] else s.accepted,
       panicked := s.panicked || outcome == SendOnClosed)
  }

  function Apply<J(==)>(s: State<J>, e: Event<J>): State<J>
    requires Enabled(s, e)
  {
    match e
    case Start => s.(sh := s.sh.(running := true))
    case Spawn(i) => s.(workers := s.workers[i := Waiting])
    case Dispatch(job) => AfterSend(s, job)
    case Delay(job) => s.(timers := s.timers + multiset{job})
    case Fire(job) => AfterSend(s.(timers := s.timers - multiset{job}), job)
    case Cancel(job) => s.(timers := s.timers - multiset{job})
    case Stop => s.(sh := Shut(s.sh))
    case Receive(i) =>
      var job := s.sh.buf[0];
      s.(sh := s.sh.(buf := s.sh.buf[1..]),
         workers := s.workers[i := if s.workers[i] == Waiting then Running(job) else RunningLast(job)],
         received := s.received + [job])
    case SeeQuit(i) => s.(workers := s.workers[i := Draining])
    case Leave(i) => s.(workers := s.workers[i := Exited])
    case Finish(i) =>
      s.(workers := s.workers[i := if s.workers[i].Running? then Waiting else Draining],
         finished := s.finished + [s.workers[i].job])
  }

  predicate Valid<J(==)>(s: State<J>, es: seq<Event<J>>)
    decreases |es|
  {
    es == [] || (Enabled(s, es[0]) && Valid(Apply(s, es[0]), es[1..]))
  }

  function Exec<J(==)>(s: State<J>, es: seq<Event<J>>): State<J>
    requires Valid(s, es)
    decreases |es|
  {
    if es == [] then s else Exec(Apply(s, es[0]), es[1..])
  }

  // ---------- jobs in flight ----------

  ghost function Holds<J>(w: Worker<J>, job: J): nat {
    if (w.Running? || w.RunningLast?) && w.job == job then 1 else 0
  }

  /** How many workers are running this job. */
  ghost function InFlight<J>(ws: seq<Worker<J>>, job: J): nat {
    if ws == [] then 0 else Holds(ws[0], job) + InFlight(ws[1..], job)
  }

  lemma {:induction false} InFlightUpdate<J>(ws: seq<Worker<J>>, i: nat, w: Worker<J>, job: J)
    requires i < |ws|
    ensures InFlight(ws[i := w], job) + Holds(ws[i], job) == InFlight(ws, job) + Holds(w, job)
  {
    if i == 0 {
      assert ws[i := w][1..] == ws[1..];
    } else {
      InFlightUpdate(ws[1..], i - 1, w, job);
      assert ws[i := w][1..] == ws[1..][i - 1 := w];
    }
  }

  lemma {:induction false} InFlightNone<J>(ws: seq<Worker<J>>, job: J)
    requires forall w :: w in ws ==> Holds(w, job) == 0
    ensures InFlight(ws, job) == 0
  {
    if ws != [] {
      InFlightNone(ws[1..], job);
    }
  }

  // ---------- invariants of every run ----------

  ghost predicate WorkerOk<J>(s: State<J>, w: Worker<J>) {
    && (w.Draining? || w.RunningLast? || w.Exited? ==> s.sh.quit)
    && (w.Exited? ==> s.sh.buf == [])
    && (w.NotStarted? ==> !s.sh.quit)
  }

  ghost predicate Inv<J(!new)>(s: State<J>) {
    && s.sh.quit == s.sh.closed
    && (s.sh.quit ==> !s.sh.running)
    && |s.sh.buf| <= s.sh.cap
    && (s.panicked ==> !s.guarded && s.sh.quit)
    && s.accepted == s.received + s.sh.buf
    && (forall job: J :: multiset(s.received)[job] == multiset(s.finished)[job] + InFlight(s.workers, job))
    && forall i :: 0 <= i < |s.workers| ==> WorkerOk(s, s.workers[i])
  }

  lemma InitInv<J(!new)>(guarded: bool, cap: nat, concurrency: nat)
    ensures Inv(Init<J>(guarded, cap, concurrency))
  {
    forall job: J ensures InFlight(Init<J>(guarded, cap, concurrency).workers, job) == 0 {
      InFlightNone(Init<J>(guarded, cap, concurrency).workers, job);
    }
  }

  lemma SendKeepsInv<J(!new)>(s: State<J>, job: J)
    requires Inv(s)
    ensures Inv(AfterSend(s, job))
  {
  }

  /** A step adds to `received` what a worker takes on and to `finished` what it puts down. */
  lemma StepMovesJob<J(!new)>(s: State<J>, e: Event<J>, job: J)
    requires Enabled(s, e)
    requires e.Spawn? || e.Receive? || e.SeeQuit? || e.Leave? || e.Finish?
    ensures var s' := Apply(s, e);
            && s'.workers == s.workers[e.i := s'.workers[e.i]]
            && multiset(s'.received)[job] + Holds(s.workers[e.i], job) + multiset(s.finished)[job]
               == multiset(s.received)[job] + Holds(s'.workers[e.i], job) + multiset(s'.finished)[job]
  {
  }

  lemma WorkerStepConserves<J(!new)>(s: State<J>, e: Event<J>, job: J)
    requires Enabled(s, e)
    requires multiset(s.received)[job] == multiset(s.finished)[job] + InFlight(s.workers, job)
    requires e.Spawn? || e.Receive? || e.SeeQuit? || e.Leave? || e.Finish?
    ensures var s' := Apply(s, e);
            multiset(s'.received)[job] == multiset(s'.finished)[job] + InFlight(s'.workers, job)
  {
    StepMovesJob(s, e, job);
    InFlightUpdate(s.workers, e.i, Apply(s, e).workers[e.i], job);
  }

  lemma WorkerStepKeepsWorkers<J(!new)>(s: State<J>, e: Event<J>, k: nat)
    requires Inv(s) && Enabled(s, e) && k < |s.workers|
    requires e.Spawn? || e.Receive? || e.SeeQuit? || e.Leave? || e.Finish?
    ensures WorkerOk(Apply(s, e), Apply(s, e).workers[k])
  {
  }

  lemma WorkerStepKeepsOrder<J(!new)>(s: State<J>, e: Event<J>)
    requires Inv(s) && Enabled(s, e)
    requires e.Spawn? || e.Receive? || e.SeeQuit? || e.Leave? || e.Finish?
    ensures var s' := Apply(s, e);
            && s'.accepted == s'.received + s'.sh.buf
            && |s'.sh.buf| <= s'.sh.cap
            && s'.sh == s.sh.(buf := s'.sh.buf)
            && s'.panicked == s.panicked && s'.guarded == s.guarded
  {
  }

  lemma WorkerStepKeepsInv<J(!new)>(s: State<J>, e: Event<J>)
    requires Inv(s) && Enabled(s, e)
    requires e.Spawn? || e.Receive? || e.SeeQuit? || e.Leave? || e.Finish?
    ensures Inv(Apply(s, e))
  {
    var s' := Apply(s, e);
    WorkerStepKeepsOrder(s, e);
    forall job: J ensures multiset(s'.received)[job] == multiset(s'.finished)[job] + InFlight(s'.workers, job) {
      WorkerStepConserves(s, e, job);
    }
    forall k | 0 <= k < |s'.workers| ensures WorkerOk(s', s'.workers[k]) {
      WorkerStepKeepsWorkers(s, e, k);
    }
  }

  lemma StepKeepsInv<J(!new)>(s: State<J>, e: Event<J>)
    requires Inv(s) && Enabled(s, e)
    ensures Inv(Apply(s, e))
  {
    match e
    case Dispatch(job) => SendKeepsInv(s, job);
    case Fire(job) => SendKeepsInv(s.(timers := s.timers - multiset{job}), job);
    case Start =>
    case Delay(job) =>
    case Cancel(job) =>
    case Stop =>
      forall k | 0 <= k < |s.workers| ensures WorkerOk(Apply(s, e), s.workers[k]) {
        assert WorkerOk(s, s.workers[k]) && s.workers[k] in s.workers;
      }
    case _ => WorkerStepKeepsInv(s, e);
  }

  lemma {:induction false} RunKeepsInv<J(!new)>(s: State<J>, es: seq<Event<J>>)
    requires Inv(s) && Valid(s, es)
    ensures Inv(Exec(s, es))
    decreases |es|
  {
    if es != [] {
      StepKeepsInv(s, es[0]);
      RunKeepsInv(Apply(s, es[0]), es[1..]);
    }
  }

  /** The wait group has reached zero after a Stop. */
  ghost predicate AllExited<J>(s: State<J>) {
    s.workers != [] && forall w :: w in s.workers ==> w == Exited
  }

  /** At every moment, accepted jobs are the finished ones, the ones in flight and the buffered ones. */
  lemma Conservation<J(!new)>(guarded: bool, cap: nat, concurrency: nat, es: seq<Event<J>>)
    requires Valid(Init<J>(guarded, cap, concurrency), es)
    ensures var s := Exec(Init<J>(guarded, cap, concurrency), es);
            && (forall job: J :: multiset(s.accepted)[job]
                                 == multiset(s.finished)[job] + InFlight(s.workers, job) + multiset(s.sh.buf)[job])
            && s.accepted == s.received + s.sh.buf
            && |s.sh.buf| <= cap
  {
    InitInv<J>(guarded, cap, concurrency);
    RunKeepsInv(Init(guarded, cap, concurrency), es);
    CapStays(Init(guarded, cap, concurrency), es);
    var s := Exec(Init<J>(guarded, cap, concurrency), es);
    assert multiset(s.received + s.sh.buf) == multiset(s.received) + multiset(s.sh.buf);
  }

  lemma {:induction false} CapStays<J>(s: State<J>, es: seq<Event<J>>)
    requires Valid(s, es)
    ensures Exec(s, es).sh.cap == s.sh.cap && Exec(s, es).guarded == s.guarded
    ensures |Exec(s, es).workers| == |s.workers|
    decreases |es|
  {
    if es != [] {
      CapStays(Apply(s, es[0]), es[1..]);
    }
  }

  /** When all workers have returned, every accepted job has run exactly once and none was taken out of order. */
  lemma ShutdownExactlyOnce<J(!new)>(guarded: bool, cap: nat, concurrency: nat, es: seq<Event<J>>)
    requires Valid(Init<J>(guarded, cap, concurrency), es)
    requires AllExited(Exec(Init<J>(guarded, cap, concurrency), es))
    ensures var s := Exec(Init<J>(guarded, cap, concurrency), es);
            && s.sh.buf == []
            && s.received == s.accepted
            && multiset(s.finished) == multiset(s.accepted)
  {
    InitInv<J>(guarded, cap, concurrency);
    RunKeepsInv(Init(guarded, cap, concurrency), es);
    var s := Exec(Init<J>(guarded, cap, concurrency), es);
    assert s.workers[0] in s.workers && WorkerOk(s, s.workers[0]);
    forall job: J ensures multiset(s.finished)[job] == multiset(s.received)[job] {
      InFlightNone(s.workers, job);
    }
  }

  /** Once one worker has exited, nothing is ever buffered again. */
  lemma {:induction false} ExitedMeansEmpty<J(!new)>(s: State<J>, es: seq<Event<J>>, i: nat)
    requires Inv(s) && Valid(s, es) && i < |s.workers| && s.workers[i] == Exited
    ensures i < |Exec(s, es).workers| && Exec(s, es).workers[i] == Exited
    ensures Exec(s, es).sh.buf == [] && Exec(s, es).accepted == s.accepted
    decreases |es|
  {
    assert WorkerOk(s, s.workers[i]);
    if es != [] {
      StepKeepsInv(s, es[0]);
      ExitedMeansEmpty(Apply(s, es[0]), es[1..], i);
    }
  }

  /**
   A dispatch is accepted exactly when the pool has not been stopped (and, if it checks that, has been started) and the
   buffer has room; an accepted job joins the end of the buffer, and otherwise nothing but `panicked` changes.
   */
  lemma AcceptedIff<J(!new)>(guarded: bool, cap: nat, concurrency: nat, es: seq<Event<J>>, job: J)
    requires Valid(Init<J>(guarded, cap, concurrency), es)
    ensures var s := Exec(Init<J>(guarded, cap, concurrency), es);
            var s' := Apply(s, Dispatch(job));
            && (if !s.sh.quit && (guarded ==> s.sh.running) && |s.sh.buf| < cap
                then s' == s.(sh := s.sh.(buf := s.sh.buf + [job]), accepted := s.accepted + [job])
                else s' == s.(panicked := s'.panicked))
            && (s'.panicked <==> s.panicked || (s.sh.quit && !guarded))
  {
    InitInv<J>(guarded, cap, concurrency);
    RunKeepsInv(Init(guarded, cap, concurrency), es);
    CapStays(Init(guarded, cap, concurrency), es);
  }

  /** A delayed dispatch changes nothing until its timer fires, and then it is a dispatch. */
  lemma DelayedIsDispatch<J>(s: State<J>, job: J)
    requires !s.guarded
    ensures Enabled(s, Delay(job)) && Apply(s, Delay(job)) == s.(timers := Apply(s, Delay(job)).timers)
    ensures Enabled(Apply(s, Delay(job)), Fire(job))
    ensures Apply(Apply(s, Delay(job)), Fire(job)) == Apply(s, Dispatch(job))
  {
    assert s.timers + multiset{job} - multiset{job} == s.timers;
  }

  /** The pool that checks `running` never sends on its closed channel. */
  lemma GuardedNeverPanics<J(!new)>(cap: nat, concurrency: nat, es: seq<Event<J>>)
    requires Valid(Init<J>(true, cap, concurrency), es)
    ensures !Exec(Init<J>(true, cap, concurrency), es).panicked
  {
    InitInv<J>(true, cap, concurrency);
    RunKeepsInv(Init(true, cap, concurrency), es);
    CapStays(Init(true, cap, concurrency), es);
  }

  /** Some dispatch, direct or delayed, reaches the channel after it was closed. */
  predicate SendsAfterStop<J(==)>(s: State<J>, es: seq<Event<J>>)
    requires Valid(s, es)
    decreases |es|
  {
    es != []
    && ((s.sh.quit && (es[0].Dispatch? || es[0].Fire?)) || SendsAfterStop(Apply(s, es[0]), es[1..]))
  }

  lemma {:induction false} UnguardedPanicsFrom<J(!new)>(s: State<J>, es: seq<Event<J>>)
    requires Inv(s) && Valid(s, es) && !s.guarded
    ensures Exec(s, es).panicked <==> s.panicked || SendsAfterStop(s, es)
    decreases |es|
  {
    if es != [] {
      StepKeepsInv(s, es[0]);
      UnguardedPanicsFrom(Apply(s, es[0]), es[1..]);
    }
  }

  /** The driver that does not check panics exactly in the runs where a dispatch comes after Stop. */
  lemma UnguardedPanicsIff<J(!new)>(cap: nat, concurrency: nat, es: seq<Event<J>>)
    requires Valid(Init<J>(false, cap, concurrency), es)
    ensures Exec(Init<J>(false, cap, concurrency), es).panicked
            <==> SendsAfterStop(Init<J>(false, cap, concurrency), es)
  {
    InitInv<J>(false, cap, concurrency);
    UnguardedPanicsFrom(Init(false, cap, concurrency), es);
  }

  /** Start, stop, and one dispatch too many: the run that the driver without a check panics in. */
  lemma DispatchAfterStopPanics<J(!new)>(cap: nat, job: J) returns (es: seq<Event<J>>)
    ensures es == [Start, Spawn(0), Stop, Dispatch(job)]
    ensures Valid(Init<J>(false, cap, 1), es) && Exec(Init<J>(false, cap, 1), es).panicked
    ensures Valid(Init<J>(true, cap, 1), es) && !Exec(Init<J>(true, cap, 1), es).panicked
  {
    es := [Start, Spawn(0), Stop, Dispatch(job)];
    StopThenDispatch(Init<J>(false, cap, 1), job);
    StopThenDispatch(Init<J>(true, cap, 1), job);
  }

  lemma ExecFirst<J(!new)>(s: State<J>, e: Event<J>, rest: seq<Event<J>>)
    requires Enabled(s, e) && Valid(Apply(s, e), rest)
    ensures Valid(s, [e] + rest) && Exec(s, [e] + rest) == Exec(Apply(s, e), rest)
  {
    assert ([e] + rest)[1..] == rest;
  }

  /** One worker is started, and the pool is stopped. */
  lemma StartAndStop<J(!new)>(s: State<J>)
    requires s == Init<J>(s.guarded, s.sh.cap, 1)
    ensures Enabled(s, Start)
    ensures var s1 := Apply(s, Start);
            && Enabled(s1, Spawn(0))
            && var s2 := Apply(s1, Spawn(0));
               && Enabled(s2, Stop)
               && var s3 := Apply(s2, Stop);
                  s3.sh.closed && !s3.sh.running && !s3.panicked && s3.guarded == s.guarded
  {
  }

  lemma StopThenDispatch<J(!new)>(s: State<J>, job: J)
    requires s == Init<J>(s.guarded, s.sh.cap, 1)
    ensures var es := [Start, Spawn(0), Stop, Dispatch(job)];
            Valid(s, es) && Exec(s, es).panicked == !s.guarded
  {
    StartAndStop(s);
    var s1 := Apply(s, Start);
    var s2 := Apply(s1, Spawn(0));
    var s3 := Apply(s2, Stop);
    assert Apply(s3, Dispatch(job)).panicked == !s.guarded;
    ExecFirst(s3, Dispatch(job), []);
    ExecFirst(s2, Stop, [Dispatch(job)] + []);
    ExecFirst(s1, Spawn(0), [Stop] + ([Dispatch(job)] + []));
    ExecFirst(s, Start, [Spawn(0)] + ([Stop] + ([Dispatch(job)] + [])));
    assert [Start] + ([Spawn(0)] + ([Stop] + ([Dispatch(job)] + []))) == [Start, Spawn(0), Stop, Dispatch(job)];
  }

  // ---------- the shutdown ends ----------

  ghost function Effort<J>(w: Worker<J>): nat {
    match w
    case NotStarted => 0
    case Waiting => 2
    case Running(_) => 3
    case Draining => 1
    case RunningLast(_) => 2
    case Exited => 0
  }

  ghost function Efforts<J>(ws: seq<Worker<J>>): nat {
    if ws == [] then 0 else Effort(ws[0]) + Efforts(ws[1..])
  }

  lemma {:induction false} EffortsUpdate<J>(ws: seq<Worker<J>>, i: nat, w: Worker<J>)
    requires i < |ws|
    ensures Efforts(ws[i := w]) + Effort(ws[i]) == Efforts(ws) + Effort(w)
  {
    if i == 0 {
      assert ws[i := w][1..] == ws[1..];
    } else {
      EffortsUpdate(ws[1..], i - 1, w);
      assert ws[i := w][1..] == ws[1..][i - 1 := w];
    }
  }

  ghost predicate IsWorkerStep<J>(e: Event<J>) {
    e.Receive? || e.SeeQuit? || e.Leave? || e.Finish?
  }

  ghost function WorkerSteps<J>(es: seq<Event<J>>): nat {
    if es == [] then 0 else (if IsWorkerStep(es[0]) then 1 else 0) + WorkerSteps(es[1..])
  }

  /** Two steps for each buffered job, and what the workers still have to do. */
  ghost function Remaining<J>(s: State<J>): nat {
    2 * |s.sh.buf| + Efforts(s.workers)
  }

  lemma RemainingStep<J(!new)>(s: State<J>, e: Event<J>)
    requires Inv(s) && s.sh.quit && Enabled(s, e)
    ensures Apply(s, e).sh.quit
    ensures Remaining(Apply(s, e)) + (if IsWorkerStep(e) then 1 else 0) <= Remaining(s)
  {
    if IsWorkerStep(e) {
      EffortsUpdate(s.workers, e.i, Apply(s, e).workers[e.i]);
    }
  }

  /** After Stop the workers take at most so many steps more, whatever the dispatchers do. */
  lemma {:induction false} ShutdownIsBounded<J(!new)>(s: State<J>, es: seq<Event<J>>)
    requires Inv(s) && s.sh.quit && Valid(s, es)
    ensures WorkerSteps(es) + Remaining(Exec(s, es)) <= Remaining(s)
    decreases |es|
  {
    if es != [] {
      StepKeepsInv(s, es[0]);
      RemainingStep(s, es[0]);
      ShutdownIsBounded(Apply(s, es[0]), es[1..]);
    }
  }

  /** After Stop no worker is ever stuck: one that has not exited has a step to take. */
  lemma ShutdownProgress<J(!new)>(s: State<J>, i: nat) returns (e: Event<J>)
    requires Inv(s) && s.sh.quit && i < |s.workers| && s.workers[i] != Exited
    ensures IsWorkerStep(e) && e.i == i && Enabled(s, e)
  {
    assert WorkerOk(s, s.workers[i]);
    match s.workers[i]
    case Waiting => e := SeeQuit(i);
    case Draining => e := if s.sh.buf == [] then Leave(i) else Receive(i);
    case Running(_) => e := Finish(i);
    case RunningLast(_) => e := Finish(i);
  }

  // ---------- one worker ----------

  ghost function Current<J>(w: Worker<J>): seq<J> {
    if w.Running? || w.RunningLast? then [w.job] else []
  }

  /** A lone worker finishes the jobs in the order in which it receives them. */
  lemma {:induction false} LoneWorkerFrom<J>(s: State<J>, es: seq<Event<J>>)
    requires |s.workers| == 1 && Valid(s, es)
    requires s.received == s.finished + Current(s.workers[0])
    ensures |Exec(s, es).workers| == 1
    ensures Exec(s, es).received == Exec(s, es).finished + Current(Exec(s, es).workers[0])
    decreases |es|
  {
    if es != [] {
      LoneWorkerFrom(Apply(s, es[0]), es[1..]);
    }
  }
}
