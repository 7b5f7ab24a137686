/**
 The in-memory queue driver, the synchronous driver it stands in for, and the refinement between them:
 after a clean Stop the memory driver has made the handler calls that the synchronous driver would have made.
 */
module MemoryQueue {
  import opened Common
  import opened QueueCore
  import opened PoolProtocol

  datatype MemoryJob = MemoryJob(name: string, payload: Bytes)

  /** A delayed dispatch and the time at which its timer fires. */
  datatype Timer = Timer(job: MemoryJob, due: int)

  /** The handler calls of running these jobs one after the other. */
  ghost function CallsOfAll(handlers: Handlers, jobs: seq<MemoryJob>): seq<Call> {
    if jobs == [] then []
    else CallsOfAll(handlers, jobs[..|jobs| - 1]) + CallsOf(handlers, jobs[|jobs| - 1].name, jobs[|jobs| - 1].payload)
  }

  lemma CallsOfMore(handlers: Handlers, jobs: seq<MemoryJob>, job: MemoryJob)
    ensures CallsOfAll(handlers, jobs + [job]) == CallsOfAll(handlers, jobs) + CallsOf(handlers, job.name, job.payload)
  {
    assert (jobs + [job])[..|jobs|] == jobs;
  }

  /** Executes each job in the calling goroutine. */
  class SyncDriver {
    const registry: Registry

    constructor (registry: Registry)
      ensures this.registry == registry
    {
      this.registry := registry;
    }

    method Dispatch(name: string, payload: Payload, returned: Option<Error>) returns (err: Option<Error>)
      modifies registry`calls
      ensures MarshalPayload(payload).Err? ==> err == Some(MarshalFailed) && registry.calls == old(registry.calls)
      ensures MarshalPayload(payload).Ok? ==>
                registry.calls == old(registry.calls)
                                  + CallsOfAll(registry.handlers, [MemoryJob(name, MarshalPayload(payload).value)])
      ensures MarshalPayload(payload).Ok? ==>
                if name in registry.handlers
                then err == returned
                     && registry.calls
                        == old(registry.calls) + [Call(registry.handlers[name], MarshalPayload(payload).value)]
                else err == Some(HandlerNotFound(name)) && registry.calls == old(registry.calls)
    {
      var raw := MarshalPayload(payload);
      if raw.Err? {
        return Some(raw.error);
      }
      err := ExecuteJob(registry, name, raw.value, returned);
      CallsOfMore(registry.handlers, [], MemoryJob(name, raw.value));
    }
  }

  class MemoryDriver {
    const registry: Registry
    const concurrency: nat
    const capacity: nat
    var running: bool
    var quitClosed: bool
    var chanClosed: bool
    var jobChan: seq<MemoryJob>
    /** Delayed dispatches whose timers are still running. */
    var timers: multiset<Timer>
    var wg: nat

    ghost function Sh(): Shared<MemoryJob>
      reads this
    {
      Shared(running, quitClosed, chanClosed, capacity, jobChan)
    }

    constructor (concurrency: int, queueSize: int, registry: Registry)
      ensures this.concurrency == (if concurrency <= 0 then 5 else concurrency) > 0
      ensures capacity == (if queueSize <= 0 then 100 else queueSize) > 0
      ensures this.registry == registry && wg == 0 && timers == multiset{}
      ensures Sh() == Init<MemoryJob>(false, capacity, this.concurrency).sh
    {
      this.registry := registry;
      this.concurrency := if concurrency <= 0 then 5 else concurrency;
      capacity := if queueSize <= 0 then 100 else queueSize;
      running, quitClosed, chanClosed, jobChan, timers, wg := false, false, false, [], multiset{}, 0;
    }

    /** Unlike the worker pool this looks at neither `running` nor the quit channel. */
    method Dispatch(name: string, payload: Payload) returns (err: Option<Error>, panicked: bool)
      modifies this`jobChan
      ensures MarshalPayload(payload).Err? ==> err == Some(MarshalFailed) && !panicked && Sh() == old(Sh())
      ensures MarshalPayload(payload).Ok? ==>
                var (sh, outcome) := Send(old(Sh()), false, MemoryJob(name, MarshalPayload(payload).value));
                && Sh() == sh
                && (err == None && !panicked <==> outcome == Accepted)
                && (panicked <==> outcome == SendOnClosed)
      ensures MarshalPayload(payload).Ok? ==>
                && (panicked <==> chanClosed)
                && (err == Some(BufferFull) <==> !chanClosed && |old(jobChan)| >= capacity)
                && (if !chanClosed && |old(jobChan)| < capacity
                    then err == None && jobChan == old(jobChan) + [MemoryJob(name, MarshalPayload(payload).value)]
                    else jobChan == old(jobChan))
    {
      var raw := MarshalPayload(payload);
      if raw.Err? {
        return Some(raw.error), false;
      }
      if chanClosed {
        return None, true;
      }
      if |jobChan| < capacity {
        jobChan := jobChan + [MemoryJob(name, raw.value)];
        return None, false;
      }
      return Some(BufferFull), false;
    }

    /** Starts a goroutine that waits for the delay; nothing reaches the channel yet. */
    method DispatchDelayed(name: string, payload: Payload, delay: int, now: int) returns (err: Option<Error>)
      modifies this`timers
      ensures err == if MarshalPayload(payload).Err? then Some(MarshalFailed) else None
      ensures err == None ==>
                timers == old(timers) + multiset{Timer(MemoryJob(name, MarshalPayload(payload).value),
                                                       if delay > 0 then now + delay else now)}
      ensures err != None ==> timers == old(timers)
    {
      var raw := MarshalPayload(payload);
      if raw.Err? {
        return Some(raw.error);
      }
      var due := if delay > 0 then now + delay else now;
      timers := timers + multiset{Timer(MemoryJob(name, raw.value), due)};
      err := None;
    }

    /** A timer fires once it is due: its encoded payload goes through Dispatch once more and comes out the same. */
    method FireTimer(timer: Timer, now: int) returns (panicked: bool)
      requires timer in timers && timer.due <= now
      modifies this`timers, this`jobChan
      ensures timers == old(timers) - multiset{timer}
      ensures Sh() == Send(old(Sh()), false, timer.job).0
      ensures panicked <==> chanClosed
      ensures jobChan == if !chanClosed && |old(jobChan)| < capacity then old(jobChan) + [timer.job] else old(jobChan)
    {
      timers := timers - multiset{timer};
      var _, p := Dispatch(timer.job.name, Raw(timer.job.payload));
      panicked := p;
    }

    /** A waiting goroutine sees the quit channel closed and gives its job up, due or not. */
    method CancelTimer(timer: Timer)
      requires timer in timers && quitClosed
      modifies this`timers
      ensures timers == old(timers) - multiset{timer} && Sh() == old(Sh())
    {
      timers := timers - multiset{timer};
    }

    /** The part of Stop under the mutex; closing the channels a second time panics. */
    method Stop() returns (closedTwice: bool)
      modifies this`running, this`quitClosed, this`chanClosed
      ensures Sh() == Shut(old(Sh()))
      ensures !running
      ensures quitClosed == (old(quitClosed) || old(running)) && chanClosed == (old(chanClosed) || old(running))
      ensures closedTwice <==> old(running) && (old(quitClosed) || old(chanClosed))
    {
      closedTwice := false;
      if !running {
        return;
      }
      closedTwice := quitClosed || chanClosed;
      running, quitClosed, chanClosed := false, true, true;
    }

    /** The drain loop of one worker after Stop; each round is what the handler of a job returns, and is ignored. */
    method Drain(returned: seq<Option<Error>>)
      requires |returned| >= |jobChan| && wg > 0
      modifies this`jobChan, this`wg, registry`calls
      ensures jobChan == [] && wg == old(wg) - 1
      ensures registry.calls == old(registry.calls) + CallsOfAll(registry.handlers, old(jobChan))
    {
      var taken: seq<MemoryJob> := [];
      while |jobChan| > 0
        invariant taken + jobChan == old(jobChan) && wg == old(wg)
        invariant registry.calls == old(registry.calls) + CallsOfAll(registry.handlers, taken)
      {
        var job := jobChan[0];
        jobChan := jobChan[1..];
        CallsOfMore(registry.handlers, taken, job);
        var _ := ExecuteJob(registry, job.name, job.payload, returned[|taken|]);
        assert taken + [job] + jobChan == old(jobChan);
        taken := taken + [job];
      }
      assert taken == old(jobChan);
      wg := wg - 1;
    }
  }

  // ---------- the refinement ----------

  /** The handler call that has returned with this step. */
  ghost function CallsOfStep(handlers: Handlers, s: State<MemoryJob>, e: Event<MemoryJob>): seq<Call>
    requires Enabled(s, e)
  {
    if e.Finish? then CallsOf(handlers, s.workers[e.i].job.name, s.workers[e.i].job.payload) else []
  }

  /** The handler calls that the workers make in a run, in the order in which the handlers return. */
  ghost function CallsInRun(handlers: Handlers, s: State<MemoryJob>, es: seq<Event<MemoryJob>>): seq<Call>
    requires Valid(s, es)
    decreases |es|
  {
    if es == [] then [] else CallsOfStep(handlers, s, es[0]) + CallsInRun(handlers, Apply(s, es[0]), es[1..])
  }

  lemma StepFinishes(handlers: Handlers, s: State<MemoryJob>, e: Event<MemoryJob>)
    requires Enabled(s, e)
    ensures CallsOfAll(handlers, Apply(s, e).finished)
            == CallsOfAll(handlers, s.finished) + CallsOfStep(handlers, s, e)
  {
    if e.Finish? {
      CallsOfMore(handlers, s.finished, s.workers[e.i].job);
    } else {
      assert Apply(s, e).finished == s.finished;
    }
  }

  lemma {:induction false} CallsInRunFinish(handlers: Handlers, s: State<MemoryJob>, es: seq<Event<MemoryJob>>)
    requires Valid(s, es)
    ensures CallsOfAll(handlers, Exec(s, es).finished) == CallsOfAll(handlers, s.finished) + CallsInRun(handlers, s, es)
    decreases |es|
  {
    if es != [] {
      StepFinishes(handlers, s, es[0]);
      CallsInRunFinish(handlers, Apply(s, es[0]), es[1..]);
    }
  }

  /** Dispatching the jobs one after the other through the synchronous driver. */
  method RunSynchronously(d: SyncDriver, jobs: seq<MemoryJob>, returned: seq<Option<Error>>)
    requires |returned| == |jobs|
    modifies d.registry`calls
    ensures d.registry.calls == old(d.registry.calls) + CallsOfAll(d.registry.handlers, jobs)
  {
    for i := 0 to |jobs|
      invariant d.registry.calls == old(d.registry.calls) + CallsOfAll(d.registry.handlers, jobs[..i])
    {
      assert jobs[..i + 1] == jobs[..i] + [jobs[i]] && [] + [jobs[i]] == [jobs[i]];
      CallsOfMore(d.registry.handlers, jobs[..i], jobs[i]);
      CallsOfMore(d.registry.handlers, [], jobs[i]);
      var _ := d.Dispatch(jobs[i].name, Raw(jobs[i].payload), returned[i]);
    }
    assert jobs[..|jobs|] == jobs;
  }

  /** With one worker, the jobs finished by the time it has returned are the accepted ones, in the order of dispatch. */
  lemma LoneWorkerKeepsOrder(cap: nat, es: seq<Event<MemoryJob>>)
    requires Valid(Init<MemoryJob>(false, cap, 1), es)
    requires AllExited(Exec(Init<MemoryJob>(false, cap, 1), es))
    ensures var s := Exec(Init<MemoryJob>(false, cap, 1), es); s.finished == s.accepted
  {
    var s := Exec(Init<MemoryJob>(false, cap, 1), es);
    ShutdownExactlyOnce<MemoryJob>(false, cap, 1, es);
    LoneWorkerFrom(Init<MemoryJob>(false, cap, 1), es);
    assert s.workers[0] in s.workers;
    assert s.finished + [] == s.finished;
  }

  /**
   With one worker, a run that has shut down makes the handler calls that the synchronous driver makes when the
   accepted jobs are dispatched through it, in the same order.
   */
  method LoneWorkerRefinesSync(d: SyncDriver, jobs: seq<MemoryJob>, returned: seq<Option<Error>>,
                               ghost cap: nat, ghost es: seq<Event<MemoryJob>>)
    requires Valid(Init<MemoryJob>(false, cap, 1), es)
    requires AllExited(Exec(Init<MemoryJob>(false, cap, 1), es))
    requires jobs == Exec(Init<MemoryJob>(false, cap, 1), es).accepted && |returned| == |jobs|
    modifies d.registry`calls
    ensures d.registry.calls
            == old(d.registry.calls) + CallsInRun(d.registry.handlers, Init<MemoryJob>(false, cap, 1), es)
  {
    LoneWorkerKeepsOrder(cap, es);
    CallsInRunFinish(d.registry.handlers, Init<MemoryJob>(false, cap, 1), es);
    RunSynchronously(d, jobs, returned);
  }

  lemma {:induction false} CallsOfSplit(handlers: Handlers, a: seq<MemoryJob>, b: seq<MemoryJob>)
    ensures CallsOfAll(handlers, a + b) == CallsOfAll(handlers, a) + CallsOfAll(handlers, b)
  {
    if b == [] {
      assert a + b == a;
    } else {
      var init, last := b[..|b| - 1], b[|b| - 1];
      var c := CallsOf(handlers, last.name, last.payload);
      calc {
        CallsOfAll(handlers, a + b);
        { assert a + b == a + init + [last]; }
        CallsOfAll(handlers, a + init + [last]);
        { CallsOfMore(handlers, a + init, last); }
        CallsOfAll(handlers, a + init) + c;
        { CallsOfSplit(handlers, a, init); }
        CallsOfAll(handlers, a) + CallsOfAll(handlers, init) + c;
        CallsOfAll(handlers, a) + (CallsOfAll(handlers, init) + c);
        CallsOfAll(handlers, a) + CallsOfAll(handlers, b);
      }
    }
  }

  lemma CallsOfRemoved(handlers: Handlers, a: seq<MemoryJob>, i: nat)
    requires i < |a|
    ensures multiset(CallsOfAll(handlers, a))
            == multiset(CallsOfAll(handlers, a[..i] + a[i + 1..]))
               + multiset(CallsOf(handlers, a[i].name, a[i].payload))
  {
    var x, y := CallsOfAll(handlers, a[..i]), CallsOfAll(handlers, a[i + 1..]);
    var c := CallsOf(handlers, a[i].name, a[i].payload);
    calc {
      CallsOfAll(handlers, a);
      { assert a == a[..i] + [a[i]] + a[i + 1..]; }
      CallsOfAll(handlers, a[..i] + [a[i]] + a[i + 1..]);
      { CallsOfSplit(handlers, a[..i] + [a[i]], a[i + 1..]); }
      CallsOfAll(handlers, a[..i] + [a[i]]) + y;
      { CallsOfMore(handlers, a[..i], a[i]); }
      x + c + y;
    }
    CallsOfSplit(handlers, a[..i], a[i + 1..]);
    MiddleOut(x, c, y);
  }

  lemma MiddleOut(x: seq<Call>, c: seq<Call>, y: seq<Call>)
    ensures multiset(x + c + y) == multiset(x + y) + multiset(c)
  {
  }

  lemma MultisetRemoved(a: seq<MemoryJob>, i: nat)
    requires i < |a|
    ensures multiset(a) == multiset(a[..i] + a[i + 1..]) + multiset{a[i]}
  {
    assert a == a[..i] + [a[i]] + a[i + 1..];
  }

  lemma TakeOut(handlers: Handlers, a: seq<MemoryJob>, job: MemoryJob) returns (rest: seq<MemoryJob>)
    requires job in multiset(a)
    ensures |rest| == |a| - 1
    ensures multiset(a) == multiset(rest) + multiset{job}
    ensures multiset(CallsOfAll(handlers, a))
            == multiset(CallsOfAll(handlers, rest)) + multiset(CallsOf(handlers, job.name, job.payload))
  {
    var i :| 0 <= i < |a| && a[i] == job;
    rest := a[..i] + a[i + 1..];
    CallsOfRemoved(handlers, a, i);
    MultisetRemoved(a, i);
  }

  lemma Cancel<T>(a: multiset<T>, b: multiset<T>, c: multiset<T>)
    requires a + c == b + c
    ensures a == b
  {
    assert (a + c) - c == a && (b + c) - c == b;
  }

  /** Running the same jobs in another order makes the same calls. */
  lemma {:induction false} CallsOfPermutation(handlers: Handlers, a: seq<MemoryJob>, b: seq<MemoryJob>)
    requires multiset(a) == multiset(b)
    ensures multiset(CallsOfAll(handlers, a)) == multiset(CallsOfAll(handlers, b))
    decreases |a|
  {
    if a == [] {
      assert |multiset(b)| == |b|;
      assert b == [];
    } else {
      var job := a[0];
      assert job in multiset(a);
      var a' := TakeOut(handlers, a, job);
      var b' := TakeOut(handlers, b, job);
      Cancel(multiset(a'), multiset(b'), multiset{job});
      CallsOfPermutation(handlers, a', b');
    }
  }

  /** With any number of workers each call of the accepted jobs is made exactly as often, in some order. */
  lemma WorkersMakeEachCall(handlers: Handlers, cap: nat, concurrency: nat, es: seq<Event<MemoryJob>>)
    requires Valid(Init<MemoryJob>(false, cap, concurrency), es)
    requires AllExited(Exec(Init<MemoryJob>(false, cap, concurrency), es))
    ensures multiset(CallsInRun(handlers, Init<MemoryJob>(false, cap, concurrency), es))
            == multiset(CallsOfAll(handlers, Exec(Init<MemoryJob>(false, cap, concurrency), es).accepted))
  {
    var s0 := Init<MemoryJob>(false, cap, concurrency);
    var s := Exec(s0, es);
    ShutdownExactlyOnce<MemoryJob>(false, cap, concurrency, es);
    CallsInRunFinish(handlers, s0, es);
    assert [] + CallsInRun(handlers, s0, es) == CallsInRun(handlers, s0, es);
    CallsOfPermutation(handlers, s.finished, s.accepted);
  }

  /** With any number of workers a run that has shut down makes the calls of the synchronous driver, reordered. */
  method WorkersRefineSync(d: SyncDriver, jobs: seq<MemoryJob>, returned: seq<Option<Error>>,
                           ghost cap: nat, ghost concurrency: nat, ghost es: seq<Event<MemoryJob>>)
    requires Valid(Init<MemoryJob>(false, cap, concurrency), es)
    requires AllExited(Exec(Init<MemoryJob>(false, cap, concurrency), es))
    requires jobs == Exec(Init<MemoryJob>(false, cap, concurrency), es).accepted && |returned| == |jobs|
    modifies d.registry`calls
    ensures exists made: seq<Call> ::
              && d.registry.calls == old(d.registry.calls) + made
              && multiset(made)
                 == multiset(CallsInRun(d.registry.handlers, Init<MemoryJob>(false, cap, concurrency), es))
  {
    WorkersMakeEachCall(d.registry.handlers, cap, concurrency, es);
    RunSynchronously(d, jobs, returned);
    ghost var made := CallsOfAll(d.registry.handlers, jobs);
    assert d.registry.calls == old(d.registry.calls) + made;
  }
}
