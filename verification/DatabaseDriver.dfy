/**
 The database queue driver as the object it is. Any interleaving of its methods on the shared jobs table is a run
 of JobProtocol (InterleavedRun), so the properties of runs are properties of these methods.
 */
module DatabaseDriver {
  import opened Common
  import opened GoInt
  import opened JobTable
  import opened JobProtocol
  import opened QueueCore

  datatype Config = Config(queueName: string, concurrency: int, maxAttempts: int, pollInterval: int)

  /** The SQL table and its id counter, shared by every driver and worker. */
  class JobsTable {
    var rows: Rows
    var nextId: nat

    ghost predicate Valid()
      reads this
    {
      forall id :: id in rows ==> id < nextId
    }

    constructor ()
      ensures Valid() && rows == map[] && nextId == 0
    {
      rows := map[];
      nextId := 0;
    }
  }

  datatype StopOutcome = Stopped | TimedOut | ClosedTwice

  /**
   What one turn of a worker's loop meets: the quit signal at its head or while it waits for work, the times of the
   claim and of the final write, whether either of them fails, and what the handler returns.
   */
  datatype Round = Round(
    quitSeen: bool,
    now: Time,
    claimFails: bool,
    returned: Option<Error>,
    later: Time,
    writeFails: bool,
    quitWhileWaiting: bool)

  /** The rows after one turn: the first eligible row is claimed, run and settled, if there is one. */
  function RowsAfterRound(rows: Rows, bound: nat, queue: string, handlers: Handlers, r: Round): Rows {
    var p := PickBelow(rows, queue, r.now, bound);
    if r.claimFails || p.None? then rows
    else
      var mine := Reserved(rows[p.value], r.now);
      var claimed := rows[p.value := mine];
      if r.writeFails then claimed
      else Settled(claimed, p.value, mine, mine.name in handlers && r.returned == None, r.later)
  }

  /** The handler call of one turn, if there is one. */
  function CallsOfRound(rows: Rows, bound: nat, queue: string, handlers: Handlers, r: Round): seq<Call> {
    var p := PickBelow(rows, queue, r.now, bound);
    if r.claimFails || p.None? then [] else CallsOf(handlers, rows[p.value].name, rows[p.value].payload)
  }

  /**
   What a turn that gets the job `id` does: the row is gone after a nil result, pending again or failed after an error,
   and still processing when the final write is lost; no other row changes. The handler of its name is called once.
   */
  lemma RoundOutcome(rows: Rows, bound: nat, queue: string, handlers: Handlers, r: Round, id: nat)
    requires forall k: nat :: k in rows ==> k < bound
    requires !r.claimFails && IsFirst(rows, queue, r.now, id)
    ensures var after := RowsAfterRound(rows, bound, queue, handlers, r);
            var j := rows[id];
            var tried := j.(status := Processing, attempts := j.attempts + 1, reservedAt := Some(r.now));
            var succeeded := j.name in handlers && r.returned == None;
            && (r.writeFails ==> after == rows[id := tried])
            && (!r.writeFails && succeeded ==> after == rows - {id})
            && (!r.writeFails && !succeeded && j.attempts + 1 < j.maxAttempts ==>
                  after == rows[id := tried.(
                    status := Pending, availableAt := r.later + BackoffNanos(j.attempts + 1), reservedAt := None)])
            && (!r.writeFails && !succeeded && j.attempts + 1 >= j.maxAttempts ==>
                  after == rows[id := tried.(status := Failed)])
    ensures CallsOfRound(rows, bound, queue, handlers, r)
            == if rows[id].name in handlers then [Call(handlers[rows[id].name], rows[id].payload)] else []
  {
    PickIsFirst(rows, queue, r.now, bound);
    var mine := Reserved(rows[id], r.now);
    assert rows[id := mine] - {id} == rows - {id};
  }

  /** The rows and calls after each of the first n turns are those that the turn makes of the ones before it. */
  ghost predicate TurnsTaken(trace: seq<Rows>, made: seq<seq<Call>>, rounds: seq<Round>, n: nat, bound: nat,
                             queue: string, handlers: Handlers)
    requires n < |trace| && n < |made| && n <= |rounds|
  {
    forall i :: 0 <= i < n ==>
      && !rounds[i].quitSeen
      && trace[i + 1] == RowsAfterRound(trace[i], bound, queue, handlers, rounds[i])
      && made[i + 1] == made[i] + CallsOfRound(trace[i], bound, queue, handlers, rounds[i])
  }

  /** None of the first n turns ends the loop. */
  ghost predicate NoneStops(trace: seq<Rows>, rounds: seq<Round>, n: nat, bound: nat, queue: string)
    requires n <= |trace| && n <= |rounds|
  {
    forall i :: 0 <= i < n && rounds[i].quitWhileWaiting ==>
      !rounds[i].claimFails && PickBelow(trace[i], queue, rounds[i].now, bound).Some?
  }

  lemma OneMoreTurn(trace: seq<Rows>, made: seq<seq<Call>>, rounds: seq<Round>, n: nat, bound: nat, queue: string,
                    handlers: Handlers, rows: Rows, calls: seq<Call>)
    requires |trace| == |made| == n + 1 && n < |rounds| && !rounds[n].quitSeen
    requires TurnsTaken(trace, made, rounds, n, bound, queue, handlers)
    requires rows == RowsAfterRound(trace[n], bound, queue, handlers, rounds[n])
    requires calls == made[n] + CallsOfRound(trace[n], bound, queue, handlers, rounds[n])
    ensures TurnsTaken(trace + [rows], made + [calls], rounds, n + 1, bound, queue, handlers)
  {
  }

  class Driver {
    const table: JobsTable
    const queueName: string
    const concurrency: int
    const maxAttempts: int
    const pollInterval: int
    const registry: Registry
    var running: bool
    var quitClosed: bool
    /** Worker goroutines started and not yet returned. */
    var workers: nat

    constructor (table: JobsTable, cfg: Config, registry: Registry)
      ensures this.table == table && this.registry == registry
      ensures queueName == (if cfg.queueName == "" then "default" else cfg.queueName)
      ensures concurrency == (if cfg.concurrency <= 0 then 5 else cfg.concurrency)
      ensures maxAttempts == (if cfg.maxAttempts <= 0 then 3 else cfg.maxAttempts)
      ensures pollInterval == (if cfg.pollInterval <= 0 then SECOND else cfg.pollInterval)
      ensures queueName != "" && concurrency >= 1 && maxAttempts >= 1 && pollInterval > 0
      ensures !running && !quitClosed && workers == 0
    {
      this.table, this.registry := table, registry;
      queueName := if cfg.queueName == "" then "default" else cfg.queueName;
      concurrency := if cfg.concurrency <= 0 then 5 else cfg.concurrency;
      maxAttempts := if cfg.maxAttempts <= 0 then 3 else cfg.maxAttempts;
      pollInterval := if cfg.pollInterval <= 0 then 1000 * 1_000_000 else cfg.pollInterval;
      running, quitClosed, workers := false, false, 0;
    }

    method DispatchDelayed(name: string, payload: Payload, delay: int, now: Time, stored: bool)
      returns (r: Result<nat, Error>)
      requires table.Valid()
      modifies table
      ensures table.Valid()
      ensures r.Ok? <==> MarshalPayload(payload).Ok? && stored
      ensures r.Err? ==> table.rows == old(table.rows) && table.nextId == old(table.nextId)
      ensures r.Ok? ==>
                && r.value == old(table.nextId) && table.nextId == r.value + 1
                && r.value !in old(table.rows)
                && r.value in table.rows
                && table.rows == old(table.rows)[r.value := table.rows[r.value]]
                && var j := table.rows[r.value];
                   && j.queue == queueName && j.name == name && j.payload == MarshalPayload(payload).value
                   && j.maxAttempts == maxAttempts && j.attempts == 0
                   && j.status == Pending && j.reservedAt == None
                   && j.availableAt == (if delay > 0 then now + delay else now)
    {
      var raw := MarshalPayload(payload);
      if raw.Err? {
        return Err(raw.error);
      }
      var availableAt := now;
      if delay > 0 {
        availableAt := now + delay;
      }
      var record := Job(queueName, name, raw.value, maxAttempts, 0, availableAt, None, Pending);
      if !stored {
        return Err(StoreFailed);
      }
      var id := table.nextId;
      table.rows := table.rows[id := record];
      table.nextId := id + 1;
      r := Ok(id);
    }

    /** The claim transaction; when it fails it is rolled back. */
    method Reserve(now: Time, fails: bool) returns (c: Option<Claimed>)
      requires table.Valid()
      modifies table`rows
      ensures table.Valid()
      ensures c.None? <==> fails || forall id: nat :: !Eligible(old(table.rows), queueName, now, id)
      ensures c.None? ==> table.rows == old(table.rows)
      ensures c.Some? ==>
                && IsFirst(old(table.rows), queueName, now, c.value.id)
                && c.value.job == old(table.rows)[c.value.id].(status := Processing, reservedAt := Some(now),
                                                               attempts := old(table.rows)[c.value.id].attempts + 1)
                && table.rows == old(table.rows)[c.value.id := c.value.job]
    {
      PickIsFirst(table.rows, queueName, now, table.nextId);
      var p := PickBelow(table.rows, queueName, now, table.nextId);
      if fails || p.None? {
        return None;
      }
      var job := table.rows[p.value];
      job := job.(status := Processing);
      job := job.(attempts := job.attempts + 1);
      job := job.(reservedAt := Some(now));
      table.rows := table.rows[p.value := job];
      c := Some(Claimed(p.value, job));
    }

    /** The final write of a worker after its handler has returned; that it fails is not noticed. */
    method Settle(c: Claimed, err: Option<Error>, now: Time, fails: bool)
      requires table.Valid()
      modifies table`rows
      ensures table.Valid()
      ensures table.rows
              == if fails then old(table.rows) else Settled(old(table.rows), c.id, c.job, err == None, now)
      ensures fails ==> table.rows == old(table.rows)
      ensures !fails && err == None ==> table.rows == old(table.rows) - {c.id}
      ensures !fails && err != None && c.id !in old(table.rows) ==> table.rows == old(table.rows)
      ensures !fails && err != None && c.id in old(table.rows) && c.job.attempts < c.job.maxAttempts ==>
                table.rows == old(table.rows)[c.id := old(table.rows)[c.id].(
                  status := Pending, availableAt := now + BackoffNanos(c.job.attempts), reservedAt := None)]
      ensures !fails && err != None && c.id in old(table.rows) && c.job.attempts >= c.job.maxAttempts ==>
                table.rows == old(table.rows)[c.id := old(table.rows)[c.id].(status := Failed)]
    {
      if fails {
        return;
      }
      if err == None {
        table.rows := table.rows - {c.id};
      } else if c.job.attempts < c.job.maxAttempts {
        var shifted := Wrap64(Pow2(c.job.attempts));
        var backoffSec := Wrap64(shifted * 2);
        var availableAt := now + Wrap64(backoffSec * SECOND);
        if c.id in table.rows {
          table.rows := table.rows[c.id := table.rows[c.id].(status := Pending, availableAt := availableAt,
                                                            reservedAt := None)];
        }
      } else if c.id in table.rows {
        table.rows := table.rows[c.id := table.rows[c.id].(status := Failed)];
      }
    }

    /** One turn of a worker; RoundOutcome says what it does to the rows and which handler it calls. */
    method ProcessNextJob(r: Round) returns (processed: bool)
      requires table.Valid()
      modifies table`rows, registry`calls
      ensures table.Valid()
      ensures processed <==> !r.claimFails && PickBelow(old(table.rows), queueName, r.now, table.nextId).Some?
      ensures !processed ==> table.rows == old(table.rows) && registry.calls == old(registry.calls)
      ensures table.rows == RowsAfterRound(old(table.rows), table.nextId, queueName, registry.handlers, r)
      ensures registry.calls
              == old(registry.calls) + CallsOfRound(old(table.rows), table.nextId, queueName, registry.handlers, r)
      ensures processed && !r.writeFails ==>
                var id := PickBelow(old(table.rows), queueName, r.now, table.nextId).value;
                id !in table.rows <==> old(table.rows)[id].name in registry.handlers && r.returned == None
    {
      PickIsFirst(table.rows, queueName, r.now, table.nextId);
      var c := Reserve(r.now, r.claimFails);
      if c.None? {
        return false;
      }
      var err := ExecuteJob(registry, c.value.job.name, c.value.job.payload, r.returned);
      Settle(c.value, err, r.later, r.writeFails);
      processed := true;
    }

    /**
     One worker goroutine on its own; `rounds` is what the turns of its loop meet, and it ends with the last.
     `trace` and `made` are the rows and the handler calls before each turn, and at the end.
     */
    method WorkerLoop(rounds: seq<Round>)
      returns (turns: nat, ghost trace: seq<Rows>, ghost made: seq<seq<Call>>)
      requires table.Valid()
      modifies table`rows, registry`calls
      ensures table.Valid() && turns <= |rounds| && |trace| == |made| == turns + 1
      ensures trace[0] == old(table.rows) && trace[turns] == table.rows
      ensures made[0] == old(registry.calls) && made[turns] == registry.calls
      ensures forall i :: 0 <= i < turns ==>
                && !rounds[i].quitSeen
                && trace[i + 1] == RowsAfterRound(trace[i], table.nextId, queueName, registry.handlers, rounds[i])
                && made[i + 1]
                   == made[i] + CallsOfRound(trace[i], table.nextId, queueName, registry.handlers, rounds[i])
      ensures forall i :: 0 <= i < turns - 1 && rounds[i].quitWhileWaiting ==>
                !rounds[i].claimFails && PickBelow(trace[i], queueName, rounds[i].now, table.nextId).Some?
      ensures turns < |rounds| && !rounds[turns].quitSeen ==>
                && turns > 0
                && rounds[turns - 1].quitWhileWaiting
                && (|| rounds[turns - 1].claimFails
                    || PickBelow(trace[turns - 1], queueName, rounds[turns - 1].now, table.nextId).None?)
    {
      turns, trace, made := 0, [table.rows], [registry.calls];
      while turns < |rounds| && !rounds[turns].quitSeen
        invariant table.Valid() && turns <= |rounds| && |trace| == |made| == turns + 1
        invariant trace[0] == old(table.rows) && trace[turns] == table.rows
        invariant made[0] == old(registry.calls) && made[turns] == registry.calls
        invariant TurnsTaken(trace, made, rounds, turns, table.nextId, queueName, registry.handlers)
        invariant NoneStops(trace, rounds, turns, table.nextId, queueName)
      {
        var processed := ProcessNextJob(rounds[turns]);
        OneMoreTurn(trace, made, rounds, turns, table.nextId, queueName, registry.handlers, table.rows, registry.calls);
        turns, trace, made := turns + 1, trace + [table.rows], made + [registry.calls];
        if !processed && rounds[turns - 1].quitWhileWaiting {
          return;
        }
      }
    }

    method Start()
      requires concurrency >= 1
      modifies this`running, this`workers
      ensures running
      ensures workers == if old(running) then old(workers) else old(workers) + concurrency
    {
      if running {
        return;
      }
      running := true;
      var i := 1;
      while i <= concurrency
        invariant 1 <= i <= concurrency + 1
        invariant workers == old(workers) + (i - 1)
        invariant running
      {
        workers := workers + 1;
        i := i + 1;
      }
    }

    /**
     `drained` says whether all workers return before the timeout. A driver that was started again after a
     Stop closes its quit channel a second time, which panics.
     */
    method Stop(drained: bool) returns (outcome: StopOutcome)
      modifies this
      ensures outcome == ClosedTwice <==> old(running) && old(quitClosed)
      ensures outcome == TimedOut <==> old(running) && !old(quitClosed) && !drained
      ensures !running
      ensures quitClosed == (old(quitClosed) || old(running))
      ensures workers == if outcome == Stopped && old(running) then 0 else old(workers)
    {
      if !running {
        return Stopped;
      }
      running := false;
      if quitClosed {
        return ClosedTwice;
      }
      quitClosed := true;
      if drained {
        workers := 0;
        return Stopped;
      }
      outcome := TimedOut;
    }
  }

  /** The last step of a turn in the state machine. */
  function LastStep(w: WorkerId, ok: bool, r: Round): Event {
    if r.writeFails then LoseWrite(w, ok) else Finish(w, ok)
  }

  /**
   One turn of a worker that gets a job is three steps of the protocol: claim, let the handler's time pass, finish.
   */
  lemma RoundIsThreeSteps(s: State, w: WorkerId, handlers: Handlers, r: Round)
    requires w !in s.exec && r.now == s.now && r.later >= r.now
    requires Picked(s, w.queue).Some? && !r.claimFails
    ensures var ok := s.rows[Picked(s, w.queue).value].name in handlers && r.returned == None;
            var es := [Claim(w), Tick(r.later - r.now), LastStep(w, ok, r)];
            && Valid(s, es)
            && Exec(s, es).rows == RowsAfterRound(s.rows, s.nextId, w.queue, handlers, r)
            && Exec(s, es).exec == s.exec
            && (OnTime(s, es) <==> r.writeFails || r.later <= r.now + LEASE)
  {
    var ok := s.rows[Picked(s, w.queue).value].name in handlers && r.returned == None;
    ThreeSteps(s, Claim(w), Tick(r.later - r.now), LastStep(w, ok, r));
    var s1 := AfterClaim(s, w, Picked(s, w.queue).value);
    assert s1.exec - {w} == s.exec;
  }

  // ---------- any interleaving of the methods ----------

  /** The drivers, known by a number, work on this table; several may serve one queue. */
  ghost predicate OnTable(drivers: map<nat, Driver>, table: JobsTable) {
    forall n :: n in drivers ==> drivers[n].table == table
  }

  /** The step is one that driver d takes: it serves the queue, and dispatches with its own limit under the next id. */
  predicate ByDriver(d: Driver, s: State, e: Event) {
    match e
    case Dispatch(id, queue, _, _, maxAttempts, _) =>
      id == s.nextId && queue == d.queueName && maxAttempts == d.maxAttempts
    case Tick(_) => true
    case _ => e.w.queue == d.queueName
  }

  /** Step number i of the run is one that driver takers[i] takes. */
  ghost predicate ByDrivers(drivers: map<nat, Driver>, takers: seq<nat>, s: State, es: seq<Event>)
    requires Valid(s, es) && |takers| == |es|
    decreases |es|
  {
    es == []
    || (&& takers[0] in drivers && ByDriver(drivers[takers[0]], s, es[0])
        && ByDrivers(drivers, takers[1..], Apply(s, es[0]), es[1..]))
  }

  /** The table, the clock and the claims that workers hold in their own variables are those of s. */
  ghost predicate Shows(table: JobsTable, now: Time, held: map<WorkerId, Claimed>, s: State)
    reads table
  {
    table.Valid() && table.rows == s.rows && table.nextId == s.nextId && now == s.now && held == s.exec
  }

  lemma FirstIsPicked(s: State, queue: string)
    requires forall id :: id in s.rows ==> id < s.nextId
    ensures Picked(s, queue).None? <==> forall id: nat :: !Eligible(s.rows, queue, s.now, id)
    ensures forall id: nat :: IsFirst(s.rows, queue, s.now, id) ==> Picked(s, queue) == Some(id)
  {
    PickIsFirst(s.rows, queue, s.now, s.nextId);
  }

  /** A worker of d tries to claim a row. */
  method PerformClaim(table: JobsTable, d: Driver, now: Time, held: map<WorkerId, Claimed>, w: WorkerId, ghost s: State)
    returns (held': map<WorkerId, Claimed>)
    requires Shows(table, now, held, s) && w !in s.exec && d.table == table && d.queueName == w.queue
    modifies table
    ensures Shows(table, now, held', Apply(s, Claim(w)))
  {
    FirstIsPicked(s, w.queue);
    var c := d.Reserve(now, false);
    held' := if c.Some? then held[w := c.value] else held;
  }

  /** One step of a run, taken by the method of driver d or by the clock. */
  method Perform(table: JobsTable, d: Driver, now: Time, held: map<WorkerId, Claimed>, e: Event, ghost s: State)
    returns (now': Time, held': map<WorkerId, Claimed>)
    requires d.table == table && Shows(table, now, held, s) && Enabled(s, e) && ByDriver(d, s, e)
    modifies table
    ensures Shows(table, now', held', Apply(s, e))
  {
    now', held' := now, held;
    match e
    case Dispatch(_, _, name, payload, _, delay) =>
      var r := d.DispatchDelayed(name, Raw(payload), delay, now, true);
    case Claim(w) =>
      held' := PerformClaim(table, d, now, held, w, s);
    case Finish(w, ok) =>
      d.Settle(held[w], if ok then None else Some(Disabled), now, false);
      held' := held - {w};
    case LoseWrite(w, ok) =>
      d.Settle(held[w], if ok then None else Some(Disabled), now, true);
      held' := held - {w};
    case Crash(w) => held' := held - {w};
    case Tick(pause) => now' := now + pause;
  }

  /**
   Any interleaving of the methods of any number of drivers and workers on one table is a run of the protocol: it
   leaves the table, and the claims that the workers hold, as the run does. `takers` says which driver takes each step.
   */
  method InterleavedRun(table: JobsTable, drivers: map<nat, Driver>, now: Time, held: map<WorkerId, Claimed>,
                        es: seq<Event>, takers: seq<nat>, ghost s: State)
    returns (now': Time, held': map<WorkerId, Claimed>)
    requires OnTable(drivers, table) && Shows(table, now, held, s)
    requires Valid(s, es) && |takers| == |es| && ByDrivers(drivers, takers, s, es)
    modifies table
    ensures Shows(table, now', held', Exec(s, es))
  {
    now', held' := now, held;
    ghost var t := s;
    var i := 0;
    while i < |es|
      invariant 0 <= i <= |es|
      invariant Shows(table, now', held', t)
      invariant Valid(t, es[i..]) && ByDrivers(drivers, takers[i..], t, es[i..]) && Exec(t, es[i..]) == Exec(s, es)
    {
      assert es[i..][0] == es[i] && es[i..][1..] == es[i + 1..];
      assert takers[i..][0] == takers[i] && takers[i..][1..] == takers[i + 1..];
      now', held' := Perform(table, drivers[takers[i]], now', held', es[i], t);
      t := Apply(t, es[i]);
      i := i + 1;
    }
  }
}
