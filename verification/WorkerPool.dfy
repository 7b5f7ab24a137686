/** The background worker pool of pkg/worker as the object it is, over the sections of PoolProtocol. */
module WorkerPool {
  import opened PoolProtocol

  class Pool<J> {
    const concurrency: nat
    const capacity: nat
    var running: bool
    var quitClosed: bool
    var queueClosed: bool
    var jobQueue: seq<J>
    /** Worker goroutines in the wait group. */
    var wg: nat
    /** The jobs executed so far, in order. */
    ghost var executed: seq<J>

    ghost function Sh(): Shared<J>
      reads this
    {
      Shared(running, quitClosed, queueClosed, capacity, jobQueue)
    }

    constructor (concurrency: int, queueSize: int)
      ensures this.concurrency == (if concurrency <= 0 then 5 else concurrency) > 0
      ensures capacity == (if queueSize <= 0 then 100 else queueSize) > 0
      ensures Sh() == Init<J>(true, capacity, this.concurrency).sh
      ensures wg == 0 && executed == []
    {
      this.concurrency := if concurrency <= 0 then 5 else concurrency;
      capacity := if queueSize <= 0 then 100 else queueSize;
      running, quitClosed, queueClosed, jobQueue, wg, executed := false, false, false, [], 0, [];
    }

    method Start()
      modifies this`running, this`wg
      ensures Sh() == old(Sh()).(running := true)
      ensures wg == if old(running) then old(wg) else old(wg) + concurrency
    {
      if running {
        return;
      }
      running := true;
      var i := 1;
      while i <= concurrency
        invariant 1 <= i <= concurrency + 1
        invariant wg == old(wg) + (i - 1) && running
      {
        wg := wg + 1;
        i := i + 1;
      }
    }

    method Dispatch(job: J) returns (outcome: SendOutcome)
      modifies this`jobQueue
      ensures (Sh(), outcome) == Send(old(Sh()), true, job)
      ensures outcome == Accepted <==> running && !queueClosed && |old(jobQueue)| < capacity
      ensures outcome == NotRunning <==> !running
      ensures outcome == Full <==> running && !queueClosed && |old(jobQueue)| >= capacity
      ensures jobQueue == if outcome == Accepted then old(jobQueue) + [job] else old(jobQueue)
    {
      if !running {
        return NotRunning;
      }
      if queueClosed {
        return SendOnClosed;
      }
      if |jobQueue| < capacity {
        jobQueue := jobQueue + [job];
        return Accepted;
      }
      outcome := Full;
    }

    /** The part of Stop under the mutex; closing the channels a second time panics. */
    method Stop() returns (closedTwice: bool)
      modifies this`running, this`quitClosed, this`queueClosed
      ensures Sh() == Shut(old(Sh()))
      ensures !running
      ensures quitClosed == (old(quitClosed) || old(running)) && queueClosed == (old(queueClosed) || old(running))
      ensures closedTwice <==> old(running) && (old(quitClosed) || old(queueClosed))
    {
      closedTwice := false;
      if !running {
        return;
      }
      closedTwice := quitClosed || queueClosed;
      running := false;
      quitClosed := true;
      queueClosed := true;
    }

    /** What one worker does once it has seen the quit signal: it runs what is buffered and leaves. */
    method Drain()
      requires wg > 0
      modifies this`jobQueue, this`wg, this`executed
      ensures jobQueue == []
      ensures executed == old(executed) + old(jobQueue)
      ensures wg == old(wg) - 1
    {
      while |jobQueue| > 0
        invariant executed + jobQueue == old(executed) + old(jobQueue) && wg == old(wg)
      {
        var job := jobQueue[0];
        jobQueue := jobQueue[1..];
        assert executed + [job] + jobQueue == executed + ([job] + jobQueue);
        executed := executed + [job];
      }
      wg := wg - 1;
    }
  }
}
