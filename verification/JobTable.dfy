/**
 The `jobs` table of the database queue: its rows, which of them a worker may claim,
 and the three writes a worker makes to a row it has claimed.
 */
module JobTable {
  import opened Common
  import opened GoInt

  type Time = int

  /** A row left `processing` for longer than this may be claimed again. */
  const LEASE: Time := 600 * SECOND

  datatype Status = Pending | Processing | Failed

  datatype Job = Job(
    queue: string,
    name: string,
    payload: Bytes,
    maxAttempts: int,
    attempts: nat,
    availableAt: Time,
    reservedAt: Option<Time>,
    status: Status)

  type Rows = map<nat, Job>

  predicate Ready(j: Job, now: Time) {
    j.status == Pending && j.availableAt <= now
  }

  /** The status test and the lease test of the claim query; a NULL reserved_at never passes. */
  predicate Stale(j: Job, now: Time) {
    j.status == Processing && j.reservedAt.Some? && j.reservedAt.value < now - LEASE
  }

  predicate Eligible(rows: Rows, queue: string, now: Time, id: nat) {
    id in rows && rows[id].queue == queue && (Ready(rows[id], now) || Stale(rows[id], now))
  }

  /** ORDER BY available_at ASC, id ASC. */
  predicate Before(rows: Rows, a: nat, b: nat)
    requires a in rows && b in rows
  {
    rows[a].availableAt < rows[b].availableAt || (rows[a].availableAt == rows[b].availableAt && a < b)
  }

  /** The row the claim query returns: the eligible row that every other eligible row comes after. */
  ghost predicate IsFirst(rows: Rows, queue: string, now: Time, id: nat) {
    && Eligible(rows, queue, now, id)
    && forall k: nat :: Eligible(rows, queue, now, k) && k != id ==> Before(rows, id, k)
  }

  /** The first eligible row among those with an id below `bound`. */
  function PickBelow(rows: Rows, queue: string, now: Time, bound: nat): (r: Option<nat>)
    ensures r.None? ==> forall k: nat :: k < bound ==> !Eligible(rows, queue, now, k)
    ensures r.Some? ==> r.value < bound && Eligible(rows, queue, now, r.value)
    ensures r.Some? ==>
              forall k: nat :: k < bound && Eligible(rows, queue, now, k) && k != r.value ==> Before(rows, r.value, k)
  {
    if bound == 0 then None else
    var best := PickBelow(rows, queue, now, bound - 1);
    if !Eligible(rows, queue, now, bound - 1) then best
    else if best.Some? && Before(rows, best.value, bound - 1) then best
    else Some(bound - 1)
  }

  /** The claim query picks at most one row, whatever bound on the ids is searched. */
  lemma PickIsFirst(rows: Rows, queue: string, now: Time, bound: nat)
    requires forall id: nat :: id in rows ==> id < bound
    ensures var r := PickBelow(rows, queue, now, bound);
            && (r.None? <==> forall k: nat :: !Eligible(rows, queue, now, k))
            && forall k: nat :: r == Some(k) <==> IsFirst(rows, queue, now, k)
  {
  }

  /** SET status, attempts and reserved_at on the claimed row. */
  function Reserved(j: Job, now: Time): Job {
    j.(status := Processing, attempts := j.attempts + 1, reservedAt := Some(now))
  }

  function Retried(j: Job, attempts: nat, now: Time): Job {
    j.(status := Pending, availableAt := now + BackoffNanos(attempts), reservedAt := None)
  }

  /**
   The final write of a worker, keyed by id alone. `mine` is the worker's own copy of the row from its claim;
   an UPDATE or DELETE of an id that is no longer there changes nothing.
   */
  function Settled(rows: Rows, id: nat, mine: Job, ok: bool, now: Time): Rows {
    if ok then rows - {id}
    else if id !in rows then rows
    else if mine.attempts < mine.maxAttempts then rows[id := Retried(rows[id], mine.attempts, now)]
    else rows[id := rows[id].(status := Failed)]
  }

  function NewJob(queue: string, name: string, payload: Bytes, maxAttempts: int, now: Time, delay: int): Job {
    Job(queue, name, payload, maxAttempts, 0, if delay > 0 then now + delay else now, None, Pending)
  }
}
