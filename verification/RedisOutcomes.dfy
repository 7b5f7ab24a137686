/** What becomes of one dispatched job of the Redis queue: it keeps its delay, and a nil result ends it. */
module RedisOutcomes {
  import opened Common
  import opened GoInt
  import opened QueueCore
  import opened RedisQueue

  // ---------- counting the messages of a dispatch ----------

  /** How many of the messages have one of these ids. */
  ghost function Count(ms: seq<Msg>, ids: set<nat>): nat {
    if ms == [] then 0 else (if ms[0].id in ids then 1 else 0) + Count(ms[1..], ids)
  }

  lemma {:induction false} CountAppend(a: seq<Msg>, b: seq<Msg>, ids: set<nat>)
    ensures Count(a + b, ids) == Count(a, ids) + Count(b, ids)
  {
    if a == [] {
      assert a + b == b;
    } else {
      CountAppend(a[1..], b, ids);
      assert (a + b)[1..] == a[1..] + b;
    }
  }

  lemma CountWithout(ms: seq<Msg>, i: nat, ids: set<nat>)
    requires i < |ms|
    ensures Count(ms, ids) == Count(Without(ms, i), ids) + (if ms[i].id in ids then 1 else 0)
  {
    assert ms == ms[..i] + ([ms[i]] + ms[i + 1..]);
    CountAppend(ms[..i], [ms[i]] + ms[i + 1..], ids);
    CountAppend([ms[i]], ms[i + 1..], ids);
    CountAppend(ms[..i], ms[i + 1..], ids);
    assert Count([ms[i]], ids) == if ms[i].id in ids then 1 else 0;
  }

  /** An id that no message has makes no difference. */
  lemma {:induction false} CountFresh(ms: seq<Msg>, ids: set<nat>, id: nat)
    requires forall m :: m in ms ==> m.id != id
    ensures Count(ms, ids + {id}) == Count(ms, ids)
  {
    if ms != [] {
      CountFresh(ms[1..], ids, id);
      assert ms[0] in ms;
    }
  }

  lemma {:induction false} CountZeroIff(ms: seq<Msg>, ids: set<nat>)
    ensures Count(ms, ids) == 0 <==> forall m :: m in ms ==> m.id !in ids
  {
    if ms != [] {
      CountZeroIff(ms[1..], ids);
      assert forall m :: m in ms <==> m == ms[0] || m in ms[1..];
    }
  }

  function Messages(timers: seq<Timer>): (ms: seq<Msg>)
    ensures |ms| == |timers| && forall i :: 0 <= i < |ms| ==> ms[i] == timers[i].msg
  {
    seq(|timers|, i requires 0 <= i < |timers| => timers[i].msg)
  }

  ghost function Running(exec: map<nat, Msg>, ids: set<nat>): set<nat> {
    set w | w in exec && exec[w].id in ids
  }

  /** The ids of the messages of dispatch number d, past and present. */
  ghost function IdsOf(s: State, d: nat): set<nat> {
    set id | id in s.origin && s.origin[id] == d
  }

  /** How many messages of dispatch d are in the list, behind timers and with workers. */
  ghost function Left(s: State, d: nat): nat {
    var ids := IdsOf(s, d);
    Count(s.list, ids) + Count(Messages(s.timers), ids) + |Running(s.exec, ids)|
  }

  lemma LeftZero(s: State, d: nat)
    requires Inv(s) && d >= |s.dispatched|
    ensures Left(s, d) == 0
  {
    var ids := IdsOf(s, d);
    CountZeroIff(s.list, ids);
    CountZeroIff(Messages(s.timers), ids);
    assert Running(s.exec, ids) == {};
  }

  /** No message has the next id yet. */
  lemma NextIdIsFresh(s: State, ids: set<nat>)
    requires Inv(s)
    ensures Count(s.list, ids + {s.nextId}) == Count(s.list, ids)
    ensures Count(Messages(s.timers), ids + {s.nextId}) == Count(Messages(s.timers), ids)
    ensures Running(s.exec, ids + {s.nextId}) == Running(s.exec, ids)
  {
    forall m | m in s.list ensures m.id != s.nextId {
      assert Carries(s, m);
    }
    forall m | m in Messages(s.timers) ensures m.id != s.nextId {
      var i :| 0 <= i < |s.timers| && Messages(s.timers)[i] == m;
      assert Carries(s, s.timers[i].msg);
    }
    CountFresh(s.list, ids, s.nextId);
    CountFresh(Messages(s.timers), ids, s.nextId);
  }

  /** One more message in the list or behind a timer, or none when its push fails. */
  lemma MessageAdds(list: seq<Msg>, timers: seq<Timer>, t: Timer, ids: set<nat>)
    ensures Count([t.msg] + list, ids) == Count(list, ids) + (if t.msg.id in ids then 1 else 0)
    ensures Count(Messages(timers + [t]), ids) == Count(Messages(timers), ids) + (if t.msg.id in ids then 1 else 0)
  {
    CountAppend([t.msg], list, ids);
    assert Count([t.msg], ids) == if t.msg.id in ids then 1 else 0;
    assert Messages(timers + [t]) == Messages(timers) + [t.msg];
    CountAppend(Messages(timers), [t.msg], ids);
  }

  lemma EnqueueCounts(
    s: State, name: string, payload: Bytes, delay: int, pushed: bool, owner: nat, ids: set<nat>)
    ensures var s' := Enqueue(s, name, payload, delay, pushed, owner);
            Count(s'.list, ids) + Count(Messages(s'.timers), ids)
            <= Count(s.list, ids) + Count(Messages(s.timers), ids) + (if s.nextId in ids then 1 else 0)
  {
    MessageAdds(s.list, s.timers, Timer(s.now + delay, Msg(s.nextId, name, payload, 0, s.maxAttempts)), ids);
  }

  /** What DispatchDelayed adds for its owner, and nothing for the others. */
  lemma EnqueueAdds(s: State, name: string, payload: Bytes, delay: int, pushed: bool, owner: nat, d: nat)
    requires Inv(s)
    ensures Left(Enqueue(s, name, payload, delay, pushed, owner), d) <= Left(s, d) + (if owner == d then 1 else 0)
  {
    var s' := Enqueue(s, name, payload, delay, pushed, owner);
    var ids, ids' := IdsOf(s, d), IdsOf(s', d);
    assert s.nextId !in ids && s'.exec == s.exec;
    assert ids' == if owner == d then ids + {s.nextId} else ids;
    NextIdIsFresh(s, ids);
    EnqueueCounts(s, name, payload, delay, pushed, owner, ids');
  }

  lemma TakenOut(exec: map<nat, Msg>, w: nat, ids: set<nat>)
    requires w in exec
    ensures |Running(exec, ids)| == |Running(exec - {w}, ids)| + (if exec[w].id in ids then 1 else 0)
  {
    if exec[w].id in ids {
      assert Running(exec, ids) == Running(exec - {w}, ids) + {w};
    } else {
      assert Running(exec, ids) == Running(exec - {w}, ids);
    }
  }

  lemma FinishMoves(s: State, w: nat, ok: bool, d: nat)
    requires Inv(s) && w in s.exec
    ensures Left(AfterFinish(s, w, ok), d) + (if ok && s.exec[w].id in IdsOf(s, d) then 1 else 0) <= Left(s, d)
  {
    var msg := s.exec[w];
    var s1 := s.(exec := s.exec - {w});
    TakenOut(s.exec, w, IdsOf(s, d));
    if !ok && msg.attempts < msg.maxAttempts {
      var raw := MarshalPayload(Text(msg.payload)).value;
      EnqueueAdds(s1, msg.name, raw, BackoffNanos(msg.attempts), true, s.origin[msg.id], d);
    }
  }

  lemma TimerMoves(s: State, e: Event, d: nat)
    requires Enabled(s, e) && (e.Fire? || e.Cancel?)
    ensures Left(Apply(s, e), d) <= Left(s, d)
  {
    var ids, msg := IdsOf(s, d), s.timers[e.i].msg;
    CountWithout(Messages(s.timers), e.i, ids);
    assert Messages(Without(s.timers, e.i)) == Without(Messages(s.timers), e.i);
    CountAppend([msg], s.list, ids);
    assert Count([msg], ids) == if msg.id in ids then 1 else 0;
  }

  lemma PopMoves(s: State, w: nat, d: nat)
    requires Enabled(s, Pop(w))
    ensures Left(Apply(s, Pop(w)), d) <= Left(s, d)
  {
    var ids, last := IdsOf(s, d), |s.list| - 1;
    var s' := Apply(s, Pop(w));
    CountWithout(s.list, last, ids);
    assert Without(s.list, last) == s'.list;
    assert s'.exec - {w} == s.exec;
    TakenOut(s'.exec, w, ids);
  }

  /** No step adds a message to a job that has been dispatched. */
  lemma LeftNeverGrows(s: State, e: Event, d: nat)
    requires Inv(s) && Enabled(s, e)
    ensures Left(Apply(s, e), d) <= Left(s, d) + (if e.Dispatch? && d == |s.dispatched| then 1 else 0)
  {
    match e
    case Dispatch(name, payload, delay, pushed) =>
      var raw := MarshalPayload(payload).value;
      var s1 := s.(dispatched := s.dispatched + [Job(name, raw)], runs := s.runs + [[]]);
      assert Left(s1, d) == Left(s, d);
      EnqueueAdds(s1, name, raw, delay, pushed, |s.dispatched|, d);
    case Finish(w, ok) => FinishMoves(s, w, ok, d);
    case Pop(w) => PopMoves(s, w, d);
    case Fire(_, _) => TimerMoves(s, e, d);
    case Cancel(_) => TimerMoves(s, e, d);
    case Tick(_) =>
    case Quit =>
  }

  lemma {:induction false} OneMessageFrom(s: State, es: seq<Event>, d: nat)
    requires Inv(s) && Left(s, d) <= 1 && Valid(s, es)
    ensures Left(Exec(s, es), d) <= 1
    decreases |es|
  {
    if es != [] {
      if d == |s.dispatched| {
        LeftZero(s, d);
      }
      LeftNeverGrows(s, es[0], d);
      StepKeepsInv(s, es[0]);
      OneMessageFrom(Apply(s, es[0]), es[1..], d);
    }
  }

  /** In every run a dispatched job has at most one message: in the list, behind a timer, or with a worker. */
  lemma OneMessage(maxAttempts: int, es: seq<Event>, d: nat)
    requires Valid(Init(maxAttempts), es)
    ensures Left(Exec(Init(maxAttempts), es), d) <= 1
  {
    LeftZero(Init(maxAttempts), d);
    OneMessageFrom(Init(maxAttempts), es, d);
  }

  // ---------- a nil result ends a job ----------

  lemma NoMessageNoRun(s: State, e: Event, d: nat)
    requires Inv(s) && d < |s.runs| && Left(s, d) == 0 && Enabled(s, e)
    ensures d < |Apply(s, e).runs| && Apply(s, e).runs[d] == s.runs[d]
  {
    if e.Pop? {
      var last := s.list[|s.list| - 1];
      assert last in s.list && Carries(s, last);
      CountZeroIff(s.list, IdsOf(s, d));
    }
  }

  lemma {:induction false} NoMessageNoRuns(s: State, es: seq<Event>, d: nat)
    requires Inv(s) && d < |s.runs| && Left(s, d) == 0 && Valid(s, es)
    ensures d < |Exec(s, es).runs| && Exec(s, es).runs[d] == s.runs[d]
    decreases |es|
  {
    if es != [] {
      NoMessageNoRun(s, es[0], d);
      LeftNeverGrows(s, es[0], d);
      StepKeepsInv(s, es[0]);
      NoMessageNoRuns(Apply(s, es[0]), es[1..], d);
    }
  }

  /** In every run, a job whose handler has returned nil is never run again. */
  lemma SuccessIsFinal(maxAttempts: int, es: seq<Event>, w: nat, fs: seq<Event>)
    requires Valid(Init(maxAttempts), es) && w in Exec(Init(maxAttempts), es).exec
    requires Valid(Apply(Exec(Init(maxAttempts), es), Finish(w, true)), fs)
    ensures var s := Exec(Init(maxAttempts), es);
            var s' := Exec(Apply(s, Finish(w, true)), fs);
            && s.exec[w].id in s.origin
            && var d := s.origin[s.exec[w].id];
               d < |s.runs| && d < |s'.runs| && s'.runs[d] == s.runs[d]
  {
    var s := Exec(Init(maxAttempts), es);
    RunKeepsInv(Init(maxAttempts), es);
    var d := s.origin[s.exec[w].id];
    OneMessage(maxAttempts, es, d);
    FinishMoves(s, w, true, d);
    StepKeepsInv(s, Finish(w, true));
    NoMessageNoRuns(Apply(s, Finish(w, true)), fs, d);
  }

  // ---------- the delay of a dispatch ----------

  /** Until `due`, dispatch d has not run, and its messages wait behind timers that fire no earlier. */
  ghost predicate NotBefore(s: State, d: nat, due: Time) {
    && d < |s.runs|
    && (s.now < due ==>
          && s.runs[d] == []
          && (forall m :: m in s.list ==> m.id !in IdsOf(s, d))
          && (forall w :: w in s.exec ==> s.exec[w].id !in IdsOf(s, d))
          && (forall t :: t in s.timers && t.msg.id in IdsOf(s, d) ==> t.due >= due))
  }

  lemma EnqueueKeepsDelay(
    s: State, name: string, payload: Bytes, delay: int, pushed: bool, owner: nat, d: nat, due: Time)
    requires Inv(s) && NotBefore(s, d, due) && owner != d
    ensures NotBefore(Enqueue(s, name, payload, delay, pushed, owner), d, due)
  {
    assert IdsOf(Enqueue(s, name, payload, delay, pushed, owner), d) == IdsOf(s, d);
  }

  lemma FinishKeepsDelay(s: State, w: nat, ok: bool, d: nat, due: Time)
    requires Inv(s) && w in s.exec && NotBefore(s, d, due)
    ensures NotBefore(AfterFinish(s, w, ok), d, due)
  {
    var msg := s.exec[w];
    if !ok && msg.attempts < msg.maxAttempts && s.now < due {
      var raw := MarshalPayload(Text(msg.payload)).value;
      EnqueueKeepsDelay(s.(exec := s.exec - {w}), msg.name, raw, BackoffNanos(msg.attempts), true, s.origin[msg.id], d,
                        due);
    }
  }

  lemma DispatchKeepsDelay(s: State, e: Event, d: nat, due: Time)
    requires Inv(s) && Enabled(s, e) && e.Dispatch? && NotBefore(s, d, due)
    ensures NotBefore(Apply(s, e), d, due)
  {
    var raw := MarshalPayload(e.payload).value;
    var s1 := s.(dispatched := s.dispatched + [Job(e.name, raw)], runs := s.runs + [[]]);
    assert IdsOf(s1, d) == IdsOf(s, d) && Inv(s1);
    EnqueueKeepsDelay(s1, e.name, raw, e.delay, e.pushed, |s.dispatched|, d, due);
  }

  lemma StepKeepsDelay(s: State, e: Event, d: nat, due: Time)
    requires Inv(s) && Enabled(s, e) && NotBefore(s, d, due)
    ensures NotBefore(Apply(s, e), d, due)
  {
    match e
    case Dispatch(_, _, _, _) => DispatchKeepsDelay(s, e, d, due);
    case Finish(w, ok) => FinishKeepsDelay(s, w, ok, d, due);
    case Pop(w) =>
      assert s.list[|s.list| - 1] in s.list;
      assert IdsOf(Apply(s, e), d) == IdsOf(s, d);
    case Fire(i, pushed) =>
      assert s.timers[i] in s.timers;
      assert IdsOf(Apply(s, e), d) == IdsOf(s, d);
    case Cancel(_) => assert IdsOf(Apply(s, e), d) == IdsOf(s, d);
    case Tick(_) => assert IdsOf(Apply(s, e), d) == IdsOf(s, d);
    case Quit => assert IdsOf(Apply(s, e), d) == IdsOf(s, d);
  }

  lemma {:induction false} RunKeepsDelay(s: State, es: seq<Event>, d: nat, due: Time)
    requires Inv(s) && Valid(s, es) && NotBefore(s, d, due)
    ensures NotBefore(Exec(s, es), d, due)
    decreases |es|
  {
    if es != [] {
      StepKeepsDelay(s, es[0], d, due);
      StepKeepsInv(s, es[0]);
      RunKeepsDelay(Apply(s, es[0]), es[1..], d, due);
    }
  }

  /** Whatever happens after a dispatch, no handler gets the job before its delay is over. */
  lemma DelayIsKept(s: State, e: Event, es: seq<Event>)
    requires Inv(s) && Enabled(s, e) && e.Dispatch? && Valid(Apply(s, e), es)
    ensures var s', d := Exec(Apply(s, e), es), |s.runs|;
            d < |s'.runs| && (s'.now < s.now + e.delay ==> s'.runs[d] == [])
  {
    StepKeepsInv(s, e);
    assert NotBefore(Apply(s, e), |s.runs|, s.now + e.delay);
    RunKeepsDelay(Apply(s, e), es, |s.runs|, s.now + e.delay);
  }
}
