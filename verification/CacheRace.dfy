/**
 One user's cache entry under any interleaving of GetByID, Update and Delete requests. A reader is a cache lookup,
 a database read and a cache write; a writer is a database write and a cache delete that may fail.
 Keys of different users differ (UserCache.KeyInjective), so one user is enough.
 */
module CacheRace {
  import opened Common
  import opened UserCache

  /** The row of the user, if there is one. */
  type Row = Option<Response>

  /** From `since` on the database holds `row`, until the next version. */
  datatype Version = Version(since: Time, row: Row)

  /** A reader that has missed the cache, or has the value of its database read in hand. */
  datatype Reader = Missed | Read(v: Response, at: Time)

  /** An answer given to a caller at a time; None is NotFound. */
  datatype Answer = Answer(at: Time, row: Row)

  /** `versions` is the history of the database row, `writers` the writers that have still to delete the cache key. */
  datatype State = State(
    now: Time,
    versions: seq<Version>,
    entry: Option<(Response, Time)>,
    readers: map<nat, Reader>,
    writers: set<nat>,
    answers: seq<Answer>)

  datatype Event =
    | Lookup(r: nat, fails: bool)
    | ReadRow(r: nat)
    | SetEntry(r: nat, fails: bool)
    | WriteRow(w: nat, row: Row)
    | DropEntry(w: nat, fails: bool)
    | Tick(d: nat)

  function Init(now: Time, row: Row): State {
    State(now, [Version(now, row)], None, map[], {}, [])
  }

  function Current(s: State): Row
    requires s.versions != []
  {
    s.versions[|s.versions| - 1].row
  }

  predicate Enabled(s: State, e: Event) {
    && s.versions != []
    && match e
       case Lookup(r, _) => r !in s.readers
       case ReadRow(r) => r in s.readers && s.readers[r].Missed?
       case SetEntry(r, _) => r in s.readers && s.readers[r].Read?
       case WriteRow(w, _) => w !in s.writers
       case DropEntry(w, _) => w in s.writers
       case Tick(_) => true
  }

  function Answered(s: State, row: Row): State {
    s.(answers := s.answers + [Answer(s.now, row)])
  }

  function Apply(s: State, e: Event): State
    requires Enabled(s, e)
  {
    match e
    case Lookup(r, fails) =>
      if !fails && s.entry.Some? && s.now < s.entry.value.1 then Answered(s, Some(s.entry.value.0))
      else s.(readers := s.readers[r := Missed])
    case ReadRow(r) =>
      (match Current(s)
       case None => Answered(s.(readers := s.readers - {r}), None)
       case Some(v) => s.(readers := s.readers[r := Read(v, s.now)]))
    case SetEntry(r, fails) =>
      var v := s.readers[r].v;
      Answered(s.(readers := s.readers - {r}, entry := if fails then s.entry else Some((v, s.now + TTL))), Some(v))
    case WriteRow(w, row) =>
      s.(versions := s.versions + [Version(s.now, row)], writers := s.writers + {w})
    case DropEntry(w, fails) =>
      s.(writers := s.writers - {w}, entry := if fails then s.entry else None)
    case Tick(d) => s.(now := s.now + d)
  }

  predicate Valid(s: State, es: seq<Event>)
    decreases |es|
  {
    es == [] || (Enabled(s, es[0]) && Valid(Apply(s, es[0]), es[1..]))
  }

  function Exec(s: State, es: seq<Event>): State
    requires Valid(s, es)
    decreases |es|
  {
    if es == [] then s else Exec(Apply(s, es[0]), es[1..])
  }

  /** No reader takes longer than `gap` from its database read to its cache write. */
  predicate Prompt(s: State, es: seq<Event>, gap: nat)
    requires Valid(s, es)
    decreases |es|
  {
    es == []
    || ((es[0].SetEntry? ==> s.now - s.readers[es[0].r].at <= gap) && Prompt(Apply(s, es[0]), es[1..], gap))
  }

  /** The row was this at time t: some version was in force then. */
  ghost predicate WasRow(versions: seq<Version>, t: Time, row: Row) {
    exists i :: 0 <= i < |versions| && InForce(versions, i, t) && versions[i].row == row
  }

  ghost predicate InForce(versions: seq<Version>, i: nat, t: Time)
    requires i < |versions|
  {
    versions[i].since <= t && (i + 1 < |versions| ==> t <= versions[i + 1].since)
  }

  /** The row was this at some time between lo and hi. */
  ghost predicate WasRowWithin(versions: seq<Version>, lo: Time, hi: Time, row: Row) {
    exists t :: lo <= t <= hi && WasRow(versions, t, row)
  }

  ghost predicate AnswerOk(s: State, a: Answer, gap: nat) {
    && a.at <= s.now
    && (a.row.Some? ==> WasRowWithin(s.versions, a.at - TTL - gap, a.at, a.row))
    && (a.row.None? ==> WasRow(s.versions, a.at, None))
  }

  ghost predicate EntryOk(s: State, gap: nat) {
    s.entry.Some? ==>
      WasRowWithin(s.versions, s.entry.value.1 - TTL - gap, s.entry.value.1 - TTL, Some(s.entry.value.0))
      && s.entry.value.1 - TTL <= s.now
  }

  ghost predicate ReaderOk(s: State, r: Reader) {
    r.Read? ==> r.at <= s.now && WasRow(s.versions, r.at, Some(r.v))
  }

  ghost predicate Inv(s: State, gap: nat) {
    && s.versions != []
    && s.versions[|s.versions| - 1].since <= s.now
    && EntryOk(s, gap)
    && (forall r :: r in s.readers ==> ReaderOk(s, s.readers[r]))
    && (forall i :: 0 <= i < |s.answers| ==> AnswerOk(s, s.answers[i], gap))
  }

  /** A new version now does not change what the row was at any time up to now. */
  lemma PastStays(versions: seq<Version>, v: Version, t: Time, row: Row)
    requires WasRow(versions, t, row) && t <= v.since
    ensures WasRow(versions + [v], t, row)
  {
    var i :| 0 <= i < |versions| && InForce(versions, i, t) && versions[i].row == row;
    assert InForce(versions + [v], i, t);
  }

  lemma PastRangeStays(versions: seq<Version>, v: Version, lo: Time, hi: Time, row: Row)
    requires WasRowWithin(versions, lo, hi, row) && hi <= v.since
    ensures WasRowWithin(versions + [v], lo, hi, row)
  {
    var t :| lo <= t <= hi && WasRow(versions, t, row);
    PastStays(versions, v, t, row);
  }

  lemma WriteKeepsInv(s: State, e: Event, gap: nat)
    requires Inv(s, gap) && Enabled(s, e) && e.WriteRow?
    ensures Inv(Apply(s, e), gap)
  {
    var s', v := Apply(s, e), Version(s.now, e.row);
    if s.entry.Some? {
      PastRangeStays(s.versions, v, s.entry.value.1 - TTL - gap, s.entry.value.1 - TTL, Some(s.entry.value.0));
    }
    forall r | r in s.readers ensures ReaderOk(s', s'.readers[r]) {
      assert ReaderOk(s, s.readers[r]);
      if s.readers[r].Read? {
        PastStays(s.versions, v, s.readers[r].at, Some(s.readers[r].v));
      }
    }
    forall i | 0 <= i < |s.answers| ensures AnswerOk(s', s.answers[i], gap) {
      var a := s.answers[i];
      assert AnswerOk(s, a, gap);
      if a.row.Some? {
        PastRangeStays(s.versions, v, a.at - TTL - gap, a.at, a.row);
      } else {
        PastStays(s.versions, v, a.at, None);
      }
    }
  }

  lemma ReaderKeepsInv(s: State, e: Event, gap: nat)
    requires Inv(s, gap) && Enabled(s, e) && (e.Lookup? || e.ReadRow? || e.SetEntry?)
    requires e.SetEntry? ==> s.now - s.readers[e.r].at <= gap
    ensures Inv(Apply(s, e), gap)
  {
  }

  lemma StepKeepsInv(s: State, e: Event, gap: nat)
    requires Inv(s, gap) && Enabled(s, e)
    requires e.SetEntry? ==> s.now - s.readers[e.r].at <= gap
    ensures Inv(Apply(s, e), gap)
  {
    match e
    case WriteRow(_, _) => WriteKeepsInv(s, e, gap);
    case DropEntry(_, _) =>
      assert forall i :: 0 <= i < |s.answers| ==>
          AnswerOk(s, s.answers[i], gap) && AnswerOk(Apply(s, e), s.answers[i], gap);
    case Tick(_) =>
      assert forall i :: 0 <= i < |s.answers| ==>
          AnswerOk(s, s.answers[i], gap) && AnswerOk(Apply(s, e), s.answers[i], gap);
    case _ => ReaderKeepsInv(s, e, gap);
  }

  lemma {:induction false} RunKeepsInv(s: State, es: seq<Event>, gap: nat)
    requires Inv(s, gap) && Valid(s, es) && Prompt(s, es, gap)
    ensures Inv(Exec(s, es), gap)
    decreases |es|
  {
    if es != [] {
      StepKeepsInv(s, es[0], gap);
      RunKeepsInv(Apply(s, es[0]), es[1..], gap);
    }
  }

  /**
   Bounded staleness. Under every interleaving, with any cache operation failing, a user returned at time t was the
   row of the database at some time in [t - TTL - gap, t], where `gap` is the longest time from a reader's database
   read to its cache write. NotFound is never served from the cache: the row was missing at that very time.
   */
  lemma BoundedStaleness(now: Time, row: Row, es: seq<Event>, gap: nat, i: nat)
    requires Valid(Init(now, row), es) && Prompt(Init(now, row), es, gap)
    requires i < |Exec(Init(now, row), es).answers|
    ensures var s := Exec(Init(now, row), es);
            var a := s.answers[i];
            && (a.row.Some? ==> WasRowWithin(s.versions, a.at - TTL - gap, a.at, a.row))
            && (a.row.None? ==> WasRow(s.versions, a.at, None))
  {
    RunKeepsInv(Init(now, row), es, gap);
    var s := Exec(Init(now, row), es);
    assert AnswerOk(s, s.answers[i], gap);
  }

  /** The states of a run in which a reader straddles a write whose cache delete succeeds. */
  function StraddleState(gap: nat, v: Response, w: Response, k: nat): State {
    var read := map[0 := Read(v, 0)];
    var both := [Version(0, Some(v)), Version(0, Some(w))];
    var first := [Answer(gap, Some(v))];
    if k == 0 then Init(0, Some(v))
    else if k == 1 then State(0, [Version(0, Some(v))], None, map[0 := Missed], {}, [])
    else if k == 2 then State(0, [Version(0, Some(v))], None, read, {}, [])
    else if k == 3 then State(0, both, None, read, {0}, [])
    else if k == 4 then State(0, both, None, read, {}, [])
    else if k == 5 then State(gap, both, None, read, {}, [])
    else if k == 6 then State(gap, both, Some((v, gap + TTL)), map[], {}, first)
    else if k == 7 then State(gap + TTL - 1, both, Some((v, gap + TTL)), map[], {}, first)
    else State(gap + TTL - 1, both, Some((v, gap + TTL)), map[], {}, first + [Answer(gap + TTL - 1, Some(v))])
  }

  function StraddleEvent(gap: nat, w: Response, k: nat): Event {
    if k == 0 then Lookup(0, false)
    else if k == 1 then ReadRow(0)
    else if k == 2 then WriteRow(0, Some(w))
    else if k == 3 then DropEntry(0, false)
    else if k == 4 then Tick(gap)
    else if k == 5 then SetEntry(0, false)
    else if k == 6 then Tick(TTL - 1)
    else Lookup(1, false)
  }

  lemma StraddleStep(gap: nat, v: Response, w: Response, k: nat)
    requires k < 8
    ensures Enabled(StraddleState(gap, v, w, k), StraddleEvent(gap, w, k))
    ensures Apply(StraddleState(gap, v, w, k), StraddleEvent(gap, w, k)) == StraddleState(gap, v, w, k + 1)
  {
  }

  lemma {:induction false} StraddleRun(gap: nat, v: Response, w: Response, k: nat) returns (es: seq<Event>)
    requires k <= 8
    ensures Valid(StraddleState(gap, v, w, k), es)
    ensures Exec(StraddleState(gap, v, w, k), es) == StraddleState(gap, v, w, 8)
    ensures Prompt(StraddleState(gap, v, w, k), es, gap)
    ensures forall e :: e in es && e.DropEntry? ==> !e.fails
    decreases 8 - k
  {
    es := [];
    if k < 8 {
      StraddleStep(gap, v, w, k);
      var rest := StraddleRun(gap, v, w, k + 1);
      es := [StraddleEvent(gap, w, k)] + rest;
      assert es[1..] == rest;
    }
  }

  /**
   The bound cannot be improved by more than two nanoseconds, even for runs in which no cache delete fails: a reader
   that straddles the write puts the old row back after the delete, and it is served until it expires.
   */
  lemma BoundIsTight(gap: nat, v: Response, w: Response) returns (es: seq<Event>)
    requires v != w
    ensures Valid(Init(0, Some(v)), es) && Prompt(Init(0, Some(v)), es, gap)
    ensures forall e :: e in es && e.DropEntry? ==> !e.fails
    ensures var s := Exec(Init(0, Some(v)), es);
            && s.answers != []
            && var a := s.answers[|s.answers| - 1];
               a.row == Some(v) && !WasRowWithin(s.versions, a.at - TTL - gap + 2, a.at, a.row)
  {
    es := StraddleRun(gap, v, w, 0);
    var s := StraddleState(gap, v, w, 8);
    assert s.answers[1] == Answer(gap + TTL - 1, Some(v));
    forall t | 1 <= t ensures !WasRow(s.versions, t, Some(v)) {
      assert s.versions[0].row == Some(v) && s.versions[1].since == 0;
    }
  }

  // ---------- when the old value stays out ----------

  /** A reader that is between its database read and its cache write. */
  ghost predicate Straddling(s: State, r: nat) {
    r in s.readers && s.readers[r].Read?
  }

  /** Every cache delete of the run succeeds, and no row is written while a reader is about to write the cache. */
  ghost predicate Tidy(s: State, es: seq<Event>)
    requires Valid(s, es)
    decreases |es|
  {
    es == []
    || (&& (es[0].DropEntry? ==> !es[0].fails)
        && (es[0].WriteRow? ==> forall r :: !Straddling(s, r))
        && Tidy(Apply(s, es[0]), es[1..]))
  }

  /** The answer that the step gives, if it gives one, is the current row. */
  ghost predicate AnswersCurrent(s: State, e: Event)
    requires Enabled(s, e)
  {
    Apply(s, e).answers == s.answers || Apply(s, e).answers == s.answers + [Answer(s.now, Current(s))]
  }

  /** Every answer that is given while no writer has still to delete the key is the current row. */
  ghost predicate QuietAnswersCurrent(s: State, es: seq<Event>)
    requires Valid(s, es)
    decreases |es|
  {
    es == [] || ((s.writers == {} ==> AnswersCurrent(s, es[0])) && QuietAnswersCurrent(Apply(s, es[0]), es[1..]))
  }

  ghost predicate ReadersCurrent(s: State)
    requires s.versions != []
  {
    forall r :: Straddling(s, r) ==> Current(s) == Some(s.readers[r].v)
  }

  ghost predicate TidyInv(s: State) {
    && s.versions != []
    && ReadersCurrent(s)
    && (s.writers == {} && s.entry.Some? ==> Current(s) == Some(s.entry.value.0))
  }

  lemma TidyStep(s: State, e: Event)
    requires TidyInv(s) && Enabled(s, e)
    requires e.DropEntry? ==> !e.fails
    requires e.WriteRow? ==> forall r :: !Straddling(s, r)
    ensures TidyInv(Apply(s, e))
    ensures s.writers == {} ==> AnswersCurrent(s, e)
  {
    var s' := Apply(s, e);
    forall r | Straddling(s', r) ensures Current(s') == Some(s'.readers[r].v) {
      assert !e.WriteRow? || Straddling(s, r);
    }
    if e.SetEntry? {
      assert Straddling(s, e.r);
    }
    if e.WriteRow? {
      assert e.w in s'.writers;
    }
  }

  lemma {:induction false} TidyFrom(s: State, es: seq<Event>)
    requires TidyInv(s) && Valid(s, es) && Tidy(s, es)
    ensures TidyInv(Exec(s, es)) && QuietAnswersCurrent(s, es)
    decreases |es|
  {
    if es != [] {
      TidyStep(s, es[0]);
      TidyFrom(Apply(s, es[0]), es[1..]);
    }
  }

  /**
   When no cache delete fails and no reader straddles a database write, every answer given between the writers is the
   current row, whatever reads and cache writes fail; and then the cache holds the current row or nothing.
   */
  lemma NoStraddlingNoStaleAnswer(now: Time, row: Row, es: seq<Event>)
    requires Valid(Init(now, row), es) && Tidy(Init(now, row), es)
    ensures QuietAnswersCurrent(Init(now, row), es)
    ensures var s := Exec(Init(now, row), es);
            && s.versions != []
            && (s.writers == {} && s.entry.Some? ==> Current(s) == Some(s.entry.value.0))
  {
    TidyFrom(Init(now, row), es);
  }

  /** The live entry and the value that any reader is about to cache are the current row. */
  ghost predicate Fresh(s: State)
    requires s.versions != []
  {
    && (s.entry.Some? && s.now < s.entry.value.1 ==> Current(s) == Some(s.entry.value.0))
    && ReadersCurrent(s)
  }

  /** Every answer of the run is the current row. */
  ghost predicate AllAnswersCurrent(s: State, es: seq<Event>)
    requires Valid(s, es)
    decreases |es|
  {
    es == [] || (AnswersCurrent(s, es[0]) && AllAnswersCurrent(Apply(s, es[0]), es[1..]))
  }

  lemma FreshStep(s: State, e: Event)
    requires s.versions != [] && Fresh(s) && Enabled(s, e) && !e.WriteRow?
    ensures Apply(s, e).versions == s.versions && Fresh(Apply(s, e)) && AnswersCurrent(s, e)
  {
    var s' := Apply(s, e);
    forall r | Straddling(s', r) ensures Current(s') == Some(s'.readers[r].v) {
      assert e.ReadRow? || Straddling(s, r);
    }
    if e.SetEntry? {
      assert Straddling(s, e.r);
    }
  }

  lemma {:induction false} FreshFrom(s: State, es: seq<Event>)
    requires s.versions != [] && Fresh(s) && Valid(s, es)
    requires forall e :: e in es ==> !e.WriteRow?
    ensures AllAnswersCurrent(s, es)
    decreases |es|
  {
    if es != [] {
      FreshStep(s, es[0]);
      FreshFrom(Apply(s, es[0]), es[1..]);
    }
  }

  /** All answers stay current in every continuation in which nobody writes the row. */
  ghost predicate StaysCurrent(s: State) {
    forall es: seq<Event> :: Valid(s, es) && (forall e :: e in es ==> !e.WriteRow?) ==> AllAnswersCurrent(s, es)
  }

  lemma {:induction false} UnusedNumber(used: set<nat>) returns (r: nat)
    ensures forall k :: k in used ==> k < r
    decreases |used|
  {
    if used == {} {
      r := 0;
    } else {
      var k :| k in used;
      var rest := UnusedNumber(used - {k});
      r := if k < rest then rest else k + 1;
      assert forall j :: j in used ==> j == k || j in used - {k};
    }
  }

  /** One step shows a live entry, or a value about to be cached, that is not the current row. */
  lemma StaleShows(s: State) returns (e: Event)
    requires s.versions != [] && !Fresh(s)
    ensures Enabled(s, e) && !e.WriteRow? && !AnswersCurrent(s, e)
  {
    if s.entry.Some? && s.now < s.entry.value.1 && Current(s) != Some(s.entry.value.0) {
      var r := UnusedNumber(s.readers.Keys);
      assert r !in s.readers;
      e := Lookup(r, false);
      assert Apply(s, e).answers[|s.answers|] == Answer(s.now, Some(s.entry.value.0));
    } else {
      var r :| Straddling(s, r) && Current(s) != Some(s.readers[r].v);
      e := SetEntry(r, false);
      assert Apply(s, e).answers[|s.answers|] == Answer(s.now, Some(s.readers[r].v));
    }
  }

  /**
   Until the next write all answers are current exactly when the live entry and the values that readers are about
   to cache are.
   */
  lemma StaysCurrentIff(s: State)
    requires s.versions != []
    ensures StaysCurrent(s) <==> Fresh(s)
  {
    if Fresh(s) {
      forall es: seq<Event> | Valid(s, es) && (forall e :: e in es ==> !e.WriteRow?) ensures AllAnswersCurrent(s, es) {
        FreshFrom(s, es);
      }
    } else {
      var e := StaleShows(s);
      assert [e][1..] == [] && Valid(Apply(s, e), []);
      assert Valid(s, [e]) && !AllAnswersCurrent(s, [e]);
    }
  }

  /**
   Whatever happens between a write and its cache delete, the delete keeps outdated rows out of all answers until the
   next write exactly when no reader still holds one to cache as the delete lands.
   */
  lemma DeleteKeepsOutIff(s: State, w: nat)
    requires s.versions != [] && w in s.writers
    ensures StaysCurrent(Apply(s, DropEntry(w, false))) <==> ReadersCurrent(s)
  {
    var s' := Apply(s, DropEntry(w, false));
    StaysCurrentIff(s');
    assert s'.readers == s.readers && Current(s') == Current(s) && s'.entry == None;
    assert forall r :: Straddling(s', r) <==> Straddling(s, r);
  }

  /** Reader r is about to cache a row that is not the current one. */
  ghost predicate Outdated(s: State, r: nat) {
    s.versions != [] && Straddling(s, r) && Current(s) != Some(s.readers[r].v)
  }

  /** The reader makes its cache write in the run, whether or not it succeeds. */
  predicate Saves(es: seq<Event>, r: nat) {
    exists e :: e in es && e.SetEntry? && e.r == r
  }

  lemma OutdatedStepIff(s: State, e: Event, r: nat)
    requires Enabled(s, e) && !e.WriteRow?
    ensures Apply(s, e).versions == s.versions
    ensures Outdated(Apply(s, e), r) <==> Outdated(s, r) && !(e.SetEntry? && e.r == r)
  {
  }

  /** Without further writes an outdated reader stays so until its cache write, and no reader becomes outdated. */
  lemma {:induction false} OutdatedIff(s: State, es: seq<Event>, r: nat)
    requires Valid(s, es) && forall e :: e in es ==> !e.WriteRow?
    ensures Outdated(Exec(s, es), r) <==> Outdated(s, r) && !Saves(es, r)
    decreases |es|
  {
    if es != [] {
      OutdatedStepIff(s, es[0], r);
      OutdatedIff(Apply(s, es[0]), es[1..], r);
      assert forall e :: e in es <==> e == es[0] || e in es[1..];
    }
  }

  lemma {:induction false} VersionsStay(s: State, es: seq<Event>)
    requires Valid(s, es) && forall e :: e in es ==> !e.WriteRow?
    ensures Exec(s, es).versions == s.versions
    decreases |es|
  {
    if es != [] {
      VersionsStay(Apply(s, es[0]), es[1..]);
    }
  }

  /**
   A write that changes the row, any steps es of other requests, then the writer's cache delete: the old row stays out
   of all answers until the next write exactly when every reader that straddles the write has made its cache write
   before the delete.
   */
  lemma WriteKeepsOutIff(s: State, w: nat, row: Row, es: seq<Event>)
    requires Enabled(s, WriteRow(w, row)) && ReadersCurrent(s) && row != Current(s)
    requires Valid(Apply(s, WriteRow(w, row)), es) && forall e :: e in es ==> !e.WriteRow?
    requires w in Exec(Apply(s, WriteRow(w, row)), es).writers
    ensures var s' := Exec(Apply(s, WriteRow(w, row)), es);
            && Enabled(s', DropEntry(w, false))
            && (StaysCurrent(Apply(s', DropEntry(w, false))) <==> forall r :: Straddling(s, r) ==> Saves(es, r))
  {
    var s1 := Apply(s, WriteRow(w, row));
    var s' := Exec(s1, es);
    VersionsStay(s1, es);
    DeleteKeepsOutIff(s', w);
    forall r ensures Outdated(s', r) <==> Straddling(s, r) && !Saves(es, r) {
      OutdatedIff(s1, es, r);
      assert Straddling(s, r) ==> Current(s) == Some(s.readers[r].v);
    }
    if ReadersCurrent(s') {
      forall r ensures !Outdated(s', r) {
        assert Straddling(s', r) ==> Current(s') == Some(s'.readers[r].v);
      }
    } else {
      var r :| Straddling(s', r) && Current(s') != Some(s'.readers[r].v);
      assert Outdated(s', r);
    }
  }
}
