/**
 The per-IP rate limiter with its sweep of stale clients. Time and tokens are reals; the bucket starts full, refills
 at `rps` and is capped at `burst`. The question is whether forgetting a client can be noticed.
 */
module RateLimit {
  type Duration = d: real | 0.0 <= d

  datatype Config = Config(rps: real, burst: int)

  /** A client is dropped when it was not seen for longer than this many seconds. */
  const INTERVAL: real := 180.0

  datatype Bucket = Bucket(tokens: real, last: real)

  datatype Client = Client(bucket: Bucket, lastSeen: real)

  type Clients = map<string, Client>

  /** Tokens gained per second; a limiter with no positive rate gains none. */
  function Rate(c: Config): real {
    if c.rps > 0.0 then c.rps else 0.0
  }

  /** The tokens in a bucket at time t. */
  function Level(c: Config, b: Bucket, t: real): real {
    var gained := if t > b.last then (t - b.last) * Rate(c) else 0.0;
    if b.tokens + gained > c.burst as real then c.burst as real else b.tokens + gained
  }

  function Full(c: Config, t: real): Bucket {
    Bucket(c.burst as real, t)
  }

  /** Takes one token if there is one; a refused request changes nothing. */
  function Allow(c: Config, b: Bucket, t: real): (Bucket, bool) {
    var level := Level(c, b, t);
    if level >= 1.0 then (Bucket(level - 1.0, t), true) else (b, false)
  }

  /** The client of an ip after a lookup at time t: the known one, or a new one with a full bucket. */
  function Seen(c: Config, clients: Clients, ip: string, t: real): Client {
    if ip in clients then clients[ip].(lastSeen := t) else Client(Full(c, t), t)
  }

  function Requested(c: Config, clients: Clients, ip: string, t: real): (Clients, bool) {
    var client := Seen(c, clients, ip, t);
    var (bucket, ok) := Allow(c, client.bucket, t);
    (clients[ip := client.(bucket := bucket)], ok)
  }

  function Swept(clients: Clients, t: real): Clients {
    map ip | ip in clients && !(t - clients[ip].lastSeen > INTERVAL) :: clients[ip]
  }

  datatype State = State(now: real, clients: Clients)

  datatype Event = Request(ip: string) | Sweep | Tick(d: Duration)

  function Init(): State { State(0.0, map[]) }

  /** `evict` is whether sweeps drop clients; a limiter that never forgets ignores them. */
  function Apply(c: Config, evict: bool, s: State, e: Event): State {
    match e
    case Request(ip) => s.(clients := Requested(c, s.clients, ip, s.now).0)
    case Sweep => if evict then s.(clients := Swept(s.clients, s.now)) else s
    case Tick(d) => s.(now := s.now + d)
  }

  function Exec(c: Config, evict: bool, s: State, es: seq<Event>): State
    decreases |es|
  {
    if es == [] then s else Exec(c, evict, Apply(c, evict, s, es[0]), es[1..])
  }

  function Answer(c: Config, s: State, e: Event): seq<bool> {
    if e.Request? then [Requested(c, s.clients, e.ip, s.now).1] else []
  }

  /** The allow/deny answers of a run, in order. */
  function Answers(c: Config, evict: bool, s: State, es: seq<Event>): seq<bool>
    decreases |es|
  {
    if es == [] then [] else Answer(c, s, es[0]) + Answers(c, evict, Apply(c, evict, s, es[0]), es[1..])
  }

  /** What an ip has left at time t; one that is not in the map would start full. */
  function LevelOf(c: Config, s: State, ip: string, t: real): real {
    if ip in s.clients then Level(c, s.clients[ip].bucket, t) else c.burst as real
  }

  /** The condition on the configuration: a bucket refills completely while its client goes unseen. */
  predicate RefillsInTime(c: Config) {
    c.burst <= 0 || c.burst as real <= INTERVAL * c.rps
  }

  // ---------- eviction cannot be noticed ----------

  ghost predicate ClientOk(c: Config, s: State, ip: string)
    requires ip in s.clients
  {
    var Client(b, seen) := s.clients[ip];
    && b.last <= seen <= s.now
    && (if c.burst <= 0 then b.tokens == c.burst as real else 0.0 <= b.tokens <= c.burst as real)
  }

  ghost predicate Inv(c: Config, s: State) {
    forall ip :: ip in s.clients ==> ClientOk(c, s, ip)
  }

  lemma MulMono(a: real, b: real, r: real)
    requires a <= b && 0.0 <= r
    ensures a * r <= b * r
  {
  }

  lemma LevelBounds(c: Config, b: Bucket, t: real)
    ensures Level(c, b, t) <= c.burst as real
    ensures b.tokens <= c.burst as real ==> b.tokens <= Level(c, b, t)
  {
  }

  lemma LevelRange(c: Config, s: State, ip: string, t: real)
    requires Inv(c, s)
    ensures LevelOf(c, s, ip, t) <= c.burst as real
    ensures c.burst >= 0 ==> 0.0 <= LevelOf(c, s, ip, t)
    ensures c.burst <= 0 ==> LevelOf(c, s, ip, t) == c.burst as real
  {
    if ip in s.clients {
      assert ClientOk(c, s, ip);
      LevelBounds(c, s.clients[ip].bucket, t);
    }
  }

  lemma StepKeepsInv(c: Config, evict: bool, s: State, e: Event)
    requires Inv(c, s)
    ensures Inv(c, Apply(c, evict, s, e))
  {
  }

  lemma {:induction false} RunKeepsInv(c: Config, evict: bool, s: State, es: seq<Event>)
    requires Inv(c, s)
    ensures Inv(c, Exec(c, evict, s, es))
    decreases |es|
  {
    if es != [] {
      StepKeepsInv(c, evict, s, es[0]);
      RunKeepsInv(c, evict, Apply(c, evict, s, es[0]), es[1..]);
    }
  }

  lemma FullAgain(c: Config, b: Bucket, t: real)
    requires RefillsInTime(c) && c.burst > 0 && b.tokens >= 0.0 && t - b.last > INTERVAL
    ensures Level(c, b, t) == c.burst as real
  {
    var gained := (t - b.last) * Rate(c);
    assert c.rps > 0.0 && Rate(c) == c.rps;
    MulMono(INTERVAL, t - b.last, Rate(c));
    assert gained >= INTERVAL * c.rps >= c.burst as real;
  }

  /** A client that a sweep drops had a full bucket, so what any ip has left does not change. */
  lemma SweepKeepsLevels(c: Config, s: State, ip: string, t: real)
    requires RefillsInTime(c) && Inv(c, s) && t >= s.now
    ensures LevelOf(c, Apply(c, true, s, Sweep), ip, t) == LevelOf(c, s, ip, t)
  {
    if ip in s.clients && s.now - s.clients[ip].lastSeen > INTERVAL {
      assert ClientOk(c, s, ip);
      LevelRange(c, s, ip, t);
      if c.burst > 0 {
        FullAgain(c, s.clients[ip].bucket, t);
      }
    }
  }

  /** Two limiters in which every ip has the same left, now and at every later time without requests. */
  ghost predicate Agree(c: Config, a: State, b: State) {
    a.now == b.now && forall ip, t :: t >= a.now ==> LevelOf(c, a, ip, t) == LevelOf(c, b, ip, t)
  }

  /** What a request leaves behind depends only on what its ip had left. */
  lemma RequestLevel(c: Config, s: State, ip: string, k: string, t: real)
    requires Inv(c, s) && t >= s.now
    ensures Requested(c, s.clients, ip, s.now).1 <==> LevelOf(c, s, ip, s.now) >= 1.0
    ensures LevelOf(c, Apply(c, true, s, Request(ip)), k, t)
            == if k == ip && LevelOf(c, s, ip, s.now) >= 1.0
               then Level(c, Bucket(LevelOf(c, s, ip, s.now) - 1.0, s.now), t) else LevelOf(c, s, k, t)
  {
    var full := Full(c, s.now);
    LevelBounds(c, full, s.now);
    LevelBounds(c, full, t);
    assert Level(c, full, s.now) == c.burst as real && Level(c, full, t) == c.burst as real;
    var client := Seen(c, s.clients, ip, s.now);
    assert Level(c, client.bucket, s.now) == LevelOf(c, s, ip, s.now);
    assert Level(c, client.bucket, t) == LevelOf(c, s, ip, t);
    var s' := Apply(c, true, s, Request(ip));
    assert s'.clients == s.clients[ip := client.(bucket := Allow(c, client.bucket, s.now).0)];
  }

  lemma StepKeepsAgree(c: Config, a: State, b: State, e: Event)
    requires RefillsInTime(c) && Inv(c, a) && Inv(c, b) && Agree(c, a, b)
    ensures Answer(c, a, e) == Answer(c, b, e)
    ensures Agree(c, Apply(c, true, a, e), Apply(c, false, b, e))
  {
    var a', b' := Apply(c, true, a, e), Apply(c, false, b, e);
    if e.Request? {
      RequestLevel(c, a, e.ip, e.ip, a.now);
      RequestLevel(c, b, e.ip, e.ip, b.now);
    }
    forall ip, t | t >= a'.now ensures LevelOf(c, a', ip, t) == LevelOf(c, b', ip, t) {
      assert LevelOf(c, a, ip, t) == LevelOf(c, b, ip, t);
      match e
      case Sweep => SweepKeepsLevels(c, a, ip, t);
      case Request(k) =>
        RequestLevel(c, a, k, ip, t);
        RequestLevel(c, b, k, ip, t);
      case Tick(_) =>
    }
  }

  lemma {:induction false} EvictionTransparentFrom(c: Config, a: State, b: State, es: seq<Event>)
    requires RefillsInTime(c) && Inv(c, a) && Inv(c, b) && Agree(c, a, b)
    ensures Answers(c, true, a, es) == Answers(c, false, b, es)
    decreases |es|
  {
    if es != [] {
      StepKeepsAgree(c, a, b, es[0]);
      StepKeepsInv(c, true, a, es[0]);
      StepKeepsInv(c, false, b, es[0]);
      EvictionTransparentFrom(c, Apply(c, true, a, es[0]), Apply(c, false, b, es[0]), es[1..]);
    }
  }

  /** The limiter that sweeps answers every sequence of requests, sweeps and pauses like one that never forgets. */
  ghost predicate Transparent(c: Config) {
    forall es :: Answers(c, true, Init(), es) == Answers(c, false, Init(), es)
  }

  /** Sweeps come from a ticker, exactly every INTERVAL seconds; `since` is the time since its start or last tick. */
  predicate Paced(es: seq<Event>, since: real)
    decreases |es|
  {
    es == []
    || match es[0]
       case Request(_) => Paced(es[1..], since)
       case Sweep => since == INTERVAL && Paced(es[1..], 0.0)
       case Tick(d) => since + d <= INTERVAL && Paced(es[1..], since + d)
  }

  /** The same of the sequences in which the sweeps come from the ticker. */
  ghost predicate PacedTransparent(c: Config) {
    forall es :: Paced(es, 0.0) ==> Answers(c, true, Init(), es) == Answers(c, false, Init(), es)
  }

  // ---------- how many requests are admitted ----------

  /** How many requests of an ip a run admits. */
  function Admitted(c: Config, evict: bool, s: State, es: seq<Event>, ip: string): nat
    decreases |es|
  {
    if es == [] then 0
    else (if es[0] == Request(ip) && Answer(c, s, es[0])[0] then 1 else 0)
         + Admitted(c, evict, Apply(c, evict, s, es[0]), es[1..], ip)
  }

  /** How long a run takes. */
  function Elapsed(es: seq<Event>): Duration {
    if es == [] then 0.0 else (if es[0].Tick? then es[0].d else 0.0) + Elapsed(es[1..])
  }

  /** gain(e) summed over a run. */
  ghost function Total(gain: Event -> real, es: seq<Event>): real {
    if es == [] then 0.0 else gain(es[0]) + Total(gain, es[1..])
  }

  ghost function TickGain(c: Config): Event -> real {
    (e: Event) => if e.Tick? then e.d * Rate(c) else 0.0
  }

  lemma Distribute(a: real, b: real, r: real)
    ensures a * r + b * r == (a + b) * r
  {
  }

  lemma {:induction false} TotalGain(c: Config, es: seq<Event>)
    ensures Total(TickGain(c), es) == Elapsed(es) * Rate(c)
  {
    if es != [] {
      TotalGain(c, es[1..]);
      Distribute(if es[0].Tick? then es[0].d else 0.0, Elapsed(es[1..]), Rate(c));
    }
  }

  lemma TickGains(c: Config, s: State, d: Duration, ip: string)
    requires Inv(c, s)
    ensures LevelOf(c, s, ip, s.now + d) <= LevelOf(c, s, ip, s.now) + d * Rate(c)
  {
  }

  ghost function Spent(c: Config, s: State, e: Event, ip: string): real {
    if e == Request(ip) && Answer(c, s, e)[0] then 1.0 else 0.0
  }

  lemma SpendRequest(c: Config, evict: bool, s: State, k: string, ip: string)
    requires Inv(c, s)
    ensures var s' := Apply(c, evict, s, Request(k));
            LevelOf(c, s', ip, s'.now) + Spent(c, s, Request(k), ip) <= LevelOf(c, s, ip, s.now)
  {
    RequestLevel(c, s, k, ip, s.now);
  }

  lemma SpendStep(c: Config, evict: bool, s: State, e: Event, ip: string)
    requires (evict ==> RefillsInTime(c)) && Inv(c, s)
    ensures LevelNow(c, ip)(Apply(c, evict, s, e)) + Spent(c, s, e, ip) <= LevelNow(c, ip)(s) + TickGain(c)(e)
  {
    match e
    case Request(k) =>
      SpendRequest(c, evict, s, k, ip);
      assert TickGain(c)(e) == 0.0;
    case Sweep => if evict { SweepKeepsLevels(c, s, ip, s.now); }
    case Tick(d) => TickGains(c, s, d, ip);
  }

  ghost function LevelNow(c: Config, ip: string): State -> real {
    (s: State) => LevelOf(c, s, ip, s.now)
  }

  /** A level that every step keeps within its gains and what it spends does so over whole runs. */
  lemma {:induction false} SpendRun(
    c: Config, evict: bool, level: State -> real, gain: Event -> real, s: State, es: seq<Event>, ip: string)
    requires Inv(c, s)
    requires forall s, e :: Inv(c, s) ==> level(Apply(c, evict, s, e)) + Spent(c, s, e, ip) <= level(s) + gain(e)
    ensures level(Exec(c, evict, s, es)) + Admitted(c, evict, s, es, ip) as real <= level(s) + Total(gain, es)
    decreases |es|
  {
    if es != [] {
      StepKeepsInv(c, evict, s, es[0]);
      SpendRun(c, evict, level, gain, Apply(c, evict, s, es[0]), es[1..], ip);
    }
  }

  lemma SpendWithin(c: Config, evict: bool, level: State -> real, s: State, es: seq<Event>, ip: string)
    requires Inv(c, s)
    requires forall s, e :: Inv(c, s) ==>
               level(Apply(c, evict, s, e)) + Spent(c, s, e, ip) <= level(s) + TickGain(c)(e)
    requires forall s :: Inv(c, s) ==> 0.0 <= level(s)
    ensures Admitted(c, evict, s, es, ip) as real <= level(s) + Elapsed(es) * Rate(c)
  {
    SpendRun(c, evict, level, TickGain(c), s, es, ip);
    RunKeepsInv(c, evict, s, es);
    TotalGain(c, es);
  }

  /** A run admits no more requests of an ip than it had left at the start and gained since. */
  lemma SpendBound(c: Config, evict: bool, s: State, es: seq<Event>, ip: string)
    requires (evict ==> RefillsInTime(c)) && Inv(c, s) && c.burst >= 0
    ensures Admitted(c, evict, s, es, ip) as real <= LevelOf(c, s, ip, s.now) + Elapsed(es) * Rate(c)
  {
    forall s, e | Inv(c, s)
      ensures LevelNow(c, ip)(Apply(c, evict, s, e)) + Spent(c, s, e, ip) <= LevelNow(c, ip)(s) + TickGain(c)(e)
    {
      SpendStep(c, evict, s, e, ip);
    }
    forall s | Inv(c, s) ensures 0.0 <= LevelNow(c, ip)(s) {
      LevelRange(c, s, ip, s.now);
    }
    SpendWithin(c, evict, LevelNow(c, ip), s, es, ip);
  }

  /**
   In the window es after the run pre, the ip gets at most `burst` requests (none when it is negative) and `rps` more
   for each second.
   */
  ghost predicate WithinLimit(c: Config, pre: seq<Event>, es: seq<Event>, ip: string) {
    var burst := if c.burst > 0 then c.burst else 0;
    Admitted(c, true, Exec(c, true, Init(), pre), es, ip) as real <= burst as real + Elapsed(es) * Rate(c)
  }

  /** That holds for every ip in every window of every run. */
  ghost predicate WindowBounded(c: Config) {
    forall pre, es, ip :: WithinLimit(c, pre, es, ip)
  }

  /** The same of the runs in which the sweeps come from the ticker. */
  ghost predicate PacedWindowBounded(c: Config) {
    forall pre, es, ip :: Paced(pre + es, 0.0) ==> WithinLimit(c, pre, es, ip)
  }

  /** A burst of zero or less admits nothing. */
  lemma {:induction false} NoBurstNothingAdmitted(c: Config, evict: bool, s: State, es: seq<Event>, ip: string)
    requires Inv(c, s) && c.burst <= 0
    ensures Admitted(c, evict, s, es, ip) == 0
    decreases |es|
  {
    if es != [] {
      LevelRange(c, s, ip, s.now);
      StepKeepsInv(c, evict, s, es[0]);
      NoBurstNothingAdmitted(c, evict, Apply(c, evict, s, es[0]), es[1..], ip);
    }
  }

  lemma WindowBound(c: Config, pre: seq<Event>, es: seq<Event>, ip: string)
    requires RefillsInTime(c)
    ensures WithinLimit(c, pre, es, ip)
  {
    var s := Exec(c, true, Init(), pre);
    RunKeepsInv(c, true, Init(), pre);
    if c.burst > 0 {
      SpendBound(c, true, s, es, ip);
      LevelRange(c, s, ip, s.now);
    } else {
      NoBurstNothingAdmitted(c, true, s, es, ip);
      MulMono(0.0, Elapsed(es), Rate(c));
    }
  }

  // ---------- and exactly when ----------

  function Requests(ip: string, n: nat): seq<Event> {
    if n == 0 then [] else [Request(ip)] + Requests(ip, n - 1)
  }

  lemma {:induction false} AdmittedAppend(c: Config, evict: bool, s: State, a: seq<Event>, b: seq<Event>, ip: string)
    ensures Exec(c, evict, s, a + b) == Exec(c, evict, Exec(c, evict, s, a), b)
    ensures Admitted(c, evict, s, a + b, ip)
            == Admitted(c, evict, s, a, ip) + Admitted(c, evict, Exec(c, evict, s, a), b, ip)
    decreases |a|
  {
    if a == [] {
      assert a + b == b;
    } else {
      AdmittedAppend(c, evict, Apply(c, evict, s, a[0]), a[1..], b, ip);
      assert (a + b)[1..] == a[1..] + b;
    }
  }

  /** Equal answers admit equally many requests of each ip. */
  lemma {:induction false} SameAnswersSameAdmitted(c: Config, a: State, b: State, es: seq<Event>, ip: string)
    requires Answers(c, true, a, es) == Answers(c, false, b, es)
    ensures Admitted(c, true, a, es, ip) == Admitted(c, false, b, es, ip)
    decreases |es|
  {
    if es != [] {
      var a', b' := Apply(c, true, a, es[0]), Apply(c, false, b, es[0]);
      var x, y := Answer(c, a, es[0]), Answer(c, b, es[0]);
      var restA, restB := Answers(c, true, a', es[1..]), Answers(c, false, b', es[1..]);
      assert x + restA == y + restB && |x| == |y|;
      assert x == (x + restA)[..|x|] && y == (y + restB)[..|y|];
      assert restA == (x + restA)[|x|..] && restB == (y + restB)[|y|..];
      SameAnswersSameAdmitted(c, a', b', es[1..], ip);
    }
  }

  /** As many requests at one instant as there are tokens are all admitted. */
  lemma {:induction false} BurstAtOnce(c: Config, evict: bool, s: State, ip: string, n: nat)
    requires Inv(c, s) && LevelOf(c, s, ip, s.now) >= n as real
    ensures Admitted(c, evict, s, Requests(ip, n), ip) == n
    ensures var s' := Exec(c, evict, s, Requests(ip, n));
            s'.now == s.now && LevelOf(c, s', ip, s.now) == LevelOf(c, s, ip, s.now) - n as real
    ensures n > 0 ==> var s' := Exec(c, evict, s, Requests(ip, n)); ip in s'.clients && s'.clients[ip].lastSeen == s.now
    decreases n
  {
    if n > 0 {
      RequestLevel(c, s, ip, ip, s.now);
      LevelRange(c, s, ip, s.now);
      StepKeepsInv(c, evict, s, Request(ip));
      BurstAtOnce(c, evict, Apply(c, evict, s, Request(ip)), ip, n - 1);
      assert Requests(ip, n)[1..] == Requests(ip, n - 1);
    }
  }

  /** A pause longer than the sweep interval, but not than two, in which an empty bucket does not fill up. */
  lemma ShortPause(c: Config) returns (d: Duration)
    requires !RefillsInTime(c)
    ensures INTERVAL < d <= 2.0 * INTERVAL && d * Rate(c) < c.burst as real
  {
    if c.rps <= 0.0 {
      d := 2.0 * INTERVAL;
    } else {
      var missing := c.burst as real - INTERVAL * c.rps;
      var extra := missing / (2.0 * c.rps);
      assert extra * (2.0 * c.rps) == missing;
      assert extra > 0.0;
      var most := INTERVAL + extra;
      assert most * c.rps == INTERVAL * c.rps + extra * c.rps;
      d := if most <= 2.0 * INTERVAL then most else 2.0 * INTERVAL;
      MulMono(d, most, c.rps);
    }
  }

  /** Wait until d seconds before the second tick of the ticker. */
  function Lead(d: Duration): seq<Event>
    requires d <= 2.0 * INTERVAL
  {
    [Tick(2.0 * INTERVAL - d)]
  }

  /** The two sweeps; when the second one comes, d seconds have passed. */
  function TwoSweeps(d: Duration): seq<Event>
    requires INTERVAL <= d
  {
    [Tick(d - INTERVAL), Sweep, Tick(INTERVAL), Sweep]
  }

  /** Empty the bucket, wait for two sweeps, and try to empty it again. */
  function Probe(ip: string, burst: nat, d: Duration): seq<Event>
    requires INTERVAL <= d
  {
    Requests(ip, burst) + (TwoSweeps(d) + Requests(ip, burst))
  }

  lemma TwoSweepsRun(c: Config, evict: bool, s: State, d: Duration, ip: string)
    requires INTERVAL < d
    ensures var s1 := Apply(c, evict, Apply(c, evict, s, Tick(d - INTERVAL)), Sweep);
            var s' := Apply(c, evict, Apply(c, evict, s1, Tick(INTERVAL)), Sweep);
            && Exec(c, evict, s, TwoSweeps(d)) == s'
            && s'.now == s.now + d
    ensures Admitted(c, evict, s, TwoSweeps(d), ip) == 0
    ensures evict && (ip in s.clients ==> s.clients[ip].lastSeen == s.now) ==>
              ip !in Exec(c, evict, s, TwoSweeps(d)).clients
    ensures Elapsed(TwoSweeps(d)) == d
  {
    var es := TwoSweeps(d);
    var s1 := Apply(c, evict, s, es[0]);
    var s2 := Apply(c, evict, s1, es[1]);
    var s3 := Apply(c, evict, s2, es[2]);
    var s4 := Apply(c, evict, s3, es[3]);
    assert es[1..] == [Sweep, Tick(INTERVAL), Sweep] && es[1..][1..] == [Tick(INTERVAL), Sweep];
    assert es[1..][1..][1..] == [Sweep] && es[1..][1..][1..][1..] == [];
    assert Exec(c, evict, s3, [Sweep]) == s4 && Admitted(c, evict, s3, [Sweep], ip) == 0;
    assert Exec(c, evict, s2, es[1..][1..]) == s4 && Admitted(c, evict, s2, es[1..][1..], ip) == 0;
    assert Exec(c, evict, s1, es[1..]) == s4 && Admitted(c, evict, s1, es[1..], ip) == 0;
    assert Elapsed([Sweep]) == 0.0 && Elapsed(es[1..][1..]) == INTERVAL && Elapsed(es[1..]) == INTERVAL;
  }

  lemma {:induction false} RequestsArePaced(ip: string, n: nat, es: seq<Event>, since: real)
    ensures Paced(Requests(ip, n) + es, since) <==> Paced(es, since)
    decreases n
  {
    if n == 0 {
      assert Requests(ip, n) + es == es;
    } else {
      RequestsArePaced(ip, n - 1, es, since);
      assert (Requests(ip, n) + es)[1..] == Requests(ip, n - 1) + es;
    }
  }

  lemma ProbeIsPaced(ip: string, burst: nat, d: Duration)
    requires INTERVAL < d <= 2.0 * INTERVAL
    ensures Paced(Lead(d) + Probe(ip, burst, d), 0.0)
  {
    var again := Requests(ip, burst);
    var since := 2.0 * INTERVAL - d;
    var tail := TwoSweeps(d) + again;
    assert again + [] == again;
    RequestsArePaced(ip, burst, [], 0.0);
    assert tail[1..] == [Sweep, Tick(INTERVAL), Sweep] + again;
    assert tail[1..][1..] == [Tick(INTERVAL), Sweep] + again;
    assert tail[1..][1..][1..] == [Sweep] + again && tail[1..][1..][1..][1..] == again;
    assert Paced(again, 0.0) && Paced([Sweep] + again, INTERVAL);
    assert Paced(tail[1..][1..], 0.0) && Paced(tail[1..], INTERVAL);
    assert Paced(tail, since);
    RequestsArePaced(ip, burst, tail, since);
    assert (Lead(d) + Probe(ip, burst, d))[1..] == Probe(ip, burst, d);
  }

  lemma {:induction false} RequestsTakeNoTime(ip: string, n: nat)
    ensures Elapsed(Requests(ip, n)) == 0.0
    decreases n
  {
    if n > 0 {
      RequestsTakeNoTime(ip, n - 1);
      assert Requests(ip, n)[1..] == Requests(ip, n - 1);
    }
  }

  lemma {:induction false} ElapsedAppend(a: seq<Event>, b: seq<Event>)
    ensures Elapsed(a + b) == Elapsed(a) + Elapsed(b)
  {
    if a == [] {
      assert a + b == b;
    } else {
      ElapsedAppend(a[1..], b);
      assert (a + b)[1..] == a[1..] + b;
    }
  }

  lemma ProbeTakes(ip: string, n: nat, d: Duration)
    requires INTERVAL < d
    ensures Elapsed(TwoSweeps(d) + Requests(ip, n)) == d && Elapsed(Probe(ip, n, d)) == d
  {
    RequestsTakeNoTime(ip, n);
    ElapsedAppend(TwoSweeps(d), Requests(ip, n));
    ElapsedAppend(Requests(ip, n), TwoSweeps(d) + Requests(ip, n));
    TwoSweepsRun(Config(0.0, 0), false, Init(), d, ip);
  }

  lemma EmptyBucketTail(c: Config, s: State, ip: string, n: nat, d: Duration, gain: real)
    requires Inv(c, s) && LevelOf(c, s, ip, s.now) == 0.0 && c.burst >= 0
    requires INTERVAL < d && d * Rate(c) == gain
    ensures Admitted(c, false, s, TwoSweeps(d) + Requests(ip, n), ip) as real <= gain
  {
    ProbeTakes(ip, n, d);
    SpendBound(c, false, s, TwoSweeps(d) + Requests(ip, n), ip);
  }

  /** Without sweeps fewer than twice the burst get through the probe. */
  lemma ProbeIsThrottled(c: Config, s: State, ip: string, d: Duration, gain: real)
    requires s.clients == map[] && c.burst > 0 && INTERVAL < d && d * Rate(c) == gain < c.burst as real
    ensures Admitted(c, false, s, Probe(ip, c.burst, d), ip) < 2 * c.burst
  {
    var n: nat := c.burst;
    BurstAtOnce(c, false, s, ip, n);
    RunKeepsInv(c, false, s, Requests(ip, n));
    EmptyBucketTail(c, Exec(c, false, s, Requests(ip, n)), ip, n, d, gain);
    AdmittedAppend(c, false, s, Requests(ip, n), TwoSweeps(d) + Requests(ip, n), ip);
  }

  lemma ProbeSweeps(c: Config, s: State, ip: string, d: Duration)
    requires s.clients == map[] && c.burst > 0 && INTERVAL < d
    ensures Admitted(c, true, s, Probe(ip, c.burst, d), ip) == 2 * c.burst
  {
    var n: nat := c.burst;
    var tail := TwoSweeps(d) + Requests(ip, n);
    var a := Exec(c, true, s, Requests(ip, n));
    BurstAtOnce(c, true, s, ip, n);
    AdmittedAppend(c, true, s, Requests(ip, n), tail, ip);
    RunKeepsInv(c, true, s, Requests(ip, n));
    TwoSweepsRun(c, true, a, d, ip);
    AdmittedAppend(c, true, a, TwoSweeps(d), Requests(ip, n), ip);
    RunKeepsInv(c, true, a, TwoSweeps(d));
    BurstAtOnce(c, true, Exec(c, true, a, TwoSweeps(d)), ip, n);
  }

  /** The sweeping limiter admits the whole probe, the one that never forgets does not. */
  lemma ProbeTellsApart(c: Config, ip: string) returns (d: Duration)
    requires !RefillsInTime(c)
    ensures INTERVAL < d <= 2.0 * INTERVAL && d * Rate(c) < c.burst as real && c.burst > 0
    ensures Paced(Lead(d) + Probe(ip, c.burst, d), 0.0)
    ensures Exec(c, true, Init(), Lead(d)) == Exec(c, false, Init(), Lead(d))
    ensures Admitted(c, true, Exec(c, true, Init(), Lead(d)), Probe(ip, c.burst, d), ip) == 2 * c.burst
    ensures Admitted(c, true, Init(), Lead(d) + Probe(ip, c.burst, d), ip) == 2 * c.burst
    ensures Admitted(c, false, Init(), Lead(d) + Probe(ip, c.burst, d), ip) < 2 * c.burst
  {
    d := ShortPause(c);
    ProbeIsPaced(ip, c.burst, d);
    var s := State(2.0 * INTERVAL - d, map[]);
    assert Lead(d)[1..] == [] && Exec(c, true, Init(), Lead(d)) == Exec(c, false, Init(), Lead(d)) == s;
    ProbeSweeps(c, s, ip, d);
    ProbeIsThrottled(c, s, ip, d, d * Rate(c));
    AdmittedAppend(c, true, Init(), Lead(d), Probe(ip, c.burst, d), ip);
    AdmittedAppend(c, false, Init(), Lead(d), Probe(ip, c.burst, d), ip);
    assert Admitted(c, true, Init(), Lead(d), ip) == Admitted(c, false, Init(), Lead(d), ip) == 0;
  }

  /**
   Forgetting idle clients is unobservable exactly when a bucket refills within the sweep interval, and it makes no
   difference whether sweeps come at any time or every INTERVAL seconds.
   */
  lemma TransparentIff(c: Config)
    ensures Transparent(c) <==> RefillsInTime(c)
    ensures PacedTransparent(c) <==> RefillsInTime(c)
  {
    if RefillsInTime(c) {
      forall es ensures Answers(c, true, Init(), es) == Answers(c, false, Init(), es) {
        EvictionTransparentFrom(c, Init(), Init(), es);
      }
    } else {
      var d := ProbeTellsApart(c, "ip");
      var es := Lead(d) + Probe("ip", c.burst, d);
      if Answers(c, true, Init(), es) == Answers(c, false, Init(), es) {
        SameAnswersSameAdmitted(c, Init(), Init(), es, "ip");
        assert false;
      }
    }
  }

  lemma ProbeExceeds(c: Config, ip: string) returns (pre: seq<Event>, es: seq<Event>)
    requires !RefillsInTime(c)
    ensures Paced(pre + es, 0.0) && !WithinLimit(c, pre, es, ip)
  {
    var d := ProbeTellsApart(c, ip);
    pre, es := Lead(d), Probe(ip, c.burst, d);
    ProbeTakes(ip, c.burst, d);
  }

  /** The same condition decides whether the rate limit itself is kept. */
  lemma WindowBoundedIff(c: Config)
    ensures WindowBounded(c) <==> RefillsInTime(c)
    ensures PacedWindowBounded(c) <==> RefillsInTime(c)
  {
    if RefillsInTime(c) {
      forall pre, es, ip ensures WithinLimit(c, pre, es, ip) {
        WindowBound(c, pre, es, ip);
      }
    } else {
      var pre, es := ProbeExceeds(c, "ip");
    }
  }

  // ---------- the object ----------

  class IPRateLimiter {
    const config: Config
    const enabled: bool
    var clients: Clients

    constructor (config: Config, enabled: bool)
      ensures this.config == config && this.enabled == enabled && clients == map[]
    {
      this.config, this.enabled := config, enabled;
      clients := map[];
    }

    method GetLimiter(ip: string, now: real) returns (bucket: Bucket)
      modifies this`clients
      ensures clients == old(clients)[ip := Seen(config, old(clients), ip, now)]
      ensures bucket == clients[ip].bucket
    {
      if ip !in clients {
        bucket := Bucket(config.burst as real, now);
        clients := clients[ip := Client(bucket, now)];
        return;
      }
      clients := clients[ip := clients[ip].(lastSeen := now)];
      bucket := clients[ip].bucket;
    }

    method CleanupStaleClients(now: real)
      modifies this`clients
      ensures clients == Swept(old(clients), now)
    {
      var left := clients.Keys;
      while left != {}
        invariant left <= old(clients).Keys
        invariant forall ip :: ip in clients <==>
                    ip in old(clients) && (ip in left || !(now - old(clients)[ip].lastSeen > INTERVAL))
        invariant forall ip :: ip in clients ==> clients[ip] == old(clients)[ip]
        decreases |left|
      {
        var ip :| ip in left;
        if now - clients[ip].lastSeen > INTERVAL {
          clients := clients - {ip};
        }
        left := left - {ip};
      }
    }

    /** True when the request is passed on. */
    method Handle(ip: string, now: real) returns (ok: bool)
      modifies this`clients
      ensures !enabled ==> ok && clients == old(clients)
      ensures enabled ==> (clients, ok) == Requested(config, old(clients), ip, now)
      ensures enabled && ip !in old(clients) ==> (ok <==> config.burst >= 1)
      ensures enabled && ip in old(clients) ==> (ok <==> Level(config, old(clients)[ip].bucket, now) >= 1.0)
    {
      if !enabled {
        return true;
      }
      var bucket := GetLimiter(ip, now);
      var (bucket', admitted) := Allow(config, bucket, now);
      var client := clients[ip].(bucket := bucket');
      clients := clients[ip := client];
      ok := admitted;
      assert clients == old(clients)[ip := client];
    }
  }
}
