/**
 The user use cases with and without Redis. `Plain` is the use case on the repository alone; `Cached` is what
 runs when Redis is enabled. The result: nobody can tell them apart unless a cache delete fails.
 */
module UserCache {
  import opened Common

  type Time = int

  const TTL: Time := 600_000_000_000

  datatype User = User(id: string, name: string, email: string, password: string, createdAt: Time, updatedAt: Time)

  datatype Response = Response(id: string, name: string, email: string, createdAt: Time, updatedAt: Time)

  function ToResponse(u: User): Response {
    Response(u.id, u.name, u.email, u.createdAt, u.updatedAt)
  }

  /** The users table, by primary key. */
  type Repo = map<string, User>

  datatype Error = NotFound | AlreadyExists | HashFailed | Rejected

  /** A request; `newId`, `hash` and `now` are what the UUID generator, the password hasher and the clock give it. */
  datatype Op =
    | Register(newId: string, name: string, email: string, hash: Option<string>, now: Time)
    | GetByID(id: string, now: Time)
    | Update(id: string, name: string, email: string, now: Time)
    | Delete(id: string)

  /** A user, or nothing for a successful Delete. */
  type Reply = Result<Option<Response>, Error>

  // ---------- the use cases on the repository alone ----------

  predicate EmailTaken(repo: Repo, email: string, besides: Option<string>) {
    exists k :: k in repo && repo[k].email == email && besides != Some(repo[k].id)
  }

  /** Primary key and unique email are constraints of the table. */
  function Create(repo: Repo, u: User): Result<Repo, Error> {
    if u.id in repo || EmailTaken(repo, u.email, None) then Err(Rejected) else Ok(repo[u.id := u])
  }

  function Find(repo: Repo, id: string): Result<Response, Error> {
    if id in repo then Ok(ToResponse(repo[id])) else Err(NotFound)
  }

  function Edited(u: User, name: string, email: string, now: Time): User {
    u.(name := if name != "" then name else u.name,
       email := if email != "" then email else u.email,
       updatedAt := now)
  }

  function Plain(repo: Repo, op: Op): (Repo, Reply) {
    match op
    case Register(newId, name, email, hash, now) =>
      if EmailTaken(repo, email, None) then (repo, Err(AlreadyExists))
      else if hash.None? then (repo, Err(HashFailed))
      else
        var u := User(newId, name, email, hash.value, now, now);
        (match Create(repo, u)
         case Ok(repo') => (repo', Ok(Some(ToResponse(u))))
         case Err(e) => (repo, Err(e)))
    case GetByID(id, _) =>
      (match Find(repo, id)
       case Ok(v) => (repo, Ok(Some(v)))
       case Err(e) => (repo, Err(e)))
    case Update(id, name, email, now) =>
      if id !in repo then (repo, Err(NotFound))
      else if email != "" && email != repo[id].email && EmailTaken(repo, email, Some(id)) then
        (repo, Err(AlreadyExists))
      else
        var u := Edited(repo[id], name, email, now);
        (repo[u.id := u], Ok(Some(ToResponse(u))))
    case Delete(id) =>
      if id in repo then (repo - {id}, Ok(None)) else (repo, Err(NotFound))
  }

  // ---------- the cache ----------

  /** What a key of Redis may hold; `Garbage` does not decode as a user. */
  datatype Content = Decodes(value: Response) | Empty | Garbage

  datatype Entry = Entry(content: Content, expires: Time)

  type Cache = map<string, Entry>

  /** Which of the cache operations of one request fail. */
  datatype Faults = Faults(get: bool, put: bool, del: bool)

  function Key(id: string): string {
    "user:" + id
  }

  lemma KeyInjective(a: string, b: string)
    ensures Key(a) == Key(b) <==> a == b
  {
    assert Key(a)[5..] == a && Key(b)[5..] == b;
  }

  /** GetJSON: the cached value, when there is one, it has not expired, and it decodes. */
  function Lookup(cache: Cache, key: string, now: Time, fails: bool): Option<Response> {
    if !fails && key in cache && now < cache[key].expires && cache[key].content.Decodes?
    then Some(cache[key].content.value) else None
  }

  function Stored(cache: Cache, key: string, v: Response, now: Time, fails: bool): Cache {
    if fails then cache else cache[key := Entry(Decodes(v), now + TTL)]
  }

  function Dropped(cache: Cache, key: string, fails: bool): Cache {
    if fails then cache else cache - {key}
  }

  datatype Sys = Sys(repo: Repo, cache: Cache)

  function Cached(s: Sys, op: Op, f: Faults): (Sys, Reply) {
    match op
    case GetByID(id, now) =>
      var hit := Lookup(s.cache, Key(id), now, f.get);
      if hit.Some? then (s, Ok(hit))
      else
        (match Find(s.repo, id)
         case Ok(v) => (s.(cache := Stored(s.cache, Key(id), v, now, f.put)), Ok(Some(v)))
         case Err(e) => (s, Err(e)))
    case Register(_, _, _, _, _) =>
      var (repo, reply) := Plain(s.repo, op);
      (s.(repo := repo), reply)
    case _ =>
      var (repo, reply) := Plain(s.repo, op);
      (Sys(repo, if reply.Ok? then Dropped(s.cache, Key(op.id), f.del) else s.cache), reply)
  }

  // ---------- transparency ----------

  ghost predicate RepoOk(repo: Repo) {
    && (forall k :: k in repo ==> repo[k].id == k)
    && (forall j, k :: j in repo && k in repo && j != k ==> repo[j].email != repo[k].email)
  }

  /** A cached user that decodes and has not expired at t is the user in the table. */
  ghost predicate CoherentFrom(s: Sys, t: Time) {
    forall id: string :: Shows(s.cache, id, t) ==>
      id in s.repo && s.cache[Key(id)].content.value == ToResponse(s.repo[id])
  }

  /** A request for this id at time t is answered from the cache. */
  ghost predicate Shows(cache: Cache, id: string, t: Time) {
    Key(id) in cache && cache[Key(id)].content.Decodes? && t < cache[Key(id)].expires
  }

  /** The table's constraints hold after every use case, so no duplicate check can come too late. */
  lemma PlainKeepsRepoOk(repo: Repo, op: Op)
    requires RepoOk(repo)
    ensures RepoOk(Plain(repo, op).0)
  {
  }

  /** No clock reading of the request lies before t; a Delete does not read the clock. */
  predicate NotBefore(op: Op, t: Time) {
    op.Delete? || t <= op.now
  }

  lemma CoherentAt(s: Sys, id: string, t: Time)
    requires CoherentFrom(s, t) && Shows(s.cache, id, t)
    ensures id in s.repo && s.cache[Key(id)].content.value == ToResponse(s.repo[id])
  {
  }

  lemma StepIsTransparent(s: Sys, op: Op, f: Faults, t: Time)
    requires RepoOk(s.repo) && CoherentFrom(s, t) && NotBefore(op, t) && !f.del
    ensures Cached(s, op, f).1 == Plain(s.repo, op).1
    ensures Cached(s, op, f).0.repo == Plain(s.repo, op).0
    ensures CoherentFrom(Cached(s, op, f).0, t)
  {
    var s' := Cached(s, op, f).0;
    if op.GetByID? && Shows(s.cache, op.id, t) {
      CoherentAt(s, op.id, t);
    }
    forall id: string | Shows(s'.cache, id, t)
      ensures id in s'.repo && s'.cache[Key(id)].content.value == ToResponse(s'.repo[id])
    {
      if !op.Register? { KeyInjective(id, op.id); }
      if Shows(s.cache, id, t) { CoherentAt(s, id, t); }
    }
  }

  /** The replies of a run, in order. */
  function PlainReplies(repo: Repo, ops: seq<Op>): seq<Reply>
    decreases |ops|
  {
    if ops == [] then []
    else var (repo', reply) := Plain(repo, ops[0]); [reply] + PlainReplies(repo', ops[1..])
  }

  function CachedReplies(s: Sys, ops: seq<Op>, fs: seq<Faults>): seq<Reply>
    requires |fs| == |ops|
    decreases |ops|
  {
    if ops == [] then []
    else var (s', reply) := Cached(s, ops[0], fs[0]); [reply] + CachedReplies(s', ops[1..], fs[1..])
  }

  /**
   Cache transparency. Starting from a cache that is coherent from time t on, every sequence of requests from then on
   is answered with Redis exactly as without, if no cache delete fails; failed reads, failed writes, undecodable and
   expired entries do not matter, and neither does the order of the clock readings.
   */
  lemma {:induction false} CacheTransparency(s: Sys, ops: seq<Op>, fs: seq<Faults>, t: Time)
    requires |fs| == |ops|
    requires RepoOk(s.repo) && CoherentFrom(s, t)
    requires forall op :: op in ops ==> NotBefore(op, t)
    requires forall f :: f in fs ==> !f.del
    ensures CachedReplies(s, ops, fs) == PlainReplies(s.repo, ops)
    decreases |ops|
  {
    if ops != [] {
      StepIsTransparent(s, ops[0], fs[0], t);
      PlainKeepsRepoOk(s.repo, ops[0]);
      CacheTransparency(Cached(s, ops[0], fs[0]).0, ops[1..], fs[1..], t);
    }
  }

  /** The requests come after each other from time t on. */
  predicate Clocked(ops: seq<Op>, t: Time)
    decreases |ops|
  {
    ops == [] || (NotBefore(ops[0], t) && Clocked(ops[1..], if ops[0].Delete? then t else ops[0].now))
  }

  lemma {:induction false} ClockedNotBefore(ops: seq<Op>, start: Time, t: Time)
    requires Clocked(ops, start) && t <= start
    ensures forall op :: op in ops ==> NotBefore(op, t)
    decreases |ops|
  {
    if ops != [] {
      ClockedNotBefore(ops[1..], if ops[0].Delete? then start else ops[0].now, t);
    }
  }

  /** From time t on, and without further failed deletes, no requests are answered differently than without Redis. */
  ghost predicate Unobservable(s: Sys, t: Time) {
    forall ops: seq<Op>, fs: seq<Faults> :: |fs| == |ops| && Clocked(ops, t) && (forall f :: f in fs ==> !f.del) ==>
      CachedReplies(s, ops, fs) == PlainReplies(s.repo, ops)
  }

  /** The cache answers for this id at time t with a user that the table does not have like that. */
  ghost predicate LeftBehind(s: Sys, id: string, t: Time) {
    Shows(s.cache, id, t) && !(id in s.repo && s.cache[Key(id)].content.value == ToResponse(s.repo[id]))
  }

  /** A request made at once shows an entry that is wrong and has not expired. */
  lemma WrongEntryShows(s: Sys, id: string, t: Time) returns (ops: seq<Op>, fs: seq<Faults>)
    requires LeftBehind(s, id, t)
    ensures |fs| == |ops| && Clocked(ops, t) && (forall f :: f in fs ==> !f.del)
    ensures CachedReplies(s, ops, fs) != PlainReplies(s.repo, ops)
  {
    ops := [GetByID(id, t)];
    fs := [Faults(false, false, false)];
    assert CachedReplies(s, ops, fs)[0] == Cached(s, ops[0], fs[0]).1;
    assert PlainReplies(s.repo, ops)[0] == Plain(s.repo, ops[0]).1;
  }

  /** From time t on the cache is unobservable exactly when it is coherent from then on. */
  lemma UnobservableIff(s: Sys, t: Time)
    requires RepoOk(s.repo)
    ensures Unobservable(s, t) <==> CoherentFrom(s, t)
  {
    if CoherentFrom(s, t) {
      forall ops: seq<Op>, fs: seq<Faults> | |fs| == |ops| && Clocked(ops, t) && (forall f :: f in fs ==> !f.del)
        ensures CachedReplies(s, ops, fs) == PlainReplies(s.repo, ops)
      {
        ClockedNotBefore(ops, t, t);
        CacheTransparency(s, ops, fs, t);
      }
    } else {
      var id: string :| Shows(s.cache, id, t)
                        && !(id in s.repo && s.cache[Key(id)].content.value == ToResponse(s.repo[id]));
      var ops, fs := WrongEntryShows(s, id, t);
    }
  }

  /**
   A failed cache delete can be noticed from time t on exactly when the user was cached, the entry has not expired
   by then, and the change shows.
   */
  lemma FailedDeleteIff(s: Sys, op: Op, f: Faults, t: Time)
    requires RepoOk(s.repo) && CoherentFrom(s, t) && f.del
    requires op.Update? || op.Delete?
    ensures Unobservable(Cached(s, op, f).0, t)
            <==> !LeftBehind(Sys(Plain(s.repo, op).0, s.cache), op.id, t)
  {
    var s' := Cached(s, op, f).0;
    assert s' == Sys(Plain(s.repo, op).0, s.cache);
    PlainKeepsRepoOk(s.repo, op);
    UnobservableIff(s', t);
    if !LeftBehind(s', op.id, t) {
      forall id: string | Shows(s'.cache, id, t)
        ensures id in s'.repo && s'.cache[Key(id)].content.value == ToResponse(s'.repo[id])
      {
        CoherentAt(s, id, t);
      }
    }
  }

  // ---------- the objects ----------

  /** The wrapper around the Redis client; disabled, it does nothing. */
  class Client {
    const enabled: bool
    var store: Cache

    constructor (enabled: bool)
      ensures this.enabled == enabled && store == map[]
    {
      this.enabled := enabled;
      store := map[];
    }

    /** `err` is a failed read or a value that does not decode. */
    method GetJSON(key: string, now: Time, fails: bool) returns (found: Option<Response>, err: bool)
      ensures found == if enabled then Lookup(store, key, now, fails) else None
      ensures err <==> enabled && (fails || (key in store && now < store[key].expires && store[key].content.Garbage?))
    {
      if !enabled {
        return None, false;
      }
      if fails {
        return None, true;
      }
      if key !in store || now >= store[key].expires {
        return None, false;
      }
      match store[key].content
      case Empty => return None, false;
      case Garbage => return None, true;
      case Decodes(v) => return Some(v), false;
    }

    method SetJSON(key: string, v: Response, expiration: Time, now: Time, fails: bool) returns (err: bool)
      modifies this`store
      ensures err <==> enabled && fails
      ensures store == if enabled && !fails then old(store)[key := Entry(Decodes(v), now + expiration)] else old(store)
    {
      if !enabled {
        return false;
      }
      if fails {
        return true;
      }
      store := store[key := Entry(Decodes(v), now + expiration)];
      err := false;
    }

    /** Removes any number of keys with one command. */
    method Invalidate(keys: seq<string>, fails: bool) returns (err: bool)
      modifies this`store
      ensures err <==> enabled && fails
      ensures forall k :: k in store <==> k in old(store) && (!enabled || fails || k !in keys)
      ensures forall k :: k in store ==> store[k] == old(store)[k]
    {
      if !enabled {
        return false;
      }
      if fails {
        return true;
      }
      store := store - (set k | k in keys);
      err := false;
    }

    /** Read through the cache: a hit is returned as it is, anything else runs the fallback and stores its value. */
    method Remember(key: string, expiration: Time, fallback: () -> Result<Response, Error>, now: Time, f: Faults)
      returns (r: Result<Response, Error>)
      modifies this`store
      ensures enabled && Lookup(old(store), key, now, f.get).Some? ==>
                r == Ok(Lookup(old(store), key, now, f.get).value) && store == old(store)
      ensures !(enabled && Lookup(old(store), key, now, f.get).Some?) ==>
                && r == fallback()
                && store == (if enabled && r.Ok? && !f.put
                             then old(store)[key := Entry(Decodes(r.value), now + expiration)] else old(store))
    {
      if enabled {
        var found, err := GetJSON(key, now, f.get);
        if !err && found.Some? {
          return Ok(found.value);
        }
      }
      r := fallback();
      if r.Err? {
        return;
      }
      if enabled {
        var _ := SetJSON(key, r.value, expiration, now, f.put);
      }
    }
  }

  class UserUsecase {
    var rows: Repo
    const cache: Client

    constructor (cache: Client)
      ensures this.cache == cache && rows == map[]
    {
      this.cache := cache;
      rows := map[];
    }

    ghost predicate Is(s: Sys)
      reads this, cache
    {
      s == Sys(rows, cache.store)
    }

    /** The repository's FindByEmail: some user with that email. */
    method FindByEmail(email: string) returns (user: Option<User>)
      requires RepoOk(rows)
      ensures user.Some? ==> user.value.id in rows && rows[user.value.id] == user.value && user.value.email == email
      ensures user.None? ==> !EmailTaken(rows, email, None)
    {
      var left := rows.Keys;
      while left != {}
        invariant left <= rows.Keys
        invariant forall k :: k in rows && k !in left ==> rows[k].email != email
        decreases |left|
      {
        var k :| k in left;
        if rows[k].email == email {
          return Some(rows[k]);
        }
        left := left - {k};
      }
      user := None;
    }

    method GetByID(id: string, now: Time, f: Faults) returns (r: Result<Response, Error>)
      modifies cache`store
      ensures cache.enabled ==>
                var (s, reply) := Cached(old(Sys(rows, cache.store)), Op.GetByID(id, now), f);
                Is(s) && reply == (if r.Ok? then Ok(Some(r.value)) else Err(r.error))
      ensures !cache.enabled ==> r == Find(rows, id) && cache.store == old(cache.store)
      ensures !cache.enabled || Lookup(old(cache.store), Key(id), now, f.get).None? ==>
                if id in rows
                then var u := rows[id]; r == Ok(Response(u.id, u.name, u.email, u.createdAt, u.updatedAt))
                else r == Err(NotFound)
    {
      var table := rows;
      r := cache.Remember(Key(id), TTL, () => Find(table, id), now, f);
    }

    method Update(id: string, name: string, email: string, now: Time, f: Faults) returns (r: Reply)
      requires RepoOk(rows)
      modifies this`rows, cache`store
      ensures cache.enabled ==>
                var (s, reply) := Cached(old(Sys(rows, cache.store)), Op.Update(id, name, email, now), f);
                Is(s) && r == reply
      ensures !cache.enabled ==>
                (rows, r) == Plain(old(rows), Op.Update(id, name, email, now)) && cache.store == old(cache.store)
      ensures r.Ok? <==>
              && id in old(rows)
              && !(email != "" && exists k :: k in old(rows) && k != id && old(rows)[k].email == email)
      ensures r.Err? ==> rows == old(rows)
      ensures r.Ok? ==>
                var u := old(rows)[id];
                rows == old(rows)[id := u.(name := if name == "" then u.name else name,
                                           email := if email == "" then u.email else email,
                                           updatedAt := now)]
    {
      if id !in rows {
        return Err(NotFound);
      }
      var user := rows[id];
      if name != "" {
        user := user.(name := name);
      }
      if email != "" && email != user.email {
        var existing := FindByEmail(email);
        if existing.Some? && existing.value.id != id {
          return Err(AlreadyExists);
        }
        user := user.(email := email);
      }
      user := user.(updatedAt := now);
      rows := rows[user.id := user];
      var _ := cache.Invalidate([Key(id)], f.del);
      assert cache.enabled ==> cache.store == Dropped(old(cache.store), Key(id), f.del);
      r := Ok(Some(ToResponse(user)));
    }

    method Delete(id: string, f: Faults) returns (r: Reply)
      modifies this`rows, cache`store
      ensures cache.enabled ==>
                var (s, reply) := Cached(old(Sys(rows, cache.store)), Op.Delete(id), f);
                Is(s) && r == reply
      ensures !cache.enabled ==> (rows, r) == Plain(old(rows), Op.Delete(id)) && cache.store == old(cache.store)
      ensures r == if id in old(rows) then Ok(None) else Err(NotFound)
      ensures rows == old(rows) - {id}
      ensures cache.store == if cache.enabled && r.Ok? && !f.del then old(cache.store) - {Key(id)} else old(cache.store)
    {
      if id !in rows {
        return Err(NotFound);
      }
      rows := rows - {id};
      var _ := cache.Invalidate([Key(id)], f.del);
      assert cache.enabled ==> cache.store == Dropped(old(cache.store), Key(id), f.del);
      r := Ok(None);
    }

    method Register(newId: string, name: string, email: string, hash: Option<string>, now: Time) returns (r: Reply)
      requires RepoOk(rows)
      modifies this`rows
      ensures (rows, r) == Plain(old(rows), Op.Register(newId, name, email, hash, now))
      ensures r.Err? ==> rows == old(rows)
      ensures r.Ok? ==> hash.Some? && newId !in old(rows)
                        && rows == old(rows)[newId := User(newId, name, email, hash.value, now, now)]
      ensures RepoOk(rows)
    {
      var existing := FindByEmail(email);
      if existing.Some? {
        assert EmailTaken(rows, email, None);
        return Err(AlreadyExists);
      }
      if hash.None? {
        return Err(HashFailed);
      }
      if newId in rows {
        return Err(Rejected);
      }
      var user := User(newId, name, email, hash.value, now, now);
      rows := rows[newId := user];
      r := Ok(Some(ToResponse(user)));
    }
  }
}
