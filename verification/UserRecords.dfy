/** What the use cases do, told by the replies to later requests; with Redis the replies are the same. */
module UserRecords {
  import opened Common
  import opened UserCache

  /** The repository after a run of requests. */
  function PlainEnd(repo: Repo, ops: seq<Op>): Repo
    decreases |ops|
  {
    if ops == [] then repo else PlainEnd(Plain(repo, ops[0]).0, ops[1..])
  }

  /** Both are answered alike, now and in every later state of the same rows. */
  ghost predicate SameAnswer(repo: Repo, repo': Repo, id: string) {
    forall t: Time :: Plain(repo', GetByID(id, t)).1 == Plain(repo, GetByID(id, t)).1
  }

  /**
   GetByID answers with exactly the public columns of the user, or NotFound, and changes nothing.
   */
  lemma GetShows(repo: Repo, id: string, t: Time)
    requires RepoOk(repo)
    ensures var (repo', reply) := Plain(repo, GetByID(id, t));
            && repo' == repo
            && (id !in repo ==> reply == Err(NotFound))
            && (id in repo ==>
                  var u := repo[id];
                  reply == Ok(Some(Response(id, u.name, u.email, u.createdAt, u.updatedAt))))
  {
  }

  /**
   Register succeeds exactly when the email and the id are free and the password can be hashed. The new user is then
   answered as given, and every other id as before; a refused request changes nothing.
   */
  lemma RegisterShows(repo: Repo, newId: string, name: string, email: string, hash: Option<string>, now: Time)
    requires RepoOk(repo)
    ensures var (repo', reply) := Plain(repo, Register(newId, name, email, hash, now));
            var taken := exists k :: k in repo && repo[k].email == email;
            && (reply.Ok? <==> !taken && hash.Some? && newId !in repo)
            && (taken ==> reply == Err(AlreadyExists))
            && (!taken && hash.None? ==> reply == Err(HashFailed))
            && (reply.Err? ==> repo' == repo)
            && (reply.Ok? ==>
                  && newId in repo' && repo'[newId].password == hash.value
                  && (forall t: Time ::
                        Plain(repo', GetByID(newId, t)).1 == Ok(Some(Response(newId, name, email, now, now))))
                  && reply == Ok(Some(Response(newId, name, email, now, now)))
                  && forall id :: id != newId ==> SameAnswer(repo, repo', id))
  {
    if k :| k in repo && repo[k].email == email {
      assert EmailTaken(repo, email, None);
    }
  }

  /**
   Update succeeds exactly when the user exists and no other user has the new email. The user is then answered with the
   given name and email, or the old ones where they are empty; every other id is answered as before.
   */
  lemma UpdateShows(repo: Repo, id: string, name: string, email: string, now: Time)
    requires RepoOk(repo)
    ensures var (repo', reply) := Plain(repo, Update(id, name, email, now));
            var taken := email != "" && exists k :: k in repo && k != id && repo[k].email == email;
            && (id !in repo ==> reply == Err(NotFound))
            && (id in repo && taken ==> reply == Err(AlreadyExists))
            && (reply.Ok? <==> id in repo && !taken)
            && (reply.Err? ==> repo' == repo)
            && (reply.Ok? ==>
                  var u := repo[id];
                  var shown := Response(id, if name == "" then u.name else name, if email == "" then u.email else email,
                                        u.createdAt, now);
                  && reply == Ok(Some(shown))
                  && (forall t: Time :: Plain(repo', GetByID(id, t)).1 == Ok(Some(shown)))
                  && id in repo' && repo'[id].password == u.password
                  && forall k :: k != id ==> SameAnswer(repo, repo', k))
  {
    if k :| k in repo && k != id && repo[k].email == email {
      assert repo[k].id == k;
      assert EmailTaken(repo, email, Some(id));
    }
  }

  /** Delete succeeds exactly when the user exists, who is then not found; every other id is answered as before. */
  lemma DeleteShows(repo: Repo, id: string)
    requires RepoOk(repo)
    ensures var (repo', reply) := Plain(repo, Delete(id));
            && reply == (if id in repo then Ok(None) else Err(NotFound))
            && (forall t: Time :: Plain(repo', GetByID(id, t)).1 == Err(NotFound))
            && forall k :: k != id ==> SameAnswer(repo, repo', k)
  {
  }

  // ---------- whole runs ----------

  /** The request may change what is answered for this id. */
  predicate Touches(op: Op, id: string) {
    match op
    case Register(newId, _, _, _, _) => newId == id
    case GetByID(_, _) => false
    case Update(k, _, _, _) => k == id
    case Delete(k) => k == id
  }

  lemma OthersUntouched(repo: Repo, op: Op, id: string)
    requires RepoOk(repo) && !Touches(op, id)
    ensures id in Plain(repo, op).0 <==> id in repo
    ensures id in repo ==> Plain(repo, op).0[id] == repo[id]
  {
  }

  /** As long as no request is about a user, the user is answered as before. */
  lemma {:induction false} AnswerStays(repo: Repo, ops: seq<Op>, id: string)
    requires RepoOk(repo) && forall op :: op in ops ==> !Touches(op, id)
    ensures SameAnswer(repo, PlainEnd(repo, ops), id)
    decreases |ops|
  {
    if ops != [] {
      OthersUntouched(repo, ops[0], id);
      PlainKeepsRepoOk(repo, ops[0]);
      AnswerStays(Plain(repo, ops[0]).0, ops[1..], id);
    }
  }

  /** The request asks for, changes or deletes the user with this id. */
  predicate IsAbout(op: Op, id: string) {
    !op.Register? && op.id == id
  }

  lemma {:induction false} MissingStaysMissing(repo: Repo, ops: seq<Op>, id: string, i: nat)
    requires RepoOk(repo) && id !in repo && i < |ops| && IsAbout(ops[i], id)
    requires forall op :: op in ops && op.Register? ==> op.newId != id
    ensures |PlainReplies(repo, ops)| == |ops| && PlainReplies(repo, ops)[i] == Err(NotFound)
    decreases |ops|
  {
    var (repo', reply) := Plain(repo, ops[0]);
    RepliesLength(repo', ops[1..]);
    if i > 0 {
      PlainKeepsRepoOk(repo, ops[0]);
      MissingStaysMissing(repo', ops[1..], id, i - 1);
      assert PlainReplies(repo, ops)[i] == PlainReplies(repo', ops[1..])[i - 1];
    }
  }

  lemma {:induction false} RepliesLength(repo: Repo, ops: seq<Op>)
    ensures |PlainReplies(repo, ops)| == |ops|
    decreases |ops|
  {
    if ops != [] {
      RepliesLength(Plain(repo, ops[0]).0, ops[1..]);
    }
  }

  /**
   Deleted is deleted, with Redis as without: from a coherent cache, after a Delete of a user whose cache delete does
   not fail, every later request about the user is answered NotFound, as long as nobody registers under that id.
   */
  lemma DeletedStaysDeleted(s: Sys, id: string, ops: seq<Op>, fs: seq<Faults>, t: Time, i: nat)
    requires RepoOk(s.repo) && CoherentFrom(s, t) && id in s.repo
    requires |fs| == |ops| + 1 && (forall f :: f in fs ==> !f.del)
    requires forall op :: op in ops ==> NotBefore(op, t)
    requires forall op :: op in ops && op.Register? ==> op.newId != id
    requires i < |ops| && IsAbout(ops[i], id)
    ensures var replies := CachedReplies(s, [Delete(id)] + ops, fs);
            |replies| == |ops| + 1 && replies[0] == Ok(None) && replies[i + 1] == Err(NotFound)
  {
    var all := [Delete(id)] + ops;
    CacheTransparency(s, all, fs, t);
    PlainKeepsRepoOk(s.repo, Delete(id));
    var repo' := Plain(s.repo, Delete(id)).0;
    assert all[0] == Delete(id) && all[1..] == ops;
    MissingStaysMissing(repo', ops, id, i);
    assert PlainReplies(s.repo, all) == [Plain(s.repo, Delete(id)).1] + PlainReplies(repo', ops);
  }

  // ---------- how long the cache answers ----------

  /**
   A GetByID at time t that misses the cache and can store its answer: whatever has become of the table, a second one
   is given the same answer from the cache in the ten minutes that follow, and the table's answer after that.
   */
  lemma ServedForTenMinutes(s: Sys, id: string, t: Time, f: Faults, repo: Repo, u: Time)
    requires RepoOk(s.repo) && id in s.repo && Lookup(s.cache, Key(id), t, f.get).None? && !f.put
    ensures var (s', reply) := Cached(s, GetByID(id, t), f);
            var (_, again) := Cached(Sys(repo, s'.cache), GetByID(id, u), Faults(false, false, false));
            && reply == Plain(s.repo, GetByID(id, t)).1
            && again == (if u < t + 600 * 1_000_000_000 then reply else Plain(repo, GetByID(id, u)).1)
  {
  }
}
