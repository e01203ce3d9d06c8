/** When answers read through the cache are the table's own, over whole sequences of calls. */
module CacheRefinement {
  import opened Users
  import opened Cache
  import opened CachingRepo

  function PublicReply(r: Reply): Reply
  {
    if r.UserReply? && r.user.Ok? then UserReply(Ok(Public(r.user.value))) else r
  }

  /** The reply is the table's, password aside; where the table cannot be reached, the reply it would give. */
  ghost predicate Agrees(db: Db, call: Call, env: Env, reply: Reply)
    requires db.Valid()
  {
    || PublicReply(reply) == PublicReply(Direct(db, call, env).1)
    || PublicReply(reply) == PublicReply(Direct(db, call, env.(readFault := false)).1)
  }

  /** The one way to be wrong: a live entry under a name that nobody holds any more. */
  ghost predicate Stale(s: Shelf, call: Call, env: Env)
  {
    match call
    case GetByEmail(e) => Hit(s.cache, EmailKey(e), env).Some? && !HasEmail(s.db, e)
    case GetByUsername(n) => Hit(s.cache, UsernameKey(n), env).Some? && !HasUsername(s.db, n)
    case _ => false
  }

  lemma EmailAnswer(ttl: int, s: Shelf, e: string, env: Env)
    requires Coherent(s)
    ensures Agrees(s.db, GetByEmail(e), env, Cached(ttl, s, GetByEmail(e), env).1) <==> !Stale(s, GetByEmail(e), env)
  {
    if HasEmail(s.db, e) {
      var id :| id in s.db.rows && s.db.rows[id].email == e;
      assert RowCoherent(s, id);
      FindsTheRow(s.db, id);
    }
  }

  lemma UsernameAnswer(ttl: int, s: Shelf, n: string, env: Env)
    requires Coherent(s)
    ensures Agrees(s.db, GetByUsername(n), env, Cached(ttl, s, GetByUsername(n), env).1)
            <==> !Stale(s, GetByUsername(n), env)
  {
    if HasUsername(s.db, n) {
      var id :| id in s.db.rows && s.db.rows[id].username == n;
      assert RowCoherent(s, id);
      FindsTheRow(s.db, id);
    }
  }

  /** In a coherent state a call answers as the table does, except exactly on stale names. */
  lemma AnswersExactly(ttl: int, s: Shelf, call: Call, env: Env)
    requires Coherent(s)
    ensures Agrees(s.db, call, env, Cached(ttl, s, call, env).1) <==> !Stale(s, call, env)
  {
    match call
    case GetByID(id) => assert RowCoherent(s, id);
    case GetByEmail(e) => EmailAnswer(ttl, s, e, env);
    case GetByUsername(n) => UsernameAnswer(ttl, s, n, env);
    case _ =>
  }

  // ---- Runs -----------------------------------------------------------------------------------

  datatype Visit = Visit(call: Call, env: Env)

  ghost function CachedRun(ttl: int, db: Db, vs: seq<Visit>): (s: Shelf)
    requires db.Valid()
    ensures s.db.Valid()
  {
    if vs == [] then Shelf(db, map[]) else
      var v := vs[|vs| - 1];
      Cached(ttl, CachedRun(ttl, db, vs[..|vs| - 1]), v.call, v.env).0
  }

  ghost function DirectRun(db: Db, vs: seq<Visit>): (d: Db)
    requires db.Valid()
    ensures d.Valid()
  {
    if vs == [] then db else
      var v := vs[|vs| - 1];
      Direct(DirectRun(db, vs[..|vs| - 1]), v.call, v.env).0
  }

  /** The cache answers, and whoever updates a user read it first. */
  ghost predicate Disciplined(db: Db, vs: seq<Visit>)
    requires db.Valid()
  {
    vs == [] || (
      && Disciplined(db, vs[..|vs| - 1])
      && CacheAnswers(vs[|vs| - 1].env)
      && ReadFirst(DirectRun(db, vs[..|vs| - 1]), vs[|vs| - 1].call))
  }

  /** An update that leaves the identifiers alone; a deletion that can read the row it deletes. */
  ghost predicate KeepsNames(db: Db, v: Visit)
  {
    match v.call
    case Update(u) => u.id in db.rows ==> u.email == db.rows[u.id].email && u.username == db.rows[u.id].username
    case Delete(_) => !v.env.readFault
    case _ => true
  }

  ghost predicate NamesKept(db: Db, vs: seq<Visit>)
    requires db.Valid()
  {
    vs == [] || (
      && NamesKept(db, vs[..|vs| - 1])
      && KeepsNames(DirectRun(db, vs[..|vs| - 1]), vs[|vs| - 1]))
  }

  /** The usernames of the users a run deleted. */
  ghost function Departed(db: Db, vs: seq<Visit>): set<string>
    requires db.Valid()
  {
    if vs == [] then {} else
      var before, v := DirectRun(db, vs[..|vs| - 1]), vs[|vs| - 1];
      Departed(db, vs[..|vs| - 1]) +
      if v.call.Delete? && v.call.id in before.rows then {before.rows[v.call.id].username} else {}
  }

  /** The cache never changes what the table holds, and stays coherent with it. */
  lemma {:induction false} RunStaysCoherent(ttl: int, db: Db, vs: seq<Visit>)
    requires db.Valid() && Disciplined(db, vs)
    ensures CachedRun(ttl, db, vs).db == DirectRun(db, vs)
    ensures Coherent(CachedRun(ttl, db, vs))
  {
    if vs != [] {
      RunStaysCoherent(ttl, db, vs[..|vs| - 1]);
      var v := vs[|vs| - 1];
      CallKeepsCoherence(ttl, CachedRun(ttl, db, vs[..|vs| - 1]), v.call, v.env);
    }
  }

  // ---- Which names can go stale -----------------------------------------------------------------

  ghost predicate EmailsHeld(s: Shelf)
  {
    forall e | EmailKey(e) in s.cache :: HasEmail(s.db, e)
  }

  ghost predicate UsernamesHeld(s: Shelf, gone: set<string>)
  {
    forall n | UsernameKey(n) in s.cache :: HasUsername(s.db, n) || n in gone
  }

  lemma NewKeys(c: Entries, u: User, ttl: int, now: int, up: Writes, name: string)
    ensures EmailKey(name) in CacheUser(c, u, ttl, now, up) ==> EmailKey(name) in c || name == u.email
    ensures UsernameKey(name) in CacheUser(c, u, ttl, now, up) ==> UsernameKey(name) in c || name == u.username
  {
    FamiliesDisjoint(u.id, name, u.username, "");
    FamiliesDisjoint(u.id, u.email, name, "");
    KeysInjective();
  }

  /** Caching a row adds only names that the table holds. */
  lemma CachingAddsHeldNames(db: Db, c: Entries, u: User, ttl: int, now: int, up: Writes, gone: set<string>)
    requires u.id in db.rows && db.rows[u.id].email == u.email && db.rows[u.id].username == u.username
    ensures EmailsHeld(Shelf(db, c)) ==> EmailsHeld(Shelf(db, CacheUser(c, u, ttl, now, up)))
    ensures UsernamesHeld(Shelf(db, c), gone) ==> UsernamesHeld(Shelf(db, CacheUser(c, u, ttl, now, up)), gone)
  {
    HoldsItsNames(db, u.id);
    forall name { NewKeys(c, u, ttl, now, up, name); }
  }

  /** Nobody loses a name when rows are kept under their names. */
  lemma SameHolders(db: Db, db': Db)
    requires forall id | id in db.rows ::
               id in db'.rows && db'.rows[id].email == db.rows[id].email &&
               db'.rows[id].username == db.rows[id].username
    ensures forall e | HasEmail(db, e) :: HasEmail(db', e)
    ensures forall n | HasUsername(db, n) :: HasUsername(db', n)
  {
    forall e | HasEmail(db, e) ensures HasEmail(db', e) {
      var id :| id in db.rows && db.rows[id].email == e;
      HoldsItsNames(db', id);
    }
    forall n | HasUsername(db, n) ensures HasUsername(db', n) {
      var id :| id in db.rows && db.rows[id].username == n;
      HoldsItsNames(db', id);
    }
  }

  lemma DeleteKeepsHeld(ttl: int, s: Shelf, id: int, env: Env, gone: set<string>)
    requires s.db.Valid() && EmailsHeld(s) && UsernamesHeld(s, gone) && CacheAnswers(env) && !env.readFault
    requires id in s.db.rows
    ensures var s' := Cached(ttl, s, Delete(id), env).0;
            EmailsHeld(s') && UsernamesHeld(s', gone + {s.db.rows[id].username})
  {
    var s' := Cached(ttl, s, Delete(id), env).0;
    var row := s.db.rows[id];
    if !env.writeFault {
      forall e | EmailKey(e) in s'.cache ensures HasEmail(s'.db, e) {
        var i :| i in s.db.rows && s.db.rows[i].email == e;
        HoldsItsNames(s'.db, i);
      }
      forall n | UsernameKey(n) in s'.cache ensures HasUsername(s'.db, n) || n in gone + {row.username} {
        if n !in gone && n != row.username {
          var i :| i in s.db.rows && s.db.rows[i].username == n;
          HoldsItsNames(s'.db, i);
        }
      }
    }
  }

  lemma CallKeepsHeld(ttl: int, s: Shelf, v: Visit, gone: set<string>)
    requires s.db.Valid() && EmailsHeld(s) && UsernamesHeld(s, gone)
    requires CacheAnswers(v.env) && KeepsNames(s.db, v)
    ensures var s' := Cached(ttl, s, v.call, v.env).0;
            var gone' := if v.call.Delete? && v.call.id in s.db.rows
                         then gone + {s.db.rows[v.call.id].username} else gone;
            EmailsHeld(s') && UsernamesHeld(s', gone')
  {
    var env := v.env;
    var s' := Cached(ttl, s, v.call, env).0;
    assert s == Shelf(s.db, s.cache);
    match v.call
    case Create(u, hash) =>
      var (db, res) := Insert(s.db, u, hash, env.writeFault);
      SameHolders(s.db, db);
      if res.Ok? { CachingAddsHeldNames(db, s.cache, res.value, ttl, env.now, env.sets, gone); }
    case GetByID(id) => ReadKeepsHeld(ttl, s, IdKey(id), FindById(s.db, id, env.readFault), env, gone);
    case GetByEmail(e) => ReadKeepsHeld(ttl, s, EmailKey(e), FindByEmail(s.db, e, env.readFault), env, gone);
    case GetByUsername(n) => ReadKeepsHeld(ttl, s, UsernameKey(n), FindByUsername(s.db, n, env.readFault), env, gone);
    case Update(u) =>
      var (db, res) := Overwrite(s.db, u, env.writeFault);
      SameHolders(s.db, db);
      if res.Ok? { CachingAddsHeldNames(db, s.cache, u, ttl, env.now, env.sets, gone); }
    case Delete(id) => if id in s.db.rows { DeleteKeepsHeld(ttl, s, id, env, gone); }
    case Lose(_) =>
  }

  lemma ReadKeepsHeld(ttl: int, s: Shelf, key: string, table: Result<User>, env: Env, gone: set<string>)
    requires EmailsHeld(s) && UsernamesHeld(s, gone)
    requires table.Ok? ==> table.value.id in s.db.rows && table.value == s.db.rows[table.value.id]
    ensures var s' := s.(cache := ReadThrough(s.cache, key, table, ttl, env).0);
            EmailsHeld(s') && UsernamesHeld(s', gone)
  {
    assert s == Shelf(s.db, s.cache);
    if table.Ok? { CachingAddsHeldNames(s.db, s.cache, table.value, ttl, env.now, env.sets, gone); }
  }

  lemma {:induction false} RunKeepsHeld(ttl: int, db: Db, vs: seq<Visit>)
    requires db.Valid() && Disciplined(db, vs) && NamesKept(db, vs)
    ensures EmailsHeld(CachedRun(ttl, db, vs)) && UsernamesHeld(CachedRun(ttl, db, vs), Departed(db, vs))
  {
    if vs != [] {
      var us := vs[..|vs| - 1];
      RunKeepsHeld(ttl, db, us);
      RunStaysCoherent(ttl, db, us);
      CallKeepsHeld(ttl, CachedRun(ttl, db, us), vs[|vs| - 1], Departed(db, us));
    }
  }

  // ---- The refinement -----------------------------------------------------------------------------

  /** After any disciplined run, any call answers as the table would, except exactly on stale names. */
  lemma {:induction false} RunAnswersExactly(ttl: int, db: Db, vs: seq<Visit>, call: Call, env: Env)
    requires db.Valid() && Disciplined(db, vs)
    ensures var s := CachedRun(ttl, db, vs);
            Agrees(DirectRun(db, vs), call, env, Cached(ttl, s, call, env).1) <==> !Stale(s, call, env)
  {
    RunStaysCoherent(ttl, db, vs);
    AnswersExactly(ttl, CachedRun(ttl, db, vs), call, env);
  }

  /** If the run leaves identifiers alone, lookups by id and email are always the table's; a lookup by
      username is too, unless the name belonged to a user the run deleted. */
  lemma {:induction false} CacheRefinesTable(ttl: int, db: Db, vs: seq<Visit>, call: Call, env: Env)
    requires db.Valid() && Disciplined(db, vs) && NamesKept(db, vs)
    requires call.GetByUsername? ==> call.username !in Departed(db, vs)
    ensures Agrees(DirectRun(db, vs), call, env, Cached(ttl, CachedRun(ttl, db, vs), call, env).1)
  {
    RunAnswersExactly(ttl, db, vs, call, env);
    RunKeepsHeld(ttl, db, vs);
    RunStaysCoherent(ttl, db, vs);
  }

  // ---- What the cache saves -----------------------------------------------------------------------

  function KeyOfCall(call: Call): string
    requires call.GetByID? || call.GetByEmail? || call.GetByUsername?
  {
    match call
    case GetByID(id) => IdKey(id)
    case GetByEmail(e) => EmailKey(e)
    case GetByUsername(n) => UsernameKey(n)
  }

  /** A row cached at time `from` still answers for it. */
  predicate Within(ttl: int, from: int, later: Env) { later.getUp && (ttl <= 0 || later.now < from + ttl) }

  /** What is seen of a user once it has been cached. */
  lemma CachedUserIsHit(c: Entries, u: User, ttl: int, now: int, later: Env)
    requires Within(ttl, now, later)
    ensures var c', seen := CacheUser(c, u, ttl, now, ALL), User(u.id, u.email, u.username, "", u.name, u.role);
            && Hit(c', IdKey(u.id), later) == Some(seen) && Hit(c', EmailKey(u.email), later) == Some(seen)
            && (u.username != "" ==> Hit(c', UsernameKey(u.username), later) == Some(seen))
  {
    FamiliesDisjoint(u.id, u.email, u.username, "");
  }

  /** Once cached, each lookup of the user is answered without the table, failing or not. */
  ghost predicate AnswersFor(ttl: int, s: Shelf, u: User, later: Env)
    requires s.db.Valid()
  {
    var reply := UserReply(Ok(User(u.id, u.email, u.username, "", u.name, u.role)));
    && Cached(ttl, s, GetByID(u.id), later) == (s, reply)
    && Cached(ttl, s, GetByEmail(u.email), later) == (s, reply)
    && (u.username != "" ==> Cached(ttl, s, GetByUsername(u.username), later) == (s, reply))
  }

  lemma CachedUserAnswers(ttl: int, db: Db, c: Entries, u: User, now: int, later: Env)
    requires db.Valid() && Within(ttl, now, later)
    ensures AnswersFor(ttl, Shelf(db, CacheUser(c, u, ttl, now, ALL)), u, later)
  {
    CachedUserIsHit(c, u, ttl, now, later);
  }

  /** A lookup that finds no live entry answers exactly as the table does, password hash and errors included,
      and what it found serves every later lookup of that user for one lifetime, even if the table fails. */
  lemma MissFillsTheCache(ttl: int, s: Shelf, id: int, call: Call, env: Env, later: Env)
    requires s.db.Valid() && id in s.db.rows && env.sets == ALL && !env.readFault && Within(ttl, env.now, later)
    requires call in {GetByID(id), GetByEmail(s.db.rows[id].email), GetByUsername(s.db.rows[id].username)}
    requires Hit(s.cache, KeyOfCall(call), env).None?
    ensures var (s', reply) := Cached(ttl, s, call, env);
            reply == UserReply(Ok(s.db.rows[id])) && s'.db == s.db && AnswersFor(ttl, s', s.db.rows[id], later)
  {
    FindsTheRow(s.db, id);
    CachedUserAnswers(ttl, s.db, s.cache, s.db.rows[id], env.now, later);
  }

  /** A lookup of what is neither cached nor to be had from the table says why, and caches nothing. */
  lemma MissReports(ttl: int, s: Shelf, call: Call, env: Env)
    requires s.db.Valid() && (call.GetByID? || call.GetByEmail? || call.GetByUsername?)
    requires Hit(s.cache, KeyOfCall(call), env).None?
    requires env.readFault || !match call
                               case GetByID(id) => id in s.db.rows
                               case GetByEmail(e) => HasEmail(s.db, e)
                               case GetByUsername(n) => HasUsername(s.db, n)
    ensures Cached(ttl, s, call, env) == (s, UserReply(Err(if env.readFault then Internal else NotFound)))
  {}

  /** A created user, and an updated one, can be looked up at once without the table. */
  lemma WritesFillTheCache(ttl: int, s: Shelf, u: User, hash: string, env: Env, later: Env)
    requires s.db.Valid() && env.sets == ALL && Within(ttl, env.now, later)
    ensures var (s', reply) := Cached(ttl, s, Create(u, hash), env);
            reply.UserReply? && (reply.user.Ok? ==> AnswersFor(ttl, s', u.(id := s.db.nextId), later))
    ensures var (s', reply) := Cached(ttl, s, Update(u), env);
            reply == StatusReply(Ok(())) ==> AnswersFor(ttl, s', u, later)
  {
    var created := Insert(s.db, u, hash, env.writeFault);
    if created.1.Ok? { CachedUserAnswers(ttl, created.0, s.cache, created.1.value, env.now, later); }
    var updated := Overwrite(s.db, u, env.writeFault);
    if updated.1.Ok? { CachedUserAnswers(ttl, updated.0, s.cache, u, env.now, later); }
  }

  /** Once an entry has expired or been evicted, a lookup of its key answers exactly as the table does: whatever was
      stale there is gone. */
  lemma LostEntriesAreHealed(ttl: int, s: Shelf, keys: set<string>, call: Call, lost: Env, env: Env)
    requires s.db.Valid() && (call.GetByID? || call.GetByEmail? || call.GetByUsername?) && KeyOfCall(call) in keys
    ensures var s' := Cached(ttl, s, Lose(keys), lost).0;
            s'.db == s.db && Cached(ttl, s', call, env).1 == Direct(s.db, call, env).1
  {}

  /** A deletion forgets the email key of a row it could read, and the id key once the row is gone; every other
      entry stays, the username's included. */
  lemma DeleteForgets(ttl: int, s: Shelf, id: int, env: Env, key: string)
    requires s.db.Valid()
    ensures var (s', reply) := Cached(ttl, s, Delete(id), env);
            && (key in s'.cache <==>
                  && key in s.cache
                  && !(!env.readFault && env.delEmailUp && id in s.db.rows && key == EmailKey(s.db.rows[id].email))
                  && !(reply == StatusReply(Ok(())) && env.delIdUp && key == IdKey(id)))
            && (key in s'.cache ==> s'.cache[key] == s.cache[key])
  {}

  // ---- Names that do go stale -----------------------------------------------------------------------

  const FINE := Env(0, true, ALL, true, true, false, false)
  const NOBODY := Db(map[], 1)

  lemma CreatedFirst(ttl: int, u: User)
    requires ttl > 0 && u.username != ""
    ensures var s := Cached(ttl, Shelf(NOBODY, map[]), Create(u, ""), FINE).0;
            var row := u.(id := 1, password := "");
            && s.db == Db(map[1 := row], 2)
            && Peek(s.cache, UsernameKey(u.username), 0) == Some(UserValue(row))
            && Peek(s.cache, EmailKey(u.email), 0) == Some(UserValue(row))
  {
    FamiliesDisjoint(1, u.email, u.username, "");
  }

  /** Whoever is deleted can still be found under its username. */
  lemma DeletedUserIsStillFound(ttl: int, u: User)
    requires ttl > 0 && u.username != ""
    ensures var s := Cached(ttl, Cached(ttl, Shelf(NOBODY, map[]), Create(u, ""), FINE).0, Delete(1), FINE).0;
            && 1 !in s.db.rows
            && Cached(ttl, s, GetByUsername(u.username), FINE).1 == UserReply(Ok(u.(id := 1, password := "")))
            && Stale(s, GetByUsername(u.username), FINE)
  {
    CreatedFirst(ttl, u);
    FamiliesDisjoint(1, u.email, u.username, "");
  }

  /** The first user, once created, changes its names; what was cached under the ones it gives up stays. */
  lemma UpdatedFirst(ttl: int, u: User, moved: User, key: string)
    requires ttl > 0 && u.username != "" && moved == u.(id := 1, email := moved.email, username := moved.username,
                                                       password := "")
    requires key in {EmailKey(u.email), UsernameKey(u.username)} && key !in KeysOf(moved)
    ensures var s := Cached(ttl, Cached(ttl, Shelf(NOBODY, map[]), Create(u, ""), FINE).0, Update(moved), FINE).0;
            s.db.rows == map[1 := moved] && Hit(s.cache, key, FINE) == Some(u.(id := 1, password := ""))
  {
    CreatedFirst(ttl, u);
    var s := Cached(ttl, Shelf(NOBODY, map[]), Create(u, ""), FINE).0;
    assert s.db == Db(map[1 := u.(id := 1, password := "")], 2);
    assert Overwrite(s.db, moved, false).0 == Db(map[1 := moved], 2);
    AfterCacheUser(s.cache, moved, ttl, 0, key);
  }

  /** Whoever changes email can still be found under the old one. */
  lemma MovedUserIsStillFound(ttl: int, u: User, email: string)
    requires ttl > 0 && u.username != "" && email != u.email
    ensures var moved := u.(id := 1, email := email, password := "");
            var s := Cached(ttl, Cached(ttl, Shelf(NOBODY, map[]), Create(u, ""), FINE).0, Update(moved), FINE).0;
            && s.db.rows == map[1 := moved]
            && Cached(ttl, s, GetByEmail(u.email), FINE).1 == UserReply(Ok(u.(id := 1, password := "")))
            && Stale(s, GetByEmail(u.email), FINE)
  {
    var moved := u.(id := 1, email := email, password := "");
    assert EmailKey(u.email) !in KeysOf(moved) by { OtherEmailKey(moved, u.email); }
    UpdatedFirst(ttl, u, moved, EmailKey(u.email));
  }

  /** Whoever changes username can still be found under the old one. */
  lemma RenamedUserIsStillFound(ttl: int, u: User, username: string)
    requires ttl > 0 && u.username != "" && username != u.username
    ensures var moved := u.(id := 1, username := username, password := "");
            var s := Cached(ttl, Cached(ttl, Shelf(NOBODY, map[]), Create(u, ""), FINE).0, Update(moved), FINE).0;
            && s.db.rows == map[1 := moved]
            && Cached(ttl, s, GetByUsername(u.username), FINE).1 == UserReply(Ok(u.(id := 1, password := "")))
            && Stale(s, GetByUsername(u.username), FINE)
  {
    var moved := u.(id := 1, username := username, password := "");
    assert UsernameKey(u.username) !in KeysOf(moved) by { OtherUsernameKey(moved, u.username); }
    UpdatedFirst(ttl, u, moved, UsernameKey(u.username));
  }

  /** Whoever is deleted while the preliminary read fails can still be found under its email. */
  lemma UnreadDeletedUserIsStillFound(ttl: int, u: User)
    requires ttl > 0 && u.username != ""
    ensures var unread := FINE.(readFault := true);
            var s := Cached(ttl, Cached(ttl, Shelf(NOBODY, map[]), Create(u, ""), FINE).0, Delete(1), unread).0;
            && 1 !in s.db.rows
            && Cached(ttl, s, GetByEmail(u.email), FINE).1 == UserReply(Ok(u.(id := 1, password := "")))
            && Stale(s, GetByEmail(u.email), FINE)
  {
    CreatedFirst(ttl, u);
    FamiliesDisjoint(1, u.email, u.username, "");
  }
}
