/**
 The repository that puts the cache in front of the user table, and when it may be trusted to
 answer what the table would.
 */
module CachingRepo {
  import opened Users
  import opened Cache

  /** Which of the three writes of one user reach the cache. */
  datatype Writes = Writes(byId: bool, byEmail: bool, byUsername: bool)

  /** The surroundings of one call: the time, and what the cache and the table answer to it. */
  datatype Env = Env(
    now: int, getUp: bool, sets: Writes, delEmailUp: bool, delIdUp: bool, readFault: bool, writeFault: bool)

  function PutIf(up: bool, c: Entries, key: string, v: Value, ttl: int, now: int): Entries
  {
    if up then Put(c, key, v, ttl, now) else c
  }

  /** Writes a user, password blanked, under its three keys; an empty username has no key. */
  function CacheUser(c: Entries, u: User, ttl: int, now: int, up: Writes): Entries
  {
    var safe := UserValue(u.(password := ""));
    var c1 := PutIf(up.byId, c, IdKey(u.id), safe, ttl, now);
    var c2 := PutIf(up.byEmail, c1, EmailKey(u.email), safe, ttl, now);
    if u.username != "" then PutIf(up.byUsername, c2, UsernameKey(u.username), safe, ttl, now) else c2
  }

  /** A cached user under a key, if one can be read. */
  function Hit(c: Entries, key: string, env: Env): Option<User>
  {
    if !env.getUp then None else
      match Peek(c, key, env.now)
      case Some(UserValue(u)) => Some(u)
      case _ => None
  }

  /** Cache first; on a miss the table's answer, which is then cached. */
  function ReadThrough(c: Entries, key: string, table: Result<User>, ttl: int, env: Env): (Entries, Result<User>)
  {
    match Hit(c, key, env)
    case Some(u) => (c, Ok(u))
    case None => if table.Ok? then (CacheUser(c, table.value, ttl, env.now, env.sets), table) else (c, table)
  }

  datatype Shelf = Shelf(db: Db, cache: Entries)

  datatype Call =
    | Create(user: User, hash: string)
    | GetByID(id: int)
    | GetByEmail(email: string)
    | GetByUsername(username: string)
    | Update(user: User)
    | Delete(id: int)
    | Lose(keys: set<string>)  // entries expire or are evicted by the cache server

  datatype Reply = UserReply(user: Result<User>) | StatusReply(status: Result<()>) | NoReply

  /** One call through the caching repository. */
  ghost function Cached(ttl: int, s: Shelf, call: Call, env: Env): (r: (Shelf, Reply))
    requires s.db.Valid()
    ensures r.0.db.Valid()
  {
    match call
    case Create(u, hash) =>
      var (db, res) := Insert(s.db, u, hash, env.writeFault);
      (Shelf(db, if res.Ok? then CacheUser(s.cache, res.value, ttl, env.now, env.sets) else s.cache), UserReply(res))
    case GetByID(id) =>
      var (c, res) := ReadThrough(s.cache, IdKey(id), FindById(s.db, id, env.readFault), ttl, env);
      (s.(cache := c), UserReply(res))
    case GetByEmail(email) =>
      var (c, res) := ReadThrough(s.cache, EmailKey(email), FindByEmail(s.db, email, env.readFault), ttl, env);
      (s.(cache := c), UserReply(res))
    case GetByUsername(username) =>
      var table := FindByUsername(s.db, username, env.readFault);
      var (c, res) := ReadThrough(s.cache, UsernameKey(username), table, ttl, env);
      (s.(cache := c), UserReply(res))
    case Update(u) =>
      var (db, res) := Overwrite(s.db, u, env.writeFault);
      (Shelf(db, if res.Ok? then CacheUser(s.cache, u, ttl, env.now, env.sets) else s.cache), StatusReply(res))
    case Delete(id) =>
      var seen := FindById(s.db, id, env.readFault);
      var c := if seen.Ok? && env.delEmailUp then s.cache - {EmailKey(seen.value.email)} else s.cache;
      var (db, res) := Remove(s.db, id, env.writeFault);
      (Shelf(db, if res.Ok? && env.delIdUp then c - {IdKey(id)} else c), StatusReply(res))
    case Lose(keys) =>
      (s.(cache := s.cache - keys), NoReply)
  }

  /** The same call on the table alone. */
  ghost function Direct(db: Db, call: Call, env: Env): (r: (Db, Reply))
    requires db.Valid()
    ensures r.0.Valid()
  {
    match call
    case Create(u, hash) => var (d, res) := Insert(db, u, hash, env.writeFault); (d, UserReply(res))
    case GetByID(id) => (db, UserReply(FindById(db, id, env.readFault)))
    case GetByEmail(email) => (db, UserReply(FindByEmail(db, email, env.readFault)))
    case GetByUsername(username) => (db, UserReply(FindByUsername(db, username, env.readFault)))
    case Update(u) => var (d, res) := Overwrite(db, u, env.writeFault); (d, StatusReply(res))
    case Delete(id) => var (d, res) := Remove(db, id, env.writeFault); (d, StatusReply(res))
    case Lose(_) => (db, NoReply)
  }

  /** The caching repository object: every method acts on the table and the cache in place. */
  class CachingUserRepository {
    const underlying: UserRepository
    const cache: RedisCache
    const ttl: int

    constructor (underlying: UserRepository, cache: RedisCache, ttl: int)
      ensures this.underlying == underlying && this.cache == cache && this.ttl == ttl
    {
      this.underlying, this.cache, this.ttl := underlying, cache, ttl;
    }

    ghost function Model(): Shelf
      reads this, underlying, cache
    {
      Shelf(underlying.Model(), cache.entries)
    }

    method Create(user: User, passwordHash: string, env: Env) returns (r: Result<User>)
      requires Model().db.Valid()
      modifies underlying, cache
      ensures (Model(), UserReply(r)) == Cached(ttl, old(Model()), Call.Create(user, passwordHash), env)
    {
      r := underlying.Create(user, passwordHash, env.writeFault);
      if r.Ok? { CacheUserNow(r.value, env); }
    }

    method GetByID(id: int, env: Env) returns (r: Result<User>)
      requires Model().db.Valid()
      modifies cache
      ensures (Model(), UserReply(r)) == Cached(ttl, old(Model()), Call.GetByID(id), env)
    {
      var v := cache.Get(IdKey(id), env.now, env.getUp);
      if v.Some? && v.value.UserValue? { return Ok(v.value.user); }
      r := underlying.GetByID(id, env.readFault);
      if r.Ok? { CacheUserNow(r.value, env); }
    }

    method GetByEmail(email: string, env: Env) returns (r: Result<User>)
      requires Model().db.Valid()
      modifies cache
      ensures (Model(), UserReply(r)) == Cached(ttl, old(Model()), Call.GetByEmail(email), env)
    {
      var v := cache.Get(EmailKey(email), env.now, env.getUp);
      if v.Some? && v.value.UserValue? { return Ok(v.value.user); }
      r := underlying.GetByEmail(email, env.readFault);
      if r.Ok? { CacheUserNow(r.value, env); }
    }

    method GetByUsername(username: string, env: Env) returns (r: Result<User>)
      requires Model().db.Valid()
      modifies cache
      ensures (Model(), UserReply(r)) == Cached(ttl, old(Model()), Call.GetByUsername(username), env)
    {
      var v := cache.Get(UsernameKey(username), env.now, env.getUp);
      if v.Some? && v.value.UserValue? { return Ok(v.value.user); }
      r := underlying.GetByUsername(username, env.readFault);
      if r.Ok? { CacheUserNow(r.value, env); }
    }

    method Update(user: User, env: Env) returns (r: Result<()>)
      requires Model().db.Valid()
      modifies underlying, cache
      ensures (Model(), StatusReply(r)) == Cached(ttl, old(Model()), Call.Update(user), env)
    {
      r := underlying.Update(user, env.writeFault);
      if r.Ok? { CacheUserNow(user, env); }
    }

    /** Drops the email key of the row it can still read, then the row, then the id key. */
    method Delete(id: int, env: Env) returns (r: Result<()>)
      requires Model().db.Valid()
      modifies underlying, cache
      ensures (Model(), StatusReply(r)) == Cached(ttl, old(Model()), Call.Delete(id), env)
    {
      var user := underlying.GetByID(id, env.readFault);
      if user.Ok? { cache.Delete(EmailKey(user.value.email), env.delEmailUp); }
      r := underlying.Delete(id, env.writeFault);
      if r.Ok? { cache.Delete(IdKey(id), env.delIdUp); }
    }

    method CacheUserNow(user: User, env: Env)
      modifies cache
      ensures cache.entries == CacheUser(old(cache.entries), user, ttl, env.now, env.sets)
    {
      var safe := user.(password := "");
      cache.Set(IdKey(safe.id), UserValue(safe), ttl, env.now, env.sets.byId);
      cache.Set(EmailKey(safe.email), UserValue(safe), ttl, env.now, env.sets.byEmail);
      if safe.username != "" {
        cache.Set(UsernameKey(safe.username), UserValue(safe), ttl, env.now, env.sets.byUsername);
      }
    }
  }

  // ---- Coherence ----------------------------------------------------------------------------------

  ghost predicate Shows(c: Entries, key: string, u: User)
  {
    key in c ==> c[key].value == UserValue(Public(u))
  }

  /** Whatever is cached under the keys of a row is that row; a missing row has no id key. */
  ghost predicate RowCoherent(s: Shelf, id: int)
  {
    if id in s.db.rows then
      var u := s.db.rows[id];
      Shows(s.cache, IdKey(id), u) && Shows(s.cache, EmailKey(u.email), u) && Shows(s.cache, UsernameKey(u.username), u)
    else
      IdKey(id) !in s.cache
  }

  ghost predicate Coherent(s: Shelf)
  {
    && s.db.Valid()
    && UsernameKey("") !in s.cache
    && forall id :: RowCoherent(s, id)
  }

  /** A user record passed to Update was read from the table: it carries the row's own role. */
  ghost predicate ReadFirst(db: Db, call: Call)
  {
    call.Update? && call.user.id in db.rows ==> call.user.role == db.rows[call.user.id].role
  }

  /** Cache writes and deletions succeed; reads may fail, the table may fail. */
  predicate CacheAnswers(env: Env) { env.sets == ALL && env.delEmailUp && env.delIdUp }

  const ALL := Writes(true, true, true)

  function KeysOf(u: User): set<string> { {IdKey(u.id), EmailKey(u.email), UsernameKey(u.username)} }

  lemma AfterCacheUser(c: Entries, u: User, ttl: int, now: int, key: string)
    ensures var c' := CacheUser(c, u, ttl, now, ALL);
            && (key in KeysOf(u) && !(u.username == "" && key == UsernameKey("")) ==>
                  key in c' && c'[key].value == UserValue(Public(u)))
            && (key !in KeysOf(u) ==> (key in c' <==> key in c))
            && (key !in KeysOf(u) && key in c ==> c'[key] == c[key])
  {}

  lemma OtherIdKey(u: User, id: int)
    requires u.id != id
    ensures IdKey(id) !in KeysOf(u)
  {
    KeysInjective();
    FamiliesDisjoint(id, u.email, u.username, "");
  }

  lemma OtherEmailKey(u: User, email: string)
    requires u.email != email
    ensures EmailKey(email) !in KeysOf(u)
  {
    KeysInjective();
    FamiliesDisjoint(u.id, email, u.username, "");
  }

  lemma OtherUsernameKey(u: User, username: string)
    requires u.username != username
    ensures UsernameKey(username) !in KeysOf(u)
  {
    KeysInjective();
    FamiliesDisjoint(u.id, u.email, username, "");
  }

  lemma KeysApart(u: User, v: User)
    requires u.id != v.id && u.email != v.email && u.username != v.username
    ensures KeysOf(u) !! KeysOf(v)
  {
    OtherIdKey(u, v.id);
    OtherEmailKey(u, v.email);
    OtherUsernameKey(u, v.username);
  }

  lemma NoKeyForNoName(c: Entries, u: User, ttl: int, now: int)
    requires UsernameKey("") !in c
    ensures UsernameKey("") !in CacheUser(c, u, ttl, now, ALL)
  {
    FamiliesDisjoint(u.id, u.email, "", "");
    KeysInjective();
  }

  /** Caching a row of the table makes that row coherent and leaves the others as they were. */
  lemma CachingARow(db: Db, c: Entries, u: User, ttl: int, now: int)
    requires db.Valid() && u.id in db.rows && Public(u) == Public(db.rows[u.id])
    requires UsernameKey("") !in c
    requires forall id | id != u.id :: RowCoherent(Shelf(db, c), id)
    ensures Coherent(Shelf(db, CacheUser(c, u, ttl, now, ALL)))
  {
    var c' := CacheUser(c, u, ttl, now, ALL);
    NoKeyForNoName(c, u, ttl, now);
    forall id ensures RowCoherent(Shelf(db, c'), id) {
      if id == u.id {
        AfterCacheUser(c, u, ttl, now, IdKey(u.id));
        AfterCacheUser(c, u, ttl, now, EmailKey(u.email));
        AfterCacheUser(c, u, ttl, now, UsernameKey(u.username));
      } else {
        assert RowCoherent(Shelf(db, c), id);
        if id in db.rows {
          var v := db.rows[id];
          KeysApart(u, v);
          AfterCacheUser(c, u, ttl, now, IdKey(v.id));
          AfterCacheUser(c, u, ttl, now, EmailKey(v.email));
          AfterCacheUser(c, u, ttl, now, UsernameKey(v.username));
        } else {
          OtherIdKey(u, id);
          AfterCacheUser(c, u, ttl, now, IdKey(id));
        }
      }
    }
  }

  lemma ReadKeepsCoherence(ttl: int, s: Shelf, key: string, table: Result<User>, env: Env)
    requires Coherent(s) && env.sets == ALL
    requires table.Ok? ==> table.value.id in s.db.rows && table.value == s.db.rows[table.value.id]
    ensures Coherent(s.(cache := ReadThrough(s.cache, key, table, ttl, env).0))
  {
    if Hit(s.cache, key, env).None? && table.Ok? {
      assert s == Shelf(s.db, s.cache);
      CachingARow(s.db, s.cache, table.value, ttl, env.now);
    }
  }

  lemma CreateKeepsCoherence(ttl: int, s: Shelf, u: User, hash: string, env: Env)
    requires Coherent(s) && env.sets == ALL
    ensures Coherent(Cached(ttl, s, Create(u, hash), env).0)
  {
    var (db, res) := Insert(s.db, u, hash, env.writeFault);
    if res.Ok? {
      forall id | id != res.value.id ensures RowCoherent(Shelf(db, s.cache), id) {
        assert RowCoherent(s, id);
      }
      CachingARow(db, s.cache, res.value, ttl, env.now);
    }
  }

  lemma UpdateKeepsCoherence(ttl: int, s: Shelf, u: User, env: Env)
    requires Coherent(s) && env.sets == ALL && ReadFirst(s.db, Update(u))
    ensures Coherent(Cached(ttl, s, Update(u), env).0)
  {
    var (db, res) := Overwrite(s.db, u, env.writeFault);
    if res.Ok? {
      forall id | id != u.id ensures RowCoherent(Shelf(db, s.cache), id) {
        assert RowCoherent(s, id);
      }
      CachingARow(db, s.cache, u, ttl, env.now);
    }
  }

  lemma DeleteKeepsCoherence(ttl: int, s: Shelf, id: int, env: Env)
    requires Coherent(s) && env.delIdUp
    ensures Coherent(Cached(ttl, s, Delete(id), env).0)
  {
    var s' := Cached(ttl, s, Delete(id), env).0;
    forall i ensures RowCoherent(s', i) {
      assert RowCoherent(s, i);
    }
  }

  /** Every call keeps the cache coherent, as long as the cache takes writes and deletions. */
  lemma CallKeepsCoherence(ttl: int, s: Shelf, call: Call, env: Env)
    requires Coherent(s) && CacheAnswers(env) && ReadFirst(s.db, call)
    ensures Coherent(Cached(ttl, s, call, env).0)
  {
    match call
    case Create(u, hash) => CreateKeepsCoherence(ttl, s, u, hash, env);
    case GetByID(id) => ReadKeepsCoherence(ttl, s, IdKey(id), FindById(s.db, id, env.readFault), env);
    case GetByEmail(e) => ReadKeepsCoherence(ttl, s, EmailKey(e), FindByEmail(s.db, e, env.readFault), env);
    case GetByUsername(n) => ReadKeepsCoherence(ttl, s, UsernameKey(n), FindByUsername(s.db, n, env.readFault), env);
    case Update(u) => UpdateKeepsCoherence(ttl, s, u, env);
    case Delete(id) => DeleteKeepsCoherence(ttl, s, id, env);
    case Lose(keys) =>
      forall id ensures RowCoherent(s.(cache := s.cache - keys), id) { assert RowCoherent(s, id); }
  }
}
