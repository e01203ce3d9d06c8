/**
 The service objects, each call run from start to finish, and how it appears as steps of the directory.
 */
module Services {
  import opened Users
  import opened Cache
  import opened CachingRepo
  import opened Bloom
  import opened Directory

  datatype Outcome = Registered(user: User) | EmailTaken | Failed(error: Error)

  /** A registration on its own. */
  ghost function RegisterEffect(db: Db, req: RegisterRequest, hash: string, checkFault: bool,
      saveFault: bool): (Db, Outcome)
    requires db.Valid()
  {
    match FindByEmail(db, req.email, checkFault)
    case Ok(_) => (db, EmailTaken)
    case Err(Internal) => (db, Failed(Internal))
    case Err(_) =>
      var (db', res) := Insert(db, NewUser(req), hash, saveFault);
      (db', match res case Ok(u) => Registered(u) case Err(e) => Failed(e))
  }

  /** A registration case by case: it succeeds exactly if both names are free, and inserts an ordinary user. */
  lemma RegisterOutcomes(db: Db, req: RegisterRequest, hash: string, checkFault: bool, saveFault: bool)
    requires db.Valid()
    ensures var (db', out) := RegisterEffect(db, req, hash, checkFault, saveFault);
            var emailFree, usernameFree := !HasEmail(db, req.email), !HasUsername(db, req.username);
            && (out.Registered? <==> !checkFault && !saveFault && emailFree && usernameFree)
            && (out == EmailTaken <==> !checkFault && !emailFree)
            && (out == Failed(Conflict) <==> !checkFault && !saveFault && emailFree && !usernameFree)
            && (out == Failed(Internal) <==> checkFault || (emailFree && saveFault))
            && (!out.Registered? ==> db' == db)
            && (out.Registered? ==>
                  && out.user == User(db.nextId, req.email, req.username, hash, req.name, "user")
                  && db' == Db(db.rows[db.nextId := out.user], db.nextId + 1))
  {}

  function NameBits(pos: Positions, u: User): set<nat>
  {
    pos(Item(Email(u.email))) + pos(Item(Username(u.username)))
  }

  function RegisterSteps(r: nat, req: RegisterRequest, hash: string, checkFault: bool, saveFault: bool): seq<Step>
  {
    [RegCheck(r, req, checkFault), RegSave(r, hash, saveFault), RegAddEmail(r), RegAddUsername(r)]
  }

  lemma RunTwo(cfg: Config, s: State, a: Step, b: Step)
    requires s.db.Valid()
    ensures Run(cfg, s, [a, b]) == Next(cfg, Next(cfg, s, a), b)
  {
    assert [a, b][..1] == [a] && [a][..0] == [];
    assert Run(cfg, s, [a]) == Next(cfg, Run(cfg, s, []), a);
  }

  lemma RunFour(cfg: Config, s: State, a: Step, b: Step, c: Step, d: Step)
    requires s.db.Valid()
    ensures Run(cfg, s, [a, b, c, d]) == Next(cfg, Next(cfg, Next(cfg, Next(cfg, s, a), b), c), d)
  {
    RunTwo(cfg, s, a, b);
    assert [a, b, c, d][..3] == [a, b, c] && [a, b, c][..2] == [a, b];
    assert Run(cfg, s, [a, b, c]) == Next(cfg, Run(cfg, s, [a, b]), c);
  }

  /** A registration left alone is its four steps in a row. */
  lemma RegisterIsFourSteps(cfg: Config, s: State, r: nat, req: RegisterRequest, hash: string,
      checkFault: bool, saveFault: bool)
    requires s.db.Valid() && r !in s.regs
    ensures var (db, out) := RegisterEffect(s.db, req, hash, checkFault, saveFault);
            Run(cfg, s, RegisterSteps(r, req, hash, checkFault, saveFault)) ==
            s.(db := db, bits := if out.Registered? then s.bits + NameBits(cfg.pos, out.user) else s.bits)
  {
    RunFour(cfg, s, RegCheck(r, req, checkFault), RegSave(r, hash, saveFault), RegAddEmail(r), RegAddUsername(r));
    FourSteps(cfg, s, r, req, hash, checkFault, saveFault);
  }

  lemma FourSteps(cfg: Config, s: State, r: nat, req: RegisterRequest, hash: string, checkFault: bool, saveFault: bool)
    requires s.db.Valid() && r !in s.regs
    ensures var (db, out) := RegisterEffect(s.db, req, hash, checkFault, saveFault);
            var saved := Next(cfg, Next(cfg, s, RegCheck(r, req, checkFault)), RegSave(r, hash, saveFault));
            Next(cfg, Next(cfg, saved, RegAddEmail(r)), RegAddUsername(r)) ==
            s.(db := db, bits := if out.Registered? then s.bits + NameBits(cfg.pos, out.user) else s.bits)
  {
    CheckAndSave(cfg, s, r, req, hash, checkFault, saveFault);
    var (db, out) := RegisterEffect(s.db, req, hash, checkFault, saveFault);
    if out.Registered? { AddBoth(cfg, s.(db := db), r, out.user); }
  }

  lemma CheckAndSave(cfg: Config, s: State, r: nat, req: RegisterRequest, hash: string, checkFault: bool,
      saveFault: bool)
    requires s.db.Valid() && r !in s.regs
    ensures var (db, out) := RegisterEffect(s.db, req, hash, checkFault, saveFault);
            Next(cfg, Next(cfg, s, RegCheck(r, req, checkFault)), RegSave(r, hash, saveFault)) ==
            s.(db := db, regs := if out.Registered? then s.regs[r := Saved(out.user)] else s.regs)
  {
    var s1 := Next(cfg, s, RegCheck(r, req, checkFault));
    if FindByEmail(s.db, req.email, checkFault) == Err(NotFound) {
      assert s1.regs - {r} == s.regs;
    }
  }

  lemma AddBoth(cfg: Config, s: State, r: nat, u: User)
    requires s.db.Valid() && r !in s.regs
    ensures Next(cfg, Next(cfg, s.(regs := s.regs[r := Saved(u)]), RegAddEmail(r)), RegAddUsername(r)) ==
            s.(bits := s.bits + NameBits(cfg.pos, u))
  {
    var s3 := Next(cfg, s.(regs := s.regs[r := Saved(u)]), RegAddEmail(r));
    assert s3.regs - {r} == s.regs;
  }

  /** A profile update on its own. */
  ghost function UpdateEffect(db: Db, id: int, req: ProfileRequest, readFault: bool, writeFault: bool): (Db,
      Result<User>)
    requires db.Valid()
  {
    match FindById(db, id, readFault)
    case Err(e) => (db, Err(e))
    case Ok(u) =>
      var (db', res) := Overwrite(db, Merged(u, req), writeFault);
      (db', match res case Ok(_) => Ok(Merged(u, req)) case Err(e) => Err(e))
  }

  /** What an update that succeeds answers is what the id reads back: the requested fields, the others as they
      were, the same password and role; it succeeds exactly if the names are nobody else's. */
  lemma UpdateOutcomes(db: Db, id: int, req: ProfileRequest, readFault: bool, writeFault: bool, other: int)
    requires db.Valid()
    ensures var (db', res) := UpdateEffect(db, id, req, readFault, writeFault);
            && (res == Err(NotFound) <==> !readFault && id !in db.rows)
            && (res.Ok? <==>
                  && !readFault && !writeFault && id in db.rows
                  && NobodyElseHas(db, id, if req.email != "" then req.email else db.rows[id].email,
                                   if req.username != "" then req.username else db.rows[id].username))
            && (res.Ok? ==>
                  && FindById(db', id, false) == res && Carries(res.value, db.rows[id], req)
                  && res.value.id == id && res.value.password == db.rows[id].password
                  && res.value.role == db.rows[id].role)
            && (other != id ==> FindById(db', other, false) == FindById(db, other, false))
  {
    if id in db.rows { OverwriteOutcomes(db, Merged(db.rows[id], req), writeFault, other); }
  }

  /** A profile update left alone is its two steps in a row: it never touches the filter or the cache. */
  lemma UpdateIsTwoSteps(cfg: Config, s: State, p: nat, id: int, req: ProfileRequest, readFault: bool, writeFault: bool)
    requires s.db.Valid() && p !in s.rewrites
    ensures var t := Run(cfg, s, [ProfileRead(p, id, req, readFault), ProfileWrite(p, writeFault)]);
            var (db, res) := UpdateEffect(s.db, id, req, readFault, writeFault);
            t == s.(db := db, renamed := if res.Ok? then s.renamed + Requested(req) else s.renamed)
  {
    RunTwo(cfg, s, ProfileRead(p, id, req, readFault), ProfileWrite(p, writeFault));
    TwoSteps(cfg, s, p, id, req, readFault, writeFault);
  }

  lemma TwoSteps(cfg: Config, s: State, p: nat, id: int, req: ProfileRequest, readFault: bool, writeFault: bool)
    requires s.db.Valid() && p !in s.rewrites
    ensures var (db, res) := UpdateEffect(s.db, id, req, readFault, writeFault);
            Next(cfg, Next(cfg, s, ProfileRead(p, id, req, readFault)), ProfileWrite(p, writeFault)) ==
            s.(db := db, renamed := if res.Ok? then s.renamed + Requested(req) else s.renamed)
  {
    var s1 := Next(cfg, s, ProfileRead(p, id, req, readFault));
    if FindById(s.db, id, readFault).Ok? {
      assert s1 == s.(rewrites := s.rewrites[p := Rewrite(Merged(s.db.rows[id], req), req)]);
      assert s1.rewrites - {p} == s.rewrites;
    } else {
      assert s1 == s;
    }
  }

  /** The authentication service, which works on the table itself. */
  class AuthService {
    const userRepo: UserRepository
    const filter: Filter?

    constructor (userRepo: UserRepository, filter: Filter?)
      ensures this.userRepo == userRepo && this.filter == filter
    {
      this.userRepo, this.filter := userRepo, filter;
    }

    method Register(req: RegisterRequest, hash: string, checkFault: bool, saveFault: bool) returns (out: Outcome)
      requires userRepo.Model().Valid() && (filter != null ==> filter.Valid())
      modifies userRepo, if filter != null then {filter.bits} else {}
      ensures (userRepo.Model(), out) == RegisterEffect(old(userRepo.Model()), req, hash, checkFault, saveFault)
      ensures filter != null ==>
                filter.Model() == old(filter.Model()) + if out.Registered? then NameBits(filter.Pos(), out.user) else {}
    {
      var existing := userRepo.GetByEmail(req.email, checkFault);
      if existing.Err? && existing.error != NotFound { return Failed(existing.error); }
      if existing.Ok? { return EmailTaken; }
      var created := userRepo.Create(NewUser(req), hash, saveFault);
      if created.Err? { return Failed(created.error); }
      if filter != null {
        filter.Add("email:" + req.email);
        filter.Add("username:" + req.username);
      }
      out := Registered(created.value);
    }

    method UpdateProfile(userID: int, req: ProfileRequest, readFault: bool, writeFault: bool) returns (r: Result<User>)
      requires userRepo.Model().Valid()
      modifies userRepo
      ensures (userRepo.Model(), r) == UpdateEffect(old(userRepo.Model()), userID, req, readFault, writeFault)
    {
      r := userRepo.GetByID(userID, readFault);
      if r.Err? { return; }
      var user := r.value;
      if req.name != "" { user := user.(name := req.name); }
      if req.email != "" { user := user.(email := req.email); }
      if req.username != "" { user := user.(username := req.username); }
      var w := userRepo.Update(user, writeFault);
      if w.Err? { return Err(w.error); }
      r := Ok(user);
    }
  }

  // ---- Availability -----------------------------------------------------------------------------

  /** A quiet directory: this table, this filter, this cache, nothing in flight. */
  function Quiet(db: Db, bits: set<nat>, cache: Entries, now: int): State
  {
    State(db, bits, cache, now, map[], map[], map[], {})
  }

  function LookUpCall(n: Name): Call
  {
    match n case Email(e) => GetByEmail(e) case Username(u) => GetByUsername(u)
  }

  /** Checking one name: the cache after it, and the verdict. */
  ghost function CheckEffect(cfg: Config, bits: set<nat>, s: Shelf, n: Name, env: Env): (Entries, Result<bool>)
    requires s.db.Valid()
  {
    if n.text == "" || !Reports(cfg.pos, bits, Item(n)) then (s.cache, Ok(true)) else
      var (s', reply) := Cached(cfg.ttl, s, LookUpCall(n), env);
      (s'.cache, match reply.user case Ok(_) => Ok(false) case Err(NotFound) => Ok(true) case Err(e) => Err(e))
  }

  lemma CheckVerdict(cfg: Config, bits: set<nat>, s: Shelf, n: Name, env: Env)
    requires s.db.Valid()
    ensures CheckEffect(cfg, bits, s, n, env).1 ==
            Available(cfg, Quiet(s.db, bits, s.cache, env.now), n, env.getUp, env.readFault)
  {
    assert Hit(s.cache, KeyOf(n), ReadEnv(env.now, env.getUp)) == Hit(s.cache, KeyOf(n), env);
  }

  /** The table will be asked, and will answer with a user. */
  ghost predicate Fetches(cfg: Config, q: State, n: Name, getUp: bool, fault: bool)
  {
    && Reports(cfg.pos, q.bits, Item(n)) && Hit(q.cache, KeyOf(n), ReadEnv(q.now, getUp)).None?
    && Find(q.db, n, fault).Ok?
  }

  lemma CheckFills(cfg: Config, bits: set<nat>, s: Shelf, n: Name, env: Env)
    requires s.db.Valid() && n.text != ""
    ensures var q := Quiet(s.db, bits, s.cache, env.now);
            CheckEffect(cfg, bits, s, n, env).0 ==
            if Fetches(cfg, q, n, env.getUp, env.readFault)
            then CacheUser(s.cache, Find(s.db, n, env.readFault).value, cfg.ttl, env.now, env.sets) else s.cache
  {
    assert Hit(s.cache, KeyOf(n), ReadEnv(env.now, env.getUp)) == Hit(s.cache, KeyOf(n), env);
  }

  /** Looking a name up in a quiet directory and filling the cache leaves nothing in flight. */
  lemma LookUpThenFill(cfg: Config, q: State, n: Name, getUp: bool, fault: bool, f: nat, up: Writes)
    requires q.db.Valid() && q.fills == map[]
    ensures Next(cfg, Next(cfg, q, LookUp(f, n, getUp, fault)), FillCache(f, up)) ==
            if Fetches(cfg, q, n, getUp, fault)
            then q.(cache := CacheUser(q.cache, Find(q.db, n, fault).value, cfg.ttl, q.now, up)) else q
  {
    if Fetches(cfg, q, n, getUp, fault) {
      var fill := Fill(Find(q.db, n, fault).value, q.now);
      assert Next(cfg, q, LookUp(f, n, getUp, fault)) == q.(fills := map[f := fill]);
      assert map[f := fill] - {f} == map[];
    } else {
      assert Next(cfg, q, LookUp(f, n, getUp, fault)) == q;
    }
  }

  /** Checking one name left alone is a lookup step and a filling step, and the verdict is the directory's. */
  lemma CheckIsTwoSteps(cfg: Config, bits: set<nat>, s: Shelf, n: Name, env: Env, f: nat)
    requires s.db.Valid() && n.text != ""
    ensures var (cache, verdict) := CheckEffect(cfg, bits, s, n, env);
            var q := Quiet(s.db, bits, s.cache, env.now);
            && verdict == Available(cfg, q, n, env.getUp, env.readFault)
            && Next(cfg, Next(cfg, q, LookUp(f, n, env.getUp, env.readFault)), FillCache(f, env.sets)) ==
               q.(cache := cache)
  {
    CheckVerdict(cfg, bits, s, n, env);
    CheckFills(cfg, bits, s, n, env);
    LookUpThenFill(cfg, Quiet(s.db, bits, s.cache, env.now), n, env.getUp, env.readFault, f, env.sets);
  }

  /** The user service, which works through the cache. */
  class UserService {
    const userRepo: CachingUserRepository
    const filter: Filter

    constructor (userRepo: CachingUserRepository, filter: Filter)
      ensures this.userRepo == userRepo && this.filter == filter
    {
      this.userRepo, this.filter := userRepo, filter;
    }

    /** Both names in turn, each as the directory would judge it at its moment; an error ends the check. */
    method CheckAvailability(email: string, username: string, env1: Env, env2: Env) returns (r: Result<(bool, bool)>)
      requires userRepo.Model().db.Valid() && filter.Valid()
      modifies userRepo.cache
      ensures userRepo.Model().db == old(userRepo.Model().db) && filter.Model() == old(filter.Model())
      ensures var cfg := Config(filter.Pos(), userRepo.ttl);
              var (c1, a) := CheckEffect(cfg, old(filter.Model()), old(userRepo.Model()), Email(email), env1);
              var s1 := old(userRepo.Model()).(cache := c1);
              var (c2, b) := CheckEffect(cfg, old(filter.Model()), s1, Username(username), env2);
              match a
              case Err(e) => r == Err(e) && userRepo.Model().cache == c1
              case Ok(free) =>
                && userRepo.Model().cache == c2
                && r == match b case Err(e) => Err(e) case Ok(free') => Ok((free, free'))
    {
      var emailAvail := true;
      if email != "" {
        var taken := Taken(Email(email), env1);
        if taken.Err? { return Err(taken.error); }
        emailAvail := !taken.value;
      }
      var usernameAvail := true;
      if username != "" {
        var taken := Taken(Username(username), env2);
        if taken.Err? { return Err(taken.error); }
        usernameAvail := !taken.value;
      }
      r := Ok((emailAvail, usernameAvail));
    }

    /** The filter and, if it reports the name, the repository. */
    method Taken(n: Name, env: Env) returns (r: Result<bool>)
      requires userRepo.Model().db.Valid() && filter.Valid() && n.text != ""
      modifies userRepo.cache
      ensures userRepo.Model().db == old(userRepo.Model().db) && filter.Model() == old(filter.Model())
      ensures var cfg := Config(filter.Pos(), userRepo.ttl);
              var (c, free) := CheckEffect(cfg, old(filter.Model()), old(userRepo.Model()), n, env);
              userRepo.Model().cache == c && r == match free case Ok(b) => Ok(!b) case Err(e) => Err(e)
    {
      var maybe := filter.Contains(Item(n));
      if !maybe { return Ok(false); }
      var u;
      match n {
        case Email(e) => u := userRepo.GetByEmail(e, env);
        case Username(name) => u := userRepo.GetByUsername(name, env);
      }
      if u.Err? && u.error != NotFound { return Err(u.error); }
      r := Ok(u.Ok?);
    }
  }

  // ---- Start-up ---------------------------------------------------------------------------------

  /** Puts every email and username of the table into the filter; a failed query leaves it empty. */
  method SeedFilter(repo: UserRepository, filter: Filter, fault: bool) returns (seeded: bool)
    requires repo.Model().Valid() && filter.Valid()
    modifies filter.bits
    ensures seeded == !fault && (fault ==> filter.Model() == old(filter.Model()))
    ensures forall cache, now, ttl | seeded ::
              Seeded(Config(filter.Pos(), ttl), Quiet(repo.Model(), filter.Model(), cache, now))
  {
    var r := repo.AllEmailsAndUsernames(fault);
    if r.Err? { return false; }
    var (emails, usernames) := r.value;
    for i := 0 to |emails|
      invariant forall j | 0 <= j < i :: Reports(filter.Pos(), filter.Model(), Item(Email(emails[j])))
    {
      filter.Add("email:" + emails[i]);
    }
    for i := 0 to |usernames|
      invariant forall j | 0 <= j < |emails| :: Reports(filter.Pos(), filter.Model(), Item(Email(emails[j])))
      invariant forall j | 0 <= j < i :: Reports(filter.Pos(), filter.Model(), Item(Username(usernames[j])))
    {
      filter.Add("username:" + usernames[i]);
    }
    seeded := true;
    forall id, n | id in repo.rows && n in NamesOf(repo.rows[id])
      ensures Reports(filter.Pos(), filter.Model(), Item(n))
    {
      HoldsItsNames(repo.Model(), id);
      assert n.Email? ==> n.text in emails;
      assert n.Username? ==> n.text in usernames;
    }
  }
}
