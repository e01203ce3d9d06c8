/**
 The user directory as the server runs it: the table, the cache, the bloom filter and the calls in
 flight, one atomic step at a time.

 Registration and profile updates go to the table directly and never touch the cache; availability
 checks and deletions go through it. Calls of different clients interleave freely.
 */
module Directory {
  import opened Users
  import opened Cache
  import opened CachingRepo
  import opened Bloom

  /** An identifier that must be unique. */
  datatype Name = Email(text: string) | Username(text: string)

  function Item(n: Name): string
  {
    match n case Email(e) => "email:" + e case Username(u) => "username:" + u
  }

  function KeyOf(n: Name): string
  {
    match n case Email(e) => EmailKey(e) case Username(u) => UsernameKey(u)
  }

  function NamesOf(u: User): set<Name> { {Email(u.email), Username(u.username)} }

  ghost predicate Holds(db: Db, n: Name)
  {
    exists id :: id in db.rows && n in NamesOf(db.rows[id])
  }

  ghost function Find(db: Db, n: Name, fault: bool): (r: Result<User>)
    ensures r == Err(NotFound) <==> !fault && !Holds(db, n)
    ensures r.Ok? ==> !fault && n in NamesOf(r.value) && exists id :: id in db.rows && db.rows[id] == r.value
  {
    HoldsEither(db, n);
    match n case Email(e) => FindByEmail(db, e, fault) case Username(u) => FindByUsername(db, u, fault)
  }

  lemma HoldsEither(db: Db, n: Name)
    ensures Holds(db, n) <==> match n case Email(e) => HasEmail(db, e) case Username(u) => HasUsername(db, u)
  {
    match n
    case Email(e) =>
      if HasEmail(db, e) { var id :| id in db.rows && db.rows[id].email == e; assert n in NamesOf(db.rows[id]); }
    case Username(u) =>
      if HasUsername(db, u) { var id :| id in db.rows && db.rows[id].username == u; assert n in NamesOf(db.rows[id]); }
  }

  lemma HolderHolds(db: Db, id: int, n: Name)
    requires id in db.rows && n in NamesOf(db.rows[id])
    ensures Holds(db, n)
  {}

  datatype RegisterRequest = RegisterRequest(email: string, username: string, name: string)
  datatype ProfileRequest = ProfileRequest(name: string, email: string, username: string)

  /** A registration in flight: looked up, inserted, first filter entry made. */
  datatype Registration = Checked(req: RegisterRequest) | Saved(user: User) | EmailAdded(user: User)
  /** A profile update between its read and its write. */
  datatype Rewrite = Rewrite(user: User, req: ProfileRequest)
  /** A cache miss between the table's answer and the cache write. */
  datatype Fill = Fill(user: User, readAt: int)

  datatype Config = Config(pos: Positions, ttl: int)

  datatype State = State(
    db: Db, bits: set<nat>, cache: Entries, now: int,
    regs: map<nat, Registration>, rewrites: map<nat, Rewrite>, fills: map<nat, Fill>,
    renamed: set<Name>)  // the names that profile updates have asked for, and got, so far

  datatype Step =
    | Tick(d: nat)
    | RegCheck(r: nat, req: RegisterRequest, fault: bool)
    | RegSave(r: nat, hash: string, fault: bool)
    | RegAddEmail(r: nat)
    | RegAddUsername(r: nat)
    | ProfileRead(p: nat, id: int, change: ProfileRequest, fault: bool)
    | ProfileWrite(p: nat, fault: bool)
    | DeleteRow(id: int, fault: bool)
    | LoseKeys(keys: set<string>)  // expiry, eviction, or the key deletions of a user deletion
    | LookUp(f: nat, name: Name, getUp: bool, fault: bool)
    | FillCache(f: nat, writes: Writes)
    | CacheRates(base: string, rates: map<string, real>, up: bool)

  function NewUser(req: RegisterRequest): User
  {
    User(0, req.email, req.username, "", req.name, ROLE_USER)
  }

  /** Empty fields of a profile request leave the user's own. */
  function Merged(u: User, req: ProfileRequest): User
  {
    u.(name := if req.name != "" then req.name else u.name,
       email := if req.email != "" then req.email else u.email,
       username := if req.username != "" then req.username else u.username)
  }

  function Requested(req: ProfileRequest): set<Name>
  {
    (if req.email != "" then {Email(req.email)} else {}) + (if req.username != "" then {Username(req.username)} else {})
  }

  function ReadEnv(now: int, getUp: bool): Env { Env(now, getUp, ALL, true, true, false, false) }

  ghost function Next(cfg: Config, s: State, step: Step): (s': State)
    requires s.db.Valid()
    ensures s'.db.Valid()
  {
    match step
    case Tick(d) => s.(now := s.now + d)
    case RegCheck(r, req, fault) =>
      if r !in s.regs && FindByEmail(s.db, req.email, fault) == Err(NotFound)
      then s.(regs := s.regs[r := Checked(req)]) else s
    case RegSave(r, hash, fault) =>
      if r in s.regs && s.regs[r].Checked? then
        var (db, res) := Insert(s.db, NewUser(s.regs[r].req), hash, fault);
        s.(db := db, regs := if res.Ok? then s.regs[r := Saved(res.value)] else s.regs - {r})
      else s
    case RegAddEmail(r) =>
      if r in s.regs && s.regs[r].Saved? then
        var u := s.regs[r].user;
        s.(bits := s.bits + cfg.pos(Item(Email(u.email))), regs := s.regs[r := EmailAdded(u)])
      else s
    case RegAddUsername(r) =>
      if r in s.regs && s.regs[r].EmailAdded? then
        var u := s.regs[r].user;
        s.(bits := s.bits + cfg.pos(Item(Username(u.username))), regs := s.regs - {r})
      else s
    case ProfileRead(p, id, req, fault) =>
      var u := FindById(s.db, id, fault);
      if p !in s.rewrites && u.Ok? then s.(rewrites := s.rewrites[p := Rewrite(Merged(u.value, req), req)]) else s
    case ProfileWrite(p, fault) =>
      if p in s.rewrites then
        var w := s.rewrites[p];
        var (db, res) := Overwrite(s.db, w.user, fault);
        s.(db := db, rewrites := s.rewrites - {p},
           renamed := if res.Ok? then s.renamed + Requested(w.req) else s.renamed)
      else s
    case DeleteRow(id, fault) => s.(db := Remove(s.db, id, fault).0)
    case LoseKeys(keys) => s.(cache := s.cache - keys)
    case LookUp(f, n, getUp, fault) =>
      if f in s.fills || !Reports(cfg.pos, s.bits, Item(n)) then s
      else if Hit(s.cache, KeyOf(n), ReadEnv(s.now, getUp)).Some? then s
      else
        var u := Find(s.db, n, fault);
        if u.Ok? then s.(fills := s.fills[f := Fill(u.value, s.now)]) else s
    case FillCache(f, up) =>
      if f in s.fills then
        s.(cache := CacheUser(s.cache, s.fills[f].user, cfg.ttl, s.now, up), fills := s.fills - {f})
      else s
    case CacheRates(base, rates, up) =>
      s.(cache := PutIf(up, s.cache, RatesKey(base), RatesValue(rates), cfg.ttl, s.now))
  }

  ghost function Run(cfg: Config, s: State, steps: seq<Step>): (s': State)
    requires s.db.Valid()
    ensures s'.db.Valid()
  {
    if steps == [] then s else Next(cfg, Run(cfg, s, steps[..|steps| - 1]), steps[|steps| - 1])
  }

  /** One name's part of an availability check: the filter first, then the cache, then the table. */
  ghost function Available(cfg: Config, s: State, n: Name, getUp: bool, fault: bool): Result<bool>
  {
    if n.text == "" || !Reports(cfg.pos, s.bits, Item(n)) then Ok(true)
    else if Hit(s.cache, KeyOf(n), ReadEnv(s.now, getUp)).Some? then Ok(false)
    else match Find(s.db, n, fault)
         case Ok(_) => Ok(false)
         case Err(NotFound) => Ok(true)
         case Err(e) => Err(e)
  }

  // ---- The filter covers the table ------------------------------------------------------------------

  predicate Owes(g: Registration, n: Name)
  {
    match g
    case Checked(_) => false
    case Saved(u) => n in NamesOf(u)
    case EmailAdded(u) => n == Username(u.username)
  }

  /** Some registration has inserted this name and not yet added it to the filter. */
  ghost predicate Owed(s: State, n: Name)
  {
    exists r :: r in s.regs && Owes(s.regs[r], n)
  }

  /** `missed` are the names that seeding left out: none if it completed, any if the query failed. */
  ghost predicate Covered(cfg: Config, s: State, missed: set<Name>, n: Name)
  {
    Reports(cfg.pos, s.bits, Item(n)) || Owed(s, n) || n in s.renamed || n in missed
  }

  ghost predicate FilterAgrees(cfg: Config, s: State, missed: set<Name>)
  {
    && (forall id | id in s.db.rows :: forall n | n in NamesOf(s.db.rows[id]) :: Covered(cfg, s, missed, n))
    && (forall p | p in s.rewrites ::
          forall n | n in NamesOf(s.rewrites[p].user) - Requested(s.rewrites[p].req) :: Covered(cfg, s, missed, n))
  }

  /** The state when the services start: any table, any cache, all names but `missed` in the filter. */
  ghost predicate Started(cfg: Config, s: State, missed: set<Name>)
  {
    && s.db.Valid()
    && (forall id | id in s.db.rows ::
          forall n | n in NamesOf(s.db.rows[id]) :: Reports(cfg.pos, s.bits, Item(n)) || n in missed)
    && s.regs == map[] && s.rewrites == map[] && s.fills == map[] && s.renamed == {}
  }

  /** The state right after a completed seed. */
  ghost predicate Seeded(cfg: Config, s: State)
  {
    Started(cfg, s, {})
  }

  lemma OwedBy(s: State, r: nat, n: Name)
    requires r in s.regs && Owes(s.regs[r], n)
    ensures Owed(s, n)
  {}

  /** Once covered, always covered. */
  lemma CoverLasts(cfg: Config, s: State, missed: set<Name>, step: Step, n: Name)
    requires s.db.Valid() && Covered(cfg, s, missed, n)
    ensures Covered(cfg, Next(cfg, s, step), missed, n)
  {
    var s' := Next(cfg, s, step);
    if Owed(s, n) {
      var r :| r in s.regs && Owes(s.regs[r], n);
      if r in s'.regs && Owes(s'.regs[r], n) {
        OwedBy(s', r, n);
      }
    }
  }

  /** A freshly inserted row's names are owed by its registration. */
  lemma SaveOwes(cfg: Config, s: State, r: nat, hash: string, fault: bool, id: int, n: Name)
    requires s.db.Valid()
    requires var s' := Next(cfg, s, RegSave(r, hash, fault));
             id in s'.db.rows && id !in s.db.rows && n in NamesOf(s'.db.rows[id])
    ensures Owed(Next(cfg, s, RegSave(r, hash, fault)), n)
  {
    OwedBy(Next(cfg, s, RegSave(r, hash, fault)), r, n);
  }

  /** A row's name after a step was there before, or its registration owes it, or a profile update asked for it. */
  lemma RowNameAfterStep(cfg: Config, s: State, step: Step, id: int, n: Name)
    requires s.db.Valid() && id in Next(cfg, s, step).db.rows && n in NamesOf(Next(cfg, s, step).db.rows[id])
    ensures var s' := Next(cfg, s, step);
            || (id in s.db.rows && n in NamesOf(s.db.rows[id]))
            || Owed(s', n) || n in s'.renamed
            || (step.ProfileWrite? && step.p in s.rewrites &&
                n in NamesOf(s.rewrites[step.p].user) - Requested(s.rewrites[step.p].req))
  {
    if id !in s.db.rows { SaveOwes(cfg, s, step.r, step.hash, step.fault, id, n); }
  }

  lemma RewriteNameAfterStep(cfg: Config, s: State, step: Step, p: nat, n: Name)
    requires s.db.Valid() && p in Next(cfg, s, step).rewrites
    requires var w := Next(cfg, s, step).rewrites[p]; n in NamesOf(w.user) - Requested(w.req)
    ensures || (p in s.rewrites && n in NamesOf(s.rewrites[p].user) - Requested(s.rewrites[p].req))
            || (step.ProfileRead? && step.id in s.db.rows && n in NamesOf(s.db.rows[step.id]))
  {}

  lemma AgreementLasts(cfg: Config, s: State, missed: set<Name>, step: Step)
    requires s.db.Valid() && FilterAgrees(cfg, s, missed)
    ensures FilterAgrees(cfg, Next(cfg, s, step), missed)
  {
    var s' := Next(cfg, s, step);
    forall id, n | id in s'.db.rows && n in NamesOf(s'.db.rows[id]) ensures Covered(cfg, s', missed, n) {
      RowNameAfterStep(cfg, s, step, id, n);
      if Covered(cfg, s, missed, n) { CoverLasts(cfg, s, missed, step, n); }
    }
    forall p, n | p in s'.rewrites && n in NamesOf(s'.rewrites[p].user) - Requested(s'.rewrites[p].req)
      ensures Covered(cfg, s', missed, n)
    {
      RewriteNameAfterStep(cfg, s, step, p, n);
      CoverLasts(cfg, s, missed, step, n);
    }
  }

  /** Over all interleavings: a name in the table that the filter does not report belongs to a
      registration that is about to add it, was asked for by a profile update, or was missed by seeding. */
  lemma {:induction false} FilterAgreement(cfg: Config, s: State, missed: set<Name>, steps: seq<Step>)
    requires Started(cfg, s, missed)
    ensures FilterAgrees(cfg, Run(cfg, s, steps), missed)
  {
    if steps != [] {
      FilterAgreement(cfg, s, missed, steps[..|steps| - 1]);
      AgreementLasts(cfg, Run(cfg, s, steps[..|steps| - 1]), missed, steps[|steps| - 1]);
    }
  }

  // ---- What the filter holds ------------------------------------------------------------------------

  /** The item that a step adds to the filter, if any. */
  function Added(s: State, step: Step): seq<string>
  {
    if step.RegAddEmail? && step.r in s.regs && s.regs[step.r].Saved? then [Item(Email(s.regs[step.r].user.email))]
    else if step.RegAddUsername? && step.r in s.regs && s.regs[step.r].EmailAdded?
    then [Item(Username(s.regs[step.r].user.username))]
    else []
  }

  /** All that a run adds to the filter. */
  ghost function Additions(cfg: Config, s: State, steps: seq<Step>): seq<string>
    requires s.db.Valid()
  {
    if steps == [] then []
    else
      var us := steps[..|steps| - 1];
      Additions(cfg, s, us) + Added(Run(cfg, s, us), steps[|steps| - 1])
  }

  lemma BitsAfterStep(cfg: Config, s: State, step: Step)
    requires s.db.Valid()
    ensures Next(cfg, s, step).bits == s.bits + BitsOf(cfg.pos, Added(s, step))
  {
    var items := Added(s, step);
    if items != [] { BitsOfOne(cfg.pos, items[0]); }
  }

  /** The bits of a run are those it started with and those of the names that registrations added, and no
      other step sets or clears one. */
  lemma {:induction false} BitsOfRun(cfg: Config, s: State, steps: seq<Step>)
    requires s.db.Valid()
    ensures Run(cfg, s, steps).bits == s.bits + BitsOf(cfg.pos, Additions(cfg, s, steps))
  {
    if steps != [] {
      var us := steps[..|steps| - 1];
      BitsOfRun(cfg, s, us);
      BitsAfterStep(cfg, Run(cfg, s, us), steps[|steps| - 1]);
      BitsOfAppend(cfg.pos, Additions(cfg, s, us), Added(Run(cfg, s, us), steps[|steps| - 1]));
    }
  }

  /** A name added by a registration is reported ever after, and every bit set during the run is an added
      name's. */
  lemma AddedNamesAreReported(cfg: Config, s: State, steps: seq<Step>, bit: nat)
    requires s.db.Valid()
    ensures forall item | item in Additions(cfg, s, steps) :: Reports(cfg.pos, Run(cfg, s, steps).bits, item)
    ensures bit in Run(cfg, s, steps).bits - s.bits ==>
              exists item :: item in Additions(cfg, s, steps) && bit in cfg.pos(item)
  {
    var items := Additions(cfg, s, steps);
    BitsOfRun(cfg, s, steps);
    forall item | item in items ensures Reports(cfg.pos, Run(cfg, s, steps).bits, item) {
      NoFalseNegatives(cfg.pos, items, item);
    }
    if bit in Run(cfg, s, steps).bits - s.bits { EveryBitHasACause(cfg.pos, items, bit); }
  }

  // ---- Availability ---------------------------------------------------------------------------------

  /** The cache answers and shows a user under this name. */
  predicate Shown(s: State, n: Name, getUp: bool)
  {
    && getUp && KeyOf(n) in s.cache && s.cache[KeyOf(n)].value.UserValue?
    && (s.cache[KeyOf(n)].expiry.At? ==> s.now < s.cache[KeyOf(n)].expiry.time)
  }

  /** The verdict on a name, case by case: a name nobody holds and no live entry shows is available, and only
      a failing table that has to be asked makes an error of it. */
  lemma VerdictExactly(cfg: Config, s: State, n: Name, getUp: bool, fault: bool)
    ensures var asked := n.text != "" && Reports(cfg.pos, s.bits, Item(n));
            var verdict := Available(cfg, s, n, getUp, fault);
            && (verdict == Ok(true) <==> !asked || (!Shown(s, n, getUp) && !fault && !Holds(s.db, n)))
            && (verdict == Ok(false) <==> asked && (Shown(s, n, getUp) || (!fault && Holds(s.db, n))))
            && (verdict == Err(Internal) <==> asked && !Shown(s, n, getUp) && fault)
  {}

  lemma NoFaultNoError(cfg: Config, s: State, n: Name, getUp: bool)
    ensures Available(cfg, s, n, getUp, false) in {Ok(true), Ok(false)}
  {
    VerdictExactly(cfg, s, n, getUp, false);
  }

  /** After any run, whatever the cache holds, a name called available is free, unless a registration owes
      it to the filter, a profile update set it, or seeding missed it. */
  lemma AvailabilitySound(cfg: Config, s: State, missed: set<Name>, steps: seq<Step>, cache: Entries,
      n: Name, getUp: bool, fault: bool)
    requires Started(cfg, s, missed) && n.text != ""
    requires var t := Run(cfg, s, steps); n !in t.renamed && !Owed(t, n) && n !in missed
    requires Available(cfg, Run(cfg, s, steps).(cache := cache), n, getUp, fault) == Ok(true)
    ensures !Holds(Run(cfg, s, steps).db, n)
  {
    var t := Run(cfg, s, steps);
    FilterAgreement(cfg, s, missed, steps);
    VerdictExactly(cfg, t.(cache := cache), n, getUp, fault);
    assert forall id, m | id in t.db.rows && m in NamesOf(t.db.rows[id]) :: Covered(cfg, t, missed, m);
  }

  /** After a failed seed the filter is empty, and every name of the table with at least one hash position
      is called available. */
  lemma UnseededNamesLookFree(cfg: Config, s: State, n: Name, getUp: bool, fault: bool)
    requires s.bits == {} && Holds(s.db, n)
    ensures Available(cfg, s, n, getUp, fault) == Ok(true) <==> n.text == "" || cfg.pos(Item(n)) != {}
  {
    if cfg.pos(Item(n)) != {} {
      var p :| p in cfg.pos(Item(n));
      assert p !in s.bits;
    }
  }

  /** A deleted user's names are called available as soon as the cache has forgotten them, although the filter
      goes on reporting them. */
  lemma DeletedNamesAreAvailable(cfg: Config, s: State, id: int, n: Name, getUp: bool)
    requires s.db.Valid() && id in s.db.rows && n in NamesOf(s.db.rows[id])
    ensures var s' := Next(cfg, Next(cfg, s, DeleteRow(id, false)), LoseKeys({KeyOf(n)}));
            !Holds(s'.db, n) && s'.bits == s.bits && Available(cfg, s', n, getUp, false) == Ok(true)
  {
    var s' := Next(cfg, Next(cfg, s, DeleteRow(id, false)), LoseKeys({KeyOf(n)}));
    assert !Holds(s'.db, n);
    VerdictExactly(cfg, s', n, getUp, false);
  }

  // ---- Profile updates --------------------------------------------------------------------------------

  /** The row has the requested name, email and username, and what it had before where none was requested. */
  predicate Carries(row: User, before: User, req: ProfileRequest)
  {
    && row.name == (if req.name != "" then req.name else before.name)
    && row.email == (if req.email != "" then req.email else before.email)
    && row.username == (if req.username != "" then req.username else before.username)
  }

  lemma RewriteStaysOnce(cfg: Config, s: State, step: Step, p: nat)
    requires s.db.Valid() && p in s.rewrites && !(step.ProfileWrite? && step.p == p)
    ensures p in Next(cfg, s, step).rewrites && Next(cfg, s, step).rewrites[p] == s.rewrites[p]
  {}

  lemma {:induction false} RewriteStays(cfg: Config, s: State, steps: seq<Step>, p: nat)
    requires s.db.Valid() && p in s.rewrites
    requires forall i | 0 <= i < |steps| :: !(steps[i].ProfileWrite? && steps[i].p == p)
    ensures p in Run(cfg, s, steps).rewrites && Run(cfg, s, steps).rewrites[p] == s.rewrites[p]
  {
    if steps != [] {
      RewriteStays(cfg, s, steps[..|steps| - 1], p);
      RewriteStaysOnce(cfg, Run(cfg, s, steps[..|steps| - 1]), steps[|steps| - 1], p);
    }
  }

  /** Nobody but this user has these names. */
  predicate NobodyElseHas(db: Db, id: int, email: string, username: string)
  {
    forall i | i in db.rows && i != id :: db.rows[i].email != email && db.rows[i].username != username
  }

  /** This update will write the profile of this id, made up from the row as it was before. */
  predicate WillWrite(s: State, p: nat, id: int, before: User, req: ProfileRequest)
  {
    && p in s.rewrites && s.rewrites[p].user.id == id && Carries(s.rewrites[p].user, before, req)
    && s.rewrites[p].req == req
  }

  lemma ReadTakesTheRow(cfg: Config, s: State, p: nat, id: int, req: ProfileRequest)
    requires s.db.Valid() && id in s.db.rows && p !in s.rewrites
    ensures WillWrite(Next(cfg, s, ProfileRead(p, id, req, false)), p, id, s.db.rows[id], req)
  {}

  /** The table with the profile of one row rewritten, and nothing else. */
  predicate OnlyRewritten(db': Db, db: Db, id: int, before: User, req: ProfileRequest)
    requires id in db.rows
  {
    && db'.rows.Keys == db.rows.Keys && Carries(db'.rows[id], before, req)
    && db'.rows[id].password == db.rows[id].password && db'.rows[id].role == db.rows[id].role
    && forall i | i in db.rows && i != id :: db'.rows[i] == db.rows[i]
  }

  lemma WriteIsWhole(cfg: Config, t: State, p: nat, id: int, before: User, req: ProfileRequest)
    requires t.db.Valid() && WillWrite(t, p, id, before, req) && id in t.db.rows
    requires var u := t.rewrites[p].user; NobodyElseHas(t.db, id, u.email, u.username)
    ensures OnlyRewritten(Next(cfg, t, ProfileWrite(p, false)).db, t.db, id, before, req)
  {
    assert !Clashes(t.db, t.rewrites[p].user);
  }

  /** A profile update writes the whole profile as it read it: a field that was not requested goes back to what
      it was at the read, whatever others have written since; password and role are the row's present ones,
      and no other row changes. */
  lemma ProfileWriteIsWhole(cfg: Config, s: State, p: nat, id: int, req: ProfileRequest, meanwhile: seq<Step>)
    requires s.db.Valid() && id in s.db.rows && p !in s.rewrites
    requires forall i | 0 <= i < |meanwhile| :: !(meanwhile[i].ProfileWrite? && meanwhile[i].p == p)
    requires var t, before := Run(cfg, Next(cfg, s, ProfileRead(p, id, req, false)), meanwhile), s.db.rows[id];
             id in t.db.rows && NobodyElseHas(t.db, id, if req.email != "" then req.email else before.email,
                                              if req.username != "" then req.username else before.username)
    ensures var t := Run(cfg, Next(cfg, s, ProfileRead(p, id, req, false)), meanwhile);
            OnlyRewritten(Next(cfg, t, ProfileWrite(p, false)).db, t.db, id, s.db.rows[id], req)
  {
    var s1 := Next(cfg, s, ProfileRead(p, id, req, false));
    ReadTakesTheRow(cfg, s, p, id, req);
    RewriteStays(cfg, s1, meanwhile, p);
    WriteIsWhole(cfg, Run(cfg, s1, meanwhile), p, id, s.db.rows[id], req);
  }

  // ---- Registration ---------------------------------------------------------------------------------

  /** The step inserts the registration's row. */
  ghost predicate Commits(cfg: Config, s: State, step: Step)
    requires s.db.Valid()
  {
    step.RegSave? && step.r in s.regs && s.regs[step.r].Checked? &&
    Insert(s.db, NewUser(s.regs[step.r].req), step.hash, step.fault).1.Ok?
  }

  ghost function Applicant(cfg: Config, s: State, step: Step): User
    requires s.db.Valid() && Commits(cfg, s, step)
  {
    NewUser(s.regs[step.r].req)
  }

  /** The step lets go of the name: held before, not after. */
  ghost predicate Releases(cfg: Config, s: State, step: Step, n: Name)
    requires s.db.Valid()
  {
    Holds(s.db, n) && !Holds(Next(cfg, s, step).db, n)
  }

  /** Only a deletion or a profile update that succeeds can do that. */
  lemma OnlyTheseRelease(cfg: Config, s: State, step: Step, n: Name)
    requires s.db.Valid() && Releases(cfg, s, step, n)
    ensures (step.DeleteRow? || step.ProfileWrite?) && !step.fault
  {
    var id :| id in s.db.rows && n in NamesOf(s.db.rows[id]);
    assert !(id in Next(cfg, s, step).db.rows && Next(cfg, s, step).db.rows[id] == s.db.rows[id]);
  }

  lemma CommitHolds(cfg: Config, t: State, step: Step, n: Name)
    requires t.db.Valid() && Commits(cfg, t, step) && n in NamesOf(Applicant(cfg, t, step))
    ensures !Holds(t.db, n) && Holds(Next(cfg, t, step).db, n)
  {
    HoldsEither(t.db, n);
    HolderHolds(Next(cfg, t, step).db, t.db.nextId, n);
  }

  lemma RunOneMore(cfg: Config, s: State, steps: seq<Step>, k: nat)
    requires s.db.Valid() && k < |steps|
    ensures Run(cfg, s, steps[..k + 1]) == Next(cfg, Run(cfg, s, steps[..k]), steps[k])
  {
    assert steps[..k + 1][..k] == steps[..k];
  }

  /** A name held after i steps and not after j was released in between. */
  lemma {:induction false} ReleaseBetween(cfg: Config, s: State, steps: seq<Step>, i: nat, j: nat, n: Name)
    returns (k: nat)
    requires s.db.Valid() && i <= j <= |steps|
    requires Holds(Run(cfg, s, steps[..i]).db, n) && !Holds(Run(cfg, s, steps[..j]).db, n)
    ensures i <= k < j && Releases(cfg, Run(cfg, s, steps[..k]), steps[k], n)
    decreases j - i
  {
    RunOneMore(cfg, s, steps, i);
    if Holds(Run(cfg, s, steps[..i + 1]).db, n) {
      k := ReleaseBetween(cfg, s, steps, i + 1, j, n);
    } else {
      k := i;
    }
  }

  /** Over all interleavings, of two registrations that commit under the same email or username, the second
      comes after a deletion or profile update that succeeded in letting go of that very name. */
  lemma RegistrationIsUnique(cfg: Config, s: State, steps: seq<Step>, i: nat, j: nat, n: Name) returns (k: nat)
    requires s.db.Valid() && i < j < |steps|
    requires Commits(cfg, Run(cfg, s, steps[..i]), steps[i]) && Commits(cfg, Run(cfg, s, steps[..j]), steps[j])
    requires n in NamesOf(Applicant(cfg, Run(cfg, s, steps[..i]), steps[i]))
    requires n in NamesOf(Applicant(cfg, Run(cfg, s, steps[..j]), steps[j]))
    ensures i < k < j && Releases(cfg, Run(cfg, s, steps[..k]), steps[k], n)
    ensures (steps[k].DeleteRow? || steps[k].ProfileWrite?) && !steps[k].fault
  {
    CommitHolds(cfg, Run(cfg, s, steps[..i]), steps[i], n);
    CommitHolds(cfg, Run(cfg, s, steps[..j]), steps[j], n);
    RunOneMore(cfg, s, steps, i);
    k := ReleaseBetween(cfg, s, steps, i + 1, j, n);
    OnlyTheseRelease(cfg, Run(cfg, s, steps[..k]), steps[k], n);
  }

  // ---- Failed registrations ---------------------------------------------------------------------------

  /** The directory without registration r. */
  function Without(s: State, r: nat): State { s.(regs := s.regs - {r}) }

  predicate StepOf(step: Step, r: nat)
  {
    (step.RegCheck? || step.RegSave? || step.RegAddEmail? || step.RegAddUsername?) && step.r == r
  }

  lemma RemovalsCommute<T>(m: map<nat, T>, q: nat, r: nat, x: T)
    ensures q != r ==> m[q := x] - {r} == (m - {r})[q := x]
    ensures m - {q} - {r} == m - {r} - {q}
  {}

  lemma OtherSaveCommutes(cfg: Config, s: State, q: nat, hash: string, fault: bool, r: nat)
    requires s.db.Valid() && q != r
    ensures Without(Next(cfg, s, RegSave(q, hash, fault)), r) == Next(cfg, Without(s, r), RegSave(q, hash, fault))
  {
    if q in s.regs && s.regs[q].Checked? {
      var res := Insert(s.db, NewUser(s.regs[q].req), hash, fault).1;
      RemovalsCommute(s.regs, q, r, if res.Ok? then Saved(res.value) else s.regs[q]);
    }
  }

  lemma OtherAddsCommute(cfg: Config, s: State, q: nat, r: nat)
    requires s.db.Valid() && q != r
    ensures Without(Next(cfg, s, RegAddEmail(q)), r) == Next(cfg, Without(s, r), RegAddEmail(q))
    ensures Without(Next(cfg, s, RegAddUsername(q)), r) == Next(cfg, Without(s, r), RegAddUsername(q))
  {
    if q in s.regs && !s.regs[q].Checked? { RemovalsCommute(s.regs, q, r, EmailAdded(s.regs[q].user)); }
  }

  /** Steps of others neither see registration r nor change it. */
  lemma OthersCommute(cfg: Config, s: State, step: Step, r: nat)
    requires s.db.Valid() && !StepOf(step, r)
    ensures Without(Next(cfg, s, step), r) == Next(cfg, Without(s, r), step)
  {
    match step
    case RegCheck(q, req, _) => RemovalsCommute(s.regs, q, r, Checked(req));
    case RegSave(q, hash, fault) => OtherSaveCommutes(cfg, s, q, hash, fault, r);
    case RegAddEmail(q) => OtherAddsCommute(cfg, s, q, r);
    case RegAddUsername(q) => OtherAddsCommute(cfg, s, q, r);
    case _ =>
  }

  lemma OthersKeep(cfg: Config, s: State, step: Step, r: nat)
    requires s.db.Valid() && !StepOf(step, r)
    ensures r in Next(cfg, s, step).regs <==> r in s.regs
    ensures r in s.regs ==> Next(cfg, s, step).regs[r] == s.regs[r]
  {}

  lemma {:induction false} OthersRun(cfg: Config, s: State, steps: seq<Step>, r: nat)
    requires s.db.Valid() && forall i | 0 <= i < |steps| :: !StepOf(steps[i], r)
    ensures Without(Run(cfg, s, steps), r) == Run(cfg, Without(s, r), steps)
    ensures r in Run(cfg, s, steps).regs <==> r in s.regs
    ensures r in s.regs ==> Run(cfg, s, steps).regs[r] == s.regs[r]
  {
    if steps != [] {
      var us, step := steps[..|steps| - 1], steps[|steps| - 1];
      OthersRun(cfg, s, us, r);
      OthersCommute(cfg, Run(cfg, s, us), step, r);
      OthersKeep(cfg, Run(cfg, s, us), step, r);
    }
  }

  lemma RefusedSave(cfg: Config, t: State, r: nat, hash: string, fault: bool)
    requires t.db.Valid() && !Commits(cfg, t, RegSave(r, hash, fault)) && (r in t.regs ==> t.regs[r].Checked?)
    ensures Next(cfg, t, RegSave(r, hash, fault)) == Without(t, r)
  {
    if r !in t.regs { assert t.regs - {r} == t.regs; }
  }

  /** A registration whose insert fails leaves no trace: whatever others do meanwhile, table, filter and all
      else end as if it had never been tried. */
  lemma {:induction false} FailedRegistrationLeavesNoTrace(cfg: Config, s: State, r: nat, req: RegisterRequest,
      checkFault: bool, meanwhile: seq<Step>, hash: string, saveFault: bool)
    requires s.db.Valid() && r !in s.regs && forall i | 0 <= i < |meanwhile| :: !StepOf(meanwhile[i], r)
    requires var t := Run(cfg, Next(cfg, s, RegCheck(r, req, checkFault)), meanwhile);
             !Commits(cfg, t, RegSave(r, hash, saveFault))
    ensures var t := Run(cfg, Next(cfg, s, RegCheck(r, req, checkFault)), meanwhile);
            Next(cfg, t, RegSave(r, hash, saveFault)) == Run(cfg, s, meanwhile)
  {
    var checked := Next(cfg, s, RegCheck(r, req, checkFault));
    assert Without(checked, r) == s by { assert checked.regs - {r} == s.regs; }
    OthersRun(cfg, checked, meanwhile, r);
    RefusedSave(cfg, Run(cfg, checked, meanwhile), r, hash, saveFault);
  }
}
