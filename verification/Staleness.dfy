/** What the cache may hold in any run of the directory, and how old its answers can be. */
module Staleness {
  import opened Users
  import opened Cache
  import opened CachingRepo
  import opened Bloom
  import opened Directory

  // ---- Key discipline ---------------------------------------------------------------------------

  /** What may be stored under each kind of key. */
  ghost predicate IdFits(c: Entries, id: int)
  {
    var k := IdKey(id);
    k in c ==> c[k].value.UserValue? && c[k].value.user.id == id
  }

  ghost predicate NameFits(c: Entries, n: Name)
  {
    var k := KeyOf(n);
    k in c ==> c[k].value.UserValue? && n in NamesOf(c[k].value.user)
  }

  ghost predicate RatesFit(c: Entries, base: string)
  {
    var k := RatesKey(base);
    k in c ==> c[k].value.RatesValue?
  }

  ghost predicate NoPassword(c: Entries, k: string)
  {
    k in c && c[k].value.UserValue? ==> c[k].value.user.password == ""
  }

  ghost predicate KeyDiscipline(c: Entries)
  {
    && (forall id :: IdFits(c, id))
    && (forall n :: NameFits(c, n))
    && (forall b :: RatesFit(c, b))
    && (forall k :: NoPassword(c, k))
  }

  lemma PutUserKeepsDiscipline(c: Entries, key: string, u: User, ttl: int, now: int)
    requires KeyDiscipline(c) && key in KeysOf(u)
    ensures KeyDiscipline(Put(c, key, UserValue(u), ttl, now))
  {
    var c' := Put(c, key, UserValue(u), ttl, now);
    KeysInjective();
    forall id ensures IdFits(c', id) { assert IdFits(c, id); FamiliesDisjoint(id, u.email, u.username, ""); }
    forall n: Name ensures NameFits(c', n) {
      assert NameFits(c, n);
      FamiliesDisjoint(u.id, n.text, u.username, "");
      FamiliesDisjoint(u.id, u.email, n.text, "");
    }
    forall b ensures RatesFit(c', b) { assert RatesFit(c, b); FamiliesDisjoint(u.id, u.email, u.username, b); }
    forall k ensures NoPassword(c', k) { assert NoPassword(c, k); }
  }

  lemma CacheUserKeepsDiscipline(c: Entries, u: User, ttl: int, now: int, up: Writes)
    requires KeyDiscipline(c)
    ensures KeyDiscipline(CacheUser(c, u, ttl, now, up))
  {
    var safe := u.(password := "");
    var c1 := PutIf(up.byId, c, IdKey(u.id), UserValue(safe), ttl, now);
    if up.byId { PutUserKeepsDiscipline(c, IdKey(u.id), safe, ttl, now); }
    var c2 := PutIf(up.byEmail, c1, EmailKey(u.email), UserValue(safe), ttl, now);
    if up.byEmail { PutUserKeepsDiscipline(c1, EmailKey(u.email), safe, ttl, now); }
    if u.username != "" && up.byUsername { PutUserKeepsDiscipline(c2, UsernameKey(u.username), safe, ttl, now); }
  }

  lemma PutRatesKeepsDiscipline(c: Entries, base: string, rates: map<string, real>, ttl: int, now: int)
    requires KeyDiscipline(c)
    ensures KeyDiscipline(Put(c, RatesKey(base), RatesValue(rates), ttl, now))
  {
    var c' := Put(c, RatesKey(base), RatesValue(rates), ttl, now);
    forall id ensures IdFits(c', id) { assert IdFits(c, id); FamiliesDisjoint(id, "", "", base); }
    forall n: Name ensures NameFits(c', n) { assert NameFits(c, n); FamiliesDisjoint(0, n.text, n.text, base); }
    forall b ensures RatesFit(c', b) { assert RatesFit(c, b); }
    forall k ensures NoPassword(c', k) { assert NoPassword(c, k); }
  }

  lemma LosingKeepsDiscipline(c: Entries, keys: set<string>)
    requires KeyDiscipline(c)
    ensures KeyDiscipline(c - keys)
  {
    var c' := c - keys;
    forall id ensures IdFits(c', id) { assert IdFits(c, id); }
    forall n: Name ensures NameFits(c', n) { assert NameFits(c, n); }
    forall b ensures RatesFit(c', b) { assert RatesFit(c, b); }
    forall k ensures NoPassword(c', k) { assert NoPassword(c, k); }
  }

  lemma StepKeepsDiscipline(cfg: Config, s: State, step: Step)
    requires s.db.Valid() && KeyDiscipline(s.cache)
    ensures KeyDiscipline(Next(cfg, s, step).cache)
  {
    match step
    case FillCache(f, up) => if f in s.fills { CacheUserKeepsDiscipline(s.cache, s.fills[f].user, cfg.ttl, s.now, up); }
    case CacheRates(base, rates, up) => if up { PutRatesKeepsDiscipline(s.cache, base, rates, cfg.ttl, s.now); }
    case LoseKeys(keys) => LosingKeepsDiscipline(s.cache, keys);
    case _ => assert Next(cfg, s, step).cache == s.cache;
  }

  /** In every reachable state, whatever cache writes were lost, an entry under a user's key is that
      user without its password, and rates are under rate keys only. */
  lemma {:induction false} RunKeepsDiscipline(cfg: Config, s: State, steps: seq<Step>)
    requires s.db.Valid() && KeyDiscipline(s.cache)
    ensures KeyDiscipline(Run(cfg, s, steps).cache)
  {
    if steps != [] {
      RunKeepsDiscipline(cfg, s, steps[..|steps| - 1]);
      StepKeepsDiscipline(cfg, Run(cfg, s, steps[..|steps| - 1]), steps[|steps| - 1]);
    }
  }

  // ---- Bounded staleness --------------------------------------------------------------------------

  /** All the states of a run, first to last. */
  ghost function States(cfg: Config, s: State, steps: seq<Step>): (hist: seq<State>)
    requires s.db.Valid()
    ensures |hist| == |steps| + 1 && hist[|steps|] == Run(cfg, s, steps)
  {
    if steps == [] then [s] else States(cfg, s, steps[..|steps| - 1]) + [Run(cfg, s, steps)]
  }

  ghost predicate HeldAt(hist: seq<State>, n: Name, since: int, i: int)
    requires 0 <= i < |hist|
  {
    hist[i].now >= since && Holds(hist[i].db, n)
  }

  /** At some moment of the history, no earlier than `since`, the table held the name. */
  ghost predicate HeldSince(hist: seq<State>, n: Name, since: int)
  {
    exists i :: 0 <= i < |hist| && HeldAt(hist, n, since, i)
  }

  /** A table answer is cached at most `delay` after it was read. */
  ghost predicate PromptFills(cfg: Config, s: State, steps: seq<Step>, delay: nat)
    requires s.db.Valid()
  {
    steps == [] || (
      && PromptFills(cfg, s, steps[..|steps| - 1], delay)
      && PromptFill(Run(cfg, s, steps[..|steps| - 1]), steps[|steps| - 1], delay))
  }

  predicate PromptFill(t: State, step: Step, delay: nat)
  {
    step.FillCache? && step.f in t.fills ==> t.now <= t.fills[step.f].readAt + delay
  }

  ghost predicate FillsAreTrue(hist: seq<State>, t: State)
  {
    forall f, n | f in t.fills && n in NamesOf(t.fills[f].user) :: HeldSince(hist, n, t.fills[f].readAt)
  }

  ghost predicate Fresh(hist: seq<State>, ttl: int, delay: nat, n: Name, e: Entry)
  {
    e.expiry.At? && HeldSince(hist, n, e.expiry.time - ttl - delay)
  }

  ghost predicate EntriesAreFresh(hist: seq<State>, ttl: int, delay: nat, c: Entries)
  {
    forall n: Name | KeyOf(n) in c :: Fresh(hist, ttl, delay, n, c[KeyOf(n)])
  }

  /** History is not rewritten. */
  lemma HeldStays(hist: seq<State>, t: State, n: Name, since: int)
    requires HeldSince(hist, n, since)
    ensures HeldSince(hist + [t], n, since)
  {
    var i :| 0 <= i < |hist| && HeldAt(hist, n, since, i);
    assert HeldAt(hist + [t], n, since, i);
  }

  lemma HeldEarlier(hist: seq<State>, n: Name, since: int, earlier: int)
    requires HeldSince(hist, n, since) && earlier <= since
    ensures HeldSince(hist, n, earlier)
  {
    var i :| 0 <= i < |hist| && HeldAt(hist, n, since, i);
    assert HeldAt(hist, n, earlier, i);
  }

  lemma HeldNow(hist: seq<State>, t: State, n: Name)
    requires hist != [] && hist[|hist| - 1] == t && Holds(t.db, n)
    ensures HeldSince(hist, n, t.now)
  {
    assert HeldAt(hist, n, t.now, |hist| - 1);
  }

  /** A filler in flight after a step either was in flight before or has just read the table. */
  lemma FillAfterStep(cfg: Config, t: State, step: Step, f: nat, n: Name)
    requires t.db.Valid() && f in Next(cfg, t, step).fills && n in NamesOf(Next(cfg, t, step).fills[f].user)
    ensures var fill := Next(cfg, t, step).fills[f];
            (f in t.fills && fill == t.fills[f]) || (fill.readAt == t.now && Holds(t.db, n))
  {
    if step.LookUp? && step.f == f && f !in t.fills {
      var u := Find(t.db, step.name, step.fault);
      var id :| id in t.db.rows && t.db.rows[id] == u.value;
      HolderHolds(t.db, id, n);
    }
  }

  lemma FillsStayTrue(cfg: Config, hist: seq<State>, t: State, step: Step)
    requires t.db.Valid() && hist != [] && hist[|hist| - 1] == t && FillsAreTrue(hist, t)
    ensures FillsAreTrue(hist + [Next(cfg, t, step)], Next(cfg, t, step))
  {
    var t' := Next(cfg, t, step);
    forall f, n | f in t'.fills && n in NamesOf(t'.fills[f].user)
      ensures HeldSince(hist + [t'], n, t'.fills[f].readAt)
    {
      FillAfterStep(cfg, t, step, f, n);
      if !(f in t.fills && t'.fills[f] == t.fills[f]) { HeldNow(hist, t, n); }
      HeldStays(hist, t', n, t'.fills[f].readAt);
    }
  }

  /** The only new user entries are those of the user being filled in, and they live one ttl. */
  lemma FilledEntries(c: Entries, u: User, ttl: int, now: int, up: Writes, n: Name)
    requires ttl > 0 && KeyOf(n) in CacheUser(c, u, ttl, now, up)
    ensures var e := CacheUser(c, u, ttl, now, up)[KeyOf(n)];
            (KeyOf(n) in c && e == c[KeyOf(n)]) || (n in NamesOf(u) && e.expiry == At(now + ttl))
  {
    KeysInjective();
    FamiliesDisjoint(u.id, n.text, u.username, "");
    FamiliesDisjoint(u.id, u.email, n.text, "");
  }

  /** A step changes a name's entry only by dropping it or by filling it in. */
  lemma EntryAfterStep(cfg: Config, t: State, step: Step, n: Name)
    requires t.db.Valid() && cfg.ttl > 0 && KeyOf(n) in Next(cfg, t, step).cache
    ensures var e := Next(cfg, t, step).cache[KeyOf(n)];
            || (KeyOf(n) in t.cache && e == t.cache[KeyOf(n)])
            || (step.FillCache? && step.f in t.fills && n in NamesOf(t.fills[step.f].user) &&
                e.expiry == At(t.now + cfg.ttl))
  {
    if step.FillCache? && step.f in t.fills {
      FilledEntries(t.cache, t.fills[step.f].user, cfg.ttl, t.now, step.writes, n);
    } else if step.CacheRates? {
      FamiliesDisjoint(0, n.text, n.text, step.base);
    }
  }

  lemma EntriesStayFresh(cfg: Config, hist: seq<State>, t: State, step: Step, delay: nat)
    requires t.db.Valid() && cfg.ttl > 0
    requires EntriesAreFresh(hist, cfg.ttl, delay, t.cache) && FillsAreTrue(hist, t) && PromptFill(t, step, delay)
    ensures EntriesAreFresh(hist + [Next(cfg, t, step)], cfg.ttl, delay, Next(cfg, t, step).cache)
  {
    var t' := Next(cfg, t, step);
    forall n: Name | KeyOf(n) in t'.cache ensures Fresh(hist + [t'], cfg.ttl, delay, n, t'.cache[KeyOf(n)]) {
      var e := t'.cache[KeyOf(n)];
      EntryAfterStep(cfg, t, step, n);
      if !(KeyOf(n) in t.cache && e == t.cache[KeyOf(n)]) {
        HeldEarlier(hist, n, t.fills[step.f].readAt, e.expiry.time - cfg.ttl - delay);
      }
      HeldStays(hist, t', n, e.expiry.time - cfg.ttl - delay);
    }
  }

  lemma {:induction false} RunStaysFresh(cfg: Config, s: State, steps: seq<Step>, delay: nat)
    requires s.db.Valid() && cfg.ttl > 0 && s.cache == map[] && s.fills == map[]
    requires PromptFills(cfg, s, steps, delay)
    ensures FillsAreTrue(States(cfg, s, steps), Run(cfg, s, steps))
    ensures EntriesAreFresh(States(cfg, s, steps), cfg.ttl, delay, Run(cfg, s, steps).cache)
  {
    if steps != [] {
      var us, step := steps[..|steps| - 1], steps[|steps| - 1];
      RunStaysFresh(cfg, s, us, delay);
      FillsStayTrue(cfg, States(cfg, s, us), Run(cfg, s, us), step);
      EntriesStayFresh(cfg, States(cfg, s, us), Run(cfg, s, us), step, delay);
    }
  }

  lemma TakenBecause(cfg: Config, t: State, n: Name, getUp: bool, fault: bool)
    requires Available(cfg, t, n, getUp, fault) == Ok(false)
    ensures Holds(t.db, n) || (KeyOf(n) in t.cache && Live(t.cache[KeyOf(n)], t.now))
  {}

  lemma TakenIsRecent(hist: seq<State>, ttl: int, t: State, delay: nat, n: Name)
    requires ttl > 0 && hist != [] && hist[|hist| - 1] == t
    requires || Holds(t.db, n)
             || (KeyOf(n) in t.cache && Live(t.cache[KeyOf(n)], t.now) && Fresh(hist, ttl, delay, n, t.cache[KeyOf(n)]))
    ensures HeldSince(hist, n, t.now - ttl - delay)
  {
    if Holds(t.db, n) {
      HeldNow(hist, t, n);
      HeldEarlier(hist, n, t.now, t.now - ttl - delay);
    } else {
      HeldEarlier(hist, n, t.cache[KeyOf(n)].expiry.time - ttl - delay, t.now - ttl - delay);
    }
  }

  /** Whenever a check calls a name taken, the table held that name within the last ttl (plus the time
      a filler may take), although registrations and profile updates never tell the cache. */
  lemma {:induction false} TakenMeansRecentlyHeld(cfg: Config, s: State, steps: seq<Step>, delay: nat,
      n: Name, getUp: bool, fault: bool)
    requires s.db.Valid() && cfg.ttl > 0 && s.cache == map[] && s.fills == map[]
    requires PromptFills(cfg, s, steps, delay)
    requires Available(cfg, Run(cfg, s, steps), n, getUp, fault) == Ok(false)
    ensures HeldSince(States(cfg, s, steps), n, Run(cfg, s, steps).now - cfg.ttl - delay)
  {
    RunStaysFresh(cfg, s, steps, delay);
    TakenBecause(cfg, Run(cfg, s, steps), n, getUp, fault);
    TakenIsRecent(States(cfg, s, steps), cfg.ttl, Run(cfg, s, steps), delay, n);
  }

  lemma FreeOrTaken(cfg: Config, s: State, n: Name, getUp: bool, held: bool)
    requires Available(cfg, s, n, getUp, false) == Ok(false) ==> held
    ensures Available(cfg, s, n, getUp, false) == Ok(true) || held
  {
    NoFaultNoError(cfg, s, n, getUp);
  }

  /** A name is called available, whatever the filter reports, unless the table held it within the last ttl (plus
      the time a filler may take). */
  lemma {:induction false} FreeNamesAreAvailable(cfg: Config, s: State, steps: seq<Step>, delay: nat,
      n: Name, getUp: bool)
    requires s.db.Valid() && cfg.ttl > 0 && s.cache == map[] && s.fills == map[]
    requires PromptFills(cfg, s, steps, delay)
    ensures || Available(cfg, Run(cfg, s, steps), n, getUp, false) == Ok(true)
            || HeldSince(States(cfg, s, steps), n, Run(cfg, s, steps).now - cfg.ttl - delay)
  {
    var t := Run(cfg, s, steps);
    var held := HeldSince(States(cfg, s, steps), n, t.now - cfg.ttl - delay);
    if Available(cfg, t, n, getUp, false) == Ok(false) {
      TakenMeansRecentlyHeld(cfg, s, steps, delay, n, getUp, false);
    }
    FreeOrTaken(cfg, t, n, getUp, held);
  }

  /** Reading never prolongs an entry: only a filler or a rate refresh writes, and both start a new ttl. */
  lemma OnlyFillersWrite(cfg: Config, s: State, step: Step, key: string)
    requires s.db.Valid() && key in Next(cfg, s, step).cache
    ensures var e := Next(cfg, s, step).cache[key];
            || (key in s.cache && e == s.cache[key])
            || ((step.FillCache? || step.CacheRates?) && (cfg.ttl > 0 ==> e.expiry == At(s.now + cfg.ttl)))
  {}

  /** In any run, no entry outlives the last write of the run by more than one lifetime: whatever is read, and
      however often, an entry is as it was at the start or was written after some step of the run, to expire one
      lifetime from then. */
  lemma {:induction false} HitsNeverProlong(cfg: Config, s: State, steps: seq<Step>, key: string) returns (k: nat)
    requires s.db.Valid() && cfg.ttl > 0 && key in Run(cfg, s, steps).cache
    ensures var e := Run(cfg, s, steps).cache[key];
            || (key in s.cache && e == s.cache[key])
            || (k < |steps| && (steps[k].FillCache? || steps[k].CacheRates?) &&
                e.expiry == At(Run(cfg, s, steps[..k]).now + cfg.ttl))
  {
    k := 0;
    if steps != [] {
      var us := steps[..|steps| - 1];
      var t := Run(cfg, s, us);
      OnlyFillersWrite(cfg, t, steps[|us|], key);
      if key in t.cache && t.cache[key] == Run(cfg, s, steps).cache[key] {
        k := HitsNeverProlong(cfg, s, us, key);
        if k < |us| { assert us[..k] == steps[..k]; }
      } else {
        k := |us|;
      }
    }
  }

  // ---- Exchange rates beside the users ------------------------------------------------------------

  lemma UsersLeaveRates(c: Entries, u: User, ttl: int, now: int, up: Writes, base: string)
    ensures var c', k := CacheUser(c, u, ttl, now, up), RatesKey(base);
            (k in c' <==> k in c) && (k in c ==> c'[k] == c[k])
  {
    FamiliesDisjoint(u.id, u.email, u.username, base);
  }

  /** The step neither loses the entry of these rates nor renews it. */
  predicate SparesRates(step: Step, base: string)
  {
    && !(step.LoseKeys? && RatesKey(base) in step.keys)
    && !(step.CacheRates? && step.base == base && step.up)
  }

  lemma RatesStay(cfg: Config, s: State, step: Step, base: string)
    requires s.db.Valid() && RatesKey(base) in s.cache && SparesRates(step, base)
    ensures RatesKey(base) in Next(cfg, s, step).cache
    ensures Next(cfg, s, step).cache[RatesKey(base)] == s.cache[RatesKey(base)]
  {
    KeysInjective();
    if step.FillCache? && step.f in s.fills {
      UsersLeaveRates(s.cache, s.fills[step.f].user, cfg.ttl, s.now, step.writes, base);
    }
  }

  /** Whatever users are looked up, updated and cached meanwhile, cached rates are read back as they were, exactly
      until their lifetime is over. */
  lemma {:induction false} RatesLast(cfg: Config, s: State, base: string, rates: map<string, real>, steps: seq<Step>)
    requires s.db.Valid() && forall i | 0 <= i < |steps| :: SparesRates(steps[i], base)
    ensures var t := Run(cfg, Next(cfg, s, CacheRates(base, rates, true)), steps);
            && RatesKey(base) in t.cache
            && t.cache[RatesKey(base)] ==
               Entry(RatesValue(rates), if cfg.ttl > 0 then At(s.now + cfg.ttl) else Never)
            && Peek(t.cache, RatesKey(base), t.now) ==
               if cfg.ttl <= 0 || t.now < s.now + cfg.ttl then Some(RatesValue(rates)) else None
  {
    if steps != [] {
      RatesLast(cfg, s, base, rates, steps[..|steps| - 1]);
      RatesStay(cfg, Run(cfg, Next(cfg, s, CacheRates(base, rates, true)), steps[..|steps| - 1]),
                steps[|steps| - 1], base);
    }
  }

  /** Waiting one lifetime is enough for any entry of a user or of rates to be gone. */
  lemma WaitingEndsEntries(cfg: Config, s: State, step: Step, key: string, wait: nat)
    requires s.db.Valid() && 0 < cfg.ttl <= wait && (step.FillCache? || step.CacheRates?)
    requires key in Next(cfg, s, step).cache && (key in s.cache ==> Next(cfg, s, step).cache[key] != s.cache[key])
    ensures var t := Next(cfg, Next(cfg, s, step), Tick(wait));
            Peek(t.cache, key, t.now) == None
  {
    OnlyFillersWrite(cfg, s, step, key);
  }

  // ---- Where the filter falls behind --------------------------------------------------------------

  lemma FreeNamesDoNotClash(db: Db, id: int, req: ProfileRequest)
    requires db.Valid() && id in db.rows && forall m | m in Requested(req) :: !Holds(db, m)
    ensures !Clashes(db, Merged(db.rows[id], req))
  {
    var u := Merged(db.rows[id], req);
    forall other | other in db.rows && other != id
      ensures db.rows[other].email != u.email && db.rows[other].username != u.username
    {
      if db.rows[other].email == u.email { HolderHolds(db, other, Email(u.email)); }
      if db.rows[other].username == u.username { HolderHolds(db, other, Username(u.username)); }
    }
  }

  /** Anyone renames itself to free names: the table holds them, and a check of one calls it free exactly when
      the filter did not happen to report it before, whatever the cache holds. */
  lemma RenamedNamesLookFree(cfg: Config, s: State, p: nat, id: int, req: ProfileRequest, n: Name,
      cache: Entries, getUp: bool, fault: bool)
    requires s.db.Valid() && id in s.db.rows && p !in s.rewrites
    requires n in Requested(req) && forall m | m in Requested(req) :: !Holds(s.db, m)
    ensures var t := Next(cfg, Next(cfg, s, ProfileRead(p, id, req, false)), ProfileWrite(p, false));
            && Holds(t.db, n) && n in t.renamed
            && (Available(cfg, t.(cache := cache), n, getUp, fault) == Ok(true)
                <==> !Reports(cfg.pos, s.bits, Item(n)))
  {
    var s1 := Next(cfg, s, ProfileRead(p, id, req, false));
    FreeNamesDoNotClash(s.db, id, req);
    HolderHolds(Next(cfg, s1, ProfileWrite(p, false)).db, id, n);
  }

  lemma RunOfTwo(cfg: Config, s: State, a: Step, b: Step)
    requires s.db.Valid()
    ensures Run(cfg, s, [a, b]) == Next(cfg, Next(cfg, s, a), b)
  {
    assert [a][..0] == [] && Run(cfg, s, [a]) == Next(cfg, s, a);
    assert [a, b][..1] == [a];
  }

  lemma LoneRename(cfg: Config, s: State, u: User, email: string)
    requires s.db == Db(map[1 := u], 2) && s.db.Valid() && s.rewrites == map[] && email != "" && email != u.email
    requires !Reports(cfg.pos, s.bits, Item(Email(email)))
    ensures var t := Run(cfg, s, [ProfileRead(0, 1, ProfileRequest("", email, ""), false), ProfileWrite(0, false)]);
            && Available(cfg, t, Email(email), true, false) == Ok(true)
            && Holds(t.db, Email(email)) && Email(email) in t.renamed
  {
    var req := ProfileRequest("", email, "");
    assert Requested(req) == {Email(email)};
    var t := Next(cfg, Next(cfg, s, ProfileRead(0, 1, req, false)), ProfileWrite(0, false));
    RunOfTwo(cfg, s, ProfileRead(0, 1, req, false), ProfileWrite(0, false));
    RenamedNamesLookFree(cfg, s, 0, 1, req, Email(email), t.cache, true, false);
    assert t.(cache := t.cache) == t;
  }

  /** A filter that hashes an item to its length. */
  function ByLength(): Positions { (item: string) => {|item|} }

  const RENAMER := User(1, "a", "b", "", "", ROLE_USER)

  function OneUser(): State { State(Db(map[1 := RENAMER], 2), {7, 10}, map[], 0, map[], map[], map[], {}) }

  lemma OneUserIsSeeded()
    ensures Seeded(Config(ByLength(), 1), OneUser())
    ensures !Reports(ByLength(), OneUser().bits, Item(Email("ccc")))
  {
    assert Item(Email("a")) == "email:a" && Item(Username("b")) == "username:b" && Item(Email("ccc")) == "email:ccc";
  }

  /** It happens from a completed seed: one user renames itself, and a check calls its new email free. */
  lemma RenamedEmailLooksFree()
    ensures exists cfg: Config, s: State, steps: seq<Step>, n: Name ::
              && Seeded(cfg, s) && n.text != "" && n in Run(cfg, s, steps).renamed
              && Available(cfg, Run(cfg, s, steps), n, true, false) == Ok(true) && Holds(Run(cfg, s, steps).db, n)
  {
    OneUserIsSeeded();
    LoneRename(Config(ByLength(), 1), OneUser(), RENAMER, "ccc");
  }
}
