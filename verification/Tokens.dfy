/**
 Token pairs: issued from rows of the user table, validated by signature and expiry, refreshed, and
 what a whole run can make of them. Times are nanoseconds; dates inside tokens are whole seconds.
 */
module Tokens {
  import opened Users
  import opened Cache

  const SECOND: int := 1_000_000_000

  /** A date as a token carries it: seconds, rounded down. */
  function Seconds(t: int): int { t / SECOND }

  datatype Claims = Claims(
    userId: int, email: string, role: string, issuedAt: int, expiresAt: int, issuer: string, subject: string)

  const ISSUER := "golang-api-server"

  /** Signing and password comparison are taken as given; lifetimes come from the configuration. */
  datatype Config = Config(sign: Claims -> string, matches: (string, string) -> bool, access: int, refresh: int)

  function AccessClaims(cfg: Config, u: User, now: int): Claims
  {
    Claims(u.id, u.email, u.role, Seconds(now), Seconds(now + cfg.access), ISSUER, Decimal(u.id))
  }

  /** A refresh token names the user and nothing else. */
  function RefreshClaims(cfg: Config, u: User, now: int): Claims
  {
    Claims(u.id, "", "", Seconds(now), Seconds(now + cfg.refresh), ISSUER, Decimal(u.id))
  }

  datatype AuthResponse = AuthResponse(accessToken: string, refreshToken: string, expiresAt: int)

  function TokenPair(cfg: Config, u: User, now: int): AuthResponse
  {
    AuthResponse(cfg.sign(AccessClaims(cfg, u, now)), cfg.sign(RefreshClaims(cfg, u, now)), Seconds(now + cfg.access))
  }

  datatype Verdict = Accepted(claims: Claims) | Expired | Invalid

  /** Accepts exactly the tokens that were issued and whose expiry is still ahead. */
  function Validate(issued: map<string, Claims>, token: string, now: int): Verdict
  {
    if token !in issued then Invalid
    else if now < issued[token].expiresAt * SECOND then Accepted(issued[token])
    else Expired
  }

  // ---- Runs -----------------------------------------------------------------------------------

  /** A call that has read its user and not yet signed its tokens. */
  datatype Mint = Mint(user: User, readAt: int)
  datatype State = State(db: Db, issued: map<string, Claims>, now: int, mints: map<nat, Mint>)

  datatype Step =
    | Tick(d: nat)
    | Register(m: nat, email: string, username: string, name: string, hash: string, fault: bool)
    | Login(m: nat, email: string, password: string, fault: bool)
    | Refresh(m: nat, token: string, fault: bool)
    | Issue(m: nat)
    | UpdateProfile(user: User, fault: bool)
    | Delete(id: int, fault: bool)
    | SetRole(id: int, role: string)  // an operator editing the table; the program has no such call

  function Begin(s: State, m: nat, u: Result<User>): State
  {
    if m !in s.mints && u.Ok? then s.(mints := s.mints[m := Mint(u.value, s.now)]) else s
  }

  ghost function Next(cfg: Config, s: State, step: Step): (s': State)
    requires s.db.Valid()
    ensures s'.db.Valid() && s.now <= s'.now && s.db.nextId <= s'.db.nextId
  {
    match step
    case Tick(d) => s.(now := s.now + d)
    case Register(m, email, username, name, hash, fault) =>
      if m in s.mints || HasEmail(s.db, email) then s else
        var (db, res) := Insert(s.db, User(0, email, username, "", name, ROLE_USER), hash, fault);
        Begin(s.(db := db), m, res)
    case Login(m, email, password, fault) =>
      var u := FindByEmail(s.db, email, fault);
      if u.Ok? && cfg.matches(u.value.password, password) then Begin(s, m, u) else s
    case Refresh(m, token, fault) =>
      var v := Validate(s.issued, token, s.now);
      if v.Accepted? then Begin(s, m, FindById(s.db, v.claims.userId, fault)) else s
    case Issue(m) =>
      if m in s.mints then
        var u := s.mints[m].user;
        var a, r := AccessClaims(cfg, u, s.now), RefreshClaims(cfg, u, s.now);
        s.(issued := s.issued[cfg.sign(a) := a][cfg.sign(r) := r], mints := s.mints - {m})
      else s
    case UpdateProfile(u, fault) => s.(db := Overwrite(s.db, u, fault).0)
    case Delete(id, fault) => s.(db := Remove(s.db, id, fault).0)
    case SetRole(id, role) =>
      if id in s.db.rows then s.(db := s.db.(rows := s.db.rows[id := s.db.rows[id].(role := role)])) else s
  }

  ghost function Run(cfg: Config, s: State, steps: seq<Step>): (s': State)
    requires s.db.Valid()
    ensures s'.db.Valid() && s.now <= s'.now && s.db.nextId <= s'.db.nextId
  {
    if steps == [] then s else Next(cfg, Run(cfg, s, steps[..|steps| - 1]), steps[|steps| - 1])
  }

  /** All the states of a run, first to last. */
  ghost function States(cfg: Config, s: State, steps: seq<Step>): (hist: seq<State>)
    requires s.db.Valid()
    ensures |hist| == |steps| + 1 && hist[|steps|] == Run(cfg, s, steps)
  {
    if steps == [] then [s] else States(cfg, s, steps[..|steps| - 1]) + [Run(cfg, s, steps)]
  }

  /** Tokens are signed at most `delay` after their user was read. */
  ghost predicate Prompt(cfg: Config, s: State, steps: seq<Step>, delay: nat)
    requires s.db.Valid()
  {
    steps == [] || (
      && Prompt(cfg, s, steps[..|steps| - 1], delay)
      && PromptStep(Run(cfg, s, steps[..|steps| - 1]), steps[|steps| - 1], delay))
  }

  predicate PromptStep(t: State, step: Step, delay: nat)
  {
    step.Issue? && step.m in t.mints ==> t.now <= t.mints[step.m].readAt + delay
  }

  // ---- Where tokens come from -----------------------------------------------------------------------

  /** At moment i of the history, whose time is `at`, this very row was in the table. */
  ghost predicate WasRowAt(hist: seq<State>, u: User, at: int, i: int)
    requires 0 <= i < |hist|
  {
    hist[i].now == at && u.id in hist[i].db.rows && hist[i].db.rows[u.id] == u
  }

  ghost predicate WasRow(hist: seq<State>, u: User, at: int)
  {
    exists i :: 0 <= i < |hist| && WasRowAt(hist, u, at, i)
  }

  /** These are the claims of a pair signed for this row, at most `delay` after the row was read. */
  ghost predicate MintedFrom(cfg: Config, hist: seq<State>, c: Claims, u: User, at: int, signed: int, delay: nat)
  {
    && WasRow(hist, u, at) && at <= signed <= at + delay
    && (c == AccessClaims(cfg, u, signed) || c == RefreshClaims(cfg, u, signed))
  }

  ghost predicate HasOrigin(cfg: Config, hist: seq<State>, c: Claims, delay: nat)
  {
    exists u: User, at: int, signed: int :: MintedFrom(cfg, hist, c, u, at, signed, delay)
  }

  ghost predicate Traceable(cfg: Config, hist: seq<State>, s: State, delay: nat)
  {
    && (forall m | m in s.mints :: s.mints[m].readAt <= s.now && WasRow(hist, s.mints[m].user, s.mints[m].readAt))
    && (forall t | t in s.issued :: HasOrigin(cfg, hist, s.issued[t], delay))
  }

  lemma RowStays(hist: seq<State>, s: State, u: User, at: int)
    requires WasRow(hist, u, at)
    ensures WasRow(hist + [s], u, at)
  {
    var i :| 0 <= i < |hist| && WasRowAt(hist, u, at, i);
    assert WasRowAt(hist + [s], u, at, i);
  }

  lemma OriginStays(cfg: Config, hist: seq<State>, s: State, c: Claims, delay: nat)
    requires HasOrigin(cfg, hist, c, delay)
    ensures HasOrigin(cfg, hist + [s], c, delay)
  {
    var u: User, at: int, signed: int :| MintedFrom(cfg, hist, c, u, at, signed, delay);
    RowStays(hist, s, u, at);
    assert MintedFrom(cfg, hist + [s], c, u, at, signed, delay);
  }

  /** A new mint is of a row that is in the table right after the step, read at that time. */
  lemma MintIsRow(cfg: Config, s: State, step: Step, m: nat)
    requires s.db.Valid() && m in Next(cfg, s, step).mints
    ensures var s' := Next(cfg, s, step); var u := s'.mints[m].user;
            (m in s.mints && s'.mints[m] == s.mints[m]) ||
            (u.id in s'.db.rows && s'.db.rows[u.id] == u && s'.mints[m].readAt == s.now && s'.now == s.now)
  {}

  /** A new token is one of the pair signed for a call in flight. */
  lemma NewTokenIsSigned(cfg: Config, s: State, step: Step, t: string)
    requires s.db.Valid() && t in Next(cfg, s, step).issued
    ensures var c := Next(cfg, s, step).issued[t];
            || (t in s.issued && c == s.issued[t])
            || (step.Issue? && step.m in s.mints && Next(cfg, s, step).now == s.now &&
                var u := s.mints[step.m].user;
                c == AccessClaims(cfg, u, s.now) || c == RefreshClaims(cfg, u, s.now))
  {}

  lemma StepIsTraceable(cfg: Config, hist: seq<State>, s: State, step: Step, delay: nat)
    requires s.db.Valid() && Traceable(cfg, hist, s, delay) && PromptStep(s, step, delay)
    ensures Traceable(cfg, hist + [Next(cfg, s, step)], Next(cfg, s, step), delay)
  {
    var s' := Next(cfg, s, step);
    var hist' := hist + [s'];
    forall m | m in s'.mints
      ensures s'.mints[m].readAt <= s'.now && WasRow(hist', s'.mints[m].user, s'.mints[m].readAt)
    {
      MintIsRow(cfg, s, step, m);
      if m in s.mints && s'.mints[m] == s.mints[m] {
        RowStays(hist, s', s.mints[m].user, s.mints[m].readAt);
      } else {
        assert WasRowAt(hist', s'.mints[m].user, s'.mints[m].readAt, |hist|);
      }
    }
    forall t | t in s'.issued ensures HasOrigin(cfg, hist', s'.issued[t], delay) {
      NewTokenIsSigned(cfg, s, step, t);
      if t in s.issued && s'.issued[t] == s.issued[t] {
        OriginStays(cfg, hist, s', s.issued[t], delay);
      } else {
        var mint := s.mints[step.m];
        RowStays(hist, s', mint.user, mint.readAt);
        assert MintedFrom(cfg, hist', s'.issued[t], mint.user, mint.readAt, s.now, delay);
      }
    }
  }

  /** Every token of a run is one of the pair signed, at a time the token records, for a row that was in
      the table at most `delay` earlier. */
  lemma {:induction false} TokensHaveOrigins(cfg: Config, s: State, steps: seq<Step>, delay: nat)
    requires s.db.Valid() && s.issued == map[] && s.mints == map[] && Prompt(cfg, s, steps, delay)
    ensures Traceable(cfg, States(cfg, s, steps), Run(cfg, s, steps), delay)
  {
    if steps != [] {
      var us := steps[..|steps| - 1];
      TokensHaveOrigins(cfg, s, us, delay);
      StepIsTraceable(cfg, States(cfg, s, us), Run(cfg, s, us), steps[|steps| - 1], delay);
    }
  }

  /** Row, calls in flight and tokens of this id all say ordinary user. */
  ghost predicate Ordinary(t: State, id: int)
  {
    && (id in t.db.rows ==> t.db.rows[id].role == ROLE_USER)
    && (forall m | m in t.mints && t.mints[m].user.id == id :: t.mints[m].user.role == ROLE_USER)
    && (forall k | k in t.issued && t.issued[k].userId == id :: t.issued[k].role in {ROLE_USER, ""})
  }

  lemma OrdinaryStep(cfg: Config, t: State, step: Step, id: int)
    requires t.db.Valid() && Ordinary(t, id) && !(step.SetRole? && step.id == id)
    ensures Ordinary(Next(cfg, t, step), id)
  {
    var t' := Next(cfg, t, step);
    forall m | m in t'.mints && t'.mints[m].user.id == id ensures t'.mints[m].user.role == ROLE_USER {
      MintIsRow(cfg, t, step, m);
    }
  }

  /** An id handed out during the run belongs to an ordinary user for ever, unless an operator steps in. */
  lemma {:induction false} NewUsersStayOrdinary(cfg: Config, s: State, steps: seq<Step>, id: int)
    requires s.db.Valid() && s.issued == map[] && s.mints == map[] && s.db.nextId <= id
    requires forall i | 0 <= i < |steps| :: !(steps[i].SetRole? && steps[i].id == id)
    ensures Ordinary(Run(cfg, s, steps), id)
  {
    if steps != [] {
      NewUsersStayOrdinary(cfg, s, steps[..|steps| - 1], id);
      OrdinaryStep(cfg, Run(cfg, s, steps[..|steps| - 1]), steps[|steps| - 1], id);
    }
  }

  // ---- What it takes to get a token -----------------------------------------------------------------

  /** Some login of the run gave this user's own email and a password that matches its hash. */
  ghost predicate LoggedIn(cfg: Config, s: State, steps: seq<Step>, id: int)
    requires s.db.Valid()
  {
    steps != [] && (
      || LoggedIn(cfg, s, steps[..|steps| - 1], id)
      || LogsIn(cfg, Run(cfg, s, steps[..|steps| - 1]), steps[|steps| - 1], id))
  }

  predicate LogsIn(cfg: Config, t: State, step: Step, id: int)
  {
    step.Login? && id in t.db.rows && t.db.rows[id].email == step.email &&
    cfg.matches(t.db.rows[id].password, step.password)
  }

  /** Nothing in flight and no token speaks for this id. */
  ghost predicate Unspoken(t: State, id: int)
  {
    && (forall m | m in t.mints :: t.mints[m].user.id != id)
    && (forall k | k in t.issued :: t.issued[k].userId != id)
  }

  lemma UnspokenStep(cfg: Config, t: State, step: Step, id: int)
    requires t.db.Valid() && Unspoken(t, id) && id < t.db.nextId && !LogsIn(cfg, t, step, id)
    ensures Unspoken(Next(cfg, t, step), id)
  {
    if step.Login? {
      var u := FindByEmail(t.db, step.email, step.fault);
      if u.Ok? {
        var i :| i in t.db.rows && t.db.rows[i] == u.value;
        assert i == u.value.id;
      }
    }
  }

  /** Nobody holds a token for a user who was there before, however many refreshes are tried, until a
      login with that user's email and a matching password. */
  lemma {:induction false} NoTokenWithoutLogin(cfg: Config, s: State, steps: seq<Step>, id: int)
    requires s.db.Valid() && s.issued == map[] && s.mints == map[] && id < s.db.nextId
    requires !LoggedIn(cfg, s, steps, id)
    ensures Unspoken(Run(cfg, s, steps), id)
  {
    if steps != [] {
      NoTokenWithoutLogin(cfg, s, steps[..|steps| - 1], id);
      UnspokenStep(cfg, Run(cfg, s, steps[..|steps| - 1]), steps[|steps| - 1], id);
    }
  }

  // ---- How long tokens live -------------------------------------------------------------------------

  ghost predicate Injective(sign: Claims -> string)
  {
    forall a, b | sign(a) == sign(b) :: a == b
  }

  ghost predicate Signed(cfg: Config, s: State)
  {
    forall t | t in s.issued :: cfg.sign(s.issued[t]) == t
  }

  lemma SignedStep(cfg: Config, s: State, step: Step)
    requires s.db.Valid() && Signed(cfg, s)
    ensures Signed(cfg, Next(cfg, s, step))
  {}

  /** In every run that starts before any token was issued, a token is the signature of its claims. */
  lemma {:induction false} RunIsSigned(cfg: Config, s: State, steps: seq<Step>)
    requires s.db.Valid() && s.issued == map[]
    ensures Signed(cfg, Run(cfg, s, steps))
  {
    if steps != [] {
      RunIsSigned(cfg, s, steps[..|steps| - 1]);
      SignedStep(cfg, Run(cfg, s, steps[..|steps| - 1]), steps[|steps| - 1]);
    }
  }

  lemma IssuedStep(cfg: Config, s: State, step: Step, token: string)
    requires s.db.Valid() && Injective(cfg.sign) && Signed(cfg, s) && token in s.issued
    ensures Signed(cfg, Next(cfg, s, step))
    ensures token in Next(cfg, s, step).issued && Next(cfg, s, step).issued[token] == s.issued[token]
  {
    if step.Issue? && step.m in s.mints {
      var u := s.mints[step.m].user;
      var a, r := AccessClaims(cfg, u, s.now), RefreshClaims(cfg, u, s.now);
      assert cfg.sign(s.issued[token]) == token;
      if token == cfg.sign(r) { assert s.issued[token] == r; }
      else if token == cfg.sign(a) { assert s.issued[token] == a; }
    }
  }

  lemma {:induction false} IssuedForGood(cfg: Config, s: State, steps: seq<Step>, token: string)
    requires s.db.Valid() && Injective(cfg.sign) && Signed(cfg, s) && token in s.issued
    ensures Signed(cfg, Run(cfg, s, steps))
    ensures token in Run(cfg, s, steps).issued && Run(cfg, s, steps).issued[token] == s.issued[token]
  {
    if steps != [] {
      IssuedForGood(cfg, s, steps[..|steps| - 1], token);
      IssuedStep(cfg, Run(cfg, s, steps[..|steps| - 1]), steps[|steps| - 1], token);
    }
  }

  /** The access token of a response is accepted, after any further run, exactly until the expiry that
      the response announces. */
  lemma {:induction false} AcceptedUntilExpiry(cfg: Config, s: State, m: nat, steps: seq<Step>, at: int)
    requires s.db.Valid() && Injective(cfg.sign) && Signed(cfg, s) && m in s.mints
    ensures var u := s.mints[m].user;
            var r := TokenPair(cfg, u, s.now);
            var t := Run(cfg, Next(cfg, s, Issue(m)), steps);
            && (Validate(t.issued, r.accessToken, at) == Accepted(AccessClaims(cfg, u, s.now))
                <==> at < r.expiresAt * SECOND)
            && (Validate(t.issued, r.accessToken, at) == Expired <==> r.expiresAt * SECOND <= at)
            && r.expiresAt * SECOND <= s.now + cfg.access < (r.expiresAt + 1) * SECOND
  {
    var s' := Next(cfg, s, Issue(m));
    var a, r := AccessClaims(cfg, s.mints[m].user, s.now), RefreshClaims(cfg, s.mints[m].user, s.now);
    assert s'.issued[cfg.sign(a)] == a by { if cfg.sign(a) == cfg.sign(r) { assert a == r; } }
    IssuedForGood(cfg, s', steps, cfg.sign(a));
  }

  lemma {:induction false} RefreshTokenStays(cfg: Config, s: State, m: nat, steps: seq<Step>)
    requires s.db.Valid() && Injective(cfg.sign) && Signed(cfg, s) && m in s.mints
    ensures var c := RefreshClaims(cfg, s.mints[m].user, s.now);
            var t := Run(cfg, Next(cfg, s, Issue(m)), steps);
            cfg.sign(c) in t.issued && t.issued[cfg.sign(c)] == c
  {
    var s' := Next(cfg, s, Issue(m));
    IssuedForGood(cfg, s', steps, cfg.sign(RefreshClaims(cfg, s.mints[m].user, s.now)));
  }

  // ---- What a call is answered with ---------------------------------------------------------------------

  /** The access token of this answer says exactly who the user is, the refresh token only its id, and each is
      accepted until its own expiry; the answer announces that of the access token. */
  ghost predicate AnswersFor(cfg: Config, issued: map<string, Claims>, r: AuthResponse, u: User, signed: int, at: int)
  {
    var iat, access, refresh := signed / 1_000_000_000, (signed + cfg.access) / 1_000_000_000,
                                (signed + cfg.refresh) / 1_000_000_000;
    && Validate(issued, r.accessToken, at) ==
       (if at < access * 1_000_000_000
        then Accepted(Claims(u.id, u.email, u.role, iat, access, "golang-api-server", Decimal(u.id))) else Expired)
    && Validate(issued, r.refreshToken, at) ==
       (if at < refresh * 1_000_000_000
        then Accepted(Claims(u.id, "", "", iat, refresh, "golang-api-server", Decimal(u.id))) else Expired)
    && r.expiresAt == access
  }

  lemma MintStaysOnce(cfg: Config, s: State, step: Step, m: nat)
    requires s.db.Valid() && m in s.mints && step != Issue(m)
    ensures m in Next(cfg, s, step).mints && Next(cfg, s, step).mints[m] == s.mints[m]
  {}

  lemma {:induction false} MintStays(cfg: Config, s: State, steps: seq<Step>, m: nat)
    requires s.db.Valid() && m in s.mints && Issue(m) !in steps
    ensures m in Run(cfg, s, steps).mints && Run(cfg, s, steps).mints[m] == s.mints[m]
  {
    if steps != [] {
      assert steps[|steps| - 1] in steps;
      MintStays(cfg, s, steps[..|steps| - 1], m);
      MintStaysOnce(cfg, Run(cfg, s, steps[..|steps| - 1]), steps[|steps| - 1], m);
    }
  }

  lemma {:induction false} StaysSigned(cfg: Config, s: State, steps: seq<Step>)
    requires s.db.Valid() && Signed(cfg, s)
    ensures Signed(cfg, Run(cfg, s, steps))
  {
    if steps != [] {
      StaysSigned(cfg, s, steps[..|steps| - 1]);
      SignedStep(cfg, Run(cfg, s, steps[..|steps| - 1]), steps[|steps| - 1]);
    }
  }

  lemma IssueAnswers(cfg: Config, s: State, m: nat, after: seq<Step>, at: int)
    requires s.db.Valid() && Injective(cfg.sign) && Signed(cfg, s) && m in s.mints
    ensures var u := s.mints[m].user;
            AnswersFor(cfg, Run(cfg, Next(cfg, s, Issue(m)), after).issued, TokenPair(cfg, u, s.now), u, s.now, at)
  {
    AcceptedUntilExpiry(cfg, s, m, after, at);
    RefreshTokenStays(cfg, s, m, after);
  }

  /** A call is answered once. */
  lemma AnsweredOnce(cfg: Config, s: State, m: nat)
    requires s.db.Valid() && m in s.mints
    ensures var s' := Next(cfg, s, Issue(m));
            s'.mints == s.mints - {m} && s'.db == s.db && Next(cfg, s', Issue(m)) == s'
  {}

  /** The tokens issued, after all, to a call that has read its user, whatever runs before and after signing. */
  ghost function Final(cfg: Config, s: State, m: nat, meanwhile: seq<Step>, after: seq<Step>): State
    requires s.db.Valid()
  {
    Run(cfg, Next(cfg, Run(cfg, s, meanwhile), Issue(m)), after)
  }

  lemma CallIsAnswered(cfg: Config, s: State, m: nat, u: User, meanwhile: seq<Step>, after: seq<Step>, at: int)
    requires s.db.Valid() && Injective(cfg.sign) && Signed(cfg, s) && Issue(m) !in meanwhile
    requires m in s.mints && s.mints[m].user == u
    ensures var signed := Run(cfg, s, meanwhile).now;
            AnswersFor(cfg, Final(cfg, s, m, meanwhile, after).issued, TokenPair(cfg, u, signed), u, signed, at)
  {
    MintStays(cfg, s, meanwhile, m);
    StaysSigned(cfg, s, meanwhile);
    IssueAnswers(cfg, Run(cfg, s, meanwhile), m, after, at);
  }

  lemma LoginReads(cfg: Config, s: State, m: nat, id: int, password: string)
    requires s.db.Valid() && id in s.db.rows && m !in s.mints && cfg.matches(s.db.rows[id].password, password)
    ensures Next(cfg, s, Login(m, s.db.rows[id].email, password, false)) ==
            s.(mints := s.mints[m := Mint(s.db.rows[id], s.now)])
  {
    FindsTheRow(s.db, id);
  }

  /** Whoever logs in with its email and a matching password is answered with tokens for its own row. */
  lemma LoginIsAnswered(cfg: Config, s: State, m: nat, id: int, password: string, meanwhile: seq<Step>,
      after: seq<Step>, at: int)
    requires s.db.Valid() && Injective(cfg.sign) && Signed(cfg, s) && Issue(m) !in meanwhile
    requires id in s.db.rows && m !in s.mints && cfg.matches(s.db.rows[id].password, password)
    ensures var u, s' := s.db.rows[id], Next(cfg, s, Login(m, s.db.rows[id].email, password, false));
            var signed := Run(cfg, s', meanwhile).now;
            AnswersFor(cfg, Final(cfg, s', m, meanwhile, after).issued, TokenPair(cfg, u, signed), u, signed, at)
  {
    LoginReads(cfg, s, m, id, password);
    CallIsAnswered(cfg, Next(cfg, s, Login(m, s.db.rows[id].email, password, false)), m, s.db.rows[id],
                   meanwhile, after, at);
  }

  /** Whoever registers with names that are free is answered with tokens for a new ordinary user. */
  lemma RegisterIsAnswered(cfg: Config, s: State, m: nat, email: string, username: string, name: string, hash: string,
      meanwhile: seq<Step>, after: seq<Step>, at: int)
    requires s.db.Valid() && Injective(cfg.sign) && Signed(cfg, s) && Issue(m) !in meanwhile
    requires m !in s.mints && !HasEmail(s.db, email) && !HasUsername(s.db, username)
    ensures var u := User(s.db.nextId, email, username, hash, name, "user");
            var s' := Next(cfg, s, Register(m, email, username, name, hash, false));
            var signed := Run(cfg, s', meanwhile).now;
            && s'.db.rows == s.db.rows[u.id := u]
            && AnswersFor(cfg, Final(cfg, s', m, meanwhile, after).issued, TokenPair(cfg, u, signed), u, signed, at)
  {
    var u := User(s.db.nextId, email, username, hash, name, "user");
    CallIsAnswered(cfg, Next(cfg, s, Register(m, email, username, name, hash, false)), m, u, meanwhile, after, at);
  }

  /** Whoever refreshes with a token that is still accepted is answered with tokens for its row as it is now. */
  lemma RefreshIsAnswered(cfg: Config, s: State, m: nat, token: string, meanwhile: seq<Step>,
      after: seq<Step>, at: int)
    requires s.db.Valid() && Injective(cfg.sign) && Signed(cfg, s) && Issue(m) !in meanwhile
    requires m !in s.mints && token in s.issued && s.now < s.issued[token].expiresAt * 1_000_000_000
    requires s.issued[token].userId in s.db.rows
    ensures var u, s' := s.db.rows[s.issued[token].userId], Next(cfg, s, Refresh(m, token, false));
            var signed := Run(cfg, s', meanwhile).now;
            AnswersFor(cfg, Final(cfg, s', m, meanwhile, after).issued, TokenPair(cfg, u, signed), u, signed, at)
  {
    CallIsAnswered(cfg, Next(cfg, s, Refresh(m, token, false)), m, s.db.rows[s.issued[token].userId],
                   meanwhile, after, at);
  }

  /** Exactly these calls get as far as having tokens signed; any other leaves everything as it was. */
  lemma CallsAnsweredExactly(cfg: Config, s: State, m: nat, email: string, password: string, token: string,
      username: string, name: string, hash: string, fault: bool)
    requires s.db.Valid() && m !in s.mints
    ensures var s' := Next(cfg, s, Login(m, email, password, fault));
            && (m in s'.mints <==> !fault && exists id :: id in s.db.rows && s.db.rows[id].email == email &&
                                                          cfg.matches(s.db.rows[id].password, password))
            && (m !in s'.mints ==> s' == s)
    ensures var s' := Next(cfg, s, Refresh(m, token, fault));
            && (m in s'.mints <==> !fault && token in s.issued && s.now < s.issued[token].expiresAt * 1_000_000_000
                                   && s.issued[token].userId in s.db.rows)
            && (m !in s'.mints ==> s' == s)
    ensures var s' := Next(cfg, s, Register(m, email, username, name, hash, fault));
            && (m in s'.mints <==> !fault && !HasEmail(s.db, email) && !HasUsername(s.db, username))
            && (m !in s'.mints ==> s' == s)
  {
    if HasEmail(s.db, email) {
      var id :| id in s.db.rows && s.db.rows[id].email == email;
      FindsTheRow(s.db, id);
    }
  }

  /** After an update that succeeds, the user logs in under its new email, with the password and role it had. */
  lemma UpdatedUserLogsIn(cfg: Config, s: State, u: User, m: nat, password: string)
    requires s.db.Valid() && u.id in s.db.rows && m !in s.mints && cfg.matches(s.db.rows[u.id].password, password)
    requires forall i | i in s.db.rows && i != u.id ::
               s.db.rows[i].email != u.email && s.db.rows[i].username != u.username
    ensures var s' := Next(cfg, Next(cfg, s, UpdateProfile(u, false)), Login(m, u.email, password, false));
            var row := s.db.rows[u.id];
            m in s'.mints &&
            s'.mints[m].user == User(u.id, u.email, u.username, row.password, u.name, row.role)
  {
    OverwriteOutcomes(s.db, u, false, 0);
    LoginReads(cfg, Next(cfg, s, UpdateProfile(u, false)), m, u.id, password);
  }

  function Longest(cfg: Config): int { if cfg.access < cfg.refresh then cfg.refresh else cfg.access }

  /** No token outlives the moment by more than the longest lifetime; no call read the future. */
  ghost predicate Bounded(cfg: Config, s: State)
  {
    && (forall t | t in s.issued :: s.issued[t].expiresAt * SECOND <= s.now + Longest(cfg))
    && (forall m | m in s.mints :: s.mints[m].readAt <= s.now)
  }

  lemma BoundedStep(cfg: Config, s: State, step: Step)
    requires s.db.Valid() && Bounded(cfg, s)
    ensures Bounded(cfg, Next(cfg, s, step))
  {
    var s' := Next(cfg, s, step);
    forall m | m in s'.mints ensures s'.mints[m].readAt <= s'.now { MintIsRow(cfg, s, step, m); }
  }

  lemma {:induction false} RunIsBounded(cfg: Config, s: State, steps: seq<Step>)
    requires s.db.Valid() && s.issued == map[] && s.mints == map[]
    ensures Bounded(cfg, Run(cfg, s, steps))
  {
    if steps != [] {
      RunIsBounded(cfg, s, steps[..|steps| - 1]);
      BoundedStep(cfg, Run(cfg, s, steps[..|steps| - 1]), steps[|steps| - 1]);
    }
  }

  predicate Gone(s: State, id: int) { id !in s.db.rows && id < s.db.nextId }

  /** From the moment d on, the id is gone, nothing reads it, and its tokens end by the deadline. */
  ghost predicate Fading(cfg: Config, s: State, id: int, d: int, delay: nat)
  {
    && Gone(s, id)
    && (forall m | m in s.mints && s.mints[m].user.id == id :: s.mints[m].readAt <= d)
    && (forall t | t in s.issued && s.issued[t].userId == id ::
          s.issued[t].expiresAt * SECOND <= d + delay + Longest(cfg))
  }

  lemma FadingStep(cfg: Config, s: State, step: Step, id: int, d: int, delay: nat)
    requires s.db.Valid() && Fading(cfg, s, id, d, delay) && PromptStep(s, step, delay)
    ensures Fading(cfg, Next(cfg, s, step), id, d, delay)
  {
    var s' := Next(cfg, s, step);
    forall m | m in s'.mints && s'.mints[m].user.id == id ensures s'.mints[m].readAt <= d {
      MintIsRow(cfg, s, step, m);
    }
  }

  lemma {:induction false} FadingLasts(cfg: Config, s: State, steps: seq<Step>, id: int, d: int, delay: nat)
    requires s.db.Valid() && Fading(cfg, s, id, d, delay) && Prompt(cfg, s, steps, delay)
    ensures Fading(cfg, Run(cfg, s, steps), id, d, delay)
  {
    if steps != [] {
      FadingLasts(cfg, s, steps[..|steps| - 1], id, d, delay);
      FadingStep(cfg, Run(cfg, s, steps[..|steps| - 1]), steps[|steps| - 1], id, d, delay);
    }
  }

  /** Once a user is gone, then after the longest lifetime (plus the time a call may take to sign) no
      token for it is accepted any more, through any chain of refreshes. */
  lemma TokensDieWithTheUser(cfg: Config, s: State, before: seq<Step>, after: seq<Step>, delay: nat, id: int,
      token: string)
    requires s.db.Valid() && s.issued == map[] && s.mints == map[]
    requires var d := Run(cfg, s, before); Gone(d, id) && Prompt(cfg, d, after, delay)
    requires Run(cfg, Run(cfg, s, before), after).now >= Run(cfg, s, before).now + delay + Longest(cfg)
    ensures var t := Run(cfg, Run(cfg, s, before), after);
            var v := Validate(t.issued, token, t.now);
            v.Accepted? ==> v.claims.userId != id
  {
    var d := Run(cfg, s, before);
    RunIsBounded(cfg, s, before);
    FadingLasts(cfg, d, after, id, d.now, delay);
  }

  lemma RunTwice(cfg: Config, s: State, before: seq<Step>, step: Step)
    requires s.db.Valid()
    ensures Run(cfg, s, before + [step]) == Next(cfg, Run(cfg, s, before), step)
  {
    assert (before + [step])[..|before|] == before;
  }

  /** Deleting a row is enough: whatever was issued and is refreshed, no token for it is accepted once the longest
      lifetime (plus the time a call may take to sign) has passed since. */
  lemma DeletionEndsTokens(cfg: Config, s: State, before: seq<Step>, id: int, after: seq<Step>, delay: nat,
      token: string)
    requires s.db.Valid() && s.issued == map[] && s.mints == map[] && id in Run(cfg, s, before).db.rows
    requires Prompt(cfg, Next(cfg, Run(cfg, s, before), Delete(id, false)), after, delay)
    requires Run(cfg, Next(cfg, Run(cfg, s, before), Delete(id, false)), after).now
             >= Run(cfg, s, before).now + delay + Longest(cfg)
    ensures var t := Run(cfg, Next(cfg, Run(cfg, s, before), Delete(id, false)), after);
            var v := Validate(t.issued, token, t.now);
            v.Accepted? ==> v.claims.userId != id
  {
    RunTwice(cfg, s, before, Delete(id, false));
    TokensDieWithTheUser(cfg, s, before + [Delete(id, false)], after, delay, id, token);
  }

  /** So deleting a row and waiting shuts the user out. */
  lemma DeletedAndWaited(cfg: Config, s: State, before: seq<Step>, id: int, wait: nat, token: string)
    requires s.db.Valid() && s.issued == map[] && s.mints == map[] && id in Run(cfg, s, before).db.rows
    requires Longest(cfg) <= wait
    ensures var t := Next(cfg, Next(cfg, Run(cfg, s, before), Delete(id, false)), Tick(wait));
            var v := Validate(t.issued, token, t.now);
            v.Accepted? ==> v.claims.userId != id
  {
    var d := Next(cfg, Run(cfg, s, before), Delete(id, false));
    assert [Tick(wait)][..0] == [];
    assert Prompt(cfg, d, [Tick(wait)][..0], 0);
    assert Run(cfg, d, [Tick(wait)]) == Next(cfg, d, Tick(wait));
    DeletionEndsTokens(cfg, s, before, id, [Tick(wait)], 0, token);
  }

  // ---- How long a role outlives its row -------------------------------------------------------------

  predicate SaysAdmin(c: Claims, id: int) { c.userId == id && c.role == ROLE_ADMIN }

  /** The row, if there is one, is not an administrator's. */
  predicate NoAdmin(s: State, id: int) { id in s.db.rows ==> s.db.rows[id].role != ROLE_ADMIN }

  /** From the moment d on nothing reads this id as an administrator, and its admin tokens end by the deadline. */
  ghost predicate Demoted(cfg: Config, s: State, id: int, d: int, delay: nat)
  {
    && NoAdmin(s, id)
    && (forall m | m in s.mints && s.mints[m].user.id == id && s.mints[m].user.role == ROLE_ADMIN ::
          s.mints[m].readAt <= d)
    && (forall t | t in s.issued && SaysAdmin(s.issued[t], id) ::
          s.issued[t].expiresAt * SECOND <= d + delay + cfg.access)
  }

  /** Only an access token says admin, so it ends within the access lifetime of its signing. */
  ghost predicate AdminsBounded(cfg: Config, s: State)
  {
    && (forall t | t in s.issued && s.issued[t].role == ROLE_ADMIN ::
          s.issued[t].expiresAt * SECOND <= s.now + cfg.access)
    && (forall m | m in s.mints :: s.mints[m].readAt <= s.now)
  }

  lemma AdminsBoundedStep(cfg: Config, s: State, step: Step)
    requires s.db.Valid() && AdminsBounded(cfg, s)
    ensures AdminsBounded(cfg, Next(cfg, s, step))
  {
    var s' := Next(cfg, s, step);
    forall t | t in s'.issued && s'.issued[t].role == ROLE_ADMIN
      ensures s'.issued[t].expiresAt * SECOND <= s'.now + cfg.access
    {
      NewTokenIsSigned(cfg, s, step, t);
    }
    forall m | m in s'.mints ensures s'.mints[m].readAt <= s'.now { MintIsRow(cfg, s, step, m); }
  }

  lemma {:induction false} RunBoundsAdmins(cfg: Config, s: State, steps: seq<Step>)
    requires s.db.Valid() && s.issued == map[] && s.mints == map[]
    ensures AdminsBounded(cfg, Run(cfg, s, steps))
  {
    if steps != [] {
      RunBoundsAdmins(cfg, s, steps[..|steps| - 1]);
      AdminsBoundedStep(cfg, Run(cfg, s, steps[..|steps| - 1]), steps[|steps| - 1]);
    }
  }

  lemma DemotedStep(cfg: Config, s: State, step: Step, id: int, d: int, delay: nat)
    requires s.db.Valid() && Demoted(cfg, s, id, d, delay) && PromptStep(s, step, delay)
    requires step != SetRole(id, ROLE_ADMIN)
    ensures Demoted(cfg, Next(cfg, s, step), id, d, delay)
  {
    var s' := Next(cfg, s, step);
    forall m | m in s'.mints && s'.mints[m].user.id == id && s'.mints[m].user.role == ROLE_ADMIN
      ensures s'.mints[m].readAt <= d
    {
      MintIsRow(cfg, s, step, m);
    }
    forall t | t in s'.issued && SaysAdmin(s'.issued[t], id)
      ensures s'.issued[t].expiresAt * SECOND <= d + delay + cfg.access
    {
      NewTokenIsSigned(cfg, s, step, t);
    }
  }

  lemma {:induction false} DemotionLasts(cfg: Config, s: State, steps: seq<Step>, id: int, d: int, delay: nat)
    requires s.db.Valid() && Demoted(cfg, s, id, d, delay) && Prompt(cfg, s, steps, delay)
    requires SetRole(id, ROLE_ADMIN) !in steps
    ensures Demoted(cfg, Run(cfg, s, steps), id, d, delay)
  {
    if steps != [] {
      var us := steps[..|steps| - 1];
      assert steps[|steps| - 1] in steps;
      DemotionLasts(cfg, s, us, id, d, delay);
      DemotedStep(cfg, Run(cfg, s, us), steps[|steps| - 1], id, d, delay);
    }
  }

  /** Once a user is not an administrator, no token that says it is one is accepted after the access
      lifetime (plus the time a call may take to sign), through any chain of refreshes. */
  lemma AdminTokensDieWithTheRole(cfg: Config, s: State, before: seq<Step>, after: seq<Step>, delay: nat,
      id: int, token: string)
    requires s.db.Valid() && s.issued == map[] && s.mints == map[]
    requires var d := Run(cfg, s, before); NoAdmin(d, id) && Prompt(cfg, d, after, delay)
    requires SetRole(id, ROLE_ADMIN) !in after
    requires Run(cfg, Run(cfg, s, before), after).now >= Run(cfg, s, before).now + delay + cfg.access
    ensures var t := Run(cfg, Run(cfg, s, before), after);
            var v := Validate(t.issued, token, t.now);
            v.Accepted? ==> !SaysAdmin(v.claims, id)
  {
    var d := Run(cfg, s, before);
    RunBoundsAdmins(cfg, s, before);
    DemotionLasts(cfg, d, after, id, d.now, delay);
  }
}
