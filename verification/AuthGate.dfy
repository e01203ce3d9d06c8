/** The checks in front of protected and admin routes. */
module AuthGate {
  import opened Users
  import opened Cache
  import opened Tokens

  /** Splits at the first space, if there is one. */
  function Cut(s: string): (r: Option<(string, string)>)
    ensures r.Some? <==> ' ' in s
    ensures r.Some? ==> s == r.value.0 + " " + r.value.1 && ' ' !in r.value.0
  {
    if s == "" then None
    else if s[0] == ' ' then Some(("", s[1..]))
    else match Cut(s[1..])
         case None => None
         case Some((a, b)) => Some(([s[0]] + a, b))
  }

  function Lower(c: char): char { if 'A' <= c <= 'Z' then c + 32 as char else c }

  /** Equality up to letter case. */
  predicate EqualFold(a: string, b: string)
  {
    |a| == |b| && forall i | 0 <= i < |a| :: Lower(a[i]) == Lower(b[i])
  }

  /** What a request knows about its caller, and whether it was turned away. */
  class RequestContext {
    var userId: Option<int>
    var email: Option<string>
    var role: Option<string>
    var status: Option<int>

    constructor ()
      ensures userId == None && email == None && role == None && status == None
    {
      userId, email, role, status := None, None, None, None;
    }

    /** Lets the request on with the claims of its bearer token, or answers 401. */
    method Authenticate(header: string, issued: map<string, Claims>, now: int)
      requires status == None
      modifies this
      ensures var claims := BearerClaims(header, issued, now);
              if claims.Some?
              then status == None && userId == Some(claims.value.userId) &&
                   email == Some(claims.value.email) && role == Some(claims.value.role)
              else status == Some(401) && unchanged(`userId, `email, `role)
    {
      if header == "" { status := Some(401); return; }
      var parts := Cut(header);
      if parts.None? || !EqualFold(parts.value.0, "Bearer") { status := Some(401); return; }
      match Validate(issued, parts.value.1, now)
      case Accepted(c) => userId, email, role := Some(c.userId), Some(c.email), Some(c.role);
      case _ => status := Some(401);
    }

    /** Lets the request on if its role is one of those listed; 401 without a role, 403 with another. */
    method RequireRole(roles: seq<string>)
      requires status == None
      modifies this`status
      ensures status == if role == None then Some(401) else if role.value in roles then None else Some(403)
    {
      if role == None { status := Some(401); return; }
      for i := 0 to |roles|
        invariant role.value !in roles[..i] && status == None
      {
        if role.value == roles[i] { return; }
      }
      status := Some(403);
    }
  }

  /** The claims a request may act under. */
  function BearerClaims(header: string, issued: map<string, Claims>, now: int): Option<Claims>
  {
    match Cut(header)
    case None => None
    case Some((scheme, token)) =>
      if !EqualFold(scheme, "Bearer") then None
      else match Validate(issued, token, now)
           case Accepted(c) => Some(c)
           case _ => None
  }

  /** The admin routes: authenticate, then require the admin role. */
  method AdminChain(header: string, issued: map<string, Claims>, now: int) returns (status: Option<int>,
      userId: Option<int>)
    ensures status == None <==> PassesAdminChain(header, issued, now)
    ensures status == None ==> userId == Some(BearerClaims(header, issued, now).value.userId)
    ensures status != None ==> status in {Some(401), Some(403)}
    ensures status == Some(403) <==>
              BearerClaims(header, issued, now).Some? && BearerClaims(header, issued, now).value.role != ROLE_ADMIN
  {
    var ctx := new RequestContext();
    ctx.Authenticate(header, issued, now);
    if ctx.status == None { ctx.RequireRole(["admin"]); }
    status, userId := ctx.status, ctx.userId;
  }

  ghost predicate PassesAdminChain(header: string, issued: map<string, Claims>, now: int)
  {
    var c := BearerClaims(header, issued, now);
    c.Some? && c.value.role == ROLE_ADMIN
  }

  lemma {:induction false} CutAtFirst(scheme: string, token: string)
    requires ' ' !in scheme
    ensures Cut(scheme + " " + token) == Some((scheme, token))
  {
    var s := scheme + " " + token;
    if scheme == "" {
      assert s[1..] == token;
    } else {
      CutAtFirst(scheme[1..], token);
      assert s[1..] == scheme[1..] + " " + token;
      assert scheme == [scheme[0]] + scheme[1..];
    }
  }

  /** The word, in any letter case. */
  predicate SpellsBearer(w: string)
  {
    && |w| == 6 && w[0] in "Bb" && w[1] in "Ee" && w[2] in "Aa" && w[3] in "Rr" && w[4] in "Ee" && w[5] in "Rr"
  }

  lemma FoldedBearer(w: string)
    ensures EqualFold(w, "Bearer") <==> SpellsBearer(w)
  {
    assert forall c :: Lower(c) == 'b' <==> c in "Bb";
    assert forall c :: Lower(c) == 'e' <==> c in "Ee";
    assert forall c :: Lower(c) == 'a' <==> c in "Aa";
    assert forall c :: Lower(c) == 'r' <==> c in "Rr";
  }

  /** The header is the scheme, in any letter case, one space and this token. */
  ghost predicate IsBearer(header: string, scheme: string, token: string)
  {
    header == scheme + " " + token && SpellsBearer(scheme)
  }

  /** A header of whatever shape yields claims exactly when it is a bearer header of a token accepted
      with these claims. */
  lemma BearerIff(header: string, issued: map<string, Claims>, now: int, c: Claims)
    ensures BearerClaims(header, issued, now) == Some(c) <==>
              exists scheme, token :: IsBearer(header, scheme, token) && Validate(issued, token, now) == Accepted(c)
  {
    forall scheme, token | IsBearer(header, scheme, token)
      ensures Cut(header) == Some((scheme, token)) && EqualFold(scheme, "Bearer")
    {
      CutAtFirst(scheme, token);
      FoldedBearer(scheme);
    }
    if Cut(header).Some? { FoldedBearer(Cut(header).value.0); }
    if BearerClaims(header, issued, now) == Some(c) {
      assert IsBearer(header, Cut(header).value.0, Cut(header).value.1);
    }
  }

  /** The claims are an access token's for this administrator's row, and still valid. */
  ghost predicate AdminMint(cfg: Config, hist: seq<State>, c: Claims, now: int,
      u: User, at: int, signed: int, delay: nat)
  {
    && MintedFrom(cfg, hist, c, u, at, signed, delay)
    && u.role == ROLE_ADMIN && c == AccessClaims(cfg, u, signed) && now < Seconds(signed + cfg.access) * SECOND
  }

  ghost predicate FromAdminRow(cfg: Config, hist: seq<State>, c: Claims, now: int, delay: nat)
  {
    exists u: User, at: int, signed: int :: AdminMint(cfg, hist, c, now, u, at, signed, delay)
  }

  lemma AdminOrigin(cfg: Config, hist: seq<State>, c: Claims, now: int, delay: nat)
    requires HasOrigin(cfg, hist, c, delay) && c.role == ROLE_ADMIN && now < c.expiresAt * SECOND
    ensures FromAdminRow(cfg, hist, c, now, delay)
  {
    var u: User, at: int, signed: int :| MintedFrom(cfg, hist, c, u, at, signed, delay);
    assert AdminMint(cfg, hist, c, now, u, at, signed, delay);
  }

  lemma PassingClaims(header: string, issued: map<string, Claims>, now: int) returns (token: string)
    requires PassesAdminChain(header, issued, now)
    ensures token in issued && BearerClaims(header, issued, now) == Some(issued[token])
    ensures issued[token].role == ROLE_ADMIN && now < issued[token].expiresAt * SECOND
  {
    token := Cut(header).value.1;
  }

  /** Whoever passes the admin chain presents an unexpired access token, signed at most `delay` after the
      table held that user's row with the admin role, and for that row. */
  lemma {:induction false} AdminsComeFromTheTable(cfg: Config, s: State, steps: seq<Step>, delay: nat, header: string)
    requires s.db.Valid() && s.issued == map[] && s.mints == map[] && Prompt(cfg, s, steps, delay)
    requires PassesAdminChain(header, Run(cfg, s, steps).issued, Run(cfg, s, steps).now)
    ensures var t := Run(cfg, s, steps);
            FromAdminRow(cfg, States(cfg, s, steps), BearerClaims(header, t.issued, t.now).value, t.now, delay)
  {
    var t := Run(cfg, s, steps);
    TokensHaveOrigins(cfg, s, steps, delay);
    var token := PassingClaims(header, t.issued, t.now);
    assert BearerClaims(header, t.issued, t.now).value == t.issued[token];
    AdminOrigin(cfg, States(cfg, s, steps), t.issued[token], t.now, delay);
  }

  /** A demoted administrator passes no longer than the access lifetime (plus the time a call may take to
      sign) after the demotion. */
  lemma DemotedAdminsAreOut(cfg: Config, s: State, before: seq<Step>, after: seq<Step>, delay: nat,
      id: int, header: string)
    requires s.db.Valid() && s.issued == map[] && s.mints == map[]
    requires var d := Run(cfg, s, before); NoAdmin(d, id) && Prompt(cfg, d, after, delay)
    requires SetRole(id, ROLE_ADMIN) !in after
    requires Run(cfg, Run(cfg, s, before), after).now >= Run(cfg, s, before).now + delay + cfg.access
    ensures var t := Run(cfg, Run(cfg, s, before), after);
            PassesAdminChain(header, t.issued, t.now) ==> BearerClaims(header, t.issued, t.now).value.userId != id
  {
    if Cut(header).Some? {
      AdminTokensDieWithTheRole(cfg, s, before, after, delay, id, Cut(header).value.1);
    }
  }

  /** Nobody who registered during the run ever passes it, whatever is updated and refreshed. */
  lemma RegisteredUsersNeverPass(cfg: Config, s: State, steps: seq<Step>, id: int, header: string)
    requires s.db.Valid() && s.issued == map[] && s.mints == map[] && s.db.nextId <= id
    requires forall i | 0 <= i < |steps| :: !(steps[i].SetRole? && steps[i].id == id)
    ensures var t := Run(cfg, s, steps);
            PassesAdminChain(header, t.issued, t.now) ==> BearerClaims(header, t.issued, t.now).value.userId != id
  {
    NewUsersStayOrdinary(cfg, s, steps, id);
  }

  lemma RolelessHeader(issued: map<string, Claims>, scheme: string, token: string, c: Claims, at: int)
    requires ' ' !in scheme && EqualFold(scheme, "Bearer") && token in issued && issued[token] == c && c.role == ""
    ensures BearerClaims(scheme + " " + token, issued, at) == Some(c) <==> at < c.expiresAt * SECOND
    ensures !PassesAdminChain(scheme + " " + token, issued, at)
  {
    CutAtFirst(scheme, token);
  }

  /** The refresh token of a response authenticates until its own expiry, whatever runs in between, but
      never passes the admin chain. */
  lemma {:induction false} RefreshTokensAreNoAdmins(cfg: Config, s: State, m: nat, steps: seq<Step>,
      scheme: string, at: int)
    requires s.db.Valid() && Injective(cfg.sign) && Signed(cfg, s) && m in s.mints
    requires ' ' !in scheme && EqualFold(scheme, "Bearer")
    ensures var u := s.mints[m].user;
            var header := scheme + " " + TokenPair(cfg, u, s.now).refreshToken;
            var t := Run(cfg, Next(cfg, s, Issue(m)), steps);
            && (BearerClaims(header, t.issued, at) == Some(RefreshClaims(cfg, u, s.now))
                <==> at < Seconds(s.now + cfg.refresh) * SECOND)
            && !PassesAdminChain(header, t.issued, at)
  {
    var c := RefreshClaims(cfg, s.mints[m].user, s.now);
    var issued := Run(cfg, Next(cfg, s, Issue(m)), steps).issued;
    assert cfg.sign(c) in issued && issued[cfg.sign(c)] == c by { RefreshTokenStays(cfg, s, m, steps); }
    RolelessHeader(issued, scheme, cfg.sign(c), c, at);
  }

  lemma HeaderDecides(issued: map<string, Claims>, header: string, scheme: string, token: string, c: Claims, live: bool,
      at: int)
    requires IsBearer(header, scheme, token) && Validate(issued, token, at) == if live then Accepted(c) else Expired
    ensures PassesAdminChain(header, issued, at) <==> live && c.role == "admin"
    ensures BearerClaims(header, issued, at) == if live then Some(c) else None
  {
    CutAtFirst(scheme, token);
    FoldedBearer(scheme);
  }

  /** The header authenticates as this user until the deadline, and opens the admin routes to administrators. */
  ghost predicate ActsAs(issued: map<string, Claims>, header: string, u: User, at: int, deadline: int)
  {
    var claims := BearerClaims(header, issued, at);
    && (claims.Some? <==> at < deadline)
    && (claims.Some? ==> claims.value.userId == u.id && claims.value.email == u.email && claims.value.role == u.role)
    && (PassesAdminChain(header, issued, at) <==> at < deadline && u.role == "admin")
  }

  /** The user a call is answered for decides: the access token authenticates as that user until its expiry, and
      passes the admin chain until then if and only if the user's role is admin. */
  lemma RoleDecides(cfg: Config, issued: map<string, Claims>, r: AuthResponse, u: User, signed: int, at: int,
      header: string, scheme: string)
    requires AnswersFor(cfg, issued, r, u, signed, at) && IsBearer(header, scheme, r.accessToken)
    ensures ActsAs(issued, header, u, at, (signed + cfg.access) / 1_000_000_000 * 1_000_000_000)
  {
    var expiry := (signed + cfg.access) / 1_000_000_000;
    var c := Claims(u.id, u.email, u.role, signed / 1_000_000_000, expiry, "golang-api-server", Decimal(u.id));
    HeaderDecides(issued, header, scheme, r.accessToken, c, at < expiry * 1_000_000_000, at);
  }

  lemma BearerActs(cfg: Config, issued: map<string, Claims>, r: AuthResponse, u: User, signed: int, at: int)
    requires AnswersFor(cfg, issued, r, u, signed, at)
    ensures ActsAs(issued, "Bearer " + r.accessToken, u, at, (signed + cfg.access) / 1_000_000_000 * 1_000_000_000)
  {
    assert "Bearer " + r.accessToken == "Bearer" + " " + r.accessToken;
    RoleDecides(cfg, issued, r, u, signed, at, "Bearer " + r.accessToken, "Bearer");
  }

  /** Hence whoever logs in with its password acts as its own row until the token expires, and gets through to the
      admin routes if and only if it is an administrator. */
  lemma AdminsGetIn(cfg: Config, s: State, id: int, m: nat, password: string, meanwhile: seq<Step>, after: seq<Step>,
      at: int)
    requires s.db.Valid() && Injective(cfg.sign) && Signed(cfg, s) && Issue(m) !in meanwhile
    requires id in s.db.rows && m !in s.mints && cfg.matches(s.db.rows[id].password, password)
    ensures var u, s1 := s.db.rows[id], Next(cfg, s, Login(m, s.db.rows[id].email, password, false));
            var signed := Run(cfg, s1, meanwhile).now;
            ActsAs(Final(cfg, s1, m, meanwhile, after).issued, "Bearer " + TokenPair(cfg, u, signed).accessToken, u, at,
                   (signed + cfg.access) / 1_000_000_000 * 1_000_000_000)
  {
    var u, s1 := s.db.rows[id], Next(cfg, s, Login(m, s.db.rows[id].email, password, false));
    var signed := Run(cfg, s1, meanwhile).now;
    LoginIsAnswered(cfg, s, m, id, password, meanwhile, after, at);
    BearerActs(cfg, Final(cfg, s1, m, meanwhile, after).issued, TokenPair(cfg, u, signed), u, signed, at);
  }

  /** An operator can change any role, and changes nothing else. */
  lemma SetRoleSets(cfg: Config, s: State, id: int, role: string)
    requires s.db.Valid() && id in s.db.rows
    ensures var (u, s') := (s.db.rows[id], Next(cfg, s, SetRole(id, role)));
            && s'.db.rows == s.db.rows[id := User(u.id, u.email, u.username, u.password, u.name, role)]
            && s' == s.(db := Db(s'.db.rows, s.db.nextId))
  {}
}
