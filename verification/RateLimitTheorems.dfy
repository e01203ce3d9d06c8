/** What the limiter promises over whole runs. */
module RateLimitTheorems {
  import opened TokenBucket
  import opened RateLimit

  // ---- Eviction ---------------------------------------------------------------------------------

  function WithoutCleanups(tr: seq<Event>): seq<Event>
  {
    if tr == [] then [] else
      var sofar := WithoutCleanups(Init(tr));
      if Last(tr).Cleanup? then sofar else sofar + [Last(tr)]
  }

  lemma {:induction false} CleanupsDoNotAsk(tr: seq<Event>)
    ensures Asked(WithoutCleanups(tr)) == Asked(tr)
  {
    if tr != [] {
      CleanupsDoNotAsk(Init(tr));
      if !Last(tr).Cleanup? {
        assert Init(WithoutCleanups(tr)) == WithoutCleanups(Init(tr));
      }
    }
  }

  ghost predicate SameLookups(a: System, b: System)
  {
    a.tickets.Keys == b.tickets.Keys && forall r | r in a.tickets :: a.tickets[r].got == b.tickets[r].got
  }

  lemma SameLookupsStep(rpm: int, a: System, b: System, e: Event)
    requires a.Valid() && b.Valid() && SameLookups(a, b)
    ensures SameLookups(Step(rpm, a, e), if e.Cleanup? then b else Step(rpm, b, e))
  {}

  /** Lookups are at the same times with and without cleanup passes. */
  lemma {:induction false} CleanupsDoNotLookUp(rpm: int, tr: seq<Event>)
    ensures SameLookups(Run(rpm, tr), Run(rpm, WithoutCleanups(tr)))
  {
    if tr != [] {
      var us := WithoutCleanups(Init(tr));
      CleanupsDoNotLookUp(rpm, Init(tr));
      SameLookupsStep(rpm, Run(rpm, Init(tr)), Run(rpm, us), Last(tr));
      assert Init(us + [Last(tr)]) == us;
    }
  }

  lemma {:induction false} CleanupsDoNotDelay(rpm: int, delay: nat, tr: seq<Event>)
    requires Timely(rpm, delay, tr)
    ensures Timely(rpm, delay, WithoutCleanups(tr)) && Now(WithoutCleanups(tr)) <= Now(tr)
  {
    if tr != [] {
      var us, e := WithoutCleanups(Init(tr)), Last(tr);
      CleanupsDoNotDelay(rpm, delay, Init(tr));
      CleanupsDoNotLookUp(rpm, Init(tr));
      if !e.Cleanup? { Snoc(rpm, delay, us, e); }
    }
  }

  /** A limiter that never evicts gives the same answers. */
  lemma NeverEvictingIsTheSame(rpm: int, delay: nat, tr: seq<Event>)
    requires Timely(rpm, delay, tr) && delay <= LONGEST_DELAY
    ensures Run(rpm, tr).log == Run(rpm, WithoutCleanups(tr)).log
  {
    EvictionIsInvisible(rpm, delay, tr);
    CleanupsDoNotDelay(rpm, delay, tr);
    EvictionIsInvisible(rpm, delay, WithoutCleanups(tr));
    CleanupsDoNotAsk(tr);
  }

  ghost predicate AlwaysInvisible(delay: nat)
  {
    forall rpm: int, tr: seq<Event> | Timely(rpm, delay, tr) :: Run(rpm, tr).log == Reference(rpm, Asked(tr).asked)
  }

  lemma Snoc(rpm: int, delay: nat, tr: seq<Event>, e: Event)
    requires ReadInside(e)
    ensures Run(rpm, tr + [e]) == Step(rpm, Run(rpm, tr), e)
    ensures Timely(rpm, delay, tr) && Now(tr) <= e.t && !e.Allow? ==> Timely(rpm, delay, tr + [e])
    ensures (&& Timely(rpm, delay, tr) && Now(tr) <= e.t && e.Allow? && e.req in Run(rpm, tr).tickets
             && e.t <= Run(rpm, tr).tickets[e.req].got + delay) ==> Timely(rpm, delay, tr + [e])
    ensures Now(tr + [e]) == e.t
    ensures e.Get? ==> Asked(tr + [e]) == Asked(tr).(owners := Asked(tr).owners[e.req := e.ip])
    ensures e.Cleanup? ==> Asked(tr + [e]) == Asked(tr)
    ensures e.Allow? && e.req in Asked(tr).owners ==>
            var g := Asked(tr);
            Asked(tr + [e]) == Ledger(g.owners - {e.req}, g.asked + [Request(g.owners[e.req], e.t)])
  {
    assert Init(tr + [e]) == tr;
  }

  /** One request a minute: a question asked late empties the bucket ... */
  function LateQuestion(): seq<Event> { [] + [Get(0, "a", 0)] + [Allow(0, LONGEST_DELAY + 1)] }

  function Pass(): Event { Cleanup(IDLE_LIMIT + 1, map[], IDLE_LIMIT + 1) }

  /** ... the bucket is evicted, and the client is let in again a nanosecond before its minute is up. */
  function ThenAgain(late: seq<Event>): seq<Event>
  {
    late + [Pass()] + [Get(1, "a", IDLE_LIMIT + 1)] + [Allow(1, IDLE_LIMIT + 1)]
  }

  lemma LateQuestionIsAnswered(delay: nat)
    requires LONGEST_DELAY < delay
    ensures Timely(1, delay, LateQuestion()) && Now(LateQuestion()) == LONGEST_DELAY + 1
    ensures Run(1, LateQuestion()).lim == Limiter(map["a" := Visitor(0, 0)], [Bucket(0, LONGEST_DELAY + 1)])
    ensures Run(1, LateQuestion()).log == [Decision("a", LONGEST_DELAY + 1, true)]
    ensures Asked(LateQuestion()) == Ledger(map[], [Request("a", LONGEST_DELAY + 1)])
  {
    Snoc(1, delay, [], Get(0, "a", 0));
    Snoc(1, delay, [] + [Get(0, "a", 0)], Allow(0, LONGEST_DELAY + 1));
  }

  lemma LateClientIsEvicted(delay: nat, late: seq<Event>)
    requires Timely(1, delay, late) && Now(late) == LONGEST_DELAY + 1
    requires Run(1, late).lim == Limiter(map["a" := Visitor(0, 0)], [Bucket(0, LONGEST_DELAY + 1)])
    requires Asked(late) == Ledger(map[], [Request("a", LONGEST_DELAY + 1)])
    ensures var evicted := late + [Pass()];
            && Timely(1, delay, evicted) && Now(evicted) == IDLE_LIMIT + 1
            && Run(1, evicted).lim == Limiter(map[], [Bucket(0, LONGEST_DELAY + 1)])
            && Run(1, evicted).log == Run(1, late).log && Asked(evicted) == Asked(late)
  {
    Snoc(1, delay, late, Pass());
    assert Run(1, late + [Pass()]).lim.visitors == map[];
  }

  lemma StrangerIsLetIn(delay: nat, evicted: seq<Event>)
    requires Timely(1, delay, evicted) && Now(evicted) == IDLE_LIMIT + 1
    requires Run(1, evicted).lim == Limiter(map[], [Bucket(0, LONGEST_DELAY + 1)])
    requires Asked(evicted) == Ledger(map[], [Request("a", LONGEST_DELAY + 1)])
    ensures var all := evicted + [Get(1, "a", IDLE_LIMIT + 1)] + [Allow(1, IDLE_LIMIT + 1)];
            && Timely(1, delay, all)
            && Run(1, all).log == Run(1, evicted).log + [Decision("a", IDLE_LIMIT + 1, true)]
            && Asked(all).asked == [Request("a", LONGEST_DELAY + 1), Request("a", IDLE_LIMIT + 1)]
  {
    Snoc(1, delay, evicted, Get(1, "a", IDLE_LIMIT + 1));
    Snoc(1, delay, evicted + [Get(1, "a", IDLE_LIMIT + 1)], Allow(1, IDLE_LIMIT + 1));
  }

  lemma ReferenceRefuses()
    ensures var answers := Reference(1, [Request("a", LONGEST_DELAY + 1), Request("a", IDLE_LIMIT + 1)]);
            |answers| == 2 && !answers[1].ok
  {
    var rs := [Request("a", LONGEST_DELAY + 1), Request("a", IDLE_LIMIT + 1)];
    var r1 := [Request("a", LONGEST_DELAY + 1)];
    assert Init(rs) == r1 && Init(r1) == [];
    assert |Reference(1, r1)| == 1;
    assert Times([], "a") == [];
    assert Times(r1, "a") == [LONGEST_DELAY + 1];
    assert Init([LONGEST_DELAY + 1]) == [];
    assert After(1, Times(r1, "a")) == Bucket(0, LONGEST_DELAY + 1);
  }

  /** Eviction is invisible in every run exactly when questions follow lookups within the limit. */
  lemma InvisibleIffPrompt(delay: nat)
    ensures AlwaysInvisible(delay) <==> delay <= 540_000_000_001  // 9 minutes and 1 nanosecond
  {
    if delay <= LONGEST_DELAY {
      forall rpm: int, tr: seq<Event> | Timely(rpm, delay, tr)
        ensures Run(rpm, tr).log == Reference(rpm, Asked(tr).asked)
      {
        EvictionIsInvisible(rpm, delay, tr);
      }
    } else {
      LateQuestionIsAnswered(delay);
      LateClientIsEvicted(delay, LateQuestion());
      StrangerIsLetIn(delay, LateQuestion() + [Pass()]);
      ReferenceRefuses();
      var tr := ThenAgain(LateQuestion());
      assert Run(1, tr).log[1] != Reference(1, Asked(tr).asked)[1];
    }
  }

  // ---- One client at a time -----------------------------------------------------------------------

  function Own(rs: seq<Request>, ip: Ip): seq<Request>
  {
    if rs == [] then [] else
      var sofar := Own(Init(rs), ip);
      if Last(rs).ip == ip then sofar + [Last(rs)] else sofar
  }

  function DecisionsFor(log: seq<Decision>, ip: Ip): seq<Decision>
  {
    if log == [] then [] else
      var sofar := DecisionsFor(Init(log), ip);
      if Last(log).ip == ip then sofar + [Last(log)] else sofar
  }

  lemma {:induction false} OwnTimes(rs: seq<Request>, ip: Ip)
    ensures Times(Own(rs, ip), ip) == Times(rs, ip)
  {
    if rs != [] {
      OwnTimes(Init(rs), ip);
      if Last(rs).ip == ip { assert Init(Own(rs, ip)) == Own(Init(rs), ip); }
    }
  }

  lemma {:induction false} ReferenceSplits(rpm: int, rs: seq<Request>, ip: Ip)
    ensures DecisionsFor(Reference(rpm, rs), ip) == Reference(rpm, Own(rs, ip))
  {
    if rs != [] {
      ReferenceSplits(rpm, Init(rs), ip);
      assert Init(Reference(rpm, rs)) == Reference(rpm, Init(rs));
      if Last(rs).ip == ip {
        assert Init(Own(rs, ip)) == Own(Init(rs), ip);
        OwnTimes(Init(rs), ip);
      }
    }
  }

  /** In a well-timed run a client is told what a bucket of its own, never evicted, would tell it. */
  lemma ClientsHaveTheirOwnBucket(rpm: int, delay: nat, tr: seq<Event>, ip: Ip)
    requires Timely(rpm, delay, tr) && delay <= LONGEST_DELAY
    ensures DecisionsFor(Run(rpm, tr).log, ip) == Reference(rpm, Own(Asked(tr).asked, ip))
  {
    EvictionIsInvisible(rpm, delay, tr);
    ReferenceSplits(rpm, Asked(tr).asked, ip);
  }

  /** When a client was let in. */
  function AdmittedFor(log: seq<Decision>, ip: Ip): seq<nat>
  {
    if log == [] then [] else
      var sofar := AdmittedFor(Init(log), ip);
      if Last(log).ip == ip && Last(log).ok then sofar + [Last(log).t] else sofar
  }

  lemma {:induction false} ReferenceAdmits(rpm: int, rs: seq<Request>, ip: Ip)
    ensures AdmittedFor(Reference(rpm, rs), ip) == Admitted(rpm, Times(rs, ip))
  {
    if rs != [] {
      ReferenceAdmits(rpm, Init(rs), ip);
      assert Init(Reference(rpm, rs)) == Reference(rpm, Init(rs));
      if Last(rs).ip == ip {
        assert Init(Times(rs, ip)) == Times(Init(rs), ip);
      }
    }
  }

  lemma TimesAppend(rs: seq<Request>, r: Request, ip: Ip)
    ensures Times(rs + [r], ip) == if r.ip == ip then Times(rs, ip) + [r.t] else Times(rs, ip)
  {
    assert Init(rs + [r]) == rs;
  }

  lemma AskedGrows(tr: seq<Event>, ip: Ip)
    requires tr != []
    ensures var before, ts := Times(Asked(Init(tr)).asked, ip), Times(Asked(tr).asked, ip);
            ts == before || ts == before + [Last(tr).t]
  {
    var g, e := Asked(Init(tr)), Last(tr);
    if e.Allow? && e.req in g.owners { TimesAppend(g.asked, Request(g.owners[e.req], e.t), ip); }
  }

  lemma {:induction false} AskedInOrder(rpm: int, delay: nat, tr: seq<Event>, ip: Ip)
    requires Timely(rpm, delay, tr)
    ensures Sorted(Times(Asked(tr).asked, ip))
    ensures forall i | 0 <= i < |Times(Asked(tr).asked, ip)| :: Times(Asked(tr).asked, ip)[i] <= Now(tr)
  {
    if tr != [] {
      AskedInOrder(rpm, delay, Init(tr), ip);
      AskedGrows(tr, ip);
    }
  }

  /** A client is admitted exactly as often as the rate law lets it: greedily, in order. */
  lemma AdmitsGreedily(rpm: int, delay: nat, tr: seq<Event>, ip: Ip)
    requires 0 < rpm && Timely(rpm, delay, tr) && delay <= LONGEST_DELAY
    ensures AdmittedFor(Run(rpm, tr).log, ip) == Greedy(rpm, Times(Asked(tr).asked, ip))
    ensures Conforms(rpm, AdmittedFor(Run(rpm, tr).log, ip)) && Sorted(AdmittedFor(Run(rpm, tr).log, ip))
  {
    var ts := Times(Asked(tr).asked, ip);
    EvictionIsInvisible(rpm, delay, tr);
    ReferenceAdmits(rpm, Asked(tr).asked, ip);
    AskedInOrder(rpm, delay, tr, ip);
    BucketIsGreedy(rpm, ts);
    AdmittedTimes(rpm, ts, Now(tr));
  }

  /** In any interval, across any evictions, a client gets at most `rpm` plus what the interval earns. */
  lemma {:induction false} WindowBound(rpm: int, delay: nat, tr: seq<Event>, ip: Ip, lo: nat, hi: nat)
    requires 0 < rpm && lo <= hi && Timely(rpm, delay, tr) && delay <= LONGEST_DELAY
    ensures CountWithin(AdmittedFor(Run(rpm, tr).log, ip), lo, hi) <= rpm + rpm * (hi - lo) / 60_000_000_000
  {
    AdmitsGreedily(rpm, delay, tr, ip);
    ConformingWindow(rpm, AdmittedFor(Run(rpm, tr).log, ip), lo, hi);
  }

  /** A limit of zero or less is no limit. */
  lemma {:induction false} NoLimitAdmitsAll(rpm: int, tr: seq<Event>)
    requires rpm <= 0
    ensures forall i | 0 <= i < |Run(rpm, tr).log| :: Run(rpm, tr).log[i].ok
  {
    if tr != [] { NoLimitAdmitsAll(rpm, Init(tr)); }
  }

  // ---- Route groups -------------------------------------------------------------------------------

  /** The authentication routes have a limiter of their own; the other four groups share one. */
  datatype Group = Auth | Profile | Exchange | Admin | Events
  datatype Which = AuthLimiter | ApiLimiter

  function LimiterOf(g: Group): Which { if g.Auth? then AuthLimiter else ApiLimiter }

  datatype Routed = Routed(group: Group, event: Event)
  datatype RoutedDecision = RoutedDecision(group: Group, decision: Decision)
  datatype Router = Router(auth: System, api: System, log: seq<RoutedDecision>)

  /** Records the answer, if the step gave one, under the group it was asked through. */
  function Noted(log: seq<RoutedDecision>, g: Group, before: System, after: System): seq<RoutedDecision>
  {
    if after.log != [] && |before.log| < |after.log| then log + [RoutedDecision(g, Last(after.log))] else log
  }

  function RouteOne(authRpm: int, apiRpm: int, r: Router, one: Routed): (r': Router)
    requires r.auth.Valid() && r.api.Valid()
    ensures r'.auth.Valid() && r'.api.Valid()
  {
    match LimiterOf(one.group)
    case AuthLimiter =>
      var s := Step(authRpm, r.auth, one.event);
      r.(auth := s, log := Noted(r.log, one.group, r.auth, s))
    case ApiLimiter =>
      var s := Step(apiRpm, r.api, one.event);
      r.(api := s, log := Noted(r.log, one.group, r.api, s))
  }

  function Route(authRpm: int, apiRpm: int, tr: seq<Routed>): (r: Router)
    ensures r.auth.Valid() && r.api.Valid()
  {
    if tr == [] then Router(START, START, []) else RouteOne(authRpm, apiRpm, Route(authRpm, apiRpm, Init(tr)), Last(tr))
  }

  /** The events of some of the groups. */
  function EventsOf(tr: seq<Routed>, gs: set<Group>): seq<Event>
  {
    if tr == [] then [] else
      var sofar := EventsOf(Init(tr), gs);
      if Last(tr).group in gs then sofar + [Last(tr).event] else sofar
  }

  /** Admissions of one client over some of the groups. */
  function AdmittedThrough(log: seq<RoutedDecision>, gs: set<Group>, ip: Ip): seq<nat>
  {
    if log == [] then [] else
      var RoutedDecision(g, d) := Last(log);
      var sofar := AdmittedThrough(Init(log), gs, ip);
      if g in gs && d.ip == ip && d.ok then sofar + [d.t] else sofar
  }

  /** Noting a step's answer under one of the groups tells the same story as the limiter's log. */
  lemma NotedAgrees(log: seq<RoutedDecision>, g: Group, rpm: int, s: System, e: Event, gs: set<Group>, ip: Ip)
    requires s.Valid()
    ensures var s' := Step(rpm, s, e);
            var log' := Noted(log, g, s, s');
            && (g !in gs ==> AdmittedThrough(log', gs, ip) == AdmittedThrough(log, gs, ip))
            && (g in gs && AdmittedThrough(log, gs, ip) == AdmittedFor(s.log, ip) ==>
                  AdmittedThrough(log', gs, ip) == AdmittedFor(s'.log, ip))
  {
    var s' := Step(rpm, s, e);
    if s'.log != s.log {
      assert Init(s'.log) == s.log;
      assert Init(Noted(log, g, s, s')) == log;
    }
  }

  /** The limiter in state s has answered exactly the events of these groups. */
  ghost predicate Serves(rpm: int, s: System, log: seq<RoutedDecision>, tr: seq<Routed>, gs: set<Group>, ip: Ip)
  {
    s == Run(rpm, EventsOf(tr, gs)) && AdmittedThrough(log, gs, ip) == AdmittedFor(s.log, ip)
  }

  lemma ServesOwn(rpm: int, s: System, log: seq<RoutedDecision>, tr: seq<Routed>, gs: set<Group>, ip: Ip)
    requires s.Valid() && tr != [] && Serves(rpm, s, log, Init(tr), gs, ip) && Last(tr).group in gs
    ensures var s' := Step(rpm, s, Last(tr).event);
            Serves(rpm, s', Noted(log, Last(tr).group, s, s'), tr, gs, ip)
  {
    assert Init(EventsOf(tr, gs)) == EventsOf(Init(tr), gs);
    NotedAgrees(log, Last(tr).group, rpm, s, Last(tr).event, gs, ip);
  }

  lemma ServesOthers(rpm: int, s: System, log: seq<RoutedDecision>, tr: seq<Routed>, gs: set<Group>, ip: Ip,
      otherRpm: int, other: System)
    requires other.Valid() && tr != [] && Serves(rpm, s, log, Init(tr), gs, ip) && Last(tr).group !in gs
    ensures Serves(rpm, s, Noted(log, Last(tr).group, other, Step(otherRpm, other, Last(tr).event)), tr, gs, ip)
  {
    NotedAgrees(log, Last(tr).group, otherRpm, other, Last(tr).event, gs, ip);
  }

  ghost predicate BothServe(authRpm: int, apiRpm: int, r: Router, tr: seq<Routed>, ip: Ip)
  {
    && Serves(authRpm, r.auth, r.log, tr, {Auth}, ip)
    && Serves(apiRpm, r.api, r.log, tr, {Profile, Exchange, Admin, Events}, ip)
  }

  lemma RouteOneServes(authRpm: int, apiRpm: int, r: Router, tr: seq<Routed>, ip: Ip)
    requires r.auth.Valid() && r.api.Valid() && tr != [] && BothServe(authRpm, apiRpm, r, Init(tr), ip)
    ensures BothServe(authRpm, apiRpm, RouteOne(authRpm, apiRpm, r, Last(tr)), tr, ip)
  {
    var api := {Profile, Exchange, Admin, Events};
    if Last(tr).group.Auth? {
      ServesOwn(authRpm, r.auth, r.log, tr, {Auth}, ip);
      ServesOthers(apiRpm, r.api, r.log, tr, api, ip, authRpm, r.auth);
    } else {
      ServesOwn(apiRpm, r.api, r.log, tr, api, ip);
      ServesOthers(authRpm, r.auth, r.log, tr, {Auth}, ip, apiRpm, r.api);
    }
  }

  /** One limiter behind the authentication routes, one behind the four other groups together. */
  lemma {:induction false} RouterProjects(authRpm: int, apiRpm: int, tr: seq<Routed>, ip: Ip)
    ensures BothServe(authRpm, apiRpm, Route(authRpm, apiRpm, tr), tr, ip)
  {
    if tr != [] {
      RouterProjects(authRpm, apiRpm, Init(tr), ip);
      RouteOneServes(authRpm, apiRpm, Route(authRpm, apiRpm, Init(tr)), tr, ip);
    }
  }

  /** One API budget covers the four groups together. */
  lemma {:induction false} SharedBudget(authRpm: int, apiRpm: int, delay: nat, tr: seq<Routed>,
      ip: Ip, lo: nat, hi: nat)
    requires 0 < apiRpm && lo <= hi && delay <= LONGEST_DELAY
    requires Timely(apiRpm, delay, EventsOf(tr, {Profile, Exchange, Admin, Events}))
    ensures CountWithin(AdmittedThrough(Route(authRpm, apiRpm, tr).log, {Profile, Exchange, Admin, Events}, ip), lo, hi)
            <= apiRpm + apiRpm * (hi - lo) / 60_000_000_000
  {
    RouterProjects(authRpm, apiRpm, tr, ip);
    WindowBound(apiRpm, delay, EventsOf(tr, {Profile, Exchange, Admin, Events}), ip, lo, hi);
  }

  /** Whatever is asked elsewhere, the authentication routes answer as their own limiter does alone, and the
      four other groups as one limiter does on their requests together. */
  lemma GroupsShareLimiters(authRpm: int, apiRpm: int, delay: nat, tr: seq<Routed>, ip: Ip)
    requires 0 < authRpm && Timely(authRpm, delay, EventsOf(tr, {Auth})) && delay <= LONGEST_DELAY
    requires 0 < apiRpm && Timely(apiRpm, delay, EventsOf(tr, {Profile, Exchange, Admin, Events}))
    ensures AdmittedThrough(Route(authRpm, apiRpm, tr).log, {Auth}, ip) ==
            Greedy(authRpm, Times(Asked(EventsOf(tr, {Auth})).asked, ip))
    ensures AdmittedThrough(Route(authRpm, apiRpm, tr).log, {Profile, Exchange, Admin, Events}, ip) ==
            Greedy(apiRpm, Times(Asked(EventsOf(tr, {Profile, Exchange, Admin, Events})).asked, ip))
  {
    RouterProjects(authRpm, apiRpm, tr, ip);
    AdmitsGreedily(authRpm, delay, EventsOf(tr, {Auth}), ip);
    AdmitsGreedily(apiRpm, delay, EventsOf(tr, {Profile, Exchange, Admin, Events}), ip);
  }

  // ---- Size of the visitor map ----------------------------------------------------------------------

  /** When the last cleanup pass began (the limiter starts its ticker at time 0). */
  function LastCleanup(tr: seq<Event>): nat
  {
    if tr == [] then 0 else if Last(tr).Cleanup? then Last(tr).began else LastCleanup(Init(tr))
  }

  /** Events come in time order and no cleanup pass is ever overdue. */
  ghost predicate CleanedRegularly(tr: seq<Event>)
  {
    tr == [] || (
      && CleanedRegularly(Init(tr))
      && Now(Init(tr)) <= Last(tr).t && ReadInside(Last(tr))
      && (Last(tr).Cleanup? ==> Now(Init(tr)) <= Last(tr).began <= LastCleanup(Init(tr)) + CLEANUP_PERIOD)
      && Last(tr).t <= LastCleanup(tr) + CLEANUP_PERIOD)
  }

  /** The last time a client was looked up. */
  function LastGet(tr: seq<Event>, ip: Ip): int
  {
    if tr == [] then -1
    else if Last(tr).Get? && Last(tr).ip == ip then Last(tr).t
    else LastGet(Init(tr), ip)
  }

  /** Everyone in the map was seen in the last 15 minutes, and everyone seen in the last 10 is in it. */
  lemma {:induction false} VisitorMapBound(rpm: int, tr: seq<Event>, ip: Ip)
    requires CleanedRegularly(tr)
    ensures var vs := Run(rpm, tr).lim.visitors;
            && (ip in vs ==> vs[ip].lastSeen == LastGet(tr, ip))
            && (ip in vs ==> Now(tr) - LastGet(tr, ip) <= 900_000_000_000)
            && (LastGet(tr, ip) >= 0 && Now(tr) - LastGet(tr, ip) <= 600_000_000_000 ==> ip in vs)
    ensures ip in Run(rpm, tr).lim.visitors ==> LastCleanup(tr) - LastGet(tr, ip) <= IDLE_LIMIT
    ensures LastCleanup(tr) <= Now(tr) <= LastCleanup(tr) + CLEANUP_PERIOD && LastGet(tr, ip) <= Now(tr)
  {
    if tr != [] { VisitorMapBound(rpm, Init(tr), ip); }
  }
}
