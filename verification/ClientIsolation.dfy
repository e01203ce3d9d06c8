/**
 Clients of the rate limiter do not affect each other: in any run, well timed or not, a client is
 told what the same limiter tells it when nobody else ever comes.

 The run with the others and the run without them number their buckets differently; `names` lists,
 for each bucket of the lonely run, its handle in the crowded one.
 */
module ClientIsolation {
  import opened TokenBucket
  import opened RateLimit
  import opened RateLimitTheorems

  /** The event concerns this client: its own lookup or question, or a cleanup pass. */
  predicate Concerns(owners: map<nat, Ip>, e: Event, ip: Ip)
  {
    match e
    case Get(_, who, _) => who == ip
    case Allow(req, _) => req in owners && owners[req] == ip
    case Cleanup(_, _, _) => true
  }

  function OwnEvents(tr: seq<Event>, ip: Ip): seq<Event>
  {
    if tr == [] then [] else
      var sofar := OwnEvents(Init(tr), ip);
      if Concerns(Asked(Init(tr)).owners, Last(tr), ip) then sofar + [Last(tr)] else sofar
  }

  /** The named cells of the crowded arena are the lonely arena. */
  ghost predicate SameCells(crowd: seq<Bucket>, lone: seq<Bucket>, names: seq<nat>)
  {
    && |names| == |lone|
    && (forall k | 0 <= k < |names| :: names[k] < |crowd| && crowd[names[k]] == lone[k])
    && (forall j, k | 0 <= j < k < |names| :: names[j] != names[k])
  }

  /** The client is the only visitor of the lonely run, seen when it was, with the same bucket. */
  ghost predicate SameVisitor(crowd: map<Ip, Visitor>, lone: map<Ip, Visitor>, names: seq<nat>, ip: Ip)
  {
    && lone.Keys <= {ip}
    && (ip in crowd <==> ip in lone)
    && (ip in lone ==> lone[ip].handle < |names| && crowd[ip] == Visitor(names[lone[ip].handle], lone[ip].lastSeen))
    && (forall a | a in crowd && a != ip :: crowd[a].handle !in names)
  }

  /** The client's tickets name the same buckets; nobody else's do. */
  ghost predicate SameTickets(crowd: map<nat, Ticket>, lone: map<nat, Ticket>, names: seq<nat>, ip: Ip)
  {
    forall r | r in crowd ::
      if crowd[r].ip == ip
      then r in lone && lone[r].handle < |names| && crowd[r] == Ticket(ip, names[lone[r].handle], lone[r].got)
                     && lone[r].ip == ip
      else crowd[r].handle !in names
  }

  ghost predicate Mirrors(crowd: System, lone: System, names: seq<nat>, ip: Ip)
  {
    && SameCells(crowd.lim.arena, lone.lim.arena, names)
    && SameVisitor(crowd.lim.visitors, lone.lim.visitors, names, ip)
    && SameTickets(crowd.tickets, lone.tickets, names, ip)
    && DecisionsFor(crowd.log, ip) == lone.log
  }

  lemma LogsOwn(log: seq<Decision>, d: Decision, ip: Ip)
    ensures DecisionsFor(log + [d], ip) == if d.ip == ip then DecisionsFor(log, ip) + [d] else DecisionsFor(log, ip)
  {
    assert Init(log + [d]) == log;
  }

  lemma KnownGet(rpm: int, crowd: System, lone: System, names: seq<nat>, req: nat, ip: Ip, t: nat)
    requires crowd.Valid() && lone.Valid() && Mirrors(crowd, lone, names, ip) && ip in lone.lim.visitors
    ensures Mirrors(Step(rpm, crowd, Get(req, ip, t)), Step(rpm, lone, Get(req, ip, t)), names, ip)
  {}

  /** A stranger's new bucket is a cell that no handle has named before. */
  lemma StrangerGet(rpm: int, crowd: System, lone: System, names: seq<nat>, req: nat, ip: Ip, t: nat)
    requires crowd.Valid() && lone.Valid() && Mirrors(crowd, lone, names, ip) && ip !in lone.lim.visitors
    ensures var more := names + [|crowd.lim.arena|];
            Mirrors(Step(rpm, crowd, Get(req, ip, t)), Step(rpm, lone, Get(req, ip, t)), more, ip)
  {
    var more := names + [|crowd.lim.arena|];
    var crowd', lone' := Step(rpm, crowd, Get(req, ip, t)), Step(rpm, lone, Get(req, ip, t));
    assert forall h :: h in more <==> h in names || h == |crowd.lim.arena|;
    assert more[|names|] == |crowd.lim.arena|;
    assert SameCells(crowd'.lim.arena, lone'.lim.arena, more);
    assert SameVisitor(crowd'.lim.visitors, lone'.lim.visitors, more, ip);
    forall r | r in crowd.tickets && r != req && crowd.tickets[r].ip == ip
      ensures more[lone.tickets[r].handle] == names[lone.tickets[r].handle]
    {}
  }

  lemma OthersGet(rpm: int, crowd: System, lone: System, names: seq<nat>, req: nat, who: Ip, ip: Ip, t: nat)
    requires crowd.Valid() && lone.Valid() && Mirrors(crowd, lone, names, ip) && who != ip
    ensures Mirrors(Step(rpm, crowd, Get(req, who, t)), lone, names, ip)
  {}

  lemma OwnAllow(rpm: int, crowd: System, lone: System, names: seq<nat>, req: nat, ip: Ip, t: nat)
    requires crowd.Valid() && lone.Valid() && Mirrors(crowd, lone, names, ip)
    requires req in crowd.tickets && crowd.tickets[req].ip == ip
    ensures Mirrors(Step(rpm, crowd, Allow(req, t)), Step(rpm, lone, Allow(req, t)), names, ip)
  {
    var ok := Take(rpm, lone.lim.arena[lone.tickets[req].handle], t).1;
    LogsOwn(crowd.log, Decision(ip, t, ok), ip);
  }

  lemma OthersAllow(rpm: int, crowd: System, lone: System, names: seq<nat>, req: nat, ip: Ip, t: nat)
    requires crowd.Valid() && lone.Valid() && Mirrors(crowd, lone, names, ip)
    requires req in crowd.tickets ==> crowd.tickets[req].ip != ip
    ensures Mirrors(Step(rpm, crowd, Allow(req, t)), lone, names, ip)
  {
    if req in crowd.tickets {
      var k := crowd.tickets[req];
      LogsOwn(crowd.log, Decision(k.ip, t, Take(rpm, crowd.lim.arena[k.handle], t).1), ip);
    }
  }

  lemma BothClean(rpm: int, crowd: System, lone: System, names: seq<nat>, e: Event, ip: Ip)
    requires crowd.Valid() && lone.Valid() && Mirrors(crowd, lone, names, ip) && e.Cleanup?
    ensures Mirrors(Step(rpm, crowd, e), Step(rpm, lone, e), names, ip)
  {}

  lemma {:induction false} CrowdMirrorsLone(rpm: int, tr: seq<Event>, ip: Ip) returns (names: seq<nat>)
    ensures Mirrors(Run(rpm, tr), Run(rpm, OwnEvents(tr, ip)), names, ip)
  {
    if tr == [] {
      names := [];
    } else {
      names := CrowdMirrorsLone(rpm, Init(tr), ip);
      OwnersAgree(rpm, Init(tr));
      var e, own := Last(tr), OwnEvents(Init(tr), ip);
      var crowd, lone := Run(rpm, Init(tr)), Run(rpm, own);
      assert Init(own + [e]) == own;
      match e
      case Get(req, who, t) =>
        if who != ip {
          OthersGet(rpm, crowd, lone, names, req, who, ip, t);
        } else if ip in lone.lim.visitors {
          KnownGet(rpm, crowd, lone, names, req, ip, t);
        } else {
          StrangerGet(rpm, crowd, lone, names, req, ip, t);
          names := names + [|crowd.lim.arena|];
        }
      case Allow(req, t) =>
        if Concerns(Asked(Init(tr)).owners, e, ip) { OwnAllow(rpm, crowd, lone, names, req, ip, t); }
        else { OthersAllow(rpm, crowd, lone, names, req, ip, t); }
      case Cleanup(_, _, _) => BothClean(rpm, crowd, lone, names, e, ip);
    }
  }

  /** For every run whatsoever, a client's answers are those the limiter gives on its own events alone. */
  lemma ClientsDoNotInterfere(rpm: int, tr: seq<Event>, ip: Ip)
    ensures DecisionsFor(Run(rpm, tr).log, ip) == Run(rpm, OwnEvents(tr, ip)).log
  {
    var names := CrowdMirrorsLone(rpm, tr, ip);
  }
}
