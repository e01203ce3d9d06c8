/**
 The per-client rate limiter: a map of visitors, each with its own token bucket, from which a
 background pass evicts clients not seen for ten minutes.

 A request first looks its bucket up (`get`) and asks it later (`Allow`), so a bucket may be asked
 after it was evicted. A bucket is therefore a cell of `arena`, named by a handle, and the visitor
 map only points at cells.
 */
module RateLimit {
  import opened TokenBucket

  type Ip = string

  const MINUTE: nat := COST
  const IDLE_LIMIT: nat := 10 * MINUTE
  const CLEANUP_PERIOD: nat := 5 * MINUTE
  /** The longest delay between `get` and `Allow` under which eviction cannot be noticed. */
  const LONGEST_DELAY: nat := 9 * MINUTE + 1

  datatype Visitor = Visitor(handle: nat, lastSeen: nat)

  datatype Limiter = Limiter(visitors: map<Ip, Visitor>, arena: seq<Bucket>) {
    ghost predicate Valid() {
      && (forall ip | ip in visitors :: visitors[ip].handle < |arena|)
      && (forall a, b | a in visitors && b in visitors && a != b :: visitors[a].handle != visitors[b].handle)
    }
  }

  /** Looks a client up, creating a full bucket for a new one, and stamps when it was seen. */
  function Lookup(rpm: int, l: Limiter, ip: Ip, t: nat): (Limiter, nat)
  {
    if ip in l.visitors then
      var h := l.visitors[ip].handle;
      (l.(visitors := l.visitors[ip := Visitor(h, t)]), h)
    else
      var h := |l.arena|;
      (Limiter(l.visitors[ip := Visitor(h, t)], l.arena + [Full(rpm)]), h)
  }

  /** Asks the bucket behind a handle. */
  function Ask(rpm: int, l: Limiter, h: nat, t: nat): (Limiter, bool)
    requires h < |l.arena|
  {
    var (b, ok) := Take(rpm, l.arena[h], t);
    (l.(arena := l.arena[h := b]), ok)
  }

  predicate Idle(v: Visitor, t: nat) { t - v.lastSeen > IDLE_LIMIT }

  /** What the clock says when a cleanup pass comes to an entry; the pass ends at t. */
  type Readings = map<Ip, nat>

  function Reading(at: Readings, t: nat, ip: Ip): nat { if ip in at then at[ip] else t }

  /** One cleanup pass: every entry is judged at its own reading of the clock. */
  function Evict(l: Limiter, at: Readings, t: nat): Limiter
  {
    l.(visitors := map ip | ip in l.visitors && !Idle(l.visitors[ip], Reading(at, t, ip)) :: l.visitors[ip])
  }

  /** The limiter as the program holds it: the visitor map and the buckets change in place. */
  class RateLimiter {
    const rpm: int
    var visitors: map<Ip, Visitor>
    var arena: seq<Bucket>

    ghost function Model(): Limiter
      reads this
    {
      Limiter(visitors, arena)
    }

    constructor (rpm: int)
      ensures this.rpm == rpm && Model() == Limiter(map[], [])
    {
      this.rpm := rpm;
      visitors, arena := map[], [];
    }

    method Get(ip: Ip, now: nat) returns (h: nat)
      modifies this
      ensures (Model(), h) == Lookup(rpm, old(Model()), ip, now)
    {
      if ip !in visitors {
        h := |arena|;
        arena := arena + [Full(rpm)];
        visitors := visitors[ip := Visitor(h, now)];
      } else {
        h := visitors[ip].handle;
        visitors := visitors[ip := Visitor(h, now)];
      }
    }

    method Allow(h: nat, now: nat) returns (ok: bool)
      requires h < |arena|
      modifies this`arena
      ensures (Model(), ok) == Ask(rpm, old(Model()), h, now)
    {
      var (b, yes) := Take(rpm, arena[h], now);
      arena, ok := arena[h := b], yes;
    }

    /** One request through the middleware: look the bucket up, then ask it. */
    method Limit(ip: Ip, gotAt: nat, askedAt: nat) returns (ok: bool)
      requires Model().Valid()
      modifies this
      ensures var (l, h) := Lookup(rpm, old(Model()), ip, gotAt);
              h < |l.arena| && (Model(), ok) == Ask(rpm, l, h, askedAt)
    {
      var h := Get(ip, gotAt);
      ok := Allow(h, askedAt);
    }

    /** Deletes idle entries one by one, in no particular order. */
    method Cleanup(at: Readings, end: nat)
      modifies this`visitors
      ensures Model() == Evict(old(Model()), at, end)
      ensures forall ip :: ip in visitors <==>
                && ip in old(visitors)
                && (if ip in at then at[ip] else end) - old(visitors)[ip].lastSeen <= 600_000_000_000
      ensures forall ip | ip in visitors :: visitors[ip] == old(visitors)[ip]
    {
      var todo := visitors.Keys;
      while todo != {}
        invariant todo <= visitors.Keys <= old(visitors).Keys
        invariant forall ip | ip in visitors :: visitors[ip] == old(visitors)[ip]
        invariant forall ip | ip in old(visitors) && ip !in todo ::
                    ip in visitors <==> !Idle(old(visitors)[ip], Reading(at, end, ip))
      {
        var ip :| ip in todo;
        todo := todo - {ip};
        var now := Reading(at, end, ip);
        if Idle(visitors[ip], now) {
          visitors := visitors - {ip};
        }
      }
      assert visitors == Evict(old(Model()), at, end).visitors;
    }
  }

  // ---- Runs -----------------------------------------------------------------------------------

  datatype Event =
    | Get(req: nat, ip: Ip, t: nat)
    | Allow(req: nat, t: nat)
    | Cleanup(began: nat, at: Readings, t: nat)

  /** A request between its lookup and its question. */
  datatype Ticket = Ticket(ip: Ip, handle: nat, got: nat)
  datatype Decision = Decision(ip: Ip, t: nat, ok: bool)
  datatype System = System(lim: Limiter, tickets: map<nat, Ticket>, log: seq<Decision>) {
    ghost predicate Valid() {
      && lim.Valid()
      && forall r | r in tickets :: tickets[r].handle < |lim.arena|
    }
  }

  const START := System(Limiter(map[], []), map[], [])

  function Step(rpm: int, s: System, e: Event): (s': System)
    requires s.Valid()
    ensures s'.Valid()
  {
    match e
    case Get(req, ip, t) =>
      var (l, h) := Lookup(rpm, s.lim, ip, t);
      s.(lim := l, tickets := s.tickets[req := Ticket(ip, h, t)])
    case Allow(req, t) =>
      if req !in s.tickets then s else
        var k := s.tickets[req];
        var (l, ok) := Ask(rpm, s.lim, k.handle, t);
        System(l, s.tickets - {req}, s.log + [Decision(k.ip, t, ok)])
    case Cleanup(_, at, t) =>
      s.(lim := Evict(s.lim, at, t))
  }

  function Run(rpm: int, tr: seq<Event>): (s: System)
    ensures s.Valid()
  {
    if tr == [] then START else Step(rpm, Run(rpm, Init(tr)), Last(tr))
  }

  /** Drives a limiter object through a whole run: the object and the machine agree. */
  method Replay(rpm: int, tr: seq<Event>) returns (log: seq<Decision>)
    ensures log == Run(rpm, tr).log
  {
    var rl := new RateLimiter(rpm);
    var tickets: map<nat, Ticket> := map[];
    log := [];
    for n := 0 to |tr|
      invariant rl.rpm == rpm && fresh(rl)
      invariant System(rl.Model(), tickets, log) == Run(rpm, tr[..n])
    {
      assert Init(tr[..n + 1]) == tr[..n];
      match tr[n]
      case Get(req, ip, t) =>
        var h := rl.Get(ip, t);
        tickets := tickets[req := Ticket(ip, h, t)];
      case Allow(req, t) =>
        if req in tickets {
          var k := tickets[req];
          var ok := rl.Allow(k.handle, t);
          tickets, log := tickets - {req}, log + [Decision(k.ip, t, ok)];
        }
      case Cleanup(_, at, t) =>
        rl.Cleanup(at, t);
    }
    assert tr[..|tr|] == tr;
  }

  /** The clock of a run: the time of its last event. */
  function Now(tr: seq<Event>): nat { if tr == [] then 0 else Last(tr).t }

  /** A cleanup pass reads the clock between its beginning and its end. */
  predicate ReadInside(e: Event)
  {
    e.Cleanup? ==> e.began <= e.t && forall ip | ip in e.at :: e.began <= e.at[ip] <= e.t
  }

  /** Events come in time order and every question follows its lookup by at most `delay`. */
  ghost predicate Timely(rpm: int, delay: nat, tr: seq<Event>)
  {
    tr == [] || (
      && Timely(rpm, delay, Init(tr))
      && Now(Init(tr)) <= Last(tr).t && ReadInside(Last(tr))
      && (Last(tr).Allow? && Last(tr).req in Run(rpm, Init(tr)).tickets ==>
            Last(tr).t <= Run(rpm, Init(tr)).tickets[Last(tr).req].got + delay))
  }

  // ---- The reference: every client keeps one bucket of its own, for ever --------------------------

  datatype Request = Request(ip: Ip, t: nat)
  datatype Ledger = Ledger(owners: map<nat, Ip>, asked: seq<Request>)

  /** The questions a run asks, read off its events alone. */
  function Asked(tr: seq<Event>): Ledger
  {
    if tr == [] then Ledger(map[], []) else
      var g := Asked(Init(tr));
      match Last(tr)
      case Get(req, ip, t) => g.(owners := g.owners[req := ip])
      case Allow(req, t) =>
        if req !in g.owners then g else Ledger(g.owners - {req}, g.asked + [Request(g.owners[req], t)])
      case Cleanup(_, _, _) => g
  }

  function Times(rs: seq<Request>, ip: Ip): seq<nat>
  {
    if rs == [] then [] else
      var sofar := Times(Init(rs), ip);
      if Last(rs).ip == ip then sofar + [Last(rs).t] else sofar
  }

  function Reference(rpm: int, rs: seq<Request>): seq<Decision>
  {
    if rs == [] then [] else
      var Request(ip, t) := Last(rs);
      Reference(rpm, Init(rs)) + [Decision(ip, t, Take(rpm, After(rpm, Times(Init(rs), ip)), t).1)]
  }

  // ---- The simulation ---------------------------------------------------------------------------

  /** Every visitor was last seen, and its bucket last changed, no later than now; a bucket changes
      at most `delay` after its visitor was seen. */
  ghost predicate Stamped(l: Limiter, delay: nat, now: nat)
    requires l.Valid()
  {
    forall ip | ip in l.visitors ::
      var v := l.visitors[ip];
      v.lastSeen <= now && l.arena[v.handle].last <= now && l.arena[v.handle].last <= v.lastSeen + delay
  }

  /** A request that may still ask holds the handle of a current visitor. */
  ghost predicate Current(s: System, delay: nat, now: nat)
    requires s.Valid()
  {
    forall r | r in s.tickets && now <= s.tickets[r].got + delay ::
      var k := s.tickets[r];
      && k.ip in s.lim.visitors
      && k.handle == s.lim.visitors[k.ip].handle
      && k.got <= s.lim.visitors[k.ip].lastSeen
  }

  /** The level a client would find now; a client not in the map would get a full bucket. */
  ghost function VisibleLevel(rpm: int, l: Limiter, ip: Ip, now: nat): int
    requires l.Valid()
  {
    if ip in l.visitors then Level(rpm, l.arena[l.visitors[ip].handle], now) else Cap(rpm)
  }

  ghost predicate SameLevel(rpm: int, l: Limiter, rs: seq<Request>, ip: Ip, now: nat)
    requires l.Valid()
  {
    var ref := After(rpm, Times(rs, ip));
    ref.last <= now && VisibleLevel(rpm, l, ip, now) == Level(rpm, ref, now)
  }

  ghost predicate SameLevels(rpm: int, l: Limiter, rs: seq<Request>, now: nat)
    requires l.Valid()
  {
    && (forall ip | ip in l.visitors :: 0 <= l.arena[l.visitors[ip].handle].tokens)
    && forall ip :: SameLevel(rpm, l, rs, ip, now)
  }

  ghost predicate SameOwners(s: System, g: Ledger)
  {
    s.tickets.Keys == g.owners.Keys && forall r | r in s.tickets :: s.tickets[r].ip == g.owners[r]
  }

  ghost predicate Simulates(rpm: int, s: System, g: Ledger, delay: nat, now: nat)
    requires s.Valid()
  {
    Stamped(s.lim, delay, now) && Current(s, delay, now) && SameLevels(rpm, s.lim, g.asked, now)
  }

  /** Time passing keeps the simulation: levels that agree go on agreeing. */
  lemma TimePasses(rpm: int, s: System, g: Ledger, delay: nat, now: nat, t: nat)
    requires 0 < rpm && now <= t && s.Valid() && Simulates(rpm, s, g, delay, now)
    ensures Simulates(rpm, s, g, delay, t)
  {
    forall ip ensures SameLevel(rpm, s.lim, g.asked, ip, t) {
      assert SameLevel(rpm, s.lim, g.asked, ip, now);
      LevelLater(rpm, After(rpm, Times(g.asked, ip)), now, t);
      if ip in s.lim.visitors {
        LevelLater(rpm, s.lim.arena[s.lim.visitors[ip].handle], now, t);
      } else {
        Monotone(rpm, 0, t - now);
      }
    }
  }

  lemma GetKeepsLevels(rpm: int, l: Limiter, rs: seq<Request>, ip: Ip, t: nat)
    requires 0 < rpm && l.Valid() && Lookup(rpm, l, ip, t).0.Valid() && SameLevels(rpm, l, rs, t)
    ensures SameLevels(rpm, Lookup(rpm, l, ip, t).0, rs, t)
  {
    var l' := Lookup(rpm, l, ip, t).0;
    Monotone(rpm, 0, t);
    forall a ensures SameLevel(rpm, l', rs, a, t) {
      assert SameLevel(rpm, l, rs, a, t);
    }
  }

  lemma GetKeeps(rpm: int, s: System, g: Ledger, delay: nat, req: nat, ip: Ip, t: nat)
    requires 0 < rpm && s.Valid() && Simulates(rpm, s, g, delay, t)
    ensures Simulates(rpm, Step(rpm, s, Get(req, ip, t)), g.(owners := g.owners[req := ip]), delay, t)
  {
    GetKeepsLevels(rpm, s.lim, g.asked, ip, t);
  }

  lemma AllowKeeps(rpm: int, s: System, g: Ledger, delay: nat, req: nat, t: nat)
    requires 0 < rpm && s.Valid() && Simulates(rpm, s, g, delay, t)
    requires req in s.tickets && t <= s.tickets[req].got + delay
    ensures var ip := s.tickets[req].ip;
            var s' := Step(rpm, s, Allow(req, t));
            && Simulates(rpm, s', g.(asked := g.asked + [Request(ip, t)]), delay, t)
            && Last(s'.log).ok == Take(rpm, After(rpm, Times(g.asked, ip)), t).1
  {
    var k := s.tickets[req];
    var s' := Step(rpm, s, Allow(req, t));
    var rs := g.asked + [Request(k.ip, t)];
    assert Init(rs) == g.asked;
    assert SameLevel(rpm, s.lim, g.asked, k.ip, t);
    var ref := After(rpm, Times(g.asked, k.ip));
    assert Take(rpm, ref, t).1 == Last(s'.log).ok;
    assert Init(Times(rs, k.ip)) == Times(g.asked, k.ip);
    assert After(rpm, Times(rs, k.ip)) == Take(rpm, ref, t).0;
    forall a ensures SameLevel(rpm, s'.lim, rs, a, t) {
      assert SameLevel(rpm, s.lim, g.asked, a, t);
      if a != k.ip {
        assert Times(rs, a) == Times(g.asked, a);
      }
    }
  }

  /** The heart of the matter: whoever is evicted would have a full bucket by now. */
  lemma CleanupKeeps(rpm: int, s: System, g: Ledger, delay: nat, e: Event)
    requires 0 < rpm && delay <= LONGEST_DELAY && s.Valid() && e.Cleanup? && ReadInside(e)
    requires Simulates(rpm, s, g, delay, e.t)
    ensures Simulates(rpm, Step(rpm, s, e), g, delay, e.t)
  {
    var s', t := Step(rpm, s, e), e.t;
    forall ip ensures SameLevel(rpm, s'.lim, g.asked, ip, t) {
      assert SameLevel(rpm, s.lim, g.asked, ip, t);
      if ip in s.lim.visitors && ip !in s'.lim.visitors {
        RefilledAfterAMinute(rpm, s.lim.arena[s.lim.visitors[ip].handle], t);
      }
    }
  }

  /** Who asks, and when, does not depend on the limiter. */
  lemma {:induction false} OwnersAgree(rpm: int, tr: seq<Event>)
    ensures SameOwners(Run(rpm, tr), Asked(tr))
    ensures |Run(rpm, tr).log| == |Asked(tr).asked|
    ensures forall i | 0 <= i < |Run(rpm, tr).log| ::
              Run(rpm, tr).log[i].ip == Asked(tr).asked[i].ip && Run(rpm, tr).log[i].t == Asked(tr).asked[i].t
  {
    if tr != [] { OwnersAgree(rpm, Init(tr)); }
  }

  /** The limiter gives exactly the reference's answers, whatever it evicts. */
  lemma {:induction false} EvictionIsInvisible(rpm: int, delay: nat, tr: seq<Event>)
    requires Timely(rpm, delay, tr) && delay <= LONGEST_DELAY
    ensures Run(rpm, tr).log == Reference(rpm, Asked(tr).asked)
    ensures 0 < rpm ==> Simulates(rpm, Run(rpm, tr), Asked(tr), delay, Now(tr))
  {
    if tr == [] {
      if 0 < rpm {
        Monotone(rpm, 0, 0);
        assert forall ip :: SameLevel(rpm, START.lim, [], ip, 0);
      }
    } else {
      var e, s, g := Last(tr), Run(rpm, Init(tr)), Asked(Init(tr));
      EvictionIsInvisible(rpm, delay, Init(tr));
      OwnersAgree(rpm, Init(tr));
      if e.Allow? && e.req in s.tickets {
        assert Init(Asked(tr).asked) == g.asked;
      }
      if 0 < rpm {
        TimePasses(rpm, s, g, delay, Now(Init(tr)), e.t);
        match e
        case Get(req, ip, t) => GetKeeps(rpm, s, g, delay, req, ip, t);
        case Allow(req, t) => if req in s.tickets { AllowKeeps(rpm, s, g, delay, req, t); }
        case Cleanup(_, _, _) => CleanupKeeps(rpm, s, g, delay, e);
      }
    }
  }
}
