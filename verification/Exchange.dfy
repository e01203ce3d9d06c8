/** The exchange-rate client behind the cache. */
module Exchange {
  import opened Users
  import opened Cache
  import opened CachingRepo

  type Rates = map<string, real>

  /** Cache first; on a miss what the remote service answers, which is then cached for one lifetime. */
  function RatesEffect(c: Entries, key: string, fetched: Result<Rates>, ttl: int, now: int, getUp: bool,
      setUp: bool): (Entries, Result<Rates>)
  {
    var seen := if getUp then Peek(c, key, now) else None;
    if seen.Some? && seen.value.RatesValue? then (c, Ok(seen.value.rates))
    else if fetched.Ok? then (PutIf(setUp, c, key, RatesValue(fetched.value), ttl, now), fetched)
    else (c, fetched)
  }

  class CachedHTTPClient {
    const cache: RedisCache
    const ttl: int
    const upper: string -> string

    constructor (cache: RedisCache, ttl: int, upper: string -> string)
      ensures this.cache == cache && this.ttl == ttl && this.upper == upper
    {
      this.cache, this.ttl, this.upper := cache, ttl, upper;
    }

    method GetRates(base: string, fetched: Result<Rates>, now: int, getUp: bool, setUp: bool) returns (r: Result<Rates>)
      modifies cache
      ensures (cache.entries, r) ==
              RatesEffect(old(cache.entries), RatesKey(upper(base)), fetched, ttl, now, getUp, setUp)
    {
      var key := RatesKey(upper(base));
      var v := cache.Get(key, now, getUp);
      if v.Some? && v.value.RatesValue? { return Ok(v.value.rates); }
      r := fetched;
      if r.Ok? { cache.Set(key, RatesValue(r.value), ttl, now, setUp); }
    }
  }

  /** With nothing in the cache, the answer is the remote service's, error or not, and an error is not cached. */
  lemma FirstCallFetches(c: Entries, key: string, fetched: Result<Rates>, ttl: int, now: int, getUp: bool, setUp: bool)
    requires getUp && key in c ==> c[key].value.UserValue? || (c[key].expiry.At? && c[key].expiry.time <= now)
    ensures var (c', r) := RatesEffect(c, key, fetched, ttl, now, getUp, setUp);
            r == fetched && (fetched.Err? || !setUp ==> c' == c)
  {}

  /** Of two calls for one base, the second answers with the rates of the first, whatever the service says by
      then, exactly until the lifetime of the first answer is over. */
  lemma SecondCallIsCached(c: Entries, key: string, rates: Rates, fetched: Result<Rates>, ttl: int, t1: int, t2: int,
      up: bool)
    requires key !in c
    ensures var (c1, r1) := RatesEffect(c, key, Ok(rates), ttl, t1, true, true);
            var (c2, r2) := RatesEffect(c1, key, fetched, ttl, t2, true, up);
            && r1 == Ok(rates)
            && r2 == (if ttl <= 0 || t2 < t1 + ttl then Ok(rates) else fetched)
            && (ttl <= 0 || t2 < t1 + ttl ==> c2 == c1)
  {}

  /** Rates of one base answer no question about another, and touch no user's entry. */
  lemma OtherKeysAreLeftAlone(c: Entries, key: string, fetched: Result<Rates>, ttl: int, now: int, getUp: bool,
      setUp: bool, other: string)
    requires other != key
    ensures var c' := RatesEffect(c, key, fetched, ttl, now, getUp, setUp).0;
            (other in c' <==> other in c) && (other in c ==> c'[other] == c[other])
  {}
}
