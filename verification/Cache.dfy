/** The key-value cache with expiry, and the keys it is used under. */
module Cache {
  import opened Users

  datatype Expiry = Never | At(time: int)
  datatype Value = UserValue(user: User) | RatesValue(rates: map<string, real>)
  datatype Entry = Entry(value: Value, expiry: Expiry)
  type Entries = map<string, Entry>

  predicate Live(e: Entry, now: int) { e.expiry.Never? || now < e.expiry.time }

  /** What can be read under a key at a moment; an expired entry is a miss. */
  function Peek(c: Entries, key: string, now: int): Option<Value>
  {
    if key in c && Live(c[key], now) then Some(c[key].value) else None
  }

  /** The encoding leaves the password out. */
  function Encoded(v: Value): Value
  {
    match v
    case UserValue(u) => UserValue(u.(password := ""))
    case RatesValue(_) => v
  }

  /** A lifetime of zero or less means the entry does not expire. */
  function Put(c: Entries, key: string, v: Value, ttl: int, now: int): Entries
  {
    c[key := Entry(Encoded(v), if ttl > 0 then At(now + ttl) else Never)]
  }

  /** The law of the store: rates are read back as they were stored, a user without its password, until the
      lifetime is over (or for ever, if it is not positive), and no other key changes. */
  lemma StoreLaw(c: Entries, key: string, rates: map<string, real>, u: User, ttl: int, now: int, other: string, at: int)
    ensures Peek(Put(c, key, RatesValue(rates), ttl, now), key, at) ==
            if ttl <= 0 || at < now + ttl then Some(RatesValue(rates)) else None
    ensures Peek(Put(c, key, UserValue(u), ttl, now), key, at) ==
            if ttl <= 0 || at < now + ttl
            then Some(UserValue(User(u.id, u.email, u.username, "", u.name, u.role))) else None
    ensures other != key ==> Peek(Put(c, key, RatesValue(rates), ttl, now), other, at) == Peek(c, other, at)
    ensures other != key ==> Peek(Put(c, key, UserValue(u), ttl, now), other, at) == Peek(c, other, at)
  {}

  /** The cache server; `up` is false when it does not answer. */
  class RedisCache {
    var entries: Entries

    method Get(key: string, now: int, up: bool) returns (v: Option<Value>)
      ensures v == if up then Peek(entries, key, now) else None
    {
      if up && key in entries && Live(entries[key], now) {
        v := Some(entries[key].value);
      } else {
        v := None;
      }
    }

    method Set(key: string, value: Value, ttl: int, now: int, up: bool)
      modifies this
      ensures entries == if up then Put(old(entries), key, value, ttl, now) else old(entries)
    {
      if up {
        var expiry := Never;
        if ttl > 0 { expiry := At(now + ttl); }
        entries := entries[key := Entry(Encoded(value), expiry)];
      }
    }

    method Delete(key: string, up: bool)
      modifies this
      ensures entries == if up then old(entries) - {key} else old(entries)
    {
      if up { entries := entries - {key}; }
    }
  }

  // ---- Keys -----------------------------------------------------------------------------------

  function Digits(n: nat): (s: string)
    ensures s != "" && forall i | 0 <= i < |s| :: '0' <= s[i] <= '9'
  {
    var d := '0' + (n % 10) as char;
    if n < 10 then [d] else Digits(n / 10) + [d]
  }

  function Decimal(n: int): string { if n < 0 then "-" + Digits(-n) else Digits(n) }

  function IdKey(id: int): string { "user:id:" + Decimal(id) }
  function EmailKey(email: string): string { "user:email:" + email }
  function UsernameKey(username: string): string { "user:username:" + username }
  function RatesKey(base: string): string { "exchange:rates:" + base }

  /** Reading digits back. */
  function Reading(s: string): int
    requires forall i | 0 <= i < |s| :: '0' <= s[i] <= '9'
  {
    if s == "" then 0 else Reading(s[..|s| - 1]) * 10 + (s[|s| - 1] as int - '0' as int)
  }

  lemma {:induction false} DigitsRoundTrip(n: nat)
    ensures Reading(Digits(n)) == n
  {
    var s := Digits(n);
    if n < 10 {
      assert s[..0] == "";
      assert Reading(s[..|s| - 1]) == 0;
    } else {
      DigitsRoundTrip(n / 10);
      assert s[..|s| - 1] == Digits(n / 10);
    }
  }

  /** Decimal rendering tells numbers apart. */
  lemma DecimalInjective(a: int, b: int)
    requires Decimal(a) == Decimal(b)
    ensures a == b
  {
    var m, n: nat := if a < 0 then -a else a, if b < 0 then -b else b;
    assert Decimal(a)[0] == '-' <==> a < 0;
    assert Decimal(b)[0] == '-' <==> b < 0;
    if a < 0 {
      assert Decimal(a)[1..] == Digits(m) && Decimal(b)[1..] == Digits(n);
    }
    DigitsRoundTrip(m);
    DigitsRoundTrip(n);
  }

  lemma Suffix(p: string, a: string, b: string)
    requires p + a == p + b
    ensures a == b
  {
    assert (p + a)[|p|..] == a && (p + b)[|p|..] == b;
  }

  /** Within a family, keys tell their subjects apart. */
  lemma KeysInjective()
    ensures forall a, b | IdKey(a) == IdKey(b) :: a == b
    ensures forall a, b | EmailKey(a) == EmailKey(b) :: a == b
    ensures forall a, b | UsernameKey(a) == UsernameKey(b) :: a == b
    ensures forall a, b | RatesKey(a) == RatesKey(b) :: a == b
  {
    forall a, b | IdKey(a) == IdKey(b) ensures a == b {
      Suffix("user:id:", Decimal(a), Decimal(b));
      DecimalInjective(a, b);
    }
    forall a, b | EmailKey(a) == EmailKey(b) ensures a == b { Suffix("user:email:", a, b); }
    forall a, b | UsernameKey(a) == UsernameKey(b) ensures a == b { Suffix("user:username:", a, b); }
    forall a, b | RatesKey(a) == RatesKey(b) ensures a == b { Suffix("exchange:rates:", a, b); }
  }

  /** The families never meet. */
  lemma FamiliesDisjoint(id: int, email: string, username: string, base: string)
    ensures IdKey(id) != EmailKey(email) && IdKey(id) != UsernameKey(username) && IdKey(id) != RatesKey(base)
    ensures EmailKey(email) != UsernameKey(username) && EmailKey(email) != RatesKey(base)
    ensures UsernameKey(username) != RatesKey(base)
  {
    assert IdKey(id)[5] == 'i' && EmailKey(email)[5] == 'e' && UsernameKey(username)[5] == 'u';
    assert IdKey(id)[0] == 'u' && EmailKey(email)[0] == 'u' && UsernameKey(username)[0] == 'u';
    assert RatesKey(base)[0] == 'e';
  }

  lemma SmallNumbers()
    ensures Decimal(42) == "42" && Decimal(-7) == "-7"
  {
    assert Digits(4) == "4";
    assert Digits(42) == "4" + "2";
  }

  /** The keys as other processes sharing the cache spell them. */
  lemma KeyTexts(email: string, username: string, base: string)
    ensures IdKey(42) == "user:id:42" && IdKey(-7) == "user:id:-7"
    ensures EmailKey(email)[..11] == "user:email:" && EmailKey(email)[11..] == email
    ensures UsernameKey(username)[..14] == "user:username:" && UsernameKey(username)[14..] == username
    ensures RatesKey(base)[..15] == "exchange:rates:" && RatesKey(base)[15..] == base
  {
    SmallNumbers();
    assert IdKey(42) == "user:id:" + "42" && IdKey(-7) == "user:id:" + "-7";
  }
}
