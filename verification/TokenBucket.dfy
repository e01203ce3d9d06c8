/**
 The token bucket each client owns, in exact integer arithmetic.

 One request costs COST units and the bucket earns `rpm` units per nanosecond, so `rpm` requests
 are earned per minute; it holds at most `rpm` requests' worth. Times are nanoseconds.
 */
module TokenBucket {

  const COST: nat := 60_000_000_000

  datatype Bucket = Bucket(tokens: int, last: nat)

  function Cap(rpm: int): int { rpm * COST }

  /** A new limiter starts full, with the zero time as its last update. */
  function Full(rpm: int): Bucket { Bucket(Cap(rpm), 0) }

  /** The tokens available at time t; a clock reading before the last update earns nothing. */
  function Level(rpm: int, b: Bucket, t: nat): int
  {
    var last := if t < b.last then t else b.last;
    var tokens := b.tokens + rpm * (t - last);
    if tokens > Cap(rpm) then Cap(rpm) else tokens
  }

  /** Takes one request's worth at time t if it is there; a denial changes nothing.
      A limit of zero or less stands for the infinite rate, which admits everything. */
  function Take(rpm: int, b: Bucket, t: nat): (Bucket, bool)
  {
    if rpm <= 0 then (b, true)
    else
      var tokens := Level(rpm, b, t) - COST;
      if tokens < 0 then (b, false) else (Bucket(tokens, t), true)
  }

  lemma Distribute(rpm: int, a: int, b: int)
    ensures rpm * (a + b) == rpm * a + rpm * b
  {}

  lemma Monotone(rpm: int, a: int, b: int)
    requires 0 <= rpm && a <= b
    ensures rpm * a <= rpm * b
  {}

  /** The level at a later time depends on the bucket only through its level now. */
  lemma LevelLater(rpm: int, b: Bucket, t: nat, t': nat)
    requires 0 < rpm && b.last <= t <= t'
    ensures Level(rpm, b, t') ==
            if Level(rpm, b, t) + rpm * (t' - t) > Cap(rpm) then Cap(rpm) else Level(rpm, b, t) + rpm * (t' - t)
  {
    Distribute(rpm, t - b.last, t' - t);
    Monotone(rpm, 0, t' - t);
  }

  /** A bucket left alone for a minute is full again. */
  lemma RefilledAfterAMinute(rpm: int, b: Bucket, t: nat)
    requires 0 < rpm && 0 <= b.tokens && b.last + COST <= t
    ensures Level(rpm, b, t) == Cap(rpm)
  {
    Monotone(rpm, COST, t - b.last);
  }

  /** A clock that runs backward earns nothing: the answer is as if the bucket were asked at its last update. */
  lemma BackwardClockEarnsNothing(rpm: int, b: Bucket, t: nat)
    requires 0 < rpm && 0 <= b.tokens <= rpm * COST && t < b.last
    ensures Take(rpm, b, t) == if b.tokens < COST then (b, false) else (Bucket(b.tokens - COST, t), true)
  {
    assert rpm * (t - t) == 0;
  }

  // ---- One client's history -------------------------------------------------------------------

  ghost predicate Sorted(ts: seq<nat>)
  {
    forall i, j | 0 <= i <= j < |ts| :: ts[i] <= ts[j]
  }

  function Init<T>(s: seq<T>): seq<T>
    requires s != []
  {
    s[..|s| - 1]
  }

  function Last<T>(s: seq<T>): T
    requires s != []
  {
    s[|s| - 1]
  }

  /** The bucket after asking at each of the given times, starting from a new one. */
  function After(rpm: int, ts: seq<nat>): Bucket
  {
    if ts == [] then Full(rpm) else Take(rpm, After(rpm, Init(ts)), Last(ts)).0
  }

  /** The times at which one bucket said yes. */
  function Admitted(rpm: int, ts: seq<nat>): seq<nat>
  {
    if ts == [] then [] else
      var sofar := Admitted(rpm, Init(ts));
      if Take(rpm, After(rpm, Init(ts)), Last(ts)).1 then sofar + [Last(ts)] else sofar
  }

  /** The rate law, with no bucket in it: any run of consecutive admissions costs at most one full
      burst plus what the time it spans has earned. */
  ghost predicate Conforms(rpm: int, adm: seq<nat>)
  {
    forall i, j | 0 <= i <= j < |adm| :: SpanConforms(rpm, adm, i, j)
  }

  ghost predicate SpanConforms(rpm: int, adm: seq<nat>, i: int, j: int)
    requires 0 <= i <= j < |adm|
  {
    (j - i + 1) * COST <= rpm * COST + rpm * (adm[j] as int - adm[i])
  }

  /** The most permissive law-abiding limiter: say yes whenever that keeps the rate law. */
  ghost function Greedy(rpm: int, ts: seq<nat>): seq<nat>
  {
    if ts == [] then [] else
      var sofar := Greedy(rpm, Init(ts));
      if Conforms(rpm, sofar + [Last(ts)]) then sofar + [Last(ts)] else sofar
  }

  /** What is left at time t after the given admissions: the tightest of all windows that end now. */
  ghost function Headroom(rpm: int, adm: seq<nat>, i: int, t: nat): int
    requires 0 <= i < |adm|
  {
    Cap(rpm) + rpm * (t as int - adm[i]) - (|adm| - i) * COST
  }

  lemma AdmittedTimes(rpm: int, ts: seq<nat>, now: nat)
    requires 0 < rpm && Sorted(ts) && forall i | 0 <= i < |ts| :: ts[i] <= now
    ensures After(rpm, ts).last <= now && 0 <= After(rpm, ts).tokens
    ensures forall i | 0 <= i < |Admitted(rpm, ts)| :: Admitted(rpm, ts)[i] <= now
    ensures Sorted(Admitted(rpm, ts))
    ensures Admitted(rpm, ts) != [] ==> After(rpm, ts).last == Last(Admitted(rpm, ts))
    ensures Admitted(rpm, ts) == [] ==> After(rpm, ts) == Full(rpm)
  {
    if ts != [] {
      AdmittedTimes(rpm, Init(ts), Last(ts));
    }
  }

  /** A window's headroom grows with time and shrinks by one request per admission. */
  lemma HeadroomAfter(rpm: int, adm: seq<nat>, u: nat, t: nat, i: int)
    requires 0 <= i <= |adm|
    ensures Headroom(rpm, adm + [u], i, t) ==
            (if i < |adm| then Headroom(rpm, adm, i, u) else Cap(rpm)) - COST + rpm * (t as int - u)
  {
    if i < |adm| { Distribute(rpm, u as int - adm[i], t as int - u); }
  }

  /** The level is at most the headroom of every window ... */
  lemma {:induction false} LevelBelowHeadroom(rpm: int, ts: seq<nat>, t: nat, i: int)
    requires 0 < rpm && Sorted(ts) && forall k | 0 <= k < |ts| :: ts[k] <= t
    requires 0 <= i < |Admitted(rpm, ts)|
    ensures Level(rpm, After(rpm, ts), t) <= Headroom(rpm, Admitted(rpm, ts), i, t)
  {
    var u, before, adm := Last(ts), After(rpm, Init(ts)), Admitted(rpm, Init(ts));
    AdmittedTimes(rpm, Init(ts), u);
    if Take(rpm, before, u).1 {
      LevelLater(rpm, After(rpm, ts), u, t);
      HeadroomAfter(rpm, adm, u, t, i);
      if i < |adm| { LevelBelowHeadroom(rpm, Init(ts), u, i); }
    } else {
      LevelBelowHeadroom(rpm, Init(ts), t, i);
    }
  }

  /** ... and it is the full bucket or the headroom of some window. */
  lemma {:induction false} LevelIsSomeHeadroom(rpm: int, ts: seq<nat>, t: nat) returns (i: int)
    requires 0 < rpm && Sorted(ts) && forall k | 0 <= k < |ts| :: ts[k] <= t
    ensures Level(rpm, After(rpm, ts), t) == Cap(rpm) ||
            (0 <= i < |Admitted(rpm, ts)| && Level(rpm, After(rpm, ts), t) == Headroom(rpm, Admitted(rpm, ts), i, t))
  {
    if ts == [] {
      i := 0;
      Monotone(rpm, 0, t);
    } else {
      var u, before, adm := Last(ts), After(rpm, Init(ts)), Admitted(rpm, Init(ts));
      AdmittedTimes(rpm, Init(ts), u);
      if Take(rpm, before, u).1 {
        LevelLater(rpm, After(rpm, ts), u, t);
        i := LevelIsSomeHeadroom(rpm, Init(ts), u);
        if Level(rpm, before, u) == Cap(rpm) { i := |adm|; }
        HeadroomAfter(rpm, adm, u, t, i);
      } else {
        i := LevelIsSomeHeadroom(rpm, Init(ts), t);
      }
    }
  }

  /** Appending t leaves the old spans alone and adds those that end at t. */
  lemma SpansOfAppend(rpm: int, adm: seq<nat>, t: nat)
    requires 0 < rpm && Conforms(rpm, adm)
    ensures Conforms(rpm, adm + [t]) <==> forall i | 0 <= i < |adm| :: COST <= Headroom(rpm, adm, i, t)
  {
    var all := adm + [t];
    forall i | 0 <= i < |adm| ensures SpanConforms(rpm, all, i, |adm|) <==> COST <= Headroom(rpm, adm, i, t) {
      assert all[i] == adm[i];
    }
    forall i, j | 0 <= i <= j < |adm| ensures SpanConforms(rpm, all, i, j) {
      assert SpanConforms(rpm, adm, i, j) && all[i] == adm[i] && all[j] == adm[j];
    }
    assert SpanConforms(rpm, all, |adm|, |adm|);
  }

  /** The bucket says yes exactly when admitting keeps the rate law. */
  lemma {:induction false} TakeIffConforms(rpm: int, ts: seq<nat>, t: nat)
    requires 0 < rpm && Sorted(ts) && forall k | 0 <= k < |ts| :: ts[k] <= t
    requires Conforms(rpm, Admitted(rpm, ts))
    ensures Take(rpm, After(rpm, ts), t).1 <==> Conforms(rpm, Admitted(rpm, ts) + [t])
  {
    var adm := Admitted(rpm, ts);
    SpansOfAppend(rpm, adm, t);
    if Take(rpm, After(rpm, ts), t).1 {
      forall i | 0 <= i < |adm| ensures COST <= Headroom(rpm, adm, i, t) {
        LevelBelowHeadroom(rpm, ts, t, i);
      }
    } else {
      var i := LevelIsSomeHeadroom(rpm, ts, t);
      assert Headroom(rpm, adm, i, t) < COST;
    }
  }

  /** A bucket is the most permissive limiter that keeps the rate law. */
  lemma {:induction false} BucketIsGreedy(rpm: int, ts: seq<nat>)
    requires 0 < rpm && Sorted(ts)
    ensures Admitted(rpm, ts) == Greedy(rpm, ts)
    ensures Conforms(rpm, Admitted(rpm, ts))
  {
    if ts != [] {
      BucketIsGreedy(rpm, Init(ts));
      TakeIffConforms(rpm, Init(ts), Last(ts));
    }
  }

  // ---- Counting in a window -------------------------------------------------------------------

  function CountWithin(ts: seq<nat>, lo: nat, hi: nat): nat
  {
    if ts == [] then 0
    else CountWithin(Init(ts), lo, hi) + if lo <= Last(ts) <= hi then 1 else 0
  }

  /** In a sorted sequence the members of a window sit side by side. */
  lemma {:induction false} WindowIsASpan(ts: seq<nat>, lo: nat, hi: nat) returns (i: nat, j: nat)
    requires Sorted(ts)
    ensures i <= j <= |ts| && CountWithin(ts, lo, hi) == j - i
    ensures i < j ==> lo <= ts[i] && ts[j - 1] <= hi
    ensures ts != [] && Last(ts) <= hi ==> j == |ts|
  {
    if ts == [] {
      i, j := 0, 0;
    } else {
      i, j := WindowIsASpan(Init(ts), lo, hi);
      if lo <= Last(ts) <= hi {
        if |ts| == 1 { i := 0; }
        j := |ts|;
      } else if Last(ts) < lo {
        i, j := |ts|, |ts|;
        NothingBelow(ts, lo, hi);
      }
    }
  }

  lemma {:induction false} NothingBelow(ts: seq<nat>, lo: nat, hi: nat)
    requires forall k | 0 <= k < |ts| :: ts[k] < lo
    ensures CountWithin(ts, lo, hi) == 0
  {
    if ts != [] { NothingBelow(Init(ts), lo, hi); }
  }

  /** Admissions that keep the rate law number at most `rpm` plus what the window's length earns. */
  lemma ConformingWindow(rpm: int, adm: seq<nat>, lo: nat, hi: nat)
    requires 0 < rpm && lo <= hi && Sorted(adm) && Conforms(rpm, adm)
    ensures CountWithin(adm, lo, hi) <= rpm + rpm * (hi - lo) / COST
  {
    var i, j := WindowIsASpan(adm, lo, hi);
    var n := j - i;
    Monotone(rpm, 0, hi - lo);
    if 0 < n {
      assert SpanConforms(rpm, adm, i, j - 1);
      Monotone(rpm, adm[j - 1] - adm[i], hi - lo);
      QuotientBound(n - rpm, rpm * (hi - lo));
    }
  }

  lemma QuotientBound(n: int, x: nat)
    requires n * COST <= x
    ensures n <= x / COST
  {}
}
