/**
 The per-IP token bucket and the sweep that evicts idle buckets. Time and tokens
 are reals; one request, and one sweep of one bucket, is one atomic step.
 */
module RateLimiter {

  datatype Bucket = Bucket(tokens: real, lastCheck: real)

  type Buckets = map<string, Bucket>

  /** The idle time after which a bucket may be evicted: ten minutes. */
  const BUCKET_TTL: real := 600.0

  /** A request is created (`arrived`) before it gets its bucket's lock (`time`). */
  datatype Event =
    | Request(ip: string, arrived: real, time: real)
    | SweepBucket(ip: string, time: real)

  datatype Answer = Answer(ip: string, time: real, admitted: bool)

  // ----- one step -----

  function Cap(rate: real, tokens: real): real {
    if tokens > rate then rate else tokens
  }

  function Times(d: real, rate: real): real {
    d * rate
  }

  /** The tokens that accrue from s to t, before any cap. */
  function Accrued(rate: real, s: real, t: real): real {
    Times(t - s, rate)
  }

  /** Tokens at time `now`, capped at the burst. */
  function Refill(rate: real, b: Bucket, now: real): real {
    Cap(rate, b.tokens + Accrued(rate, b.lastCheck, now))
  }

  function Take(rate: real, b: Bucket, now: real): (Bucket, bool) {
    var tokens := Refill(rate, b, now);
    if tokens < 1.0 then (Bucket(tokens, now), false) else (Bucket(tokens - 1.0, now), true)
  }

  function LoadOrNew(rate: real, m: Buckets, ip: string, arrived: real): Bucket {
    if ip in m then m[ip] else Bucket(rate, arrived)
  }

  predicate Inactive(b: Bucket, now: real) {
    now - b.lastCheck > BUCKET_TTL
  }

  /** The buckets after an event; with evict off, sweeps do nothing. */
  function Next(rate: real, m: Buckets, e: Event, evict: bool): Buckets {
    match e
    case Request(ip, arrived, time) => m[ip := Take(rate, LoadOrNew(rate, m, ip, arrived), time).0]
    case SweepBucket(ip, time) => if evict && ip in m && Inactive(m[ip], time) then m - {ip} else m
  }

  function Answers(rate: real, m: Buckets, events: seq<Event>, evict: bool): seq<Answer>
    decreases |events|
  {
    if events == [] then []
    else
      var e := events[0];
      var rest := Answers(rate, Next(rate, m, e, evict), events[1..], evict);
      if e.Request?
      then [Answer(e.ip, e.time, Take(rate, LoadOrNew(rate, m, e.ip, e.arrived), e.time).1)] + rest
      else rest
  }

  /** The buckets after some events, sweeps included. */
  function BucketsAfter(rate: real, m: Buckets, events: seq<Event>): Buckets
    decreases |events|
  {
    if events == [] then m else BucketsAfter(rate, Next(rate, m, events[0], true), events[1..])
  }

  lemma {:induction false} BucketsAppend(rate: real, m: Buckets, events: seq<Event>, e: Event)
    ensures BucketsAfter(rate, m, events + [e]) == Next(rate, BucketsAfter(rate, m, events), e, true)
    decreases |events|
  {
    if events == [] {
      assert events + [e] == [e] && [e][1..] == [];
    } else {
      assert (events + [e])[1..] == events[1..] + [e];
      BucketsAppend(rate, Next(rate, m, events[0], true), events[1..], e);
    }
  }

  /** The events of one pass of the sweep over the given keys. */
  function Sweeps(order: seq<string>, now: real): seq<Event> {
    seq(|order|, i requires 0 <= i < |order| => SweepBucket(order[i], now))
  }

  lemma {:induction false} SweepsAppend(rate: real, m: Buckets, order: seq<string>, key: string, now: real)
    ensures BucketsAfter(rate, m, Sweeps(order + [key], now))
            == Next(rate, BucketsAfter(rate, m, Sweeps(order, now)), SweepBucket(key, now), true)
  {
    assert Sweeps(order + [key], now) == Sweeps(order, now) + [SweepBucket(key, now)];
    BucketsAppend(rate, m, Sweeps(order, now), SweepBucket(key, now));
  }

  // ----- the middleware -----

  class Limiter {
    const rate: real
    var buckets: Buckets

    constructor (reqPerSec: int)
      ensures rate == reqPerSec as real && buckets == map[]
    {
      rate, buckets := reqPerSec as real, map[];
    }

    method Handle(ip: string, arrived: real, time: real) returns (admitted: bool)
      modifies this
      ensures buckets == Next(rate, old(buckets), Request(ip, arrived, time), true)
      ensures admitted == Take(rate, LoadOrNew(rate, old(buckets), ip, arrived), time).1
    {
      var bucket := if ip in buckets then buckets[ip] else Bucket(rate, arrived);
      var elapsed := time - bucket.lastCheck;
      bucket := bucket.(lastCheck := time);
      bucket := bucket.(tokens := bucket.tokens + Times(elapsed, rate));
      if bucket.tokens > rate {
        bucket := bucket.(tokens := rate);
      }
      assert bucket.tokens == Refill(rate, LoadOrNew(rate, buckets, ip, arrived), time);
      if bucket.tokens < 1.0 {
        buckets := buckets[ip := bucket];
        return false;
      }
      bucket := bucket.(tokens := bucket.tokens - 1.0);
      buckets := buckets[ip := bucket];
      return true;
    }

    /** One pass of the background sweep: the sweep events of all its keys, in some order. */
    method Sweep(now: real)
      modifies this
      ensures forall ip :: ip in buckets <==> ip in old(buckets) && now - old(buckets)[ip].lastCheck <= 600.0
      ensures forall ip :: ip in buckets ==> buckets[ip] == old(buckets)[ip]
      ensures exists order :: && (forall ip :: ip in order <==> ip in old(buckets))
                              && buckets == BucketsAfter(rate, old(buckets), Sweeps(order, now))
    {
      ghost var order: seq<string> := [];
      var rest := buckets.Keys;
      while rest != {}
        invariant rest <= old(buckets).Keys
        invariant forall ip :: ip in buckets <==> ip in old(buckets) && (ip in rest || !Inactive(old(buckets)[ip], now))
        invariant forall ip :: ip in buckets ==> buckets[ip] == old(buckets)[ip]
        invariant forall ip :: ip in old(buckets) <==> ip in rest || ip in order
        invariant buckets == BucketsAfter(rate, old(buckets), Sweeps(order, now))
      {
        var key :| key in rest;
        SweepsAppend(rate, old(buckets), order, key, now);
        if Inactive(buckets[key], now) {
          buckets := buckets - {key};
        }
        rest, order := rest - {key}, order + [key];
      }
    }
  }

  // ----- eviction is invisible -----

  /** No request is timed before an event that precedes it, nor before its own arrival. */
  ghost predicate Ordered(events: seq<Event>) {
    && (forall i :: 0 <= i < |events| && events[i].Request? ==> events[i].arrived <= events[i].time)
    && (forall i, j :: 0 <= i < j < |events| && events[j].Request? ==> events[i].time <= events[j].time)
  }

  /** Every event still to come, if a request, is at or after t. */
  ghost predicate From(events: seq<Event>, t: real) {
    forall i :: 0 <= i < |events| && events[i].Request? ==> t <= events[i].time
  }

  ghost predicate InRange(rate: real, m: Buckets) {
    forall ip :: ip in m ==> 0.0 <= m[ip].tokens <= rate
  }

  /** Evicting and keeping agree, but for buckets idle past the TTL. */
  ghost predicate Agrees(rate: real, a: Buckets, b: Buckets, events: seq<Event>) {
    forall ip :: && (ip in a ==> ip in b && a[ip] == b[ip])
                 && (ip in b && ip !in a ==> From(events, b[ip].lastCheck + BUCKET_TTL))
  }

  lemma TimesMonotone(a: real, b: real, rate: real)
    requires a <= b && rate >= 0.0
    ensures Times(a, rate) <= Times(b, rate)
  {
  }

  lemma TimesAdd(a: real, b: real, rate: real)
    ensures Times(a + b, rate) == Times(a, rate) + Times(b, rate)
  {
  }

  lemma TimesUnits(rate: real)
    ensures Times(0.0, rate) == 0.0 && Times(1.0, rate) == rate
  {
  }

  lemma AccruedAtLeast(rate: real, s: real, t: real, gap: real)
    requires t - s >= gap && rate >= 0.0
    ensures Accrued(rate, s, t) >= Times(gap, rate)
  {
    TimesMonotone(gap, t - s, rate);
  }

  lemma AccruedNonNegative(rate: real, s: real, t: real)
    requires s <= t && rate >= 0.0
    ensures Accrued(rate, s, t) >= 0.0
  {
    AccruedAtLeast(rate, s, t, 0.0);
    TimesUnits(rate);
  }

  lemma AccruedSplit(rate: real, a: real, b: real, c: real)
    ensures Accrued(rate, a, c) == Accrued(rate, b, c) + Accrued(rate, a, b)
  {
    TimesAdd(c - b, b - a, rate);
    assert (c - b) + (b - a) == c - a;
  }

  /** A bucket idle past the TTL has refilled to exactly a new bucket's level. */
  lemma IdleIsFull(rate: real, b: Bucket, now: real)
    requires rate >= 0.0 && 0.0 <= b.tokens <= rate && now - b.lastCheck >= 1.0
    ensures Refill(rate, b, now) == rate
  {
    AccruedAtLeast(rate, b.lastCheck, now, 1.0);
    TimesUnits(rate);
  }

  lemma NewIsFull(rate: real, arrived: real, now: real)
    requires rate >= 0.0 && arrived <= now
    ensures Refill(rate, Bucket(rate, arrived), now) == rate
  {
    AccruedNonNegative(rate, arrived, now);
  }

  lemma TakeInRange(rate: real, b: Bucket, now: real)
    requires rate >= 0.0 && 0.0 <= b.tokens <= rate && b.lastCheck <= now
    ensures 0.0 <= Take(rate, b, now).0.tokens <= rate
  {
    AccruedNonNegative(rate, b.lastCheck, now);
  }

  /** Buckets were last used before any request still to come. */
  ghost predicate Past(m: Buckets, events: seq<Event>) {
    forall ip :: ip in m ==> From(events, m[ip].lastCheck)
  }

  ghost predicate Good(rate: real, m: Buckets, events: seq<Event>) {
    InRange(rate, m) && Past(m, events)
  }

  lemma NextIsGood(rate: real, m: Buckets, events: seq<Event>, evict: bool)
    requires rate >= 0.0 && events != [] && Ordered(events) && Good(rate, m, events)
    ensures Good(rate, Next(rate, m, events[0], evict), events[1..])
    ensures Ordered(events[1..])
  {
    var e := events[0];
    var m' := Next(rate, m, e, evict);
    if e.Request? {
      var b := LoadOrNew(rate, m, e.ip, e.arrived);
      TakeInRange(rate, b, e.time);
    }
    forall ip | ip in m' ensures From(events[1..], m'[ip].lastCheck) {
      if ip in m {
        assert From(events, m[ip].lastCheck);
      }
    }
  }

  lemma SameAnswer(rate: real, a: Buckets, b: Buckets, events: seq<Event>)
    requires rate >= 0.0 && events != [] && events[0].Request? && Ordered(events)
    requires Good(rate, b, events) && Agrees(rate, a, b, events)
    ensures var e := events[0];
            Take(rate, LoadOrNew(rate, a, e.ip, e.arrived), e.time) == Take(rate, LoadOrNew(rate, b, e.ip, e.arrived), e.time)
  {
    var e := events[0];
    if e.ip in b && e.ip !in a {
      assert From(events, b[e.ip].lastCheck + BUCKET_TTL);
      IdleIsFull(rate, b[e.ip], e.time);
      NewIsFull(rate, e.arrived, e.time);
    }
  }

  lemma NextAgrees(rate: real, a: Buckets, b: Buckets, events: seq<Event>)
    requires rate >= 0.0 && events != [] && Ordered(events)
    requires Good(rate, b, events) && Agrees(rate, a, b, events)
    ensures Agrees(rate, Next(rate, a, events[0], true), Next(rate, b, events[0], false), events[1..])
  {
    var e := events[0];
    var a', b' := Next(rate, a, e, true), Next(rate, b, e, false);
    if e.Request? {
      SameAnswer(rate, a, b, events);
    }
    forall ip
      ensures ip in a' ==> ip in b' && a'[ip] == b'[ip]
      ensures ip in b' && ip !in a' ==> From(events[1..], b'[ip].lastCheck + BUCKET_TTL)
    {
      if ip in b && ip !in a {
        assert From(events, b[ip].lastCheck + BUCKET_TTL);
      }
    }
  }

  lemma {:induction false} EvictingAgrees(rate: real, a: Buckets, b: Buckets, events: seq<Event>)
    requires rate >= 0.0 && Ordered(events) && Good(rate, b, events) && Agrees(rate, a, b, events)
    ensures Answers(rate, a, events, true) == Answers(rate, b, events, false)
    decreases |events|
  {
    if events != [] {
      if events[0].Request? {
        SameAnswer(rate, a, b, events);
      }
      NextAgrees(rate, a, b, events);
      NextIsGood(rate, b, events, false);
      EvictingAgrees(rate, Next(rate, a, events[0], true), Next(rate, b, events[0], false), events[1..]);
    }
  }

  /** With a negative rate no bucket ever holds a token. */
  lemma {:induction false} NegativeRefuses(rate: real, m: Buckets, events: seq<Event>, evict: bool, n: nat)
    requires rate < 0.0 && Ordered(events) && (forall ip :: ip in m ==> m[ip].tokens <= rate)
    requires n < |Answers(rate, m, events, evict)|
    ensures !Answers(rate, m, events, evict)[n].admitted
    decreases |events|
  {
    var e := events[0];
    var k := if e.Request? then 1 else 0;
    if n >= k {
      NegativeRefuses(rate, Next(rate, m, e, evict), events[1..], evict, n - k);
    }
  }

  lemma {:induction false} SameRequests(rate: real, a: Buckets, b: Buckets, events: seq<Event>)
    ensures |Answers(rate, a, events, true)| == |Answers(rate, b, events, false)|
    ensures forall n :: 0 <= n < |Answers(rate, a, events, true)| ==>
              && Answers(rate, a, events, true)[n].ip == Answers(rate, b, events, false)[n].ip
              && Answers(rate, a, events, true)[n].time == Answers(rate, b, events, false)[n].time
    decreases |events|
  {
    if events != [] {
      SameRequests(rate, Next(rate, a, events[0], true), Next(rate, b, events[0], false), events[1..]);
    }
  }

  /** On every trace, for every configured rate, the sweep changes no answer. */
  lemma EvictionInvisible(reqPerSec: int, events: seq<Event>)
    requires Ordered(events)
    ensures var rate := reqPerSec as real;
            Answers(rate, map[], events, true) == Answers(rate, map[], events, false)
  {
    var rate := reqPerSec as real;
    if reqPerSec >= 0 {
      EvictingAgrees(rate, map[], map[], events);
    } else {
      var x, y := Answers(rate, map[], events, true), Answers(rate, map[], events, false);
      SameRequests(rate, map[], map[], events);
      forall n | 0 <= n < |x| ensures x[n] == y[n] {
        NegativeRefuses(rate, map[], events, true, n);
        NegativeRefuses(rate, map[], events, false, n);
      }
    }
  }

  // ----- the rate bound -----

  /** Admitted requests of one IP with t1 <= time <= t2. */
  function AdmittedIn(answers: seq<Answer>, ip: string, t1: real, t2: real): nat {
    if answers == [] then 0
    else
      (if answers[0].ip == ip && answers[0].admitted && t1 <= answers[0].time <= t2 then 1 else 0)
      + AdmittedIn(answers[1..], ip, t1, t2)
  }

  /** Tokens the IP could spend at time s; an absent bucket is a full one. */
  function Level(rate: real, m: Buckets, ip: string, s: real): real {
    if ip in m then Refill(rate, m[ip], s) else rate
  }

  lemma CapGrowth(rate: real, tokens: real, x: real, d: real)
    requires 0.0 <= tokens <= rate && x >= 0.0 && d >= 0.0
    ensures 0.0 <= Cap(rate, tokens + x) <= rate
    ensures Cap(rate, tokens + (d + x)) <= Cap(rate, tokens + x) + d
  {
  }

  lemma RefillGrowth(rate: real, b: Bucket, s: real, t: real)
    requires rate >= 0.0 && 0.0 <= b.tokens <= rate && b.lastCheck <= s <= t
    ensures 0.0 <= Refill(rate, b, s) <= rate
    ensures Refill(rate, b, t) <= Refill(rate, b, s) + Accrued(rate, s, t)
  {
    AccruedNonNegative(rate, b.lastCheck, s);
    AccruedNonNegative(rate, s, t);
    AccruedSplit(rate, b.lastCheck, s, t);
    CapGrowth(rate, b.tokens, Accrued(rate, b.lastCheck, s), Accrued(rate, s, t));
  }

  /** Refilling from s to t adds at most rate * (t - s), and never leaves [0, rate]. */
  lemma LevelGrowth(rate: real, m: Buckets, ip: string, s: real, t: real)
    requires rate >= 0.0 && InRange(rate, m) && s <= t && (ip in m ==> m[ip].lastCheck <= s)
    ensures 0.0 <= Level(rate, m, ip, s) <= rate
    ensures Level(rate, m, ip, t) <= Level(rate, m, ip, s) + Accrued(rate, s, t)
  {
    if ip in m {
      RefillGrowth(rate, m[ip], s, t);
    } else {
      AccruedNonNegative(rate, s, t);
    }
  }

  lemma {:induction false} NoneAfter(rate: real, m: Buckets, events: seq<Event>, ip: string, t1: real, t2: real, t: real)
    requires From(events, t) && t2 < t
    ensures AdmittedIn(Answers(rate, m, events, false), ip, t1, t2) == 0
    decreases |events|
  {
    if events != [] {
      NoneAfter(rate, Next(rate, m, events[0], false), events[1..], ip, t1, t2, t);
    }
  }

  /** The admitted requests are the first one, if it counts, and those of the rest. */
  lemma {:induction false} AdmittedFirst(rate: real, m: Buckets, events: seq<Event>, ip: string, t1: real, t2: real)
    requires events != []
    ensures var e := events[0];
            AdmittedIn(Answers(rate, m, events, false), ip, t1, t2)
            == (if e.Request? && e.ip == ip && t1 <= e.time <= t2
                   && Take(rate, LoadOrNew(rate, m, ip, e.arrived), e.time).1 then 1 else 0)
               + AdmittedIn(Answers(rate, Next(rate, m, e, false), events[1..], false), ip, t1, t2)
  {
    var e := events[0];
    var rest := Answers(rate, Next(rate, m, e, false), events[1..], false);
    if e.Request? {
      var first := Answer(e.ip, e.time, Take(rate, LoadOrNew(rate, m, e.ip, e.arrived), e.time).1);
      assert ([first] + rest)[1..] == rest;
    }
  }

  /** What the IP is admitted until t2 fits in its tokens at s and the refill since. */
  ghost predicate Fits(rate: real, m: Buckets, events: seq<Event>, ip: string, t1: real, t2: real, s: real) {
    AdmittedIn(Answers(rate, m, events, false), ip, t1, t2) as real <= Level(rate, m, ip, s) + Accrued(rate, s, t2)
  }

  lemma SpendFits(rest: real, all: real, took: (Bucket, bool), level: real, until: real, since: real)
    requires all <= rest + if took.1 then 1.0 else 0.0
    requires took.0.tokens + (if took.1 then 1.0 else 0.0) <= level + until
    requires rest <= took.0.tokens + since
    ensures all <= level + (since + until)
  {
  }

  lemma RefillNow(rate: real, b: Bucket)
    requires b.tokens <= rate
    ensures Refill(rate, b, b.lastCheck) == b.tokens
  {
    TimesUnits(rate);
    assert b.lastCheck - b.lastCheck == 0.0;
  }

  /** What a request leaves, plus what it spent, is what was there plus the refill. */
  lemma RequestSpends(rate: real, m: Buckets, e: Event, s: real)
    requires rate >= 0.0 && e.Request? && InRange(rate, m) && e.arrived <= e.time && s <= e.time
    requires e.ip in m ==> m[e.ip].lastCheck <= s
    ensures var took := Take(rate, LoadOrNew(rate, m, e.ip, e.arrived), e.time);
            && Level(rate, Next(rate, m, e, false), e.ip, e.time) == took.0.tokens
            && took.0.tokens + (if took.1 then 1.0 else 0.0) <= Level(rate, m, e.ip, s) + Accrued(rate, s, e.time)
  {
    LevelGrowth(rate, m, e.ip, s, e.time);
    var b := LoadOrNew(rate, m, e.ip, e.arrived);
    if e.ip !in m {
      NewIsFull(rate, e.arrived, e.time);
    }
    assert Refill(rate, b, e.time) == Level(rate, m, e.ip, e.time);
    var left := Take(rate, b, e.time).0;
    assert left.tokens <= rate && left.lastCheck == e.time;
    RefillNow(rate, left);
  }

  /** The request at the head of the events spends from what is there or refilled since s. */
  lemma RequestFits(rate: real, m: Buckets, events: seq<Event>, t1: real, t2: real, s: real)
    requires rate >= 0.0 && InRange(rate, m) && events != [] && events[0].Request?
    requires var e := events[0]; e.arrived <= e.time && s <= e.time && (e.ip in m ==> m[e.ip].lastCheck <= s)
    requires Fits(rate, Next(rate, m, events[0], false), events[1..], events[0].ip, t1, t2, events[0].time)
    ensures Fits(rate, m, events, events[0].ip, t1, t2, s)
  {
    var e, m' := events[0], Next(rate, m, events[0], false);
    RequestSpends(rate, m, e, s);
    AdmittedFirst(rate, m, events, e.ip, t1, t2);
    AccruedSplit(rate, s, e.time, t2);
    SpendFits(AdmittedIn(Answers(rate, m', events[1..], false), e.ip, t1, t2) as real,
              AdmittedIn(Answers(rate, m, events, false), e.ip, t1, t2) as real,
              Take(rate, LoadOrNew(rate, m, e.ip, e.arrived), e.time),
              Level(rate, m, e.ip, s), Accrued(rate, s, e.time), Accrued(rate, e.time, t2));
  }

  lemma OtherFits(rate: real, m: Buckets, events: seq<Event>, ip: string, t1: real, t2: real, s: real)
    requires events != [] && !(events[0].Request? && events[0].ip == ip)
    requires Fits(rate, Next(rate, m, events[0], false), events[1..], ip, t1, t2, s)
    ensures Fits(rate, m, events, ip, t1, t2, s)
  {
    AdmittedFirst(rate, m, events, ip, t1, t2);
  }

  lemma NothingFits(rate: real, m: Buckets, events: seq<Event>, ip: string, t1: real, t2: real, s: real)
    requires rate >= 0.0 && InRange(rate, m) && s <= t2 && (ip in m ==> m[ip].lastCheck <= s)
    requires AdmittedIn(Answers(rate, m, events, false), ip, t1, t2) == 0
    ensures Fits(rate, m, events, ip, t1, t2, s)
  {
    LevelGrowth(rate, m, ip, s, t2);
    AccruedNonNegative(rate, s, t2);
  }

  /** From time s inside the window on, only the tokens there and those refilled can be spent. */
  lemma {:induction false} WindowBound(rate: real, m: Buckets, events: seq<Event>, ip: string, t1: real, t2: real, s: real)
    requires rate >= 0.0 && Ordered(events) && Good(rate, m, events)
    requires t1 <= s <= t2 && From(events, s) && (ip in m ==> m[ip].lastCheck <= s)
    ensures Fits(rate, m, events, ip, t1, t2, s)
    decreases |events|
  {
    if events == [] {
      NothingFits(rate, m, events, ip, t1, t2, s);
    } else {
      var e, rest := events[0], events[1..];
      var m' := Next(rate, m, e, false);
      NextIsGood(rate, m, events, false);
      if e.Request? && e.ip == ip && e.time > t2 {
        NoneAfter(rate, m, events, ip, t1, t2, e.time);
        NothingFits(rate, m, events, ip, t1, t2, s);
      } else if e.Request? && e.ip == ip {
        WindowBound(rate, m', rest, ip, t1, t2, e.time);
        RequestFits(rate, m, events, t1, t2, s);
      } else {
        WindowBound(rate, m', rest, ip, t1, t2, s);
        OtherFits(rate, m, events, ip, t1, t2, s);
      }
    }
  }

  lemma {:induction false} BoundWithoutEviction(rate: real, m: Buckets, events: seq<Event>, ip: string, t1: real, t2: real)
    requires rate >= 0.0 && Ordered(events) && Good(rate, m, events) && t1 <= t2
    requires ip in m ==> m[ip].lastCheck <= t1
    ensures AdmittedIn(Answers(rate, m, events, false), ip, t1, t2) as real <= rate + Accrued(rate, t1, t2)
    decreases |events|
  {
    AccruedNonNegative(rate, t1, t2);
    if From(events, t1) {
      WindowBound(rate, m, events, ip, t1, t2, t1);
      LevelGrowth(rate, m, ip, t1, t1);
    } else {
      NextIsGood(rate, m, events, false);
      var e := events[0];
      assert e.Request? ==> e.time < t1;
      BoundWithoutEviction(rate, Next(rate, m, e, false), events[1..], ip, t1, t2);
    }
  }

  /**
   In every trace with sweeps interleaved, the requests of one IP admitted in
   any window number at most the burst plus rate times the window's length.
   */
  lemma RateBound(reqPerSec: nat, events: seq<Event>, ip: string, t1: real, t2: real)
    requires Ordered(events) && t1 <= t2
    ensures var rate := reqPerSec as real;
            AdmittedIn(Answers(rate, map[], events, true), ip, t1, t2) as real <= rate + (t2 - t1) * rate
  {
    EvictionInvisible(reqPerSec, events);
    BoundWithoutEviction(reqPerSec as real, map[], events, ip, t1, t2);
  }

  /** In every state a trace reaches, tokens are within [0, rate]. */
  lemma {:induction false} TokensInRange(rate: real, m: Buckets, events: seq<Event>, n: nat)
    requires rate >= 0.0 && Ordered(events) && Good(rate, m, events) && n <= |events|
    ensures InRange(rate, BucketsAfter(rate, m, events[..n]))
    decreases n
  {
    if n > 0 {
      NextIsGood(rate, m, events, true);
      TokensInRange(rate, Next(rate, m, events[0], true), events[1..], n - 1);
      assert events[..n][0] == events[0] && events[..n][1..] == events[1..][..n - 1];
    }
  }

  // ----- exactly which requests are refused -----

  /** The IP has no answer timed after l. */
  ghost predicate NoneLater(past: seq<Answer>, ip: string, l: real) {
    forall n :: 0 <= n < |past| && past[n].ip == ip ==> past[n].time <= l
  }

  lemma {:induction false} AdmittedAppend(past: seq<Answer>, a: Answer, ip: string, s: real, t: real)
    ensures AdmittedIn(past + [a], ip, s, t)
            == AdmittedIn(past, ip, s, t) + if a.ip == ip && a.admitted && s <= a.time <= t then 1 else 0
  {
    if past == [] {
      assert past + [a] == [a] && [a][1..] == [];
    } else {
      assert (past + [a])[1..] == past[1..] + [a];
      AdmittedAppend(past[1..], a, ip, s, t);
    }
  }

  lemma {:induction false} AdmittedUntil(past: seq<Answer>, ip: string, s: real, l: real, t: real)
    requires NoneLater(past, ip, l) && l <= t
    ensures AdmittedIn(past, ip, s, t) == AdmittedIn(past, ip, s, l)
    ensures s > l ==> AdmittedIn(past, ip, s, t) == 0
  {
    if past != [] {
      assert NoneLater(past[1..], ip, l);
      AdmittedUntil(past[1..], ip, s, l, t);
    }
  }

  /** Admitted requests since s, and what the burst and the rate allow since then. */
  ghost predicate Within(rate: real, past: seq<Answer>, ip: string, s: real, t: real, tokens: real) {
    tokens + AdmittedIn(past, ip, s, t) as real <= rate + Accrued(rate, s, t)
  }

  ghost predicate Exactly(rate: real, past: seq<Answer>, ip: string, s: real, t: real, tokens: real) {
    tokens + AdmittedIn(past, ip, s, t) as real == rate + Accrued(rate, s, t)
  }

  /** At time l the IP holds the least that the windows ending at l leave of burst and rate. */
  ghost predicate IsLeast(rate: real, past: seq<Answer>, ip: string, l: real, tokens: real) {
    && (forall s :: s <= l ==> Within(rate, past, ip, s, l, tokens))
    && (exists s :: s <= l && Exactly(rate, past, ip, s, l, tokens))
  }

  /** What the bucket of an IP says about its answers so far. */
  ghost predicate Accounts(rate: real, m: Buckets, past: seq<Answer>, ip: string) {
    if ip in m
    then NoneLater(past, ip, m[ip].lastCheck) && IsLeast(rate, past, ip, m[ip].lastCheck, m[ip].tokens)
    else forall n :: 0 <= n < |past| ==> past[n].ip != ip
  }

  lemma {:induction false} AbsentHasNone(past: seq<Answer>, ip: string, s: real, t: real)
    requires forall n :: 0 <= n < |past| ==> past[n].ip != ip
    ensures AdmittedIn(past, ip, s, t) == 0
  {
    if past != [] {
      AbsentHasNone(past[1..], ip, s, t);
    }
  }

  lemma AccruedNothing(rate: real, t: real)
    ensures Accrued(rate, t, t) == 0.0
  {
    TimesUnits(rate);
    assert t - t == 0.0;
  }

  /** A full bucket holds what the empty window at t leaves. */
  lemma FullIsLeast(rate: real, past: seq<Answer>, ip: string, t: real)
    requires rate >= 0.0 && forall s :: s <= t ==> AdmittedIn(past, ip, s, t) == 0
    ensures IsLeast(rate, past, ip, t, rate)
  {
    forall s | s <= t ensures Within(rate, past, ip, s, t, rate) {
      AccruedNonNegative(rate, s, t);
    }
    AccruedNothing(rate, t);
    assert Exactly(rate, past, ip, t, t, rate);
  }

  lemma RefillWithin(rate: real, past: seq<Answer>, ip: string, b: Bucket, s: real, t: real)
    requires rate >= 0.0 && s <= t && b.lastCheck <= t
    requires NoneLater(past, ip, b.lastCheck) && IsLeast(rate, past, ip, b.lastCheck, b.tokens)
    ensures Within(rate, past, ip, s, t, Refill(rate, b, t))
  {
    AdmittedUntil(past, ip, s, b.lastCheck, t);
    if s <= b.lastCheck {
      assert Within(rate, past, ip, s, b.lastCheck, b.tokens);
      AccruedSplit(rate, s, b.lastCheck, t);
    } else {
      AccruedNonNegative(rate, s, t);
    }
  }

  /** Refilling keeps the least: either it does not reach the cap, or the bucket is full at t. */
  lemma RefillIsLeast(rate: real, past: seq<Answer>, ip: string, b: Bucket, t: real)
    requires rate >= 0.0 && b.lastCheck <= t && b.tokens <= rate
    requires NoneLater(past, ip, b.lastCheck) && IsLeast(rate, past, ip, b.lastCheck, b.tokens)
    ensures IsLeast(rate, past, ip, t, Refill(rate, b, t))
  {
    var l := b.lastCheck;
    forall s | s <= t ensures Within(rate, past, ip, s, t, Refill(rate, b, t)) {
      RefillWithin(rate, past, ip, b, s, t);
    }
    if b.tokens + Accrued(rate, l, t) > rate {
      AccruedNothing(rate, t);
      assert l < t;
      AdmittedUntil(past, ip, t, l, t);
      assert Exactly(rate, past, ip, t, t, Refill(rate, b, t));
    } else {
      var s :| s <= l && Exactly(rate, past, ip, s, l, b.tokens);
      AdmittedUntil(past, ip, s, l, t);
      AccruedSplit(rate, s, l, t);
      assert Exactly(rate, past, ip, s, t, Refill(rate, b, t));
    }
  }

  /** What a request finds is the least at its time. */
  lemma FoundIsLeast(rate: real, m: Buckets, past: seq<Answer>, e: Event)
    requires rate >= 0.0 && e.Request? && e.arrived <= e.time && InRange(rate, m) && Accounts(rate, m, past, e.ip)
    requires e.ip in m ==> m[e.ip].lastCheck <= e.time
    ensures NoneLater(past, e.ip, e.time)
    ensures IsLeast(rate, past, e.ip, e.time, Refill(rate, LoadOrNew(rate, m, e.ip, e.arrived), e.time))
  {
    if e.ip in m {
      RefillIsLeast(rate, past, e.ip, m[e.ip], e.time);
    } else {
      forall s | s <= e.time ensures AdmittedIn(past, e.ip, s, e.time) == 0 {
        AbsentHasNone(past, e.ip, s, e.time);
      }
      NewIsFull(rate, e.arrived, e.time);
      FullIsLeast(rate, past, e.ip, e.time);
    }
  }

  /** In some window that ends with this request, admitting it would exceed the burst and the rate. */
  ghost predicate Exceeds(rate: real, past: seq<Answer>, ip: string, t: real) {
    exists s :: s <= t && AdmittedIn(past, ip, s, t) as real + 1.0 > rate + (t - s) * rate
  }

  lemma LeastDecides(rate: real, past: seq<Answer>, ip: string, t: real, tokens: real)
    requires IsLeast(rate, past, ip, t, tokens)
    ensures tokens < 1.0 <==> Exceeds(rate, past, ip, t)
  {
    if tokens < 1.0 {
      var s :| s <= t && Exactly(rate, past, ip, s, t, tokens);
      assert AdmittedIn(past, ip, s, t) as real + 1.0 > rate + (t - s) * rate;
    }
    if s :| s <= t && AdmittedIn(past, ip, s, t) as real + 1.0 > rate + (t - s) * rate {
      assert Within(rate, past, ip, s, t, tokens);
    }
  }

  lemma NegativeExceeds(rate: real, past: seq<Answer>, ip: string, t: real)
    requires rate < 0.0
    ensures Exceeds(rate, past, ip, t)
  {
    AccruedNothing(rate, t);
    assert AdmittedIn(past, ip, t, t) as real + 1.0 > rate + (t - t) * rate;
  }

  /** Spending a token and counting the admitted request cancel out. */
  lemma SpentIsLeast(rate: real, past: seq<Answer>, a: Answer, tokens: real)
    requires IsLeast(rate, past, a.ip, a.time, tokens)
    ensures IsLeast(rate, past + [a], a.ip, a.time, if a.admitted then tokens - 1.0 else tokens)
  {
    var left := if a.admitted then tokens - 1.0 else tokens;
    forall s | s <= a.time ensures Within(rate, past + [a], a.ip, s, a.time, left) {
      assert Within(rate, past, a.ip, s, a.time, tokens);
      AdmittedAppend(past, a, a.ip, s, a.time);
    }
    var s :| s <= a.time && Exactly(rate, past, a.ip, s, a.time, tokens);
    AdmittedAppend(past, a, a.ip, s, a.time);
    assert Exactly(rate, past + [a], a.ip, s, a.time, left);
  }

  /** Another IP's answer does not matter. */
  lemma OtherAccounts(rate: real, m: Buckets, m': Buckets, past: seq<Answer>, a: Answer, ip: string)
    requires a.ip != ip && Accounts(rate, m, past, ip)
    requires (ip in m <==> ip in m') && (ip in m ==> m'[ip] == m[ip])
    ensures Accounts(rate, m', past + [a], ip)
  {
    if ip in m {
      var l, tokens := m[ip].lastCheck, m[ip].tokens;
      forall s | s <= l ensures Within(rate, past + [a], ip, s, l, tokens) {
        assert Within(rate, past, ip, s, l, tokens);
        AdmittedAppend(past, a, ip, s, l);
      }
      var s :| s <= l && Exactly(rate, past, ip, s, l, tokens);
      AdmittedAppend(past, a, ip, s, l);
      assert Exactly(rate, past + [a], ip, s, l, tokens);
    }
  }

  ghost predicate AllAccount(rate: real, m: Buckets, past: seq<Answer>) {
    forall ip :: Accounts(rate, m, past, ip)
  }

  /** A request is refused exactly when it would exceed, and the buckets go on accounting for the answers. */
  lemma RequestAccounts(rate: real, m: Buckets, past: seq<Answer>, e: Event, a: Answer)
    requires rate >= 0.0 && e.Request? && e.arrived <= e.time && InRange(rate, m) && AllAccount(rate, m, past)
    requires e.ip in m ==> m[e.ip].lastCheck <= e.time
    requires a == Answer(e.ip, e.time, Take(rate, LoadOrNew(rate, m, e.ip, e.arrived), e.time).1)
    ensures a.admitted <==> !Exceeds(rate, past, e.ip, e.time)
    ensures AllAccount(rate, Next(rate, m, e, false), past + [a])
  {
    var m' := Next(rate, m, e, false);
    var found := Refill(rate, LoadOrNew(rate, m, e.ip, e.arrived), e.time);
    assert Accounts(rate, m, past, e.ip);
    FoundIsLeast(rate, m, past, e);
    LeastDecides(rate, past, e.ip, e.time, found);
    SpentIsLeast(rate, past, a, found);
    forall ip ensures Accounts(rate, m', past + [a], ip) {
      assert Accounts(rate, m, past, ip);
      if ip != e.ip {
        OtherAccounts(rate, m, m', past, a, ip);
      }
    }
  }

  /** Every answer is decided by the answers before it. */
  ghost predicate Decided(rate: real, answers: seq<Answer>, n: nat)
    requires n < |answers|
  {
    answers[n].admitted <==> !Exceeds(rate, answers[..n], answers[n].ip, answers[n].time)
  }

  lemma {:induction false} DecidedFrom(rate: real, m: Buckets, past: seq<Answer>, events: seq<Event>, n: nat)
    requires rate >= 0.0 && Ordered(events) && Good(rate, m, events) && AllAccount(rate, m, past)
    requires |past| <= n < |past| + |Answers(rate, m, events, false)|
    ensures Decided(rate, past + Answers(rate, m, events, false), n)
    decreases |events|
  {
    var e, rest := events[0], events[1..];
    var m' := Next(rate, m, e, false);
    NextIsGood(rate, m, events, false);
    var later := Answers(rate, m', rest, false);
    if e.Request? {
      var a := Answer(e.ip, e.time, Take(rate, LoadOrNew(rate, m, e.ip, e.arrived), e.time).1);
      assert e.ip in m ==> From(events, m[e.ip].lastCheck);
      RequestAccounts(rate, m, past, e, a);
      assert past + ([a] + later) == past + [a] + later;
      if n == |past| {
        assert (past + [a] + later)[..n] == past;
      } else {
        DecidedFrom(rate, m', past + [a], rest, n);
      }
    } else {
      DecidedFrom(rate, m', past, rest, n);
    }
  }

  function Requests(events: seq<Event>): seq<Event>
    decreases |events|
  {
    if events == [] then [] else if events[0].Request? then [events[0]] + Requests(events[1..]) else Requests(events[1..])
  }

  /** There is one answer for each request, in order. */
  lemma {:induction false} AnswersMatchRequests(rate: real, m: Buckets, events: seq<Event>, evict: bool)
    ensures |Answers(rate, m, events, evict)| == |Requests(events)|
    ensures forall n :: 0 <= n < |Requests(events)| ==>
              && Answers(rate, m, events, evict)[n].ip == Requests(events)[n].ip
              && Answers(rate, m, events, evict)[n].time == Requests(events)[n].time
    decreases |events|
  {
    if events != [] {
      AnswersMatchRequests(rate, Next(rate, m, events[0], evict), events[1..], evict);
    }
  }

  /**
   On every ordered trace with sweeps interleaved, for every configured rate, a
   request is refused iff in some window that ends with it the requests of its
   IP already admitted, and this one, number more than the burst plus the rate
   times the window's length.
   */
  lemma RefusedIff(reqPerSec: int, events: seq<Event>, n: nat)
    requires Ordered(events) && n < |Answers(reqPerSec as real, map[], events, true)|
    ensures var rate := reqPerSec as real;
            var answers := Answers(rate, map[], events, true);
            !answers[n].admitted <==> Exceeds(rate, answers[..n], answers[n].ip, answers[n].time)
  {
    var rate := reqPerSec as real;
    var answers := Answers(rate, map[], events, true);
    if reqPerSec >= 0 {
      EvictionInvisible(reqPerSec, events);
      DecidedFrom(rate, map[], [], events, n);
      assert [] + answers == answers;
    } else {
      NegativeRefuses(rate, map[], events, true, n);
      NegativeExceeds(rate, answers[..n], answers[n].ip, answers[n].time);
    }
  }

  // ----- a patient client -----

  /** Requests of this IP are at least `gap` apart. */
  ghost predicate Spaced(gap: real, events: seq<Event>, ip: string) {
    forall i, j :: 0 <= i < j < |events| && events[i].Request? && events[j].Request? && events[i].ip == ip && events[j].ip == ip
                   ==> events[j].time - events[i].time >= gap
  }

  ghost predicate AllAdmitted(answers: seq<Answer>, ip: string) {
    forall n :: 0 <= n < |answers| && answers[n].ip == ip ==> answers[n].admitted
  }

  ghost predicate Rested(gap: real, m: Buckets, events: seq<Event>, ip: string) {
    forall j :: 0 <= j < |events| && events[j].Request? && events[j].ip == ip && ip in m
                ==> events[j].time - m[ip].lastCheck >= gap
  }

  lemma StaysRested(rate: real, gap: real, m: Buckets, events: seq<Event>, ip: string)
    requires events != [] && Spaced(gap, events, ip) && Rested(gap, m, events, ip)
    ensures Spaced(gap, events[1..], ip) && Rested(gap, Next(rate, m, events[0], false), events[1..], ip)
  {
    var m', rest := Next(rate, m, events[0], false), events[1..];
    forall j | 0 <= j < |rest| && rest[j].Request? && rest[j].ip == ip && ip in m'
      ensures rest[j].time - m'[ip].lastCheck >= gap
    {
      assert rest[j] == events[j + 1];
    }
  }

  lemma RestedAdmitted(rate: real, gap: real, m: Buckets, e: Event)
    requires rate >= 1.0 && Times(gap, rate) >= 1.0 && e.Request? && e.arrived <= e.time && InRange(rate, m)
    requires e.ip in m ==> e.time - m[e.ip].lastCheck >= gap
    ensures Take(rate, LoadOrNew(rate, m, e.ip, e.arrived), e.time).1
  {
    if e.ip in m {
      AccruedAtLeast(rate, m[e.ip].lastCheck, e.time, gap);
    } else {
      NewIsFull(rate, e.arrived, e.time);
    }
  }

  lemma {:induction false} PatientWithoutEviction(rate: real, gap: real, m: Buckets, events: seq<Event>, ip: string)
    requires rate >= 1.0 && Times(gap, rate) >= 1.0 && Ordered(events) && Good(rate, m, events)
    requires Spaced(gap, events, ip) && Rested(gap, m, events, ip)
    ensures AllAdmitted(Answers(rate, m, events, false), ip)
    decreases |events|
  {
    if events != [] {
      var e, rest := events[0], events[1..];
      NextIsGood(rate, m, events, false);
      StaysRested(rate, gap, m, events, ip);
      PatientWithoutEviction(rate, gap, Next(rate, m, e, false), rest, ip);
      if e.Request? && e.ip == ip {
        RestedAdmitted(rate, gap, m, e);
      }
    }
  }

  /** With a rate of at least one, a client whose requests are 1/rate apart is never refused. */
  lemma PatientNeverRefused(reqPerSec: nat, events: seq<Event>, ip: string)
    requires reqPerSec >= 1 && Ordered(events) && Spaced(1.0 / reqPerSec as real, events, ip)
    ensures AllAdmitted(Answers(reqPerSec as real, map[], events, true), ip)
  {
    var rate := reqPerSec as real;
    EvictionInvisible(reqPerSec, events);
    assert Times(1.0 / rate, rate) == 1.0;
    PatientWithoutEviction(rate, 1.0 / rate, map[], events, ip);
  }
}
