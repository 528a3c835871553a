/** The limiter of src/ratelimit.rs: one global bucket, and one bucket for each key, made at its first request. */
module Limiter {
  import opened TokenBucket

  datatype Limits = Limits(perKey: Limit, global: Limit)

  datatype State = State(global: Level, keys: map<string, Level>)

  datatype Request = Request(key: string, at: real)

  function KeyLevel(c: Limits, s: State, q: Request): Level {
    if q.key in s.keys then s.keys[q.key] else Level(c.perKey.burst, q.at)
  }

  /** The global bucket decides first; only a request that it admits reaches (and may create) its key's bucket. */
  function Next(c: Limits, s: State, q: Request): State {
    var global := Spend(c.global, s.global, q.at);
    if Decide(c.global, s.global, q.at).Admitted?
    then State(global, s.keys[q.key := Spend(c.perKey, KeyLevel(c, s, q), q.at)])
    else State(global, s.keys)
  }

  function Answer(c: Limits, s: State, q: Request): Verdict {
    var v := Decide(c.global, s.global, q.at);
    if v.Admitted? then Decide(c.perKey, KeyLevel(c, s, q), q.at) else v
  }

  class RateLimiter {
    var perKey: map<string, Bucket>
    const global: Bucket
    const perKeyRps: real
    const perKeyBurst: real
    const globalRps: real
    const globalBurst: real

    /** No two names share a bucket. */
    ghost predicate Valid()
      reads this
    {
      && (forall k :: k in perKey ==> perKey[k] != global)
      && (forall j, k :: j in perKey && k in perKey && j != k ==> perKey[j] != perKey[k])
    }

    ghost function Buckets(): set<Bucket>
      reads this
    {
      perKey.Values + {global}
    }

    ghost function Abstract(): State
      reads this, Buckets()
    {
      State(global.Abstract(), map k | k in perKey :: perKey[k].Abstract())
    }

    ghost function Config(): Limits {
      Limits(Linear(perKeyRps, perKeyBurst), Linear(globalRps, globalBurst))
    }

    constructor (perKeyRpm: nat, perKeyBurst: nat, globalRpm: nat, globalBurst: nat, now: real)
      ensures Valid() && fresh(Buckets())
      ensures Config() == Limits(Configured(perKeyRpm, perKeyBurst), Configured(globalRpm, globalBurst))
      ensures Abstract() == State(Level(globalBurst as real, now), map[])
    {
      perKey := map[];
      global := new Bucket(globalBurst as real, now);
      this.perKeyRps := perKeyRpm as real / 60.0;
      this.perKeyBurst := perKeyBurst as real;
      this.globalRps := globalRpm as real / 60.0;
      this.globalBurst := globalBurst as real;
    }

    /** The global part: no key's bucket changes. */
    method AskGlobal(now: real) returns (v: Verdict)
      requires Valid()
      modifies global
      ensures global.Abstract() == Spend(Config().global, old(global.Abstract()), now)
      ensures v == Decide(Config().global, old(global.Abstract()), now)
      ensures Valid() && Abstract().keys == old(Abstract()).keys
      ensures forall k :: k in perKey ==> perKey[k].Abstract() == old(perKey[k].Abstract())
    {
      v := global.TryConsume(globalRps, globalBurst, now);
    }

    /** The key's part: its bucket is made full at the first request, and asked. */
    method AskKey(key: string, now: real) returns (v: Verdict)
      requires Valid()
      modifies this, perKey.Values
      ensures Valid() && fresh(Buckets() - old(Buckets())) && global.Abstract() == old(global.Abstract())
      ensures var level := KeyLevel(Config(), old(Abstract()), Request(key, now));
              Abstract().keys == old(Abstract()).keys[key := Spend(Config().perKey, level, now)]
              && v == Decide(Config().perKey, level, now)
      ensures forall k :: k in old(perKey) ==> k in perKey && perKey[k] == old(perKey[k])
      ensures forall k ::
                k in perKey && k != key ==> k in old(perKey) && perKey[k].Abstract() == old(perKey[k].Abstract())
    {
      if key !in perKey {
        var made := new Bucket(perKeyBurst, now);
        perKey := perKey[key := made];
      }
      v := perKey[key].TryConsume(perKeyRps, perKeyBurst, now);
    }

    method TryAcquire(key: string, now: real) returns (v: Verdict)
      requires Valid()
      modifies this, Buckets()
      ensures Valid() && fresh(Buckets() - old(Buckets()))
      ensures Abstract() == Next(Config(), old(Abstract()), Request(key, now))
      ensures v == Answer(Config(), old(Abstract()), Request(key, now))
      ensures forall k :: k in old(perKey) ==> k in perKey && perKey[k] == old(perKey[k])
      ensures forall k ::
                k in perKey && k != key ==> k in old(perKey) && perKey[k].Abstract() == old(perKey[k].Abstract())
    {
      v := AskGlobal(now);
      if v.Admitted? {
        v := AskKey(key, now);
      }
    }
  }

  // ----- Runs over interleaved keys -----

  ghost predicate Run(t0: real, qs: seq<Request>) {
    Ordered(t0, Times(qs))
  }

  function Times(qs: seq<Request>): (ts: seq<real>)
    ensures |ts| == |qs| && forall i :: 0 <= i < |ts| ==> ts[i] == qs[i].at
  {
    seq(|qs|, i requires 0 <= i < |qs| => qs[i].at)
  }

  /** The limiter before request i. */
  function StateBefore(c: Limits, t0: real, qs: seq<Request>, i: nat): State
    requires i <= |qs|
  {
    if i == 0 then State(Level(c.global.burst, t0), map[])
    else Next(c, StateBefore(c, t0, qs, i - 1), qs[i - 1])
  }

  predicate Accepted(c: Limits, t0: real, qs: seq<Request>, i: nat)
    requires i < |qs|
  {
    Answer(c, StateBefore(c, t0, qs, i), qs[i]).Admitted?
  }

  predicate PassesGlobal(c: Limits, t0: real, qs: seq<Request>, i: nat)
    requires i < |qs|
  {
    Decide(c.global, StateBefore(c, t0, qs, i).global, qs[i].at).Admitted?
  }

  /** The times at which the key's own bucket is asked, among the first i requests. */
  function KeyTimes(c: Limits, t0: real, qs: seq<Request>, key: string, i: nat): seq<real>
    requires i <= |qs|
  {
    if i == 0 then []
    else if qs[i - 1].key == key && PassesGlobal(c, t0, qs, i - 1)
    then KeyTimes(c, t0, qs, key, i - 1) + [qs[i - 1].at]
    else KeyTimes(c, t0, qs, key, i - 1)
  }

  /** Whose requests are counted: those of one key, or all. */
  datatype Whose = One(key: string) | All {
    predicate Counts(q: Request) { All? || q.key == key }
  }

  function Accepts(c: Limits, t0: real, qs: seq<Request>): (d: seq<bool>)
    ensures |d| == |qs|
  {
    seq(|qs|, i requires 0 <= i < |qs| => Accepted(c, t0, qs, i))
  }

  /** Accepted requests among the first i, in the window [a, b]. */
  function AcceptedIn(d: seq<bool>, qs: seq<Request>, who: Whose, a: real, b: real, i: nat): nat
    requires i <= |qs| == |d|
  {
    if i == 0 then 0
    else
      AcceptedIn(d, qs, who, a, b, i - 1)
      + if d[i - 1] && who.Counts(qs[i - 1]) && a <= qs[i - 1].at <= b then 1 else 0
  }

  /** The limiter's global bucket runs as if alone on the times of all requests, accepted by their key or not. */
  lemma {:induction false} GlobalRunsAlone(c: Limits, t0: real, qs: seq<Request>, i: nat)
    requires i <= |qs|
    ensures StateBefore(c, t0, qs, i).global == StateAt(c.global, t0, Times(qs), i)
  {
    if i > 0 { GlobalRunsAlone(c, t0, qs, i - 1); }
  }

  lemma {:induction false} RunPrefix(l: Limit, t0: real, ts: seq<real>, t: real, i: nat)
    requires i <= |ts|
    ensures StateAt(l, t0, ts + [t], i) == StateAt(l, t0, ts, i)
  {
    if i > 0 { RunPrefix(l, t0, ts, t, i - 1); }
  }

  ghost predicate KeyAlone(c: Limits, t0: real, qs: seq<Request>, key: string, i: nat)
    requires i <= |qs|
  {
    var ts, keys := KeyTimes(c, t0, qs, key, i), StateBefore(c, t0, qs, i).keys;
    (key in keys <==> ts != []) && (ts != [] ==> keys[key] == StateAt(c.perKey, ts[0], ts, |ts|))
  }

  lemma KeyAloneStep(c: Limits, t0: real, qs: seq<Request>, key: string, i: nat)
    requires i < |qs| && KeyAlone(c, t0, qs, key, i)
    ensures KeyAlone(c, t0, qs, key, i + 1)
  {
    var ts, q := KeyTimes(c, t0, qs, key, i), qs[i];
    if q.key == key && PassesGlobal(c, t0, qs, i) {
      RunPrefix(c.perKey, if ts == [] then q.at else ts[0], ts, q.at, |ts|);
    }
  }

  lemma {:induction false} KeyAloneReached(c: Limits, t0: real, qs: seq<Request>, key: string, i: nat) returns (n: nat)
    requires i <= |qs|
    ensures n == i && KeyAlone(c, t0, qs, key, n)
  {
    n := 0;
    if i > 0 {
      n := KeyAloneReached(c, t0, qs, key, i - 1);
      KeyAloneStep(c, t0, qs, key, n);
      n := n + 1;
    }
  }

  /** A key's bucket exists once it was asked, and runs as if alone from that moment. */
  lemma KeyRunsAlone(c: Limits, t0: real, qs: seq<Request>, key: string, i: nat)
    requires i <= |qs|
    ensures
      var ts, keys := KeyTimes(c, t0, qs, key, i), StateBefore(c, t0, qs, i).keys;
      (key in keys <==> ts != []) && (ts != [] ==> keys[key] == StateAt(c.perKey, ts[0], ts, |ts|))
  {
    var _ := KeyAloneReached(c, t0, qs, key, i);
  }

  lemma {:induction false} KeyTimesOrdered(c: Limits, t0: real, qs: seq<Request>, key: string, i: nat)
    requires Run(t0, qs) && i <= |qs|
    ensures
      var ts := KeyTimes(c, t0, qs, key, i);
      ts != [] ==> Ordered(ts[0], ts) && i > 0 && ts[|ts| - 1] <= Times(qs)[i - 1]
  {
    if i > 0 { KeyTimesOrdered(c, t0, qs, key, i - 1); }
  }

  lemma {:induction false} CountInPrefix(ts: seq<real>, d: seq<bool>, t: real, x: bool, a: real, b: real, i: nat)
    requires i <= |ts| == |d|
    ensures CountIn(ts + [t], d + [x], a, b, i) == CountIn(ts, d, a, b, i)
  {
    if i > 0 { CountInPrefix(ts, d, t, x, a, b, i - 1); }
  }

  lemma DecisionsGrow(l: Limit, t0: real, ts: seq<real>, t: real)
    ensures Decisions(l, t0, ts + [t]) == Decisions(l, t0, ts) + [AdmitsAt(l, t0, ts + [t], |ts|)]
  {
    forall i | 0 <= i < |ts|
      ensures AdmitsAt(l, t0, ts + [t], i) == AdmitsAt(l, t0, ts, i)
    {
      RunPrefix(l, t0, ts, t, i);
    }
  }

  lemma WindowGrows(l: Limit, t0: real, ts: seq<real>, t: real, a: real, b: real)
    ensures CountIn(ts + [t], Decisions(l, t0, ts + [t]), a, b, |ts| + 1) ==
      CountIn(ts, Decisions(l, t0, ts), a, b, |ts|) + if AdmitsAt(l, t0, ts + [t], |ts|) && a <= t <= b then 1 else 0
  {
    DecisionsGrow(l, t0, ts, t);
    CountInPrefix(ts, Decisions(l, t0, ts), t, AdmitsAt(l, t0, ts + [t], |ts|), a, b, |ts|);
  }

  function StartOf(ts: seq<real>, otherwise: real): real {
    if ts == [] then otherwise else ts[0]
  }

  /** What the key's own bucket admits in a window. */
  function KeyCount(c: Limits, t0: real, qs: seq<Request>, key: string, a: real, b: real, i: nat): nat
    requires i <= |qs|
  {
    var ts := KeyTimes(c, t0, qs, key, i);
    CountIn(ts, Decisions(c.perKey, StartOf(ts, t0), ts), a, b, |ts|)
  }

  lemma KeyDecision(c: Limits, t0: real, qs: seq<Request>, i: nat)
    requires i < |qs| && PassesGlobal(c, t0, qs, i)
    ensures
      var ts, at := KeyTimes(c, t0, qs, qs[i].key, i), qs[i].at;
      Accepted(c, t0, qs, i) <==> AdmitsAt(c.perKey, StartOf(ts, at), ts + [at], |ts|)
  {
    var ts, at := KeyTimes(c, t0, qs, qs[i].key, i), qs[i].at;
    KeyRunsAlone(c, t0, qs, qs[i].key, i);
    RunPrefix(c.perKey, StartOf(ts, at), ts, at, |ts|);
  }

  /** How the key's count grows with a request. */
  lemma KeyCountGrows(c: Limits, t0: real, qs: seq<Request>, key: string, a: real, b: real, i: nat)
    requires i < |qs|
    ensures KeyCount(c, t0, qs, key, a, b, i + 1)
            == KeyCount(c, t0, qs, key, a, b, i)
               + if Accepted(c, t0, qs, i) && qs[i].key == key && a <= qs[i].at <= b then 1 else 0
  {
    if qs[i].key == key && PassesGlobal(c, t0, qs, i) {
      var ts, at := KeyTimes(c, t0, qs, qs[i].key, i), qs[i].at;
      KeyDecision(c, t0, qs, i);
      WindowGrows(c.perKey, StartOf(ts, at), ts, at, a, b);
      StartStays(c.perKey, t0, ts, at, a, b);
    }
  }

  lemma StartStays(l: Limit, t0: real, ts: seq<real>, at: real, a: real, b: real)
    ensures StartOf(ts + [at], t0) == StartOf(ts, at)
    ensures CountIn(ts, Decisions(l, StartOf(ts, at), ts), a, b, |ts|)
            == CountIn(ts, Decisions(l, StartOf(ts, t0), ts), a, b, |ts|)
  {
  }

  /** Counts that start at zero and grow with each accepted request of the key are their number. */
  lemma {:induction false} CountsUp(d: seq<bool>, qs: seq<Request>, key: string, a: real, b: real,
                                    counts: seq<nat>, i: nat)
    requires i <= |qs| == |d| && |counts| == |d| + 1 && counts[0] == 0
    requires forall k {:trigger d[k]} :: 0 <= k < |d| ==>
      counts[k + 1] == counts[k] + if d[k] && qs[k].key == key && a <= qs[k].at <= b then 1 else 0
    ensures AcceptedIn(d, qs, One(key), a, b, i) == counts[i]
  {
    if i > 0 {
      CountsUp(d, qs, key, a, b, counts, i - 1);
      var _ := d[i - 1];
    }
  }

  function KeyCounts(c: Limits, t0: real, qs: seq<Request>, key: string, a: real, b: real): (counts: seq<nat>)
    ensures |counts| == |qs| + 1
  {
    seq(|qs| + 1, i requires 0 <= i <= |qs| => KeyCount(c, t0, qs, key, a, b, i))
  }

  lemma KeyCountsGrow(c: Limits, t0: real, qs: seq<Request>, key: string, a: real, b: real)
    ensures
      var d, counts := Accepts(c, t0, qs), KeyCounts(c, t0, qs, key, a, b);
      counts[0] == 0
      && forall k {:trigger d[k]} :: 0 <= k < |d| ==>
           counts[k + 1] == counts[k] + if d[k] && qs[k].key == key && a <= qs[k].at <= b then 1 else 0
  {
    forall k | 0 <= k < |qs|
      ensures KeyCount(c, t0, qs, key, a, b, k + 1)
              == KeyCount(c, t0, qs, key, a, b, k)
                 + if Accepts(c, t0, qs)[k] && qs[k].key == key && a <= qs[k].at <= b then 1 else 0
    {
      KeyCountGrows(c, t0, qs, key, a, b, k);
    }
  }

  /** The requests of a key that the limiter accepts are exactly those that the key's own bucket admits. */
  lemma KeyAcceptance(c: Limits, t0: real, qs: seq<Request>, key: string, a: real, b: real, i: nat)
    requires i <= |qs|
    ensures AcceptedIn(Accepts(c, t0, qs), qs, One(key), a, b, i) == KeyCount(c, t0, qs, key, a, b, i)
  {
    KeyCountsGrow(c, t0, qs, key, a, b);
    CountsUp(Accepts(c, t0, qs), qs, key, a, b, KeyCounts(c, t0, qs, key, a, b), i);
  }

  lemma {:induction false} GlobalAcceptance(c: Limits, t0: real, qs: seq<Request>, a: real, b: real, i: nat)
    requires i <= |qs|
    ensures AcceptedIn(Accepts(c, t0, qs), qs, All, a, b, i)
            <= CountIn(Times(qs), Decisions(c.global, t0, Times(qs)), a, b, i)
  {
    if i > 0 {
      GlobalAcceptance(c, t0, qs, a, b, i - 1);
      GlobalRunsAlone(c, t0, qs, i - 1);
    }
  }

  /** However keys interleave, no window of real time sees more accepted requests than the global limit allows,
      nor more of one key than the per-key limit allows. */
  lemma LimiterBound(c: Limits, t0: real, qs: seq<Request>, key: string, a: real, b: real)
    requires c.perKey.Valid() && c.global.Valid() && Run(t0, qs) && a <= b
    ensures AcceptedIn(Accepts(c, t0, qs), qs, All, a, b, |qs|) as real
            <= c.global.burst + (c.global.credit(b) - c.global.credit(a))
    ensures AcceptedIn(Accepts(c, t0, qs), qs, One(key), a, b, |qs|) as real
            <= c.perKey.burst + (c.perKey.credit(b) - c.perKey.credit(a))
  {
    GlobalAcceptance(c, t0, qs, a, b, |qs|);
    BucketWindowBound(c.global, t0, Times(qs), a, b);
    KeyAcceptance(c, t0, qs, key, a, b, |qs|);
    var ts := KeyTimes(c, t0, qs, key, |qs|);
    if ts != [] {
      KeyTimesOrdered(c, t0, qs, key, |qs|);
      BucketWindowBound(c.perKey, ts[0], ts, a, b);
    }
  }

  /** The bounds, given what the two limits earn in the window. */
  lemma LimiterBoundOf(c: Limits, t0: real, qs: seq<Request>, key: string, a: real, b: real, global: real, perKey: real)
    requires c.perKey.Valid() && c.global.Valid() && Run(t0, qs) && a <= b
    requires global == c.global.burst + (c.global.credit(b) - c.global.credit(a))
    requires perKey == c.perKey.burst + (c.perKey.credit(b) - c.perKey.credit(a))
    ensures AcceptedIn(Accepts(c, t0, qs), qs, All, a, b, |qs|) as real <= global
    ensures AcceptedIn(Accepts(c, t0, qs), qs, One(key), a, b, |qs|) as real <= perKey
  {
    LimiterBound(c, t0, qs, key, a, b);
  }

  lemma ConfiguredAllows(rpm: nat, burst: nat, a: real, length: real)
    requires 0.0 <= length
    ensures var l := Configured(rpm, burst);
            l.Valid() && burst as real + length * (rpm as real / 60.0) == l.burst + (l.credit(a + length) - l.credit(a))
  {
    ConfiguredValid(rpm, burst);
    ConfiguredEarns(rpm, burst, a, a + length, length);
  }

  lemma ConfiguredLimiterBound(c: Limits, perKeyRpm: nat, perKeyBurst: nat, globalRpm: nat, globalBurst: nat,
                               t0: real, qs: seq<Request>, key: string, a: real, length: real)
    requires c == Limits(Configured(perKeyRpm, perKeyBurst), Configured(globalRpm, globalBurst))
    requires Run(t0, qs) && 0.0 <= length
    ensures AcceptedIn(Accepts(c, t0, qs), qs, All, a, a + length, |qs|) as real
            <= globalBurst as real + length * (globalRpm as real / 60.0)
    ensures AcceptedIn(Accepts(c, t0, qs), qs, One(key), a, a + length, |qs|) as real
            <= perKeyBurst as real + length * (perKeyRpm as real / 60.0)
  {
    ConfiguredAllows(perKeyRpm, perKeyBurst, a, length);
    ConfiguredAllows(globalRpm, globalBurst, a, length);
    LimiterBoundOf(c, t0, qs, key, a, a + length,
                   globalBurst as real + length * (globalRpm as real / 60.0),
                   perKeyBurst as real + length * (perKeyRpm as real / 60.0));
  }

  // ----- Retry-After, as the limiter answers it -----

  /** The `Retry-After` value of a rejected request. */
  function RetryAfter(c: Limits, t0: real, qs: seq<Request>, i: nat): nat
    requires i < |qs|
  {
    match Answer(c, StateBefore(c, t0, qs, i), qs[i])
    case Admitted => 0
    case Rejected(secs) => secs
  }

  /** The key's own bucket would admit the request. */
  predicate KeyAdmits(c: Limits, t0: real, qs: seq<Request>, i: nat)
    requires i < |qs|
  {
    Decide(c.perKey, KeyLevel(c, StateBefore(c, t0, qs, i), qs[i]), qs[i].at).Admitted?
  }

  lemma BothBuckets(c: Limits, t0: real, qs: seq<Request>, i: nat)
    requires i < |qs|
    ensures Accepted(c, t0, qs, i) <==> PassesGlobal(c, t0, qs, i) && KeyAdmits(c, t0, qs, i)
  {
  }

  lemma GlobalDecision(c: Limits, t0: real, qs: seq<Request>, i: nat)
    requires i < |qs|
    ensures PassesGlobal(c, t0, qs, i) <==> AdmitsAt(c.global, t0, Times(qs), i)
    ensures !PassesGlobal(c, t0, qs, i) ==> RetryAfter(c, t0, qs, i) == RetryAt(c.global, t0, Times(qs), i)
  {
    GlobalRunsAlone(c, t0, qs, i);
  }

  /**
   * After a rejection by the global bucket, with no request past it since, waiting the promised seconds
   * gets a request past it exactly when the global limit refills and its burst is at least one; the
   * key's bucket then decides.
   */
  lemma GlobalRetry(c: Limits, rpm: nat, burst: nat, t0: real, qs: seq<Request>, i: nat, j: nat)
    requires c.global == Configured(rpm, burst) && Run(t0, qs) && i < j < |qs|
    requires forall k :: i <= k < j ==> !PassesGlobal(c, t0, qs, k)
    requires qs[j].at - qs[i].at >= RetryAfter(c, t0, qs, i) as real
    ensures PassesGlobal(c, t0, qs, j) <==> rpm >= 1 && burst >= 1
    ensures Accepted(c, t0, qs, j) <==> rpm >= 1 && burst >= 1 && KeyAdmits(c, t0, qs, j)
  {
    forall k | i <= k <= j
      ensures PassesGlobal(c, t0, qs, k) <==> AdmitsAt(c.global, t0, Times(qs), k)
    {
      GlobalDecision(c, t0, qs, k);
    }
    GlobalDecision(c, t0, qs, i);
    RetryAfterSound(rpm, burst, t0, Times(qs), i, j);
    BothBuckets(c, t0, qs, j);
  }

  /** What the key's bucket is asked from the request i on, when none of its requests since is accepted. */
  ghost predicate RefusedSince(c: Limits, t0: real, qs: seq<Request>, i: nat, j: nat)
    requires i <= j <= |qs| && i < |qs|
  {
    forall k :: i <= k < j && qs[k].key == qs[i].key ==> !Accepted(c, t0, qs, k)
  }

  ghost predicate RefusedRun(l: Limit, ts: seq<real>, n: nat) {
    n < |ts| && forall m :: n <= m < |ts| ==> !AdmitsAt(l, ts[0], ts, m)
  }

  lemma AdmitsPrefix(l: Limit, t0: real, ts: seq<real>, t: real, m: nat)
    requires m < |ts|
    ensures AdmitsAt(l, t0, ts + [t], m) == AdmitsAt(l, t0, ts, m)
    ensures RetryAt(l, t0, ts + [t], m) == RetryAt(l, t0, ts, m)
  {
    RunPrefix(l, t0, ts, t, m);
  }

  lemma RefusedFurther(l: Limit, ts: seq<real>, t: real, n: nat)
    requires RefusedRun(l, ts, n) && !AdmitsAt(l, ts[0], ts + [t], |ts|)
    ensures RefusedRun(l, ts + [t], n)
  {
    forall m | n <= m < |ts|
      ensures !AdmitsAt(l, ts[0], ts + [t], m)
    {
      AdmitsPrefix(l, ts[0], ts, t, m);
    }
  }

  /** The key's own run from its rejection at i up to, not including, j. */
  ghost predicate KeyRefused(c: Limits, t0: real, qs: seq<Request>, i: nat, j: nat)
    requires i < j <= |qs| && !Accepted(c, t0, qs, i)
  {
    var before, ts := KeyTimes(c, t0, qs, qs[i].key, i), KeyTimes(c, t0, qs, qs[i].key, j);
    RefusedRun(c.perKey, ts, |before|) && ts[|before|] == qs[i].at
    && RetryAt(c.perKey, ts[0], ts, |before|) == RetryAfter(c, t0, qs, i)
  }

  lemma FirstRefusal(c: Limits, t0: real, qs: seq<Request>, i: nat)
    requires i < |qs| && PassesGlobal(c, t0, qs, i) && !Accepted(c, t0, qs, i)
    ensures KeyRefused(c, t0, qs, i, i + 1)
  {
    var ts, at := KeyTimes(c, t0, qs, qs[i].key, i), qs[i].at;
    KeyDecision(c, t0, qs, i);
    KeyRunsAlone(c, t0, qs, qs[i].key, i);
    RunPrefix(c.perKey, StartOf(ts, at), ts, at, |ts|);
  }

  lemma NextRefusal(c: Limits, t0: real, qs: seq<Request>, i: nat, j: nat)
    requires i < j < |qs| && !Accepted(c, t0, qs, i) && KeyRefused(c, t0, qs, i, j)
    requires qs[j].key == qs[i].key ==> !Accepted(c, t0, qs, j)
    ensures KeyRefused(c, t0, qs, i, j + 1)
  {
    if qs[j].key == qs[i].key && PassesGlobal(c, t0, qs, j) {
      var n, ts, at := |KeyTimes(c, t0, qs, qs[i].key, i)|, KeyTimes(c, t0, qs, qs[i].key, j), qs[j].at;
      KeyDecision(c, t0, qs, j);
      RefusedFurther(c.perKey, ts, at, n);
      AdmitsPrefix(c.perKey, ts[0], ts, at, n);
    }
  }

  lemma {:induction false} RefusedRunOfKey(c: Limits, t0: real, qs: seq<Request>, i: nat, j: nat) returns (n: nat)
    requires i < j <= |qs| && PassesGlobal(c, t0, qs, i) && RefusedSince(c, t0, qs, i, j)
    ensures n == j && KeyRefused(c, t0, qs, i, n)
  {
    if j == i + 1 {
      FirstRefusal(c, t0, qs, i);
    } else {
      n := RefusedRunOfKey(c, t0, qs, i, j - 1);
      NextRefusal(c, t0, qs, i, n);
    }
    n := j;
  }

  /** The run of a key's bucket that ends with the request j is in order. */
  lemma KeyRunOrdered(c: Limits, t0: real, qs: seq<Request>, key: string, j: nat)
    requires Run(t0, qs) && j < |qs| && KeyTimes(c, t0, qs, key, j) != []
    ensures var ts := KeyTimes(c, t0, qs, key, j); Ordered(ts[0], ts + [qs[j].at])
  {
    KeyTimesOrdered(c, t0, qs, key, j);
    assert Times(qs)[j - 1] <= Times(qs)[j];
  }

  /**
   * After a rejection by the key's bucket, with none of the key's requests accepted since, a request the
   * promised seconds later is accepted exactly when the global bucket lets it through and the key's limit
   * refills and has a burst of at least one.
   */
  lemma KeyRetry(c: Limits, rpm: nat, burst: nat, t0: real, qs: seq<Request>, i: nat, j: nat)
    requires c.perKey == Configured(rpm, burst) && Run(t0, qs) && i < j < |qs| && qs[j].key == qs[i].key
    requires PassesGlobal(c, t0, qs, i) && RefusedSince(c, t0, qs, i, j)
    requires qs[j].at - qs[i].at >= RetryAfter(c, t0, qs, i) as real
    ensures Accepted(c, t0, qs, j) <==> PassesGlobal(c, t0, qs, j) && rpm >= 1 && burst >= 1
  {
    BothBuckets(c, t0, qs, j);
    if PassesGlobal(c, t0, qs, j) {
      var n := |KeyTimes(c, t0, qs, qs[i].key, i)|;
      var _ := RefusedRunOfKey(c, t0, qs, i, j);
      var ts, at := KeyTimes(c, t0, qs, qs[i].key, j), qs[j].at;
      KeyRunOrdered(c, t0, qs, qs[i].key, j);
      KeyDecision(c, t0, qs, j);
      RetryOfRun(rpm, burst, ts, at, n);
    }
  }

  lemma RefusedExtended(l: Limit, ts: seq<real>, at: real, n: nat)
    requires RefusedRun(l, ts, n)
    ensures forall m :: n <= m < |ts| ==> !AdmitsAt(l, ts[0], ts + [at], m)
    ensures RetryAt(l, ts[0], ts + [at], n) == RetryAt(l, ts[0], ts, n)
  {
    AdmitsPrefix(l, ts[0], ts, at, n);
    forall m | n <= m < |ts|
      ensures !AdmitsAt(l, ts[0], ts + [at], m)
    {
      AdmitsPrefix(l, ts[0], ts, at, m);
    }
  }

  lemma SoundAtEnd(rpm: nat, burst: nat, t0: real, all: seq<real>, n: nat, end: nat, waited: real, promised: nat)
    requires Ordered(t0, all) && n < end < |all|
    requires forall m :: n <= m < end ==> !AdmitsAt(Configured(rpm, burst), t0, all, m)
    requires promised == RetryAt(Configured(rpm, burst), t0, all, n)
    requires waited == all[end] - all[n] && waited >= promised as real
    ensures AdmitsAt(Configured(rpm, burst), t0, all, end) <==> rpm >= 1 && burst >= 1
  {
    RetryAfterSound(rpm, burst, t0, all, n, end);
  }

  lemma RetryOfRun(rpm: nat, burst: nat, ts: seq<real>, at: real, n: nat)
    requires RefusedRun(Configured(rpm, burst), ts, n) && Ordered(ts[0], ts + [at])
    requires at - ts[n] >= RetryAt(Configured(rpm, burst), ts[0], ts, n) as real
    ensures AdmitsAt(Configured(rpm, burst), ts[0], ts + [at], |ts|) <==> rpm >= 1 && burst >= 1
  {
    RefusedExtended(Configured(rpm, burst), ts, at, n);
    SoundAtEnd(rpm, burst, ts[0], ts + [at], n, |ts|, at - ts[n], RetryAt(Configured(rpm, burst), ts[0], ts, n));
  }

  // ----- what the two buckets decide, as bounds -----

  /** The global bound leaves room for request j: every request let through before it counts. */
  ghost predicate GlobalRoom(c: Limits, t0: real, qs: seq<Request>, j: nat)
    requires j < |qs|
  {
    HasRoom(c.global.burst, Earned(c.global, Times(qs)), Decisions(c.global, t0, Times(qs)), j)
  }

  /** The times at which the key's bucket was asked, and now. */
  function KeyAskings(c: Limits, t0: real, qs: seq<Request>, j: nat): (ts: seq<real>)
    requires j < |qs|
    ensures ts != []
  {
    KeyTimes(c, t0, qs, qs[j].key, j) + [qs[j].at]
  }

  /** The key's bound leaves room for request j: of its own requests those that were accepted count. */
  ghost predicate KeyRoom(c: Limits, t0: real, qs: seq<Request>, j: nat)
    requires j < |qs|
  {
    var ts := KeyAskings(c, t0, qs, j);
    HasRoom(c.perKey.burst, Earned(c.perKey, ts), Decisions(c.perKey, ts[0], ts), |ts| - 1)
  }

  lemma GlobalExact(c: Limits, t0: real, qs: seq<Request>, j: nat)
    requires c.global.Valid() && Run(t0, qs) && j < |qs|
    ensures PassesGlobal(c, t0, qs, j) == GlobalRoom(c, t0, qs, j)
  {
    GlobalDecision(c, t0, qs, j);
    AdmissionExact(c.global, t0, Times(qs), j);
  }

  lemma AskingsOrdered(c: Limits, t0: real, qs: seq<Request>, j: nat)
    requires Run(t0, qs) && j < |qs|
    ensures Ordered(KeyAskings(c, t0, qs, j)[0], KeyAskings(c, t0, qs, j))
  {
    if KeyTimes(c, t0, qs, qs[j].key, j) != [] {
      KeyRunOrdered(c, t0, qs, qs[j].key, j);
    }
  }

  lemma KeyAdmitsAt(c: Limits, t0: real, qs: seq<Request>, j: nat)
    requires j < |qs|
    ensures var ts := KeyAskings(c, t0, qs, j); KeyAdmits(c, t0, qs, j) == AdmitsAt(c.perKey, ts[0], ts, |ts| - 1)
  {
    var ts, at := KeyTimes(c, t0, qs, qs[j].key, j), qs[j].at;
    KeyRunsAlone(c, t0, qs, qs[j].key, j);
    RunPrefix(c.perKey, StartOf(ts, at), ts, at, |ts|);
  }

  lemma KeyExact(c: Limits, t0: real, qs: seq<Request>, j: nat)
    requires c.perKey.Valid() && Run(t0, qs) && j < |qs|
    ensures KeyAdmits(c, t0, qs, j) == KeyRoom(c, t0, qs, j)
  {
    AskingsOrdered(c, t0, qs, j);
    KeyAdmitsAt(c, t0, qs, j);
    var ts := KeyAskings(c, t0, qs, j);
    AdmissionExact(c.perKey, ts[0], ts, |ts| - 1);
  }

  /**
   * The limiter accepts a request exactly when accepting it breaks neither bound: the global one on no
   * window of requests that ends now, nor the key's on any window of its own.
   */
  lemma AcceptedExactly(c: Limits, t0: real, qs: seq<Request>, j: nat)
    requires c.perKey.Valid() && c.global.Valid() && Run(t0, qs) && j < |qs|
    ensures Accepted(c, t0, qs, j) == (GlobalRoom(c, t0, qs, j) && KeyRoom(c, t0, qs, j))
  {
    BothBuckets(c, t0, qs, j);
    GlobalExact(c, t0, qs, j);
    KeyExact(c, t0, qs, j);
  }

  /** The key's promise with its remaining condition in terms of the run's requests. */
  lemma KeyRetryExactly(c: Limits, rpm: nat, burst: nat, t0: real, qs: seq<Request>, i: nat, j: nat)
    requires c.perKey == Configured(rpm, burst) && c.global.Valid() && Run(t0, qs)
    requires i < j < |qs| && qs[j].key == qs[i].key && PassesGlobal(c, t0, qs, i) && RefusedSince(c, t0, qs, i, j)
    requires qs[j].at - qs[i].at >= RetryAfter(c, t0, qs, i) as real
    ensures Accepted(c, t0, qs, j) == (rpm >= 1 && burst >= 1 && GlobalRoom(c, t0, qs, j))
  {
    KeyRetry(c, rpm, burst, t0, qs, i, j);
    GlobalExact(c, t0, qs, j);
  }

  /** The global one's: what remains is the key's own bound. */
  lemma GlobalRetryExactly(c: Limits, rpm: nat, burst: nat, t0: real, qs: seq<Request>, i: nat, j: nat)
    requires c.global == Configured(rpm, burst) && c.perKey.Valid() && Run(t0, qs) && i < j < |qs|
    requires forall k :: i <= k < j ==> !PassesGlobal(c, t0, qs, k)
    requires qs[j].at - qs[i].at >= RetryAfter(c, t0, qs, i) as real
    ensures Accepted(c, t0, qs, j) == (rpm >= 1 && burst >= 1 && KeyRoom(c, t0, qs, j))
  {
    GlobalRetry(c, rpm, burst, t0, qs, i, j);
    KeyExact(c, t0, qs, j);
  }

  /** A second earlier no request gets past the global bucket. */
  lemma GlobalRetryTight(c: Limits, rpm: nat, burst: nat, t0: real, qs: seq<Request>, i: nat, j: nat)
    requires c.global == Configured(rpm, burst) && Run(t0, qs) && i <= j < |qs| && !PassesGlobal(c, t0, qs, i)
    requires qs[j].at - qs[i].at <= (RetryAfter(c, t0, qs, i) - 1) as real
    ensures !PassesGlobal(c, t0, qs, j) && !Accepted(c, t0, qs, j)
  {
    GlobalDecision(c, t0, qs, i);
    RetryAfterTight(rpm, burst, t0, Times(qs), i, j);
    GlobalDecision(c, t0, qs, j);
    BothBuckets(c, t0, qs, j);
  }

  lemma TightAtEnd(rpm: nat, burst: nat, ts: seq<real>, at: real, n: nat)
    requires RefusedRun(Configured(rpm, burst), ts, n) && Ordered(ts[0], ts + [at])
    requires at - ts[n] <= (RetryAt(Configured(rpm, burst), ts[0], ts, n) - 1) as real
    ensures !AdmitsAt(Configured(rpm, burst), ts[0], ts + [at], |ts|)
  {
    RefusedExtended(Configured(rpm, burst), ts, at, n);
    TightOn(rpm, burst, ts[0], ts + [at], n, |ts|, at - ts[n], RetryAt(Configured(rpm, burst), ts[0], ts, n));
  }

  lemma TightOn(rpm: nat, burst: nat, t0: real, all: seq<real>, n: nat, end: nat, waited: real, promised: nat)
    requires Ordered(t0, all) && n < end < |all| && !AdmitsAt(Configured(rpm, burst), t0, all, n)
    requires promised == RetryAt(Configured(rpm, burst), t0, all, n)
    requires waited == all[end] - all[n] && waited <= (promised - 1) as real
    ensures !AdmitsAt(Configured(rpm, burst), t0, all, end)
  {
    RetryAfterTight(rpm, burst, t0, all, n, end);
  }

  lemma StillRefused(c: Limits, rpm: nat, burst: nat, t0: real, qs: seq<Request>, i: nat, j: nat)
    requires c.perKey == Configured(rpm, burst) && Run(t0, qs) && i < j < |qs| && qs[j].key == qs[i].key
    requires PassesGlobal(c, t0, qs, i) && RefusedSince(c, t0, qs, i, j)
    requires qs[j].at - qs[i].at <= (RetryAfter(c, t0, qs, i) - 1) as real
    ensures !Accepted(c, t0, qs, j)
  {
    BothBuckets(c, t0, qs, j);
    if PassesGlobal(c, t0, qs, j) {
      var n := |KeyTimes(c, t0, qs, qs[i].key, i)|;
      var _ := RefusedRunOfKey(c, t0, qs, i, j);
      KeyRunOrdered(c, t0, qs, qs[i].key, j);
      KeyDecision(c, t0, qs, j);
      TightAtEnd(rpm, burst, KeyTimes(c, t0, qs, qs[i].key, j), qs[j].at, n);
    }
  }

  /** A second earlier none of the key's requests is accepted, however often it tries. */
  lemma {:induction false} KeyRetryTight(c: Limits, rpm: nat, burst: nat, t0: real, qs: seq<Request>, i: nat, j: nat)
    requires c.perKey == Configured(rpm, burst) && Run(t0, qs) && i < j <= |qs|
    requires PassesGlobal(c, t0, qs, i) && !Accepted(c, t0, qs, i)
    requires Times(qs)[j - 1] - qs[i].at <= (RetryAfter(c, t0, qs, i) - 1) as real
    ensures RefusedSince(c, t0, qs, i, j)
  {
    if j > i + 1 {
      assert Times(qs)[j - 2] <= Times(qs)[j - 1];
      KeyRetryTight(c, rpm, burst, t0, qs, i, j - 1);
      if qs[j - 1].key == qs[i].key {
        StillRefused(c, rpm, burst, t0, qs, i, j - 1);
      }
    }
  }

  // ----- two buckets, one promise -----

  /** A key with 60 requests a minute and a burst of 1, under a global limit of 1 a minute and a burst of 2. */
  const TIGHT := Limits(Configured(60, 1), Configured(1, 2))

  /** Two requests at once, and a third after the second's promised wait. */
  function Trio(key: string): seq<Request> {
    [Request(key, 0.0), Request(key, 0.0), Request(key, 1.0)]
  }

  lemma TrioRates()
    ensures TIGHT.perKey.credit(0.0) == 0.0 && TIGHT.global.credit(0.0) == 0.0
    ensures TIGHT.global.credit(1.0) == 1.0 / 60.0 && TIGHT.perKey.rate == 1.0
  {
  }

  lemma TrioOne(key: string)
    ensures Next(TIGHT, State(Level(2.0, 0.0), map[]), Request(key, 0.0))
            == State(Level(1.0, 0.0), map[key := Level(0.0, 0.0)])
    ensures Answer(TIGHT, State(Level(2.0, 0.0), map[]), Request(key, 0.0)).Admitted?
  {
    TrioRates();
  }

  lemma TrioTwo(key: string)
    ensures var s := State(Level(1.0, 0.0), map[key := Level(0.0, 0.0)]);
            Next(TIGHT, s, Request(key, 0.0)) == State(Level(0.0, 0.0), map[key := Level(0.0, 0.0)])
            && Answer(TIGHT, s, Request(key, 0.0)) == Rejected(1)
            && Decide(TIGHT.global, s.global, 0.0).Admitted?
  {
    TrioRates();
    assert RetrySecs(1.0, 1.0) == 1;
  }

  lemma TrioThree(key: string)
    ensures !Decide(TIGHT.global, Level(0.0, 0.0), 1.0).Admitted?
  {
    TrioRates();
  }

  /**
   * Both limits refill and both bursts are at least one, and still a request exactly the promised second
   * after the key's rejection is refused: by the global bucket, on which the rejected request was spent.
   */
  lemma PromiseBroken(key: string)
    ensures var qs := Trio(key);
            Run(0.0, qs) && Accepted(TIGHT, 0.0, qs, 0)
            && PassesGlobal(TIGHT, 0.0, qs, 1) && !Accepted(TIGHT, 0.0, qs, 1) && RetryAfter(TIGHT, 0.0, qs, 1) == 1
            && !Accepted(TIGHT, 0.0, qs, 2)
  {
    var qs := Trio(key);
    TrioOne(key);
    TrioTwo(key);
    TrioThree(key);
    assert StateBefore(TIGHT, 0.0, qs, 0) == State(Level(2.0, 0.0), map[]);
    assert StateBefore(TIGHT, 0.0, qs, 1) == State(Level(1.0, 0.0), map[key := Level(0.0, 0.0)]);
    assert StateBefore(TIGHT, 0.0, qs, 2) == State(Level(0.0, 0.0), map[key := Level(0.0, 0.0)]);
  }
}
