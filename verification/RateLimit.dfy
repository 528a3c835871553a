/** The token bucket of src/ratelimit.rs. Time is a real number of seconds and `f64` is `real`. */
module TokenBucket {

  const U64_MAX: nat := 0xFFFF_FFFF_FFFF_FFFF

  /** What a caller passes to a bucket: tokens per second and the burst. `credit(t)` is what the rate has earned
      by the instant t, counted from the origin of time. */
  datatype Limit = Limit(rate: real, burst: real, credit: real -> real) {
    ghost predicate Valid() {
      0.0 <= burst && forall x, y {:trigger credit(x), credit(y)} :: x <= y ==> credit(x) <= credit(y)
    }
  }

  function Linear(rate: real, burst: real): Limit {
    Limit(rate, burst, (t: real) => t * rate)
  }

  /** The limit for a configured refill per minute and burst, both unsigned integers in the source. */
  function Configured(rpm: nat, burst: nat): Limit {
    Linear(rpm as real / 60.0, burst as real)
  }

  /** The two fields of a bucket. */
  datatype Level = Level(tokens: real, last: real)

  datatype Verdict = Admitted | Rejected(retryAfter: nat)

  function Ceil(x: real): int { -((-x).Floor) }

  function Min(a: real, b: real): real { if a <= b then a else b }

  /** The tokens in the bucket at `now`, after the lazy refill. A clock that runs backwards counts as no time at all. */
  function Available(l: Limit, b: Level, now: real): real {
    Min(b.tokens + (if now < b.last then 0.0 else l.credit(now) - l.credit(b.last)), l.burst)
  }

  /** The `Retry-After` value: `need / rate` rounded up, cast to u64 with saturation, and at least 1. */
  function RetrySecs(need: real, rate: real): nat {
    var secs := if rate <= 0.0 then U64_MAX else Ceil(need / rate);
    if secs < 1 then 1 else if secs > U64_MAX then U64_MAX else secs
  }

  function Spend(l: Limit, b: Level, now: real): Level {
    var tokens := Available(l, b, now);
    Level(if tokens >= 1.0 then tokens - 1.0 else tokens, now)
  }

  function Decide(l: Limit, b: Level, now: real): Verdict {
    var tokens := Available(l, b, now);
    if tokens >= 1.0 then Admitted else Rejected(RetrySecs(1.0 - tokens, l.rate))
  }

  class Bucket {
    var tokens: real
    var lastRefill: real

    function Abstract(): Level
      reads this
    {
      Level(tokens, lastRefill)
    }

    constructor (burst: real, now: real)
      ensures Abstract() == Level(burst, now)
    {
      tokens := burst;
      lastRefill := now;
    }

    method TryConsume(refillPerSec: real, burst: real, now: real) returns (v: Verdict)
      modifies this
      ensures Abstract() == Spend(Linear(refillPerSec, burst), old(Abstract()), now)
      ensures v == Decide(Linear(refillPerSec, burst), old(Abstract()), now)
    {
      var elapsed := if now < lastRefill then 0.0 else now - lastRefill;
      var refilled := tokens + elapsed * refillPerSec;
      ScaleSub(refillPerSec, now, lastRefill);
      tokens := if refilled <= burst then refilled else burst;
      lastRefill := now;
      if tokens >= 1.0 {
        tokens := tokens - 1.0;
        v := Admitted;
      } else {
        var need := 1.0 - tokens;
        var secs := if refillPerSec <= 0.0 then U64_MAX else Ceil(need / refillPerSec);
        v := Rejected(if secs < 1 then 1 else if secs > U64_MAX then U64_MAX else secs);
      }
    }
  }

  // ----- Runs: one bucket, created full at t0, asked at the times ts -----

  ghost predicate Ordered(t0: real, ts: seq<real>) {
    && (forall i :: 0 <= i < |ts| ==> t0 <= ts[i])
    && forall i, j :: 0 <= i <= j < |ts| ==> ts[i] <= ts[j]
  }

  /** The bucket before request i. */
  function StateAt(l: Limit, t0: real, ts: seq<real>, i: nat): Level
    requires i <= |ts|
  {
    if i == 0 then Level(l.burst, t0)
    else Spend(l, StateAt(l, t0, ts, i - 1), ts[i - 1])
  }

  function TokensAt(l: Limit, t0: real, ts: seq<real>, i: nat): real
    requires i < |ts|
  {
    Available(l, StateAt(l, t0, ts, i), ts[i])
  }

  predicate AdmitsAt(l: Limit, t0: real, ts: seq<real>, i: nat)
    requires i < |ts|
  {
    TokensAt(l, t0, ts, i) >= 1.0
  }

  function RetryAt(l: Limit, t0: real, ts: seq<real>, i: nat): nat
    requires i < |ts|
  {
    RetrySecs(1.0 - TokensAt(l, t0, ts, i), l.rate)
  }

  /** The decisions the bucket takes over the run. */
  function Decisions(l: Limit, t0: real, ts: seq<real>): (d: seq<bool>)
    ensures |d| == |ts| && forall i :: 0 <= i < |d| ==> d[i] == AdmitsAt(l, t0, ts, i)
  {
    seq(|ts|, i requires 0 <= i < |ts| => AdmitsAt(l, t0, ts, i))
  }

  /** The credit earned by the time of each request, counted from the origin of time. */
  function Earned(l: Limit, ts: seq<real>): (e: seq<real>)
    ensures |e| == |ts| && forall i :: 0 <= i < |e| ==> e[i] == l.credit(ts[i])
  {
    seq(|ts|, i requires 0 <= i < |ts| => l.credit(ts[i]))
  }

  /** How many of the first i requests the decisions d admit. */
  function Count(d: seq<bool>, i: nat): nat
    requires i <= |d|
  {
    if i == 0 then 0 else Count(d, i - 1) + if d[i - 1] then 1 else 0
  }

  /** What the burst-plus-rate bound still leaves, at request i, of the window that starts at request k. */
  function Room(burst: real, earned: seq<real>, d: seq<bool>, k: nat, i: nat): real
    requires k <= i < |earned| == |d|
  {
    burst + (earned[i] - earned[k]) - (Count(d, i) - Count(d, k)) as real
  }

  /** The bound leaves room for request i on every window that ends with it. */
  ghost predicate HasRoom(burst: real, earned: seq<real>, d: seq<bool>, i: nat)
    requires i < |earned| == |d|
  {
    forall k :: 0 <= k <= i ==> Room(burst, earned, d, k, i) >= 1.0
  }

  /** Decisions that break the bound on no window from one request to a later admitted one. */
  ghost predicate KeepsBound(burst: real, earned: seq<real>, d: seq<bool>) {
    |d| == |earned| && forall k, i :: 0 <= k <= i < |d| && d[i] ==> Room(burst, earned, d, k, i) >= 1.0
  }

  // ----- The run as a recurrence on earned credit -----

  ghost predicate Ascending(s: seq<real>) {
    forall i, j :: 0 <= i <= j < |s| ==> s[i] <= s[j]
  }

  /** Clamped earning and spending: tokens[i] is what request i finds, d[i] whether it takes one. */
  ghost predicate CreditRun(burst: real, earned: seq<real>, tokens: seq<real>, d: seq<bool>) {
    && 0.0 <= burst && |earned| == |tokens| == |d| && Ascending(earned)
    && (|tokens| > 0 ==> tokens[0] == burst)
    && (forall i :: 0 <= i < |d| ==> (d[i] <==> tokens[i] >= 1.0))
    && (forall i {:trigger Refilled(burst, earned, tokens, d, i)} ::
          0 < i < |tokens| ==> tokens[i] == Refilled(burst, earned, tokens, d, i))
  }

  ghost function Refilled(burst: real, earned: seq<real>, tokens: seq<real>, d: seq<bool>, i: nat): real
    requires 0 < i < |earned| == |tokens| == |d|
  {
    Min(tokens[i - 1] - (if d[i - 1] then 1.0 else 0.0) + (earned[i] - earned[i - 1]), burst)
  }

  function Tokens(l: Limit, t0: real, ts: seq<real>): (tokens: seq<real>)
    ensures |tokens| == |ts| && forall i :: 0 <= i < |tokens| ==> tokens[i] == TokensAt(l, t0, ts, i)
  {
    seq(|ts|, i requires 0 <= i < |ts| => TokensAt(l, t0, ts, i))
  }

  lemma ScaleSub(r: real, x: real, y: real)
    ensures (x - y) * r == x * r - y * r
  {
  }

  lemma LastRefill(l: Limit, t0: real, ts: seq<real>, i: nat)
    requires i <= |ts|
    ensures StateAt(l, t0, ts, i).last == if i == 0 then t0 else ts[i - 1]
  {
  }

  lemma BucketRunStep(l: Limit, t0: real, ts: seq<real>, i: nat)
    requires l.Valid() && Ordered(t0, ts) && 0 < i < |ts|
    ensures Tokens(l, t0, ts)[i] == Refilled(l.burst, Earned(l, ts), Tokens(l, t0, ts), Decisions(l, t0, ts), i)
  {
    LastRefill(l, t0, ts, i);
  }

  /** A bucket's run is the credit recurrence on time scaled by its rate. */
  lemma BucketRun(l: Limit, t0: real, ts: seq<real>)
    requires l.Valid() && Ordered(t0, ts)
    ensures CreditRun(l.burst, Earned(l, ts), Tokens(l, t0, ts), Decisions(l, t0, ts))
  {
    var e, tokens, d := Earned(l, ts), Tokens(l, t0, ts), Decisions(l, t0, ts);
    forall i | 0 < i < |ts|
      ensures tokens[i] == Refilled(l.burst, e, tokens, d, i)
    {
      BucketRunStep(l, t0, ts, i);
    }
  }

  // ----- Theory of the recurrence -----

  lemma RoomStep(burst: real, e: seq<real>, d: seq<bool>, k: nat, i: nat)
    requires k < i < |e| == |d|
    ensures Room(burst, e, d, k, i) ==
      Room(burst, e, d, k, i - 1) + (e[i] - e[i - 1]) - if d[i - 1] then 1.0 else 0.0
  {
  }

  lemma {:induction false} CreditExact(burst: real, e: seq<real>, tokens: seq<real>, d: seq<bool>, i: nat)
    returns (k: nat)
    requires CreditRun(burst, e, tokens, d) && i < |e|
    ensures forall k' :: 0 <= k' <= i ==> tokens[i] <= Room(burst, e, d, k', i)
    ensures k <= i && tokens[i] == Room(burst, e, d, k, i)
  {
    k := i;
    if i > 0 {
      var k0 := CreditExact(burst, e, tokens, d, i - 1);
      assert tokens[i] == Refilled(burst, e, tokens, d, i);
      forall k' | 0 <= k' < i
        ensures tokens[i] <= Room(burst, e, d, k', i)
      {
        RoomStep(burst, e, d, k', i);
      }
      if tokens[i] < burst {
        RoomStep(burst, e, d, k0, i);
        k := k0;
      }
    }
  }

  lemma FewerInWindow(burst: real, e: seq<real>, g: seq<bool>, d: seq<bool>, k: nat, n: nat)
    requires k <= n < |e| == |d| == |g|
    requires Room(burst, e, g, k, n) < Room(burst, e, d, k, n)
    ensures Count(d, n) - Count(d, k) < Count(g, n) - Count(g, k)
  {
  }

  lemma {:induction false} CreditOptimal(burst: real, e: seq<real>, tokens: seq<real>, g: seq<bool>,
                                         d: seq<bool>, i: nat)
    requires CreditRun(burst, e, tokens, g) && KeepsBound(burst, e, d) && i <= |e|
    ensures forall j :: 0 <= j <= i ==> Count(d, j) <= Count(g, j)
  {
    if i > 0 {
      CreditOptimal(burst, e, tokens, g, d, i - 1);
      var n := i - 1;
      if d[n] && !g[n] {
        var k := CreditExact(burst, e, tokens, g, n);
        FewerInWindow(burst, e, g, d, k, n);
      }
    }
  }

  lemma {:induction false} CreditCompose(burst: real, e: seq<real>, tokens: seq<real>, d: seq<bool>, i: nat, j: nat)
    requires CreditRun(burst, e, tokens, d) && i <= j < |e|
    requires forall k :: i <= k < j ==> !d[k]
    ensures tokens[j] == Min(tokens[i] + (e[j] - e[i]), burst)
  {
    if i < j {
      CreditCompose(burst, e, tokens, d, i, j - 1);
      assert tokens[j] == Refilled(burst, e, tokens, d, j);
    } else {
      CreditBounds(burst, e, tokens, d, i);
    }
  }

  lemma {:induction false} CreditBounds(burst: real, e: seq<real>, tokens: seq<real>, d: seq<bool>, i: nat)
    requires CreditRun(burst, e, tokens, d) && i < |e|
    ensures 0.0 <= tokens[i] <= burst
  {
    if i > 0 {
      CreditBounds(burst, e, tokens, d, i - 1);
      assert tokens[i] == Refilled(burst, e, tokens, d, i);
    }
  }

  // ----- What this says of a bucket -----

  /** The lazily refilled, clamped level is exactly the tightest of the window bounds. */
  lemma BucketExact(l: Limit, t0: real, ts: seq<real>, i: nat)
    requires l.Valid() && Ordered(t0, ts) && i < |ts|
    ensures forall k ::
              0 <= k <= i ==> TokensAt(l, t0, ts, i) <= Room(l.burst, Earned(l, ts), Decisions(l, t0, ts), k, i)
    ensures exists k ::
              0 <= k <= i && TokensAt(l, t0, ts, i) == Room(l.burst, Earned(l, ts), Decisions(l, t0, ts), k, i)
  {
    BucketRun(l, t0, ts);
    var k := CreditExact(l.burst, Earned(l, ts), Tokens(l, t0, ts), Decisions(l, t0, ts), i);
  }

  /** A request is admitted exactly when admitting it breaks the bound on no window that ends now. */
  lemma AdmissionExact(l: Limit, t0: real, ts: seq<real>, i: nat)
    requires l.Valid() && Ordered(t0, ts) && i < |ts|
    ensures AdmitsAt(l, t0, ts, i) == HasRoom(l.burst, Earned(l, ts), Decisions(l, t0, ts), i)
  {
    BucketExact(l, t0, ts, i);
  }

  lemma BucketKeepsBound(l: Limit, t0: real, ts: seq<real>)
    requires l.Valid() && Ordered(t0, ts)
    ensures KeepsBound(l.burst, Earned(l, ts), Decisions(l, t0, ts))
  {
    forall i | 0 <= i < |ts| { AdmissionExact(l, t0, ts, i); }
  }

  /** No decisions that keep the bound have admitted more, at any point of the run. */
  lemma BucketOptimal(l: Limit, t0: real, ts: seq<real>, d: seq<bool>, i: nat)
    requires l.Valid() && Ordered(t0, ts) && i <= |ts|
    requires KeepsBound(l.burst, Earned(l, ts), d)
    ensures Count(d, i) <= Count(Decisions(l, t0, ts), i)
  {
    BucketRun(l, t0, ts);
    CreditOptimal(l.burst, Earned(l, ts), Tokens(l, t0, ts), Decisions(l, t0, ts), d, i);
  }

  // ----- Windows with arbitrary real ends -----

  /** Admissions among the first i requests whose time lies in [a, b]. */
  function CountIn(ts: seq<real>, d: seq<bool>, a: real, b: real, i: nat): nat
    requires i <= |ts| == |d|
  {
    if i == 0 then 0 else CountIn(ts, d, a, b, i - 1) + if d[i - 1] && a <= ts[i - 1] <= b then 1 else 0
  }

  lemma CountMonotone(d: seq<bool>, i: nat, j: nat)
    requires i <= j <= |d|
    ensures Count(d, i) <= Count(d, j)
  {
  }

  lemma {:induction false} WindowEnds(ts: seq<real>, d: seq<bool>, a: real, b: real, i: nat) returns (k: nat, j: nat)
    requires i <= |ts| == |d| && CountIn(ts, d, a, b, i) > 0
    ensures k <= j < i && a <= ts[k] && ts[j] <= b && d[j]
    ensures CountIn(ts, d, a, b, i) <= Count(d, j) + 1 - Count(d, k)
  {
    var n := i - 1;
    if CountIn(ts, d, a, b, n) == 0 {
      k, j := n, n;
    } else {
      k, j := WindowEnds(ts, d, a, b, n);
      if d[n] && a <= ts[n] <= b {
        CountMonotone(d, j + 1, n);
        j := n;
      }
    }
  }

  lemma WindowBound(l: Limit, ts: seq<real>, d: seq<bool>, a: real, b: real)
    requires l.Valid() && a <= b
    requires |d| == |ts| && KeepsBound(l.burst, Earned(l, ts), d)
    ensures CountIn(ts, d, a, b, |ts|) as real <= l.burst + (l.credit(b) - l.credit(a))
  {
    if CountIn(ts, d, a, b, |ts|) > 0 {
      var k, j := WindowEnds(ts, d, a, b, |ts|);
      WindowRoom(l.burst, Earned(l, ts), d, k, j, CountIn(ts, d, a, b, |ts|));
    }
  }

  /** In any window of real time, at most the burst and what the rate earns in it are admitted. */
  lemma BucketWindowBound(l: Limit, t0: real, ts: seq<real>, a: real, b: real)
    requires l.Valid() && Ordered(t0, ts) && a <= b
    ensures CountIn(ts, Decisions(l, t0, ts), a, b, |ts|) as real <= l.burst + (l.credit(b) - l.credit(a))
  {
    BucketKeepsBound(l, t0, ts);
    WindowBound(l, ts, Decisions(l, t0, ts), a, b);
  }

  lemma WindowRoom(burst: real, e: seq<real>, d: seq<bool>, k: nat, j: nat, n: nat)
    requires KeepsBound(burst, e, d) && k <= j < |e| && d[j]
    requires n <= Count(d, j) + 1 - Count(d, k)
    ensures n as real <= burst + (e[j] - e[k])
  {
    assert Room(burst, e, d, k, j) >= 1.0;
  }

  /** The bound as a reader means it: every window of real time, wherever it starts and ends. */
  ghost predicate KeepsRealBound(l: Limit, ts: seq<real>, d: seq<bool>) {
    |d| == |ts|
    && forall a, b :: a <= b ==> CountIn(ts, d, a, b, |ts|) as real <= l.burst + (l.credit(b) - l.credit(a))
  }

  lemma {:induction false} CountInGrows(ts: seq<real>, d: seq<bool>, a: real, b: real, i: nat, j: nat)
    requires i <= j <= |ts| == |d|
    ensures CountIn(ts, d, a, b, i) <= CountIn(ts, d, a, b, j)
  {
    if i < j { CountInGrows(ts, d, a, b, i, j - 1); }
  }

  /** A window that holds the requests from k up to i counts all their admissions. */
  lemma {:induction false} WindowHolds(ts: seq<real>, d: seq<bool>, a: real, b: real, k: nat, i: nat)
    requires k <= i <= |ts| == |d| && forall m :: k <= m < i ==> a <= ts[m] <= b
    ensures Count(d, i) - Count(d, k) <= CountIn(ts, d, a, b, i)
  {
    if k < i { WindowHolds(ts, d, a, b, k, i - 1); }
  }

  lemma RequestWindow(l: Limit, t0: real, ts: seq<real>, d: seq<bool>, k: nat, i: nat)
    requires Ordered(t0, ts) && KeepsRealBound(l, ts, d) && k <= i < |ts| && d[i]
    ensures Room(l.burst, Earned(l, ts), d, k, i) >= 1.0
  {
    WindowHolds(ts, d, ts[k], ts[i], k, i + 1);
    CountInGrows(ts, d, ts[k], ts[i], i + 1, |ts|);
    assert CountIn(ts, d, ts[k], ts[i], |ts|) as real <= l.burst + (l.credit(ts[i]) - l.credit(ts[k]));
  }

  /** Windows that start at requests are enough: the two bounds are one. */
  lemma BoundsAgree(l: Limit, t0: real, ts: seq<real>, d: seq<bool>)
    requires l.Valid() && Ordered(t0, ts) && |d| == |ts|
    ensures KeepsRealBound(l, ts, d) <==> KeepsBound(l.burst, Earned(l, ts), d)
  {
    if KeepsRealBound(l, ts, d) {
      forall k, i | 0 <= k <= i < |d| && d[i]
        ensures Room(l.burst, Earned(l, ts), d, k, i) >= 1.0
      {
        RequestWindow(l, t0, ts, d, k, i);
      }
    }
    if KeepsBound(l.burst, Earned(l, ts), d) {
      forall a, b | a <= b
        ensures CountIn(ts, d, a, b, |ts|) as real <= l.burst + (l.credit(b) - l.credit(a))
      {
        WindowBound(l, ts, d, a, b);
      }
    }
  }

  /** The bucket keeps the bound in real time, and nothing that keeps it has admitted more at any point of the run. */
  lemma BucketOptimalInTime(l: Limit, t0: real, ts: seq<real>, d: seq<bool>, i: nat)
    requires l.Valid() && Ordered(t0, ts) && i <= |ts|
    ensures KeepsRealBound(l, ts, Decisions(l, t0, ts))
    ensures KeepsRealBound(l, ts, d) ==> Count(d, i) <= Count(Decisions(l, t0, ts), i)
  {
    BucketKeepsBound(l, t0, ts);
    BoundsAgree(l, t0, ts, Decisions(l, t0, ts));
    if KeepsRealBound(l, ts, d) {
      BoundsAgree(l, t0, ts, d);
      BucketOptimal(l, t0, ts, d, i);
    }
  }

  // ----- Retry-After -----

  lemma ConfiguredValid(rpm: nat, burst: nat)
    ensures Configured(rpm, burst).Valid()
    ensures rpm >= 1 ==> Configured(rpm, burst).rate >= 1.0 / 60.0
    ensures rpm == 0 ==> Configured(rpm, burst).rate == 0.0
  {
  }

  lemma DivBound(need: real, r: real, n: real)
    requires 0.0 < r
    ensures need / r <= n <==> need <= n * r
  {
  }

  /** The wait that is promised is the least whole number of seconds, from one up, that earns what is needed. */
  lemma RetryWindow(r: real, need: real, n: nat)
    requires r >= 1.0 / 60.0 && 0.0 < need <= 1.0
    ensures RetrySecs(need, r) <= n <==> n >= 1 && need <= n as real * r
  {
    DivBound(need, r, 60.0);
    DivBound(need, r, 0.0);
    DivBound(need, r, n as real);
    assert need <= 60.0 * r;
  }

  /** While requests are rejected nothing is spent, and the clamped refills of the probes compose into one. */
  lemma ProbesCompose(l: Limit, t0: real, ts: seq<real>, i: nat, j: nat)
    requires l.Valid() && Ordered(t0, ts) && i <= j < |ts|
    requires forall k :: i <= k < j ==> !AdmitsAt(l, t0, ts, k)
    ensures TokensAt(l, t0, ts, j) == Min(TokensAt(l, t0, ts, i) + (l.credit(ts[j]) - l.credit(ts[i])), l.burst)
    ensures 0.0 <= TokensAt(l, t0, ts, i) <= l.burst
  {
    BucketRun(l, t0, ts);
    var e, tokens, d := Earned(l, ts), Tokens(l, t0, ts), Decisions(l, t0, ts);
    CreditCompose(l.burst, e, tokens, d, i, j);
    CreditBounds(l.burst, e, tokens, d, i);
  }

  /** After a rejection and rejected probes, a request is admitted exactly when the credit earned since makes up
      a whole token and the bucket can hold one. */
  lemma AdmittedAfterWait(l: Limit, t0: real, ts: seq<real>, i: nat, j: nat)
    requires l.Valid() && Ordered(t0, ts) && i <= j < |ts|
    requires forall k :: i <= k < j ==> !AdmitsAt(l, t0, ts, k)
    ensures AdmitsAt(l, t0, ts, j) <==>
      l.burst >= 1.0 && 1.0 - TokensAt(l, t0, ts, i) <= l.credit(ts[j]) - l.credit(ts[i])
  {
    ProbesCompose(l, t0, ts, i, j);
  }

  lemma WaitIsEnough(r: real, need: real, waited: real, earned: real)
    requires r >= 1.0 / 60.0 && 0.0 < need <= 1.0
    requires waited >= RetrySecs(need, r) as real
    requires earned == waited * r
    ensures need <= earned
  {
  }

  lemma WaitIsShort(r: real, need: real, waited: real, earned: real)
    requires r >= 1.0 / 60.0 && 0.0 < need <= 1.0
    requires waited <= (RetrySecs(need, r) - 1) as real
    requires earned == waited * r
    ensures need > earned
  {
    var n := RetrySecs(need, r) - 1;
    if n == 0 {
      DivBound(need, r, 0.0);
    } else {
      RetryWindow(r, need, n);
      DivBound(need, r, n as real);
    }
    DivBound(need, r, waited);
  }

  lemma ConfiguredEarns(rpm: nat, burst: nat, s: real, t: real, elapsed: real)
    requires elapsed == t - s
    ensures Configured(rpm, burst).credit(t) - Configured(rpm, burst).credit(s) == elapsed * (rpm as real / 60.0)
  {
  }

  lemma BoundedBy(n: nat, burst: real, credit: real, earned: real)
    requires n as real <= burst + credit && credit == earned
    ensures n as real <= burst + earned
  {
  }

  /** The bound of the comments, burst + rate * length, in every window of every run of a configured bucket. */
  lemma ConfiguredWindowBound(rpm: nat, burst: nat, t0: real, ts: seq<real>, a: real, length: real)
    requires Ordered(t0, ts) && 0.0 <= length
    ensures CountIn(ts, Decisions(Configured(rpm, burst), t0, ts), a, a + length, |ts|) as real
            <= burst as real + length * (rpm as real / 60.0)
  {
    ConfiguredValid(rpm, burst);
    var l := Configured(rpm, burst);
    BucketWindowBound(l, t0, ts, a, a + length);
    ConfiguredEarns(rpm, burst, a, a + length, length);
    BoundedBy(CountIn(ts, Decisions(l, t0, ts), a, a + length, |ts|), l.burst,
              l.credit(a + length) - l.credit(a), length * (rpm as real / 60.0));
  }

  lemma RejectedNeeds(l: Limit, t0: real, ts: seq<real>, i: nat)
    requires l.Valid() && Ordered(t0, ts) && i < |ts| && !AdmitsAt(l, t0, ts, i)
    ensures 0.0 < 1.0 - TokensAt(l, t0, ts, i) <= 1.0
  {
    ProbesCompose(l, t0, ts, i, i);
  }

  lemma RetrySoundFor(l: Limit, t0: real, ts: seq<real>, i: nat, j: nat, waited: real, earned: real)
    requires l.Valid() && l.rate >= 1.0 / 60.0 && Ordered(t0, ts) && i < j < |ts|
    requires l.credit(ts[j]) - l.credit(ts[i]) == earned == waited * l.rate
    requires !AdmitsAt(l, t0, ts, i)
    requires forall k :: i <= k < j ==> !AdmitsAt(l, t0, ts, k)
    requires waited >= RetryAt(l, t0, ts, i) as real
    ensures AdmitsAt(l, t0, ts, j) <==> l.burst >= 1.0
  {
    RejectedNeeds(l, t0, ts, i);
    WaitIsEnough(l.rate, 1.0 - TokensAt(l, t0, ts, i), waited, earned);
    AdmittedAfterWait(l, t0, ts, i, j);
  }

  lemma RetryTightFor(l: Limit, t0: real, ts: seq<real>, i: nat, j: nat, waited: real, earned: real)
    requires l.Valid() && l.rate >= 1.0 / 60.0 && Ordered(t0, ts) && i < j < |ts|
    requires l.credit(ts[j]) - l.credit(ts[i]) == earned == waited * l.rate
    requires !AdmitsAt(l, t0, ts, i)
    requires forall k :: i <= k < j ==> !AdmitsAt(l, t0, ts, k)
    requires waited <= (RetryAt(l, t0, ts, i) - 1) as real
    ensures !AdmitsAt(l, t0, ts, j)
  {
    RejectedNeeds(l, t0, ts, i);
    WaitIsShort(l.rate, 1.0 - TokensAt(l, t0, ts, i), waited, earned);
    AdmittedAfterWait(l, t0, ts, i, j);
  }

  lemma NeverAgain(l: Limit, t0: real, ts: seq<real>, i: nat, j: nat)
    requires l.Valid() && Ordered(t0, ts) && i < j < |ts|
    requires l.credit(ts[j]) - l.credit(ts[i]) == 0.0
    requires !AdmitsAt(l, t0, ts, i)
    requires forall k :: i <= k < j ==> !AdmitsAt(l, t0, ts, k)
    ensures !AdmitsAt(l, t0, ts, j)
  {
    RejectedNeeds(l, t0, ts, i);
    AdmittedAfterWait(l, t0, ts, i, j);
  }

  /** A request made the promised time after a rejection, with only rejected probes between, is admitted exactly
      when the limit has a positive refill and a burst of at least one. */
  lemma RetryAfterSound(rpm: nat, burst: nat, t0: real, ts: seq<real>, i: nat, j: nat)
    requires Ordered(t0, ts) && i < j < |ts|
    requires forall k :: i <= k < j ==> !AdmitsAt(Configured(rpm, burst), t0, ts, k)
    requires ts[j] - ts[i] >= RetryAt(Configured(rpm, burst), t0, ts, i) as real
    ensures AdmitsAt(Configured(rpm, burst), t0, ts, j) <==> rpm >= 1 && burst >= 1
  {
    ConfiguredValid(rpm, burst);
    ConfiguredEarns(rpm, burst, ts[i], ts[j], ts[j] - ts[i]);
    if rpm >= 1 {
      RetrySoundFor(Configured(rpm, burst), t0, ts, i, j, ts[j] - ts[i], (ts[j] - ts[i]) * (rpm as real / 60.0));
    } else {
      NeverAgain(Configured(rpm, burst), t0, ts, i, j);
    }
  }

  lemma StillTooEarly(rpm: nat, burst: nat, t0: real, ts: seq<real>, i: nat, j: nat)
    requires Ordered(t0, ts) && i < j < |ts|
    requires forall k :: i <= k < j ==> !AdmitsAt(Configured(rpm, burst), t0, ts, k)
    requires ts[j] - ts[i] <= (RetryAt(Configured(rpm, burst), t0, ts, i) - 1) as real
    ensures !AdmitsAt(Configured(rpm, burst), t0, ts, j)
  {
    ConfiguredValid(rpm, burst);
    ConfiguredEarns(rpm, burst, ts[i], ts[j], ts[j] - ts[i]);
    if rpm >= 1 {
      RetryTightFor(Configured(rpm, burst), t0, ts, i, j, ts[j] - ts[i], (ts[j] - ts[i]) * (rpm as real / 60.0));
    } else {
      NeverAgain(Configured(rpm, burst), t0, ts, i, j);
    }
  }

  /** A second earlier no request is admitted, however often it is probed: Retry-After never exaggerates. */
  lemma {:induction false} RetryAfterTight(rpm: nat, burst: nat, t0: real, ts: seq<real>, i: nat, j: nat)
    requires Ordered(t0, ts) && i <= j < |ts|
    requires !AdmitsAt(Configured(rpm, burst), t0, ts, i)
    requires ts[j] - ts[i] <= (RetryAt(Configured(rpm, burst), t0, ts, i) - 1) as real
    ensures forall k :: i <= k <= j ==> !AdmitsAt(Configured(rpm, burst), t0, ts, k)
  {
    if i < j {
      RetryAfterTight(rpm, burst, t0, ts, i, j - 1);
      StillTooEarly(rpm, burst, t0, ts, i, j);
    }
  }
}
