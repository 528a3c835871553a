/** The circuit breaker of src/providers/health.rs. Instants are milliseconds. */
module Health {
  import opened Base

  datatype HealthState = Healthy | Degraded | Down

  datatype ProviderHealth = ProviderHealth(
    status: HealthState, consecutiveFailures: nat, cooldownUntil: Option<nat>, lastFailure: Option<nat>)

  const DEFAULT := ProviderHealth(Healthy, 0, None, None)

  type Table = map<string, ProviderHealth>

  function Get(t: Table, provider: string): ProviderHealth {
    if provider in t then t[provider] else DEFAULT
  }

  datatype Breaker = Breaker(threshold: nat, cooldownSecs: nat) {
    function Cooldown(): nat { cooldownSecs * 1000 }
  }

  function AfterSuccess(h: ProviderHealth): ProviderHealth {
    h.(status := Healthy, consecutiveFailures := 0, cooldownUntil := None)
  }

  function AfterFailure(h: ProviderHealth, b: Breaker, now: nat): ProviderHealth {
    var h1 := h.(consecutiveFailures := h.consecutiveFailures + 1, lastFailure := Some(now));
    if h1.consecutiveFailures >= b.threshold then h1.(status := Down, cooldownUntil := Some(now + b.Cooldown())) else h1
  }

  predicate InCooldown(t: Table, provider: string, now: nat) {
    Get(t, provider).cooldownUntil.Some? && Get(t, provider).cooldownUntil.value > now
  }

  class HealthRegistry {
    var inner: Table

    constructor ()
      ensures inner == map[]
    {
      inner := map[];
    }

    method RecordSuccess(provider: string)
      modifies this
      ensures inner == old(inner)[provider := AfterSuccess(Get(old(inner), provider))]
    {
      var entry := if provider in inner then inner[provider] else DEFAULT;
      entry := entry.(status := Healthy);
      entry := entry.(consecutiveFailures := 0);
      entry := entry.(cooldownUntil := None);
      inner := inner[provider := entry];
    }

    method RecordFailure(provider: string, b: Breaker, now: nat)
      modifies this
      ensures inner == old(inner)[provider := AfterFailure(Get(old(inner), provider), b, now)]
    {
      var entry := if provider in inner then inner[provider] else DEFAULT;
      entry := entry.(consecutiveFailures := entry.consecutiveFailures + 1);
      entry := entry.(lastFailure := Some(now));
      if entry.consecutiveFailures >= b.threshold {
        entry := entry.(status := Down);
        entry := entry.(cooldownUntil := Some(now + b.cooldownSecs * 1000));
      }
      inner := inner[provider := entry];
    }

    method IsAvailable(provider: string, now: nat) returns (available: bool)
      ensures available == !InCooldown(inner, provider, now)
    {
      if provider !in inner { return true; }
      var until := inner[provider].cooldownUntil;
      available := !(until.Some? && until.value > now);
    }
  }

  // ----- Histories -----

  /** What happens to providers: adapter calls, recorded outcomes, and the waits before retries. A failure is recorded
      under the threshold and the cooldown of the request that meets it. */
  datatype Event =
    | Called(provider: string, at: nat)
    | Succeeded(provider: string)
    | Failed(provider: string, at: nat, breaker: Breaker)
    | Slept(ms: nat)

  function Apply(t: Table, e: Event): Table {
    match e
    case Succeeded(p) => t[p := AfterSuccess(Get(t, p))]
    case Failed(p, at, b) => t[p := AfterFailure(Get(t, p), b, at)]
    case _ => t
  }

  function ApplyAll(t: Table, log: seq<Event>): Table {
    if log == [] then t else Apply(ApplyAll(t, log[..|log| - 1]), log[|log| - 1])
  }

  /** The registry after a history, from an empty one. */
  function Replay(log: seq<Event>): Table {
    ApplyAll(map[], log)
  }

  lemma ApplyAllSnoc(t: Table, log: seq<Event>, e: Event)
    ensures ApplyAll(t, log + [e]) == Apply(ApplyAll(t, log), e)
  {
    assert (log + [e])[..|log|] == log;
  }

  lemma {:induction false} ApplyAllAppend(t: Table, a: seq<Event>, c: seq<Event>)
    ensures ApplyAll(t, a + c) == ApplyAll(ApplyAll(t, a), c)
    decreases |c|
  {
    if c == [] {
      assert a + c == a;
    } else {
      var n := |c| - 1;
      ApplyAllAppend(t, a, c[..n]);
      ApplyAllSnoc(t, a + c[..n], c[n]);
      assert a + c == a + c[..n] + [c[n]];
    }
  }

  /** Recorded failures of a provider since its last recorded success. */
  function Trailing(log: seq<Event>, provider: string): nat {
    if log == [] then 0
    else
      var before := Trailing(log[..|log| - 1], provider);
      match log[|log| - 1]
      case Succeeded(p) => if p == provider then 0 else before
      case Failed(p, _, _) => if p == provider then before + 1 else before
      case _ => before
  }

  function LastFailure(log: seq<Event>, provider: string): Option<nat> {
    if log == [] then None
    else match log[|log| - 1]
      case Failed(p, at, _) => if p == provider then Some(at) else LastFailure(log[..|log| - 1], provider)
      case _ => LastFailure(log[..|log| - 1], provider)
  }

  /** The end of the cooldown, by the history alone: a fixed time after the last failure that reached the threshold in
      force when it was recorded, unless a success came since. */
  function CoolsUntil(log: seq<Event>, provider: string): Option<nat> {
    if log == [] then None
    else
      var before := CoolsUntil(log[..|log| - 1], provider);
      match log[|log| - 1]
      case Succeeded(p) => if p == provider then None else before
      case Failed(p, at, b) =>
        if p == provider && Trailing(log, provider) >= b.threshold then Some(at + b.Cooldown()) else before
      case _ => before
  }

  /** What the registry says of a provider is what its history says, whatever thresholds were in force. */
  lemma {:induction false} StateIsHistory(log: seq<Event>, provider: string)
    ensures
      var h := Get(Replay(log), provider);
      && h.consecutiveFailures == Trailing(log, provider) && h.lastFailure == LastFailure(log, provider)
      && h.cooldownUntil == CoolsUntil(log, provider)
      && h.status == if CoolsUntil(log, provider).Some? then Down else Healthy
    decreases |log|
  {
    if log != [] { StateIsHistory(log[..|log| - 1], provider); }
  }

  /** The failure at k reached its threshold, and no success and no such failure of the provider came after it. */
  ghost predicate OpenedAt(log: seq<Event>, provider: string, k: nat) {
    && k < |log| && Opens(log, provider, k)
    && forall j :: k < j < |log| ==> log[j] != Succeeded(provider) && !Opens(log, provider, j)
  }

  ghost predicate Opens(log: seq<Event>, provider: string, k: nat)
    requires k < |log|
  {
    log[k].Failed? && log[k].provider == provider && Trailing(log[..k + 1], provider) >= log[k].breaker.threshold
  }

  lemma OpensBefore(log: seq<Event>, e: Event, provider: string, k: nat)
    requires k < |log|
    ensures Opens(log + [e], provider, k) == Opens(log, provider, k)
  {
    assert (log + [e])[..k + 1] == log[..k + 1];
  }

  lemma OpenedBefore(log: seq<Event>, e: Event, provider: string, k: nat)
    requires k < |log|
    ensures OpenedAt(log + [e], provider, k)
            <==> OpenedAt(log, provider, k) && e != Succeeded(provider) && !Opens(log + [e], provider, |log|)
  {
    var log' := log + [e];
    forall j | 0 <= j < |log|
      ensures Opens(log', provider, j) == Opens(log, provider, j) && log'[j] == log[j]
    {
      OpensBefore(log, e, provider, j);
    }
    if OpenedAt(log', provider, k) {
      assert log'[|log|] != Succeeded(provider) && !Opens(log', provider, |log|);
      forall j | k < j < |log|
        ensures log[j] != Succeeded(provider) && !Opens(log, provider, j)
      {
        assert log'[j] != Succeeded(provider) && !Opens(log', provider, j);
      }
    }
  }

  lemma CoolsStep(log: seq<Event>, provider: string)
    requires log != []
    ensures var n := |log| - 1;
            CoolsUntil(log, provider) ==
              if log[n] == Succeeded(provider) then None
              else if Opens(log, provider, n) then Some(log[n].at + log[n].breaker.Cooldown())
              else CoolsUntil(log[..n], provider)
  {
    LastOpens(log, provider);
  }

  lemma LastOpens(log: seq<Event>, provider: string)
    requires log != []
    ensures var e := log[|log| - 1];
            Opens(log, provider, |log| - 1)
            <==> e.Failed? && e.provider == provider && Trailing(log, provider) >= e.breaker.threshold
  {
    assert log[..|log|] == log;
  }

  /** A provider cools, and until when, exactly if such a failure is there. */
  lemma {:induction false} CoolsSince(log: seq<Event>, provider: string) returns (k: Option<nat>)
    ensures k.Some? ==> OpenedAt(log, provider, k.value)
    ensures forall j: nat :: OpenedAt(log, provider, j) ==> k == Some(j)
    ensures CoolsUntil(log, provider)
            == if k.Some? then Some(log[k.value].at + log[k.value].breaker.Cooldown()) else None
    decreases |log|
  {
    k := None;
    if log != [] {
      var n := |log| - 1;
      var before, e := log[..n], log[n];
      assert log == before + [e];
      CoolsStep(log, provider);
      forall j: nat | j < n
        ensures OpenedAt(log, provider, j)
                <==> OpenedAt(before, provider, j) && e != Succeeded(provider) && !Opens(log, provider, n)
      {
        OpenedBefore(before, e, provider, j);
      }
      if Opens(log, provider, n) {
        k := Some(n);
      } else if e != Succeeded(provider) {
        k := CoolsSince(before, provider);
      }
    }
  }

  /** All failures of the history were recorded under one breaker. */
  ghost predicate Under(b: Breaker, log: seq<Event>) {
    forall i :: 0 <= i < |log| && log[i].Failed? ==> log[i].breaker == b
  }

  /** What a breaker that is fixed should say of a provider. */
  ghost predicate Agrees(b: Breaker, log: seq<Event>, provider: string) {
    var h, n := Get(Replay(log), provider), Trailing(log, provider);
    && h.consecutiveFailures == n && h.lastFailure == LastFailure(log, provider)
    && (h.status == Down <==> n >= b.threshold)
    && (h.status == Healthy <==> n < b.threshold)
    && (h.cooldownUntil.Some? <==> n >= b.threshold)
    && (n > 0 ==> h.lastFailure.Some?)
    && (h.cooldownUntil.Some? ==> h.lastFailure.Some? && h.cooldownUntil.value == h.lastFailure.value + b.Cooldown())
  }

  lemma {:induction false} BreakerAgrees(b: Breaker, log: seq<Event>, provider: string)
    requires b.threshold >= 1 && Under(b, log)
    ensures Agrees(b, log, provider)
    decreases |log|
  {
    if log != [] {
      assert log[|log| - 1].Failed? ==> log[|log| - 1].breaker == b;
      BreakerAgrees(b, log[..|log| - 1], provider);
    }
  }

  /** Down, cooling and over the threshold are one thing on every history under one breaker exactly when its threshold
      is positive. */
  lemma ThresholdMatters(b: Breaker)
    ensures (forall log: seq<Event>, provider :: Under(b, log) ==> Agrees(b, log, provider)) <==> b.threshold >= 1
  {
    if b.threshold >= 1 {
      forall log: seq<Event>, provider | Under(b, log)
        ensures Agrees(b, log, provider)
      {
        BreakerAgrees(b, log, provider);
      }
    } else {
      assert Under(b, []) && !Agrees(b, [], "");
    }
  }

  /**
   * A provider whose cooldown has run out is still one failure away from the next, under any threshold it
   * has reached.
   */
  lemma Reopens(log: seq<Event>, b: Breaker, provider: string, at: nat)
    requires Trailing(log, provider) >= b.threshold
    ensures forall now: nat ::
              InCooldown(Replay(log + [Failed(provider, at, b)]), provider, now) <==> now < at + b.Cooldown()
  {
    var log' := log + [Failed(provider, at, b)];
    assert log'[..|log|] == log;
    StateIsHistory(log', provider);
  }

  /** Every adapter call in the history was made out of cooldown. */
  ghost predicate Honoured(log: seq<Event>) {
    if log == [] then true
    else
      var before, e := log[..|log| - 1], log[|log| - 1];
      Honoured(before) && (e.Called? ==> CallAllowed(before, e.provider, e.at))
  }

  ghost predicate CallAllowed(before: seq<Event>, provider: string, at: nat) {
    CoolsUntil(before, provider).Some? ==> at >= CoolsUntil(before, provider).value
  }

  lemma HonouredSnoc(log: seq<Event>, e: Event)
    requires Honoured(log)
    requires e.Called? ==> CallAllowed(log, e.provider, e.at)
    ensures Honoured(log + [e])
  {
    assert (log + [e])[..|log|] == log;
  }

  /** What that says of each call: it was allowed by all that came before it. */
  lemma {:induction false} EachCallAllowed(log: seq<Event>, k: nat)
    requires Honoured(log) && k < |log| && log[k].Called?
    ensures CallAllowed(log[..k], log[k].provider, log[k].at)
  {
    var n := |log| - 1;
    if k < n {
      EachCallAllowed(log[..n], k);
      assert log[..n][..k] == log[..k];
    }
  }

  /** The check before a call makes the call allowed, then or later. */
  lemma CheckedCall(log: seq<Event>, provider: string, checkedAt: nat, at: nat)
    requires checkedAt <= at
    requires !InCooldown(Replay(log), provider, checkedAt)
    ensures CallAllowed(log, provider, at)
  {
    StateIsHistory(log, provider);
  }
}
