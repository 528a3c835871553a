/**
 * How the program calls the fallback executor: the route of src/routing/selector.rs and
 * src/providers/registry.rs, and the plan, the resolver and the breaker that src/proxy/pipeline.rs
 * passes. The registry is its provider ids with the default models of their adapters; keys are not looked into.
 */
module Pipeline {
  import opened Base
  import opened Health
  import opened Fallback
  import opened Validate

  /** The registered providers, each with the default model of its adapter. */
  type Registry = map<string, string>

  datatype Route = Route(providerId: string, modelId: string)

  /** src/providers/registry.rs, split_model_ref: both halves must be there. */
  function SplitModelRef(ref: string): Option<Route> {
    var n := FirstSlash(ref);
    if n == |ref| || n == 0 || n + 1 == |ref| then None else Some(Route(ref[..n], ref[n + 1..]))
  }

  function RouteExplicit(registry: Registry, ref: string): Option<Route> {
    match SplitModelRef(ref)
    case None => None
    case Some(route) => if route.providerId in registry then Some(route) else None
  }

  function RouteTier(registry: Registry, tiers: map<string, Tier>, name: string): Option<Route> {
    if name !in tiers then None else RouteExplicit(registry, tiers[name].primary)
  }

  datatype Routed = NoProvider | NoKey | Ready(route: Route)

  /** A model named in the request goes before the tier's primary; the key is what was resolved for the route. */
  function RouteRequest(registry: Registry, tiers: map<string, Tier>, name: string, named: Option<string>, key: string)
    : Routed
  {
    match if named.Some? then RouteExplicit(registry, named.value) else RouteTier(registry, tiers, name)
    case None => NoProvider
    case Some(route) => if key == "" then NoKey else Ready(route)
  }

  /** The plan that a route becomes, with the fallbacks of the request's tier, if it is configured. */
  function PlanOf(cfg: Config, name: string, route: Route): Plan {
    Plan(route.providerId + "/" + route.modelId,
         if name in cfg.tiers then cfg.tiers[name].fallbacks else [],
         cfg.requestBudgetMs, cfg.maxRetryAfterMs)
  }

  /** A reference in the form provider/model, with neither half empty. */
  predicate TwoHalves(ref: string) {
    '/' in ref && ref[0] != '/' && '/' in ref[..|ref| - 1]
  }

  lemma {:induction false} FirstSlashIs(s: string)
    ensures FirstSlash(s) < |s| <==> '/' in s
    ensures s != [] ==> (FirstSlash(s) == 0 <==> s[0] == '/')
    ensures s != [] ==> (FirstSlash(s) < |s| - 1 <==> '/' in s[..|s| - 1])
  {
    if s != [] && s[0] != '/' {
      FirstSlashIs(s[1..]);
      if |s| > 1 { assert s[..|s| - 1] == [s[0]] + s[1..][..|s| - 2]; }
    }
  }

  /** A reference is routed exactly when it has two halves and the first names a registered provider. */
  lemma RoutedExactly(registry: Registry, ref: string)
    ensures RouteExplicit(registry, ref).Some? <==> TwoHalves(ref) && Head(ref) in registry
    ensures RouteExplicit(registry, ref).Some? ==>
              var route := RouteExplicit(registry, ref).value;
              route.providerId == Head(ref) && '/' !in route.providerId && route.providerId + "/" + route.modelId == ref
  {
    FirstSlashIs(ref);
  }

  ghost predicate Registers(registry: Registry, cfg: Config) {
    forall id :: id in registry <==> Known(cfg.providers, id)
  }

  /** Where a routed request goes: a streamed one straight to its adapter, any other through the executor. */
  datatype Path = Nowhere(why: Routed) | ToExecutor(route: Route) | ToStream(route: Route)

  function PathOf(routed: Routed, streamed: bool): Path {
    match routed
    case Ready(route) => if streamed then ToStream(route) else ToExecutor(route)
    case _ => Nowhere(routed)
  }

  /**
   * A request for a valid tier is routed exactly when a key is found and the tier's primary has two
   * halves, the first of them a configured provider; and it then reaches the executor exactly when it
   * is not streamed.
   */
  lemma TierReached(registry: Registry, cfg: Config, name: string, key: string, streamed: bool)
    requires Registers(registry, cfg) && name in cfg.tiers && ValidTier(cfg, cfg.tiers[name])
    ensures
      var routed, primary := RouteRequest(registry, cfg.tiers, name, None, key), cfg.tiers[name].primary;
      && (routed.Ready? <==> key != "" && TwoHalves(primary) && Known(cfg.providers, Head(primary)))
      && (routed.Ready? ==> routed.route.providerId + "/" + routed.route.modelId == primary)
      && (PathOf(routed, streamed).ToExecutor? <==> routed.Ready? && !streamed)
      && (PathOf(routed, streamed).ToStream? <==> routed.Ready? && streamed)
      && (routed.Ready? ==> PathOf(routed, streamed).route == routed.route)
  {
    RoutedExactly(registry, cfg.tiers[name].primary);
  }

  /**
   * A primary that is itself a provider id passes the validator, whether or not it has a slash; and a
   * request for its tier is routed to no provider, unless the id has two halves of which the first is
   * a provider too.
   */
  lemma ProviderIdSlips(registry: Registry, cfg: Config, name: string, key: string)
    requires Registers(registry, cfg) && name in cfg.tiers
    requires cfg.tiers[name].primary != "" && Known(cfg.providers, cfg.tiers[name].primary)
    ensures !TierWrong(cfg, cfg.tiers[name], PrimaryMissing) && !TierWrong(cfg, cfg.tiers[name], PrimaryUnknown)
    ensures RouteRequest(registry, cfg.tiers, name, None, key) == NoProvider
            <==> !TwoHalves(cfg.tiers[name].primary) || !Known(cfg.providers, Head(cfg.tiers[name].primary))
  {
    RoutedExactly(registry, cfg.tiers[name].primary);
  }

  /** The primary of a routed plan is split back into its route. */
  lemma FirstEntry(cfg: Config, registry: Registry, name: string, ref: string)
    requires RouteExplicit(registry, ref).Some?
    ensures var route := RouteExplicit(registry, ref).value;
            Chain(PlanOf(cfg, name, route))[0] == (route.providerId, route.modelId)
  {
    RoutedExactly(registry, ref);
    FirstSlashIs(ref);
  }

  /** References whose entry the executor attributes to a provider by name. */
  predicate Qualified(ref: string) {
    '/' in ref
  }

  lemma EntryProvider(ref: string)
    ensures SplitProviderModel(ref).0 == if Qualified(ref) then Head(ref) else "unknown"
  {
    FirstSlashIs(ref);
  }

  lemma FallbackEntry(cfg: Config, tier: Tier, plan: Plan, i: nat)
    requires ValidTier(cfg, tier) && plan.fallbacks == tier.fallbacks && i < |tier.fallbacks|
    ensures Known(cfg.providers, Chain(plan)[i + 1].0)
            <==> Qualified(tier.fallbacks[i]) || Known(cfg.providers, "unknown")
  {
    EntryProvider(tier.fallbacks[i]);
    assert tier.fallbacks[i] in tier.fallbacks;
    assert Known(cfg.providers, Head(tier.fallbacks[i]));
  }

  lemma EntriesRegistered(registry: Registry, chain: seq<(string, string)>, fallbacks: seq<string>)
    requires |chain| == 1 + |fallbacks| && chain[0].0 in registry
    requires forall i {:trigger fallbacks[i]} :: 0 <= i < |fallbacks| ==>
               (chain[i + 1].0 in registry <==> Qualified(fallbacks[i]) || "unknown" in registry)
    ensures (forall i :: 0 <= i < |chain| ==> chain[i].0 in registry)
            <==> "unknown" in registry || forall fb <- fallbacks :: Qualified(fb)
  {
    if forall i :: 0 <= i < |chain| ==> chain[i].0 in registry {
      forall fb | fb in fallbacks
        ensures Qualified(fb) || "unknown" in registry
      {
        var i :| 0 <= i < |fallbacks| && fallbacks[i] == fb;
        assert chain[i + 1].0 in registry;
      }
    } else {
      var i :| 0 <= i < |chain| && chain[i].0 !in registry;
      assert !Qualified(fallbacks[i - 1]) && fallbacks[i - 1] in fallbacks;
    }
  }

  /**
   * When the executor is reached, by a tier or by an explicit reference, every entry of the chain
   * names a registered provider exactly when every fallback of the tier has a slash, or a provider is
   * called "unknown".
   */
  lemma ChainConfigured(registry: Registry, cfg: Config, name: string, ref: string)
    requires Registers(registry, cfg) && name in cfg.tiers && ValidTier(cfg, cfg.tiers[name])
    requires RouteExplicit(registry, ref).Some?
    ensures var chain := Chain(PlanOf(cfg, name, RouteExplicit(registry, ref).value));
            (forall i :: 0 <= i < |chain| ==> chain[i].0 in registry)
            <==> "unknown" in registry || forall fb <- cfg.tiers[name].fallbacks :: Qualified(fb)
  {
    var plan, fallbacks := PlanOf(cfg, name, RouteExplicit(registry, ref).value), cfg.tiers[name].fallbacks;
    RoutedExactly(registry, ref);
    FirstEntry(cfg, registry, name, ref);
    forall i {:trigger fallbacks[i]} | 0 <= i < |fallbacks|
      ensures Chain(plan)[i + 1].0 in registry <==> Qualified(fallbacks[i]) || "unknown" in registry
    {
      FallbackEntry(cfg, cfg.tiers[name], plan, i);
    }
    EntriesRegistered(registry, Chain(plan), fallbacks);
  }

  /** A fallback in the form provider/model is the entry of that provider and model, in its place. */
  lemma FallbacksInOrder(cfg: Config, name: string, route: Route, i: nat, p: string, m: string)
    requires name in cfg.tiers && i < |cfg.tiers[name].fallbacks|
    requires cfg.tiers[name].fallbacks[i] == p + "/" + m && '/' !in p
    ensures |Chain(PlanOf(cfg, name, route))| == 1 + |cfg.tiers[name].fallbacks|
    ensures Chain(PlanOf(cfg, name, route))[i + 1] == (p, m)
  {
    SplitOf(p, m);
  }

  /**
   * The limits of the configuration are those of the walk: an entry is turned away by the budget exactly
   * when the time spent reaches it, and the one wait is a second and a half unless the configuration allows
   * less. The fixed wait that is configured changes nothing.
   */
  lemma LimitsConfigured(cfg: Config, name: string, route: Route, t: Table, entry: (string, string), w: Turn, r: Reply)
    requires r.Refused? && r.error.ProviderError? && r.error.status == 429
    ensures VerdictOf(PlanOf(cfg, name, route), t, entry, w).OverBudget? <==> w.elapsedMs >= cfg.requestBudgetMs
    ensures Pause(PlanOf(cfg, name, route), r)
            == if cfg.maxRetryAfterMs == 0 then []
               else [Slept(if cfg.maxRetryAfterMs < 1500 then cfg.maxRetryAfterMs else 1500)]
    ensures forall ms :: PlanOf(cfg.(fixedRetryWaitMs := ms), name, route) == PlanOf(cfg, name, route)
  {
  }

  /** A model that the request names goes before the tier's: it alone decides where the request is routed. */
  lemma NamedReached(registry: Registry, tiers: map<string, Tier>, name: string, ref: string, key: string)
    ensures
      var routed := RouteRequest(registry, tiers, name, Some(ref), key);
      && (routed == NoProvider <==> !TwoHalves(ref) || Head(ref) !in registry)
      && (routed == NoKey <==> TwoHalves(ref) && Head(ref) in registry && key == "")
      && (routed.Ready? ==> routed.route.providerId == Head(ref)
                            && routed.route.providerId + "/" + routed.route.modelId == ref)
  {
    RoutedExactly(registry, ref);
  }

  // ----- the resolver and the breaker that the executor is given -----

  /** A walk whose resolver is r: what it hands out at an entry is for the provider that r names. */
  ghost predicate Obeys(plan: Plan, ws: seq<Turn>, r: string -> Option<string>) {
    && Scripted(plan, ws)
    && forall i :: 0 <= i < |ws| ==> ObeysTurn(Chain(plan)[i].0, ws[i], r)
  }

  ghost predicate ObeysTurn(asked: string, w: Turn, r: string -> Option<string>) {
    && w.checkedAt <= w.calledAt
    && r(asked) == if w.handle.Some? then Some(w.handle.value.providerId) else None
  }

  ghost predicate AllObey(jobs: seq<Job>, r: string -> Option<string>) {
    forall i :: 0 <= i < |jobs| ==> Obeys(jobs[i].plan, jobs[i].ws, r)
  }

  /** All runs with the resolver r keep all breakers. */
  ghost predicate KeepsBreakers(r: string -> Option<string>) {
    forall jobs: seq<Job> :: AllScripted(jobs) && AllObey(jobs, r) ==> Honoured(RunLog(jobs))
  }

  /** It names no other provider than the one asked for; entries of a chain have no slash in their provider. */
  ghost predicate NamesNoOther(r: string -> Option<string>) {
    forall p :: '/' !in p ==> r(p) == None || r(p) == Some(p)
  }

  lemma EntriesAreSlashFree(plan: Plan, i: nat)
    requires i < |Chain(plan)|
    ensures '/' !in Chain(plan)[i].0
  {
  }

  lemma ObedientIsFaithful(r: string -> Option<string>, plan: Plan, ws: seq<Turn>)
    requires NamesNoOther(r) && Obeys(plan, ws, r)
    ensures Faithful(plan, ws)
  {
    forall i | 0 <= i < |ws|
      ensures FaithfulTurn(Chain(plan)[i], ws[i])
    {
      EntriesAreSlashFree(plan, i);
    }
  }

  lemma OneTimeOut(r: string -> Option<string>, p: string, c: string)
    requires r(p) == Some(c)
    ensures ObeysTurn(p, TimesOut(c), r)
  {
  }

  /** A plan that asks for p twice. */
  function Twice(p: string): Plan {
    Plan(p + "/" + "m", [p + "/" + "m"], 1, 0)
  }

  lemma TwiceAsks(p: string)
    requires '/' !in p
    ensures Chain(Twice(p))[0].0 == p && Chain(Twice(p))[1].0 == p
  {
    SplitOf(p, "m");
  }

  lemma {:induction false} SlashAfter(p: string, m: string)
    requires '/' !in p
    ensures FirstSlash(p + "/" + m) == |p|
  {
    if p != "" {
      SlashAfter(p[1..], m);
      assert (p + "/" + m)[1..] == p[1..] + "/" + m;
    }
  }

  lemma SplitOf(p: string, m: string)
    requires '/' !in p
    ensures SplitProviderModel(p + "/" + m) == (p, m)
  {
    SlashAfter(p, m);
    assert (p + "/" + m)[..|p|] == p && (p + "/" + m)[|p| + 1..] == m;
  }

  /** A resolver that names another provider makes two such entries call it while it cools. */
  lemma OtherNameBreaks(r: string -> Option<string>, p: string, c: string)
    requires '/' !in p && r(p) == Some(c) && c != p
    ensures !KeepsBreakers(r)
  {
    var plan, ws := Twice(p), [TimesOut(c), TimesOut(c)];
    var jobs := [Job(plan, Breaker(1, 60), ws)];
    TwiceAsks(p);
    OneTimeOut(r, p, c);
    assert Obeys(plan, ws, r);
    assert AllScripted(jobs) && AllObey(jobs, r);
    UnfaithfulResolver(plan, c);
  }

  /**
   * The executor keeps every breaker, in all runs with a resolver, whatever the thresholds of the
   * requests, exactly when the resolver names no other provider than the one it is asked for.
   */
  lemma ResolverExactly(r: string -> Option<string>)
    ensures KeepsBreakers(r) <==> NamesNoOther(r)
  {
    if NamesNoOther(r) {
      forall jobs: seq<Job> | AllScripted(jobs) && AllObey(jobs, r)
        ensures Honoured(RunLog(jobs))
      {
        forall i | 0 <= i < |jobs|
          ensures Faithful(jobs[i].plan, jobs[i].ws)
        {
          ObedientIsFaithful(r, jobs[i].plan, jobs[i].ws);
        }
        RunsHonourBreaker(jobs);
      }
    } else {
      var p :| '/' !in p && r(p) != None && r(p) != Some(p);
      OtherNameBreaks(r, p, r(p).value);
    }
  }

  // ----- as the program calls it -----

  /** The resolver of the pipeline: the adapter that is registered under the very name, with its default model. */
  function Resolve(registry: Registry, p: string): Option<Handle> {
    if p in registry then Some(Handle(p, registry[p])) else None
  }

  const COOLDOWN_SECS := 60

  /** The breaker of a request, from the configuration it finds. */
  function BreakerOf(maxSameProviderRetries: nat): Breaker {
    Breaker(if maxSameProviderRetries >= 1 then maxSameProviderRetries else 1, COOLDOWN_SECS)
  }

  /** The registry may change between entries; a call is made no earlier than its check. */
  ghost predicate Served(plan: Plan, ws: seq<Turn>) {
    && Scripted(plan, ws)
    && forall i :: 0 <= i < |ws| ==> ServedTurn(Chain(plan)[i].0, ws[i])
  }

  ghost predicate ServedTurn(asked: string, w: Turn) {
    && w.checkedAt <= w.calledAt
    && exists registry :: w.handle == Resolve(registry, asked)
  }

  lemma ServedIsFaithful(plan: Plan, ws: seq<Turn>)
    requires Served(plan, ws)
    ensures Faithful(plan, ws)
  {
    forall i | 0 <= i < |ws|
      ensures FaithfulTurn(Chain(plan)[i], ws[i])
    {
      assert ServedTurn(Chain(plan)[i].0, ws[i]);
    }
  }

  /**
   * The calls of buffered requests need no hypotheses: whatever is configured for each request, registered
   * and answered, none is made while its breaker is open, and the registry says of each provider what its
   * history says.
   */
  lemma PipelineHonoursBreaker(jobs: seq<Job>, provider: string)
    requires AllScripted(jobs) && forall i :: 0 <= i < |jobs| ==> Served(jobs[i].plan, jobs[i].ws)
    ensures Honoured(RunLog(jobs))
    ensures
      var h := Get(Replay(RunLog(jobs)), provider);
      && h.consecutiveFailures == Trailing(RunLog(jobs), provider)
      && h.cooldownUntil == CoolsUntil(RunLog(jobs), provider)
      && (h.status == Down <==> h.cooldownUntil.Some?)
  {
    forall i | 0 <= i < |jobs|
      ensures Faithful(jobs[i].plan, jobs[i].ws)
    {
      ServedIsFaithful(jobs[i].plan, jobs[i].ws);
    }
    RunsHonourBreaker(jobs);
    StateIsHistory(RunLog(jobs), provider);
  }

  lemma UnderAppend(b: Breaker, log: seq<Event>, more: seq<Event>)
    requires Under(b, log) && Under(b, more)
    ensures Under(b, log + more)
  {
  }

  lemma EntryUnder(plan: Plan, v: Verdict, w: Turn, b: Breaker)
    ensures Under(b, EventsOf(plan, v, w, b))
  {
    if Reaches(v) && w.handle.Some? && OutcomeOf(w.first).Retry? {
      var p := w.handle.value.providerId;
      UnderAppend(b, FirstEvents(p, w, b), RetryEvents(plan, p, w, OutcomeOf(w.first).waitMs, b));
    }
  }

  lemma {:induction false} WalkUnder(plan: Plan, b: Breaker, t: Table, ws: seq<Turn>, i: nat) returns (n: nat)
    requires Scripted(plan, ws) && i <= |ws|
    ensures n == i && Under(b, LogUpTo(plan, b, t, ws, n))
  {
    n := 0;
    if i > 0 {
      n := WalkUnder(plan, b, t, ws, i - 1);
      EntryUnder(plan, VerdictAt(plan, b, t, ws, n), ws[n], b);
      UnderAppend(b, LogUpTo(plan, b, t, ws, n), EventsOf(plan, VerdictAt(plan, b, t, ws, n), ws[n], b));
      n := n + 1;
    }
  }

  lemma {:induction false} RunUnder(b: Breaker, jobs: seq<Job>)
    requires AllScripted(jobs) && forall i :: 0 <= i < |jobs| ==> jobs[i].breaker == b
    ensures Under(b, RunLog(jobs))
    decreases |jobs|
  {
    if jobs != [] {
      var before, job := RunLog(jobs[..|jobs| - 1]), jobs[|jobs| - 1];
      RunUnder(b, jobs[..|jobs| - 1]);
      var n := WalkUnder(job.plan, b, Replay(before), job.ws, Visited(job.plan, b, Replay(before), job.ws));
      UnderAppend(b, before, LogUpTo(job.plan, b, Replay(before), job.ws, n));
    }
  }

  /** Under a fixed threshold, after n trailing failures: down from there on, for a fixed time after the last. */
  ghost predicate Steady(h: ProviderHealth, n: nat, last: Option<nat>, threshold: nat, ms: nat) {
    && h.consecutiveFailures == n && h.lastFailure == last
    && if n >= threshold then h.status == Down && last.Some? && h.cooldownUntil == Some(last.value + ms)
       else h.status == Healthy && h.cooldownUntil == None
  }

  lemma SteadyUnder(b: Breaker, log: seq<Event>, provider: string, threshold: nat, ms: nat)
    requires b.threshold >= 1 && Under(b, log) && threshold == b.threshold && ms == b.cooldownSecs * 1000
    ensures Steady(Get(Replay(log), provider), Trailing(log, provider), LastFailure(log, provider), threshold, ms)
  {
    BreakerAgrees(b, log, provider);
  }

  /**
   * While the configuration stays, a provider is down exactly when its trailing failures reach the number
   * configured, or one if that is zero, and it is then out for a minute from the last of them.
   */
  lemma SteadyThreshold(maxSameProviderRetries: nat, jobs: seq<Job>, provider: string)
    requires AllScripted(jobs) && forall i :: 0 <= i < |jobs| ==> jobs[i].breaker == BreakerOf(maxSameProviderRetries)
    ensures
      var log := RunLog(jobs);
      Steady(Get(Replay(log), provider), Trailing(log, provider), LastFailure(log, provider),
             if maxSameProviderRetries == 0 then 1 else maxSameProviderRetries, 60_000)
  {
    RunUnder(BreakerOf(maxSameProviderRetries), jobs);
    SteadyUnder(BreakerOf(maxSameProviderRetries), RunLog(jobs), provider,
                if maxSameProviderRetries == 0 then 1 else maxSameProviderRetries, 60_000);
  }

  // ----- the models that are called -----

  /** What the registry holds when each entry is resolved. */
  ghost predicate ServedBy(plan: Plan, ws: seq<Turn>, registries: seq<Registry>) {
    && Scripted(plan, ws) && |registries| == |ws|
    && forall i :: 0 <= i < |ws| ==> ws[i].handle == Resolve(registries[i], Chain(plan)[i].0)
  }

  /** A record of entry i: of a call, with the adapter's default model, or of none, with the chain's own. */
  ghost predicate RecordOf(a: AttemptRecord, v: Verdict, entry: (string, string), registry: Registry) {
    && a.provider == entry.0
    && if Reaches(v) then entry.0 in registry && a.model == registry[entry.0] else a.model == entry.1
  }

  lemma EntryRecordsModel(plan: Plan, t: Table, entry: (string, string), w: Turn, registry: Registry)
    requires w.handle == Resolve(registry, entry.0)
    ensures
      var v := VerdictOf(plan, t, entry, w);
      forall a <- AttemptsOf(v, entry, w) :: RecordOf(a, v, entry, registry)
  {
  }

  /** The entry that a record stems from. */
  ghost predicate StemsFrom(a: AttemptRecord, plan: Plan, b: Breaker, t: Table, ws: seq<Turn>,
                            registries: seq<Registry>, i: nat)
    requires ServedBy(plan, ws, registries) && i < |ws|
  {
    RecordOf(a, VerdictAt(plan, b, t, ws, i), Chain(plan)[i], registries[i])
  }

  lemma {:induction false} RecordsStem(plan: Plan, b: Breaker, t: Table, ws: seq<Turn>, registries: seq<Registry>,
                                       a: AttemptRecord, n: nat) returns (i: nat)
    requires ServedBy(plan, ws, registries) && n <= |ws| && a in AttemptsUpTo(plan, b, t, ws, n)
    ensures i < n && StemsFrom(a, plan, b, t, ws, registries, i)
  {
    i := n - 1;
    OneFurther(plan, b, t, ws, i, VerdictAt(plan, b, t, ws, i));
    if a in AttemptsUpTo(plan, b, t, ws, i) {
      i := RecordsStem(plan, b, t, ws, registries, a, i);
    } else {
      EntryRecordsModel(plan, TableAt(plan, b, t, ws, i), Chain(plan)[i], ws[i], registries[i]);
    }
  }

  /**
   * In every buffered run each record of a call carries the adapter's default model, so it is the model
   * that the chain names there exactly when that is the default.
   */
  lemma NamedModelCalled(plan: Plan, b: Breaker, t: Table, ws: seq<Turn>, registries: seq<Registry>, a: AttemptRecord)
    returns (i: nat)
    requires ServedBy(plan, ws, registries) && OutcomeFor(plan, b, t, ws).Done?
    requires a in OutcomeFor(plan, b, t, ws).result.attempts
    ensures i < |ws| && StemsFrom(a, plan, b, t, ws, registries, i)
    ensures
      var entry := Chain(plan)[i];
      Reaches(VerdictAt(plan, b, t, ws, i)) ==> (a.model == entry.1 <==> registries[i][entry.0] == entry.1)
  {
    i := RecordsStem(plan, b, t, ws, registries, a, FirstDecider(plan, b, t, ws, 0) + 1);
  }

  // ----- the models of specificity rules -----

  /**
   * A rule without a finding may still name a provider alone. A request that the rule decides is then
   * routed to no provider: exactly when the rule's primary has not two halves.
   */
  lemma RuleIdSlips(registry: Registry, cfg: Config, name: string, i: nat, key: string)
    requires Registers(registry, cfg) && i < |cfg.specificity| && !RuleWrong(cfg, i, RulePrimaryUnknown)
    ensures RouteRequest(registry, cfg.tiers, name, Some(cfg.specificity[i].primary), key) == NoProvider
            <==> !TwoHalves(cfg.specificity[i].primary)
  {
    RoutedExactly(registry, cfg.specificity[i].primary);
  }

  /** A bare provider id is such a primary. */
  lemma BareRule(registry: Registry, cfg: Config, name: string, i: nat, key: string)
    requires Registers(registry, cfg) && i < |cfg.specificity|
    requires '/' !in cfg.specificity[i].primary && Known(cfg.providers, cfg.specificity[i].primary)
    ensures !RuleWrong(cfg, i, RulePrimaryUnknown)
    ensures RouteRequest(registry, cfg.tiers, name, Some(cfg.specificity[i].primary), key) == NoProvider
  {
    var primary := cfg.specificity[i].primary;
    FirstSlashIs(primary);
    assert Head(primary) == primary;
    RuleIdSlips(registry, cfg, name, i, key);
  }
}
