/**
 * The semantic pass of the configuration validator, src/config/validate.rs. The pass pushes one
 * finding for each fault it meets; here each kind of fault has a declarative meaning, the pass is
 * proved to find exactly the faults there are, and a configuration without faults is one that is
 * valid. Socket addresses, URLs, base64 and white space are recognised by parameters; costs and
 * fractions are reals.
 */
module Validate {
  import opened Base
  import Fallback

  datatype Checks = Checks(
    isSpace: char -> bool,
    isSocketAddr: string -> bool,
    isUrl: string -> bool,
    isBase64: string -> bool
  )

  datatype Server = Server(bind: string, logLevel: string, redirectUri: string)

  datatype Provider = Provider(id: string, key: Option<string>, baseUrl: Option<string>)

  datatype Tier = Tier(primary: string, fallbacks: seq<string>, downgradeTo: Option<string>, minContext: Option<nat>)

  datatype Rule = Rule(primary: string, threshold: Option<nat>)

  datatype Config = Config(
    server: Server,
    providers: seq<Provider>,
    tiers: map<string, Tier>,
    detectionTiers: seq<string>,
    requestBudgetMs: nat, fixedRetryWaitMs: nat, maxRetryAfterMs: nat,
    warnFraction: real, dailyCost: real, perRequestCost: real,
    pricingUrl: string,
    minInputPrice: real,
    specificity: seq<Rule>)

  // ----- faults -----

  datatype ServerFault = BindMissing | BindInvalid | LogLevelInvalid | RedirectInvalid

  datatype ProviderFault = IdMissing | IdDuplicate | KeyInvalid | BaseUrlInvalid

  datatype TierFault =
    | PrimaryMissing | PrimaryUnknown | FallbackUnknown(fallback: string)
    | DowngradeUnknown(tier: string) | ContextZero

  datatype RangeFault =
    | RequestBudgetZero | WaitAboveMaximum
    | WarnFractionOutside | DailyCostNegative | PerRequestCostNegative
    | PricingUrlInvalid | MinPriceNegative

  datatype RuleFault = RulePrimaryUnknown | RuleThresholdZero

  datatype Finding =
    | InServer(server: ServerFault)
    | InProvider(index: nat, provider: ProviderFault)
    | InTier(name: string, tier: TierFault)
    | InDetection(rule: nat)
    | InRange(range: RangeFault)
    | InSpecificity(rule: nat, fault: RuleFault)

  predicate Blank(k: Checks, s: string) {
    forall i :: 0 <= i < |s| ==> k.isSpace(s[i])
  }

  const LEVELS := ["trace", "debug", "info", "warn", "warning", "error"]

  /** The part of a reference that names its provider. */
  function Head(s: string): string {
    s[..Fallback.FirstSlash(s)]
  }

  predicate Known(providers: seq<Provider>, id: string) {
    exists i :: 0 <= i < |providers| && providers[i].id == id
  }

  predicate ServerWrong(k: Checks, s: Server, f: ServerFault) {
    match f
    case BindMissing => Blank(k, s.bind)
    case BindInvalid => !Blank(k, s.bind) && !k.isSocketAddr(s.bind)
    case LogLevelInvalid => Lower(s.logLevel) !in LEVELS
    case RedirectInvalid => s.redirectUri != "" && !k.isUrl(s.redirectUri)
  }

  /** Sealed text, if the "enc:" mark is there, must be base64. */
  predicate KeyWrong(k: Checks, key: Option<string>) {
    key.Some? && "enc:" <= key.value && (|key.value| == 4 || !k.isBase64(key.value[4..]))
  }

  /** A provider is a duplicate when an earlier one has the same id, and the id is not blank. */
  predicate ProviderWrong(k: Checks, providers: seq<Provider>, i: nat, f: ProviderFault) {
    i < |providers| &&
    match f
    case IdMissing => Blank(k, providers[i].id)
    case IdDuplicate => !Blank(k, providers[i].id) && Known(providers[..i], providers[i].id)
    case KeyInvalid => KeyWrong(k, providers[i].key)
    case BaseUrlInvalid =>
      providers[i].baseUrl.Some? && providers[i].baseUrl.value != "" && !k.isUrl(providers[i].baseUrl.value)
  }

  predicate TierWrong(cfg: Config, tier: Tier, f: TierFault) {
    match f
    case PrimaryMissing => tier.primary == ""
    case PrimaryUnknown =>
      tier.primary != "" && !Known(cfg.providers, tier.primary) && !Known(cfg.providers, Head(tier.primary))
    case FallbackUnknown(fb) => fb in tier.fallbacks && !Known(cfg.providers, Head(fb))
    case DowngradeUnknown(down) => tier.downgradeTo == Some(down) && down !in cfg.tiers
    case ContextZero => tier.minContext == Some(0)
  }

  predicate RangeWrong(k: Checks, cfg: Config, f: RangeFault) {
    match f
    case RequestBudgetZero => cfg.requestBudgetMs == 0
    case WaitAboveMaximum => cfg.fixedRetryWaitMs > cfg.maxRetryAfterMs
    case WarnFractionOutside => !(0.0 < cfg.warnFraction <= 1.0)
    case DailyCostNegative => cfg.dailyCost < 0.0
    case PerRequestCostNegative => cfg.perRequestCost < 0.0
    case PricingUrlInvalid => cfg.pricingUrl != "" && !k.isUrl(cfg.pricingUrl)
    case MinPriceNegative => cfg.minInputPrice < 0.0
  }

  predicate RuleWrong(cfg: Config, i: nat, f: RuleFault) {
    i < |cfg.specificity| &&
    match f
    case RulePrimaryUnknown => !Known(cfg.providers, Head(cfg.specificity[i].primary))
    case RuleThresholdZero => cfg.specificity[i].threshold == Some(0)
  }

  predicate Wrong(k: Checks, cfg: Config, f: Finding) {
    match f
    case InServer(fault) => ServerWrong(k, cfg.server, fault)
    case InProvider(i, fault) => ProviderWrong(k, cfg.providers, i, fault)
    case InTier(name, fault) => name in cfg.tiers && TierWrong(cfg, cfg.tiers[name], fault)
    case InDetection(i) => i < |cfg.detectionTiers| && cfg.detectionTiers[i] !in cfg.tiers
    case InRange(fault) => RangeWrong(k, cfg, fault)
    case InSpecificity(i, fault) => RuleWrong(cfg, i, fault)
  }

  // ----- the pass -----

  method CheckServer(k: Checks, s: Server) returns (faults: seq<ServerFault>)
    ensures forall f :: f in faults <==> ServerWrong(k, s, f)
  {
    faults := [];
    if Blank(k, s.bind) {
      faults := faults + [BindMissing];
    } else if !k.isSocketAddr(s.bind) {
      faults := faults + [BindInvalid];
    }
    if Lower(s.logLevel) !in LEVELS {
      faults := faults + [LogLevelInvalid];
    }
    if s.redirectUri != "" && !k.isUrl(s.redirectUri) {
      faults := faults + [RedirectInvalid];
    }
  }

  function Tag<T, U>(s: seq<T>, tag: T -> U): seq<U> {
    seq(|s|, i requires 0 <= i < |s| => tag(s[i]))
  }

  lemma Tagged<T, U>(s: seq<T>, tag: T -> U)
    ensures forall x :: x in s ==> tag(x) in Tag(s, tag)
    ensures forall y :: y in Tag(s, tag) ==> exists x :: x in s && tag(x) == y
  {
    forall x | x in s
      ensures tag(x) in Tag(s, tag)
    {
      var i :| 0 <= i < |s| && s[i] == x;
      assert Tag(s, tag)[i] == tag(x);
    }
  }

  method CheckProviders(k: Checks, providers: seq<Provider>) returns (found: seq<Finding>)
    ensures forall f :: f in found <==> f.InProvider? && ProviderWrong(k, providers, f.index, f.provider)
  {
    found := [];
    var seen: set<string> := {};
    for i := 0 to |providers|
      invariant forall id :: id in seen <==> Known(providers[..i], id) && !Blank(k, id)
      invariant forall f ::
                  f in found <==> f.InProvider? && f.index < i && ProviderWrong(k, providers, f.index, f.provider)
    {
      var p := providers[i];
      KnownSnoc(providers, i);
      var faults: seq<ProviderFault> := [];
      if Blank(k, p.id) {
        faults := faults + [IdMissing];
      } else if p.id in seen {
        faults := faults + [IdDuplicate];
      } else {
        seen := seen + {p.id};
      }
      if KeyWrong(k, p.key) {
        faults := faults + [KeyInvalid];
      }
      if p.baseUrl.Some? && p.baseUrl.value != "" && !k.isUrl(p.baseUrl.value) {
        faults := faults + [BaseUrlInvalid];
      }
      assert forall f :: f in faults <==> ProviderWrong(k, providers, i, f);
      Tagged(faults, f => InProvider(i, f));
      found := found + Tag(faults, f => InProvider(i, f));
    }
  }

  lemma KnownSnoc(providers: seq<Provider>, i: nat)
    requires i < |providers|
    ensures forall id :: Known(providers[..i + 1], id) <==> Known(providers[..i], id) || providers[i].id == id
  {
  }

  ghost predicate IsIds(providers: seq<Provider>, ids: set<string>) {
    forall id :: id in ids <==> Known(providers, id)
  }

  method CheckFallbacks(ids: set<string>, fallbacks: seq<string>) returns (faults: seq<TierFault>)
    ensures forall f :: f in faults <==> f.FallbackUnknown? && f.fallback in fallbacks && Head(f.fallback) !in ids
  {
    faults := [];
    for i := 0 to |fallbacks|
      invariant forall f ::
                  f in faults <==> f.FallbackUnknown? && f.fallback in fallbacks[..i] && Head(f.fallback) !in ids
    {
      if Head(fallbacks[i]) !in ids {
        faults := faults + [FallbackUnknown(fallbacks[i])];
      }
    }
  }

  method CheckTier(cfg: Config, ids: set<string>, tier: Tier) returns (faults: seq<TierFault>)
    requires IsIds(cfg.providers, ids)
    ensures forall f :: f in faults <==> TierWrong(cfg, tier, f)
  {
    faults := [];
    if tier.primary == "" {
      faults := faults + [PrimaryMissing];
    } else if tier.primary !in ids && Head(tier.primary) !in ids {
      faults := faults + [PrimaryUnknown];
    }
    var unknown := CheckFallbacks(ids, tier.fallbacks);
    faults := faults + unknown;
    if tier.downgradeTo.Some? && tier.downgradeTo.value !in cfg.tiers {
      faults := faults + [DowngradeUnknown(tier.downgradeTo.value)];
    }
    if tier.minContext == Some(0) {
      faults := faults + [ContextZero];
    }
  }

  /** An order in which the map of tiers may be walked. */
  ghost predicate IsOrder(tiers: map<string, Tier>, order: seq<string>) {
    forall name :: name in order <==> name in tiers
  }

  method CheckTiers(cfg: Config, ids: set<string>, order: seq<string>) returns (found: seq<Finding>)
    requires IsIds(cfg.providers, ids) && IsOrder(cfg.tiers, order)
    ensures forall f :: f in found <==>
              f.InTier? && f.name in cfg.tiers && TierWrong(cfg, cfg.tiers[f.name], f.tier)
  {
    found := [];
    for i := 0 to |order|
      invariant forall f :: f in found <==>
                  f.InTier? && f.name in order[..i] && f.name in cfg.tiers && TierWrong(cfg, cfg.tiers[f.name], f.tier)
    {
      var name := order[i];
      assert name in cfg.tiers;
      var faults := CheckTier(cfg, ids, cfg.tiers[name]);
      Tagged(faults, f => InTier(name, f));
      found := found + Tag(faults, f => InTier(name, f));
      assert order[..i + 1] == order[..i] + [name];
    }
    assert order[..|order|] == order;
  }

  method CheckDetection(cfg: Config) returns (found: seq<Finding>)
    ensures forall f :: f in found <==>
              f.InDetection? && f.rule < |cfg.detectionTiers| && cfg.detectionTiers[f.rule] !in cfg.tiers
  {
    found := [];
    for i := 0 to |cfg.detectionTiers|
      invariant forall f :: f in found <==> f.InDetection? && f.rule < i && cfg.detectionTiers[f.rule] !in cfg.tiers
    {
      if cfg.detectionTiers[i] !in cfg.tiers {
        found := found + [InDetection(i)];
      }
    }
  }

  method CheckRanges(k: Checks, cfg: Config) returns (faults: seq<RangeFault>)
    ensures forall f :: f in faults <==> RangeWrong(k, cfg, f)
  {
    faults := [];
    if cfg.requestBudgetMs == 0 {
      faults := faults + [RequestBudgetZero];
    }
    if cfg.fixedRetryWaitMs > cfg.maxRetryAfterMs {
      faults := faults + [WaitAboveMaximum];
    }
    if cfg.warnFraction <= 0.0 || cfg.warnFraction > 1.0 {
      faults := faults + [WarnFractionOutside];
    }
    if cfg.dailyCost < 0.0 {
      faults := faults + [DailyCostNegative];
    }
    if cfg.perRequestCost < 0.0 {
      faults := faults + [PerRequestCostNegative];
    }
    if cfg.pricingUrl != "" && !k.isUrl(cfg.pricingUrl) {
      faults := faults + [PricingUrlInvalid];
    }
    if cfg.minInputPrice < 0.0 {
      faults := faults + [MinPriceNegative];
    }
  }

  method CheckSpecificity(cfg: Config, ids: set<string>) returns (found: seq<Finding>)
    requires IsIds(cfg.providers, ids)
    ensures forall f :: f in found <==> f.InSpecificity? && RuleWrong(cfg, f.rule, f.fault)
  {
    found := [];
    for i := 0 to |cfg.specificity|
      invariant forall f :: f in found <==> f.InSpecificity? && f.rule < i && RuleWrong(cfg, f.rule, f.fault)
    {
      if Head(cfg.specificity[i].primary) !in ids {
        found := found + [InSpecificity(i, RulePrimaryUnknown)];
      }
      if cfg.specificity[i].threshold == Some(0) {
        found := found + [InSpecificity(i, RuleThresholdZero)];
      }
    }
  }

  method ProviderIds(providers: seq<Provider>) returns (ids: set<string>)
    ensures IsIds(providers, ids)
  {
    ids := {};
    for i := 0 to |providers|
      invariant IsIds(providers[..i], ids)
    {
      KnownSnoc(providers, i);
      ids := ids + {providers[i].id};
    }
    assert providers[..|providers|] == providers;
  }

  class ValidationOutcome {
    var errors: seq<Finding>

    constructor ()
      ensures errors == []
    {
      errors := [];
    }

    /** The pass only adds, and what it adds is exactly what is wrong. */
    method CheckSemantic(k: Checks, cfg: Config, order: seq<string>)
      requires IsOrder(cfg.tiers, order)
      modifies this
      ensures old(errors) <= errors
      ensures forall f :: f in errors[|old(errors)|..] <==> Wrong(k, cfg, f)
      ensures errors == old(errors) <==> Valid(k, cfg)
    {
      var server := CheckServer(k, cfg.server);
      var providers := CheckProviders(k, cfg.providers);
      var ids := ProviderIds(cfg.providers);
      var tiers := CheckTiers(cfg, ids, order);
      var detection := CheckDetection(cfg);
      var ranges := CheckRanges(k, cfg);
      var rules := CheckSpecificity(cfg, ids);
      Tagged(server, f => InServer(f));
      Tagged(ranges, f => InRange(f));
      var found := Tag(server, f => InServer(f)) + providers + tiers + detection + Tag(ranges, f => InRange(f)) + rules;
      assert forall f :: f in found <==> Wrong(k, cfg, f);
      NothingWrong(k, cfg);
      ghost var before := errors;
      errors := errors + found;
      assert errors[|before|..] == found;
      assert found == [] || found[0] in found;
    }
  }

  // ----- what a clean configuration is -----

  ghost predicate ValidProviders(k: Checks, providers: seq<Provider>) {
    (forall i :: 0 <= i < |providers| ==>
       !Blank(k, providers[i].id) && !KeyWrong(k, providers[i].key)
       && (providers[i].baseUrl.Some? ==> providers[i].baseUrl.value == "" || k.isUrl(providers[i].baseUrl.value)))
    && forall i, j :: 0 <= i < j < |providers| ==> providers[i].id != providers[j].id
  }

  ghost predicate ValidTier(cfg: Config, tier: Tier) {
    tier.primary != "" && (Known(cfg.providers, tier.primary) || Known(cfg.providers, Head(tier.primary)))
    && (forall fb <- tier.fallbacks :: Known(cfg.providers, Head(fb)))
    && (tier.downgradeTo.Some? ==> tier.downgradeTo.value in cfg.tiers)
    && tier.minContext != Some(0)
  }

  ghost predicate Valid(k: Checks, cfg: Config) {
    ValidRest(k, cfg) && ValidProviders(k, cfg.providers)
    && (forall name <- cfg.tiers :: ValidTier(cfg, cfg.tiers[name]))
    && ValidRules(cfg)
  }

  ghost predicate Faultless(k: Checks, cfg: Config) {
    forall f :: !Wrong(k, cfg, f)
  }

  lemma ProvidersFaultless(k: Checks, providers: seq<Provider>)
    ensures (forall i: nat, f :: !ProviderWrong(k, providers, i, f)) <==> ValidProviders(k, providers)
  {
    if forall i: nat, f :: !ProviderWrong(k, providers, i, f) {
      forall i | 0 <= i < |providers|
        ensures !Blank(k, providers[i].id) && !KeyWrong(k, providers[i].key) && !Known(providers[..i], providers[i].id)
        ensures providers[i].baseUrl.Some? ==> providers[i].baseUrl.value == "" || k.isUrl(providers[i].baseUrl.value)
      {
        assert !ProviderWrong(k, providers, i, IdMissing) && !ProviderWrong(k, providers, i, IdDuplicate)
               && !ProviderWrong(k, providers, i, KeyInvalid) && !ProviderWrong(k, providers, i, BaseUrlInvalid);
      }
      forall i, j | 0 <= i < j < |providers|
        ensures providers[i].id != providers[j].id
      {
        assert providers[..j][i] == providers[i];
      }
    }
  }

  lemma TierFaultless(cfg: Config, tier: Tier)
    ensures (forall f :: !TierWrong(cfg, tier, f)) <==> ValidTier(cfg, tier)
  {
    if forall f :: !TierWrong(cfg, tier, f) {
      assert !TierWrong(cfg, tier, PrimaryMissing) && !TierWrong(cfg, tier, PrimaryUnknown)
             && !TierWrong(cfg, tier, ContextZero);
      forall fb | fb in tier.fallbacks
        ensures Known(cfg.providers, Head(fb))
      {
        assert !TierWrong(cfg, tier, FallbackUnknown(fb));
      }
      if tier.downgradeTo.Some? {
        assert !TierWrong(cfg, tier, DowngradeUnknown(tier.downgradeTo.value));
      }
    }
  }

  lemma TiersFaultless(cfg: Config)
    ensures (forall name, f :: name in cfg.tiers ==> !TierWrong(cfg, cfg.tiers[name], f))
            <==> forall name <- cfg.tiers :: ValidTier(cfg, cfg.tiers[name])
  {
    forall name | name in cfg.tiers
      ensures (forall f :: !TierWrong(cfg, cfg.tiers[name], f)) <==> ValidTier(cfg, cfg.tiers[name])
    {
      TierFaultless(cfg, cfg.tiers[name]);
    }
  }

  ghost predicate ValidRest(k: Checks, cfg: Config) {
    !Blank(k, cfg.server.bind) && k.isSocketAddr(cfg.server.bind) && Lower(cfg.server.logLevel) in LEVELS
    && (cfg.server.redirectUri == "" || k.isUrl(cfg.server.redirectUri))
    && cfg.requestBudgetMs > 0 && cfg.fixedRetryWaitMs <= cfg.maxRetryAfterMs
    && 0.0 < cfg.warnFraction <= 1.0 && cfg.dailyCost >= 0.0 && cfg.perRequestCost >= 0.0 && cfg.minInputPrice >= 0.0
    && (cfg.pricingUrl == "" || k.isUrl(cfg.pricingUrl))
  }

  lemma RestFaultless(k: Checks, cfg: Config)
    ensures (forall f :: !ServerWrong(k, cfg.server, f)) && (forall f :: !RangeWrong(k, cfg, f))
            <==> ValidRest(k, cfg)
  {
    if (forall f :: !ServerWrong(k, cfg.server, f)) && (forall f :: !RangeWrong(k, cfg, f)) {
      assert !ServerWrong(k, cfg.server, BindMissing) && !ServerWrong(k, cfg.server, BindInvalid);
      assert !ServerWrong(k, cfg.server, LogLevelInvalid) && !ServerWrong(k, cfg.server, RedirectInvalid);
      assert !RangeWrong(k, cfg, RequestBudgetZero) && !RangeWrong(k, cfg, WaitAboveMaximum);
      assert !RangeWrong(k, cfg, WarnFractionOutside) && !RangeWrong(k, cfg, DailyCostNegative);
      assert !RangeWrong(k, cfg, PerRequestCostNegative) && !RangeWrong(k, cfg, PricingUrlInvalid);
      assert !RangeWrong(k, cfg, MinPriceNegative);
    }
  }

  ghost predicate ValidRules(cfg: Config) {
    (forall tier <- cfg.detectionTiers :: tier in cfg.tiers)
    && forall rule <- cfg.specificity :: Known(cfg.providers, Head(rule.primary)) && rule.threshold != Some(0)
  }

  lemma RulesFaultless(cfg: Config)
    ensures (forall i :: 0 <= i < |cfg.detectionTiers| ==> cfg.detectionTiers[i] in cfg.tiers)
            && (forall i: nat, f :: !RuleWrong(cfg, i, f))
            <==> ValidRules(cfg)
  {
    if forall i: nat, f :: !RuleWrong(cfg, i, f) {
      forall i | 0 <= i < |cfg.specificity|
        ensures Known(cfg.providers, Head(cfg.specificity[i].primary)) && cfg.specificity[i].threshold != Some(0)
      {
        assert !RuleWrong(cfg, i, RulePrimaryUnknown) && !RuleWrong(cfg, i, RuleThresholdZero);
      }
    }
  }

  lemma FaultlessParts(k: Checks, cfg: Config)
    requires Faultless(k, cfg)
    ensures forall f :: !ServerWrong(k, cfg.server, f)
    ensures forall f :: !RangeWrong(k, cfg, f)
    ensures forall i: nat, f :: !ProviderWrong(k, cfg.providers, i, f)
    ensures forall name, f :: name in cfg.tiers ==> !TierWrong(cfg, cfg.tiers[name], f)
    ensures forall i :: 0 <= i < |cfg.detectionTiers| ==> cfg.detectionTiers[i] in cfg.tiers
    ensures forall i: nat, f :: !RuleWrong(cfg, i, f)
  {
    assert forall f :: Wrong(k, cfg, InServer(f)) <==> ServerWrong(k, cfg.server, f);
    assert forall f :: Wrong(k, cfg, InRange(f)) <==> RangeWrong(k, cfg, f);
    assert forall i: nat, f :: Wrong(k, cfg, InProvider(i, f)) <==> ProviderWrong(k, cfg.providers, i, f);
    assert forall name, f :: name in cfg.tiers ==>
             (Wrong(k, cfg, InTier(name, f)) <==> TierWrong(cfg, cfg.tiers[name], f));
    assert forall i: nat :: i < |cfg.detectionTiers| ==>
             (Wrong(k, cfg, InDetection(i)) <==> cfg.detectionTiers[i] !in cfg.tiers);
    assert forall i: nat, f :: Wrong(k, cfg, InSpecificity(i, f)) <==> RuleWrong(cfg, i, f);
  }

  /** Nothing is wrong exactly when the configuration is valid. */
  lemma NothingWrong(k: Checks, cfg: Config)
    ensures Faultless(k, cfg) <==> Valid(k, cfg)
  {
    if Faultless(k, cfg) { FaultlessParts(k, cfg); }
    RestFaultless(k, cfg);
    ProvidersFaultless(k, cfg.providers);
    TiersFaultless(cfg);
    RulesFaultless(cfg);
  }

  // ----- what the tests of the pass recognise -----

  /** A key is faulty exactly when it is marked as sealed and what follows the mark is empty or no base64. */
  lemma KeyWrongExactly(k: Checks, rest: string, other: string)
    ensures KeyWrong(k, Some("enc:" + rest)) <==> rest == "" || !k.isBase64(rest)
    ensures KeyWrong(k, Some(other)) ==> |other| >= 4 && other[..4] == "enc:"
    ensures !KeyWrong(k, None)
  {
    assert ("enc:" + rest)[4..] == rest;
  }

  /** A blank text has white space in every place: none at all, one such character, or two blank texts joined. */
  lemma BlankExactly(k: Checks, a: string, c: char, b: string)
    ensures Blank(k, "")
    ensures Blank(k, [c]) <==> k.isSpace(c)
    ensures Blank(k, a + b) <==> Blank(k, a) && Blank(k, b)
  {
    if Blank(k, a + b) {
      assert forall i :: 0 <= i < |a| ==> (a + b)[i] == a[i];
      assert forall i :: 0 <= i < |b| ==> (a + b)[|a| + i] == b[i];
    }
    assert Blank(k, [c]) ==> k.isSpace([c][0]);
  }

  /** The six levels, in any case. */
  lemma LevelsExactly(k: Checks, s: Server)
    ensures !ServerWrong(k, s, LogLevelInvalid)
            <==> var l := Lower(s.logLevel);
                 l == "trace" || l == "debug" || l == "info" || l == "warn" || l == "warning" || l == "error"
  {
  }
}
