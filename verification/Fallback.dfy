/** The fallback executor of src/proxy/fallback.rs. */
module Fallback {
  import opened Base
  import opened Health

  datatype Why = BudgetExhausted(ms: nat) | AllExhausted(tried: nat) | Message(text: string)

  datatype AppError =
    | BadRequest(text: string)
    | Unauthorized(text: string)
    | NotFound(text: string)
    | ProviderError(provider: string, status: nat, message: string)
    | ContextTooLong(model: string, limit: nat)
    | AllProvidersFailed(tier: string)
    | UpstreamTimeout(ms: nat)
    | Internal(why: Why)

  datatype AttemptOutcome =
    | Success
    | Retry(waitMs: nat, retryReason: string)
    | Skip(skipReason: string)
    | Fatal(fatalReason: string)
    | TooLong(limit: nat)

  ghost predicate SpeaksOfContext(message: string) {
    var lower := Lower(message);
    Contains(lower, "context") || Contains(lower, "too long") || Contains(lower, "maximum context")
  }

  ghost function ClassifyStatus(status: nat, message: string): AttemptOutcome {
    if status == 401 || status == 403 then Fatal("auth error")
    else if status == 408 then Retry(0, "request timeout")
    else if status == 429 then Retry(1500, "rate limited")
    else if status == 400 && SpeaksOfContext(message) then TooLong(8192)
    else Skip("upstream error")
  }

  ghost function Classify(e: AppError): AttemptOutcome {
    match e
    case ProviderError(_, status, message) => ClassifyStatus(status, message)
    case UpstreamTimeout(_) => Skip("upstream timeout")
    case ContextTooLong(_, limit) => TooLong(limit)
    case Internal(_) => Skip("internal error")
    case _ => Skip("unknown error")
  }

  method ClassifyError(e: AppError) returns (o: AttemptOutcome)
    ensures o == Classify(e)
    ensures o.Fatal? <==> e.ProviderError? && e.status in {401, 403}
    ensures o.Retry? <==> e.ProviderError? && e.status in {408, 429}
    ensures o.Retry? ==> o.waitMs == if e.status == 429 then 1500 else 0
    ensures o.TooLong? <==> e.ContextTooLong? || (e.ProviderError? && e.status == 400 && SpeaksOfContext(e.message))
    ensures o.TooLong? ==> o.limit == if e.ContextTooLong? then e.limit else 8192
    ensures !o.Success?
  {
    match e {
      case ProviderError(_, status, message) =>
        var lower := Lower(message);
        var context := FindIn(lower, "context");
        var tooLong := FindIn(lower, "too long");
        var maximum := FindIn(lower, "maximum context");
        o := match status
          case 401 => Fatal("auth error")
          case 403 => Fatal("auth error")
          case 408 => Retry(0, "request timeout")
          case 429 => Retry(1500, "rate limited")
          case 400 => if context || tooLong || maximum then TooLong(8192) else Skip("upstream error")
          case _ => Skip("upstream error");
      case UpstreamTimeout(_) => o := Skip("upstream timeout");
      case ContextTooLong(_, limit) => o := TooLong(limit);
      case Internal(_) => o := Skip("internal error");
      case _ => o := Skip("unknown error");
    }
  }

  function FirstSlash(s: string): (n: nat)
    ensures n <= |s| && (n < |s| ==> s[n] == '/')
    ensures '/' !in s[..n]
  {
    if s == [] || s[0] == '/' then 0 else 1 + FirstSlash(s[1..])
  }

  /** A chain entry: everything before the first slash names the provider; without one it is "unknown". */
  function SplitProviderModel(s: string): (string, string) {
    var n := FirstSlash(s);
    if n < |s| then (s[..n], s[n + 1..]) else ("unknown", s)
  }

  datatype Plan = Plan(primary: string, fallbacks: seq<string>, requestBudgetMs: nat, maxRetryAfterMs: nat)

  function Chain(plan: Plan): (c: seq<(string, string)>)
    ensures |c| == 1 + |plan.fallbacks|
  {
    [SplitProviderModel(plan.primary)]
    + seq(|plan.fallbacks|, i requires 0 <= i < |plan.fallbacks| => SplitProviderModel(plan.fallbacks[i]))
  }

  type Response = string

  datatype Reply = Answer(response: Response) | Refused(error: AppError)

  datatype Handle = Handle(providerId: string, modelId: string)

  /** What the world does at one chain entry, as far as it is asked: the clock at each step, what the resolver
      returns, and what the adapter replies to a first call and to a second. */
  datatype Turn = Turn(elapsedMs: nat, checkedAt: nat, handle: Option<Handle>,
                       calledAt: nat, first: Reply, firstAt: nat,
                       recalledAt: nat, second: Reply, secondAt: nat)

  datatype AttemptRecord = AttemptRecord(provider: string, model: string, outcome: AttemptOutcome)

  datatype ExecutionResult = ExecutionResult(
    response: Response, attempts: seq<AttemptRecord>, providersTried: seq<string>, fallbackCount: nat)

  datatype Outcome = Done(result: ExecutionResult) | Gave(error: AppError)

  // ----- One chain entry, by definition -----

  ghost function OutcomeOf(r: Reply): AttemptOutcome {
    match r
    case Answer(_) => Success
    case Refused(e) => Classify(e)
  }

  datatype Verdict = OverBudget | Cooling | Unresolved | Won(response: Response) | Stops(error: AppError) | Moves

  ghost function VerdictOf(plan: Plan, t: Table, entry: (string, string), w: Turn): Verdict {
    if w.elapsedMs >= plan.requestBudgetMs then OverBudget
    else if InCooldown(t, entry.0, w.checkedAt) then Cooling
    else if w.handle.None? then Unresolved
    else if w.first.Answer? then Won(w.first.response)
    else match Classify(w.first.error)
      case Retry(_, _) => if w.second.Answer? then Won(w.second.response) else Moves
      case Fatal(_) => Stops(w.first.error)
      case TooLong(limit) => Stops(ContextTooLong(entry.1, limit))
      case _ => Moves
  }

  predicate Decides(v: Verdict) { v.OverBudget? || v.Won? || v.Stops? }

  /** The adapter is called. */
  predicate Reaches(v: Verdict) { v.Won? || v.Stops? || v.Moves? }

  ghost function Recorded(p: string, r: Reply, at: nat, b: Breaker): Event {
    if OutcomeOf(r).Retry? || OutcomeOf(r).Success? then Succeeded(p) else Failed(p, at, b)
  }

  function Nap(plan: Plan, waitMs: nat): seq<Event> {
    var ms := if waitMs <= plan.maxRetryAfterMs then waitMs else plan.maxRetryAfterMs;
    if ms > 0 then [Slept(ms)] else []
  }

  ghost function FirstEvents(p: string, w: Turn, b: Breaker): seq<Event> {
    [Called(p, w.calledAt), Recorded(p, w.first, w.firstAt, b)]
  }

  ghost function RetryEvents(plan: Plan, p: string, w: Turn, waitMs: nat, b: Breaker): seq<Event> {
    Nap(plan, waitMs) + [Called(p, w.recalledAt), Recorded(p, w.second, w.secondAt, b)]
  }

  ghost function EventsOf(plan: Plan, v: Verdict, w: Turn, b: Breaker): seq<Event> {
    if !Reaches(v) || w.handle.None? then []
    else
      var p, o := w.handle.value.providerId, OutcomeOf(w.first);
      if o.Retry? then FirstEvents(p, w, b) + RetryEvents(plan, p, w, o.waitMs, b) else FirstEvents(p, w, b)
  }

  ghost function AttemptsOf(v: Verdict, entry: (string, string), w: Turn): seq<AttemptRecord> {
    if v.OverBudget? then []
    else if v.Cooling? then [AttemptRecord(entry.0, entry.1, Skip("in cooldown"))]
    else if w.handle.None? then [AttemptRecord(entry.0, entry.1, Skip("no adapter"))]
    else
      var h := w.handle.value;
      [AttemptRecord(h.providerId, h.modelId, OutcomeOf(w.first))]
      + if OutcomeOf(w.first).Retry? then [AttemptRecord(h.providerId, h.modelId, OutcomeOf(w.second))] else []
  }

  function TriedOf(v: Verdict, entry: (string, string), w: Turn): string {
    if Reaches(v) && w.handle.Some? then w.handle.value.providerId else entry.0
  }

  // ----- The chain, by definition -----

  ghost predicate Scripted(plan: Plan, ws: seq<Turn>) {
    |ws| == 1 + |plan.fallbacks|
  }

  /** The registry before entry i, when the entries before it have all moved on. */
  ghost function TableAt(plan: Plan, b: Breaker, t: Table, ws: seq<Turn>, i: nat): Table
    requires Scripted(plan, ws) && i <= |ws|
    decreases i, 0
  {
    if i == 0 then t
    else ApplyAll(TableAt(plan, b, t, ws, i - 1), EventsOf(plan, VerdictAt(plan, b, t, ws, i - 1), ws[i - 1], b))
  }

  ghost function VerdictAt(plan: Plan, b: Breaker, t: Table, ws: seq<Turn>, i: nat): Verdict
    requires Scripted(plan, ws) && i < |ws|
    decreases i, 1
  {
    VerdictOf(plan, TableAt(plan, b, t, ws, i), Chain(plan)[i], ws[i])
  }

  ghost function LogUpTo(plan: Plan, b: Breaker, t: Table, ws: seq<Turn>, i: nat): seq<Event>
    requires Scripted(plan, ws) && i <= |ws|
  {
    if i == 0 then []
    else LogUpTo(plan, b, t, ws, i - 1) + EventsOf(plan, VerdictAt(plan, b, t, ws, i - 1), ws[i - 1], b)
  }

  ghost function AttemptsUpTo(plan: Plan, b: Breaker, t: Table, ws: seq<Turn>, i: nat): seq<AttemptRecord>
    requires Scripted(plan, ws) && i <= |ws|
  {
    if i == 0 then []
    else
      AttemptsUpTo(plan, b, t, ws, i - 1)
      + AttemptsOf(VerdictAt(plan, b, t, ws, i - 1), Chain(plan)[i - 1], ws[i - 1])
  }

  ghost function TriedUpTo(plan: Plan, b: Breaker, t: Table, ws: seq<Turn>, i: nat): (tried: seq<string>)
    requires Scripted(plan, ws) && i <= |ws|
    ensures |tried| == i
  {
    if i == 0 then []
    else TriedUpTo(plan, b, t, ws, i - 1) + [TriedOf(VerdictAt(plan, b, t, ws, i - 1), Chain(plan)[i - 1], ws[i - 1])]
  }

  /** The first entry, from i on, that decides. */
  ghost function FirstDecider(plan: Plan, b: Breaker, t: Table, ws: seq<Turn>, i: nat): (n: nat)
    requires Scripted(plan, ws) && i <= |ws|
    ensures i <= n <= |ws|
    ensures n < |ws| ==> Decides(VerdictAt(plan, b, t, ws, n))
    ensures forall k :: i <= k < n ==> !Decides(VerdictAt(plan, b, t, ws, k))
    decreases |ws| - i
  {
    if i == |ws| || Decides(VerdictAt(plan, b, t, ws, i)) then i else FirstDecider(plan, b, t, ws, i + 1)
  }

  /** The entries that leave a trace: those before the decider, and the decider itself. */
  ghost function Visited(plan: Plan, b: Breaker, t: Table, ws: seq<Turn>): (n: nat)
    requires Scripted(plan, ws)
    ensures n <= |ws|
  {
    var n := FirstDecider(plan, b, t, ws, 0);
    if n < |ws| then n + 1 else n
  }

  ghost function OutcomeFor(plan: Plan, b: Breaker, t: Table, ws: seq<Turn>): Outcome
    requires Scripted(plan, ws)
  {
    var n := FirstDecider(plan, b, t, ws, 0);
    if n == |ws| then Gave(Internal(AllExhausted(|ws|)))
    else match VerdictAt(plan, b, t, ws, n)
      case Won(r) =>
        Done(ExecutionResult(r, AttemptsUpTo(plan, b, t, ws, n + 1), TriedUpTo(plan, b, t, ws, n + 1), n))
      case Stops(e) => Gave(e)
      case _ => Gave(Internal(BudgetExhausted(ws[n].elapsedMs)))
  }

  // ----- The executor -----

  /** One adapter call, and what its reply does to the provider's health. */
  method Call(registry: HealthRegistry, b: Breaker, p: string, calledAt: nat, r: Reply, at: nat)
    returns (o: AttemptOutcome, events: seq<Event>)
    modifies registry
    ensures o == OutcomeOf(r)
    ensures events == [Called(p, calledAt), Recorded(p, r, at, b)]
    ensures registry.inner == ApplyAll(old(registry.inner), events)
  {
    match r {
      case Answer(_) => o := Success;
      case Refused(e) => o := ClassifyError(e);
    }
    ApplyTwo(registry.inner, Called(p, calledAt), Recorded(p, r, at, b));
    if o.Retry? || o == Success {
      registry.RecordSuccess(p);
      events := [Called(p, calledAt), Succeeded(p)];
    } else {
      registry.RecordFailure(p, b, at);
      events := [Called(p, calledAt), Failed(p, at, b)];
    }
  }

  lemma ApplyTwo(t: Table, e: Event, f: Event)
    ensures ApplyAll(t, [e, f]) == Apply(Apply(t, e), f)
  {
    ApplyAllSnoc(t, [], e);
    ApplyAllSnoc(t, [e], f);
    assert [e] + [f] == [e, f];
  }

  /** The one retry, after a wait that the plan caps. */
  method CallAgain(plan: Plan, registry: HealthRegistry, b: Breaker, p: string, w: Turn, wait: nat)
    returns (o: AttemptOutcome, events: seq<Event>)
    modifies registry
    ensures o == OutcomeOf(w.second) && events == RetryEvents(plan, p, w, wait, b)
    ensures registry.inner == ApplyAll(old(registry.inner), events)
  {
    var waitMs := if wait <= plan.maxRetryAfterMs then wait else plan.maxRetryAfterMs;
    var nap := if waitMs > 0 then [Slept(waitMs)] else [];
    ghost var t := registry.inner;
    assert ApplyAll(t, nap) == t by { if waitMs > 0 { ApplyAllSnoc(t, [], Slept(waitMs)); } }
    o, events := Call(registry, b, p, w.recalledAt, w.second, w.secondAt);
    ApplyAllAppend(t, nap, events);
    events := nap + events;
  }

  /** One turn of the loop. */
  method Attempt(plan: Plan, registry: HealthRegistry, b: Breaker, entry: (string, string), w: Turn)
    returns (v: Verdict, attempts: seq<AttemptRecord>, tried: string, log: seq<Event>)
    modifies registry
    ensures v == VerdictOf(plan, old(registry.inner), entry, w)
    ensures attempts == AttemptsOf(v, entry, w) && tried == TriedOf(v, entry, w) && log == EventsOf(plan, v, w, b)
    ensures registry.inner == ApplyAll(old(registry.inner), log)
  {
    if w.elapsedMs >= plan.requestBudgetMs { return OverBudget, [], entry.0, []; }
    var available := registry.IsAvailable(entry.0, w.checkedAt);
    if !available {
      return Cooling, [AttemptRecord(entry.0, entry.1, Skip("in cooldown"))], entry.0, [];
    }
    if w.handle.None? {
      return Unresolved, [AttemptRecord(entry.0, entry.1, Skip("no adapter"))], entry.0, [];
    }
    var h := w.handle.value;
    tried := h.providerId;
    ghost var t := registry.inner;
    var outcome;
    outcome, log := Call(registry, b, h.providerId, w.calledAt, w.first, w.firstAt);
    attempts := [AttemptRecord(h.providerId, h.modelId, outcome)];
    if w.first.Answer? { return Won(w.first.response), attempts, tried, log; }
    v := Moves;
    if outcome.Retry? {
      var again, events := CallAgain(plan, registry, b, h.providerId, w, outcome.waitMs);
      ApplyAllAppend(t, log, events);
      log := log + events;
      attempts := attempts + [AttemptRecord(h.providerId, h.modelId, again)];
      if w.second.Answer? { v := Won(w.second.response); }
    } else if outcome.Fatal? {
      v := Stops(w.first.error);
    } else if outcome.TooLong? {
      v := Stops(ContextTooLong(entry.1, outcome.limit));
    }
  }

  /** The whole walk: what it returns, what it does to the registry, and the calls it makes. */
  method Execute(plan: Plan, registry: HealthRegistry, b: Breaker, ws: seq<Turn>)
    returns (outcome: Outcome, log: seq<Event>)
    requires Scripted(plan, ws)
    modifies registry
    ensures outcome == OutcomeFor(plan, b, old(registry.inner), ws)
    ensures log == LogUpTo(plan, b, old(registry.inner), ws, Visited(plan, b, old(registry.inner), ws))
    ensures registry.inner == ApplyAll(old(registry.inner), log)
  {
    ghost var t := registry.inner;
    var chain := Chain(plan);
    var attempts: seq<AttemptRecord>, tried: seq<string>, fallbackCount := [], [], 0;
    log := [];
    for i := 0 to |chain|
      invariant registry.inner == TableAt(plan, b, t, ws, i) == ApplyAll(t, log)
      invariant log == LogUpTo(plan, b, t, ws, i) && fallbackCount == i
      invariant attempts == AttemptsUpTo(plan, b, t, ws, i) && tried == TriedUpTo(plan, b, t, ws, i)
      invariant FirstDecider(plan, b, t, ws, 0) == FirstDecider(plan, b, t, ws, i)
    {
      DecidesHereOrLater(plan, b, t, ws, i);
      var v, records, provider, events := Attempt(plan, registry, b, chain[i], ws[i]);
      assert v == VerdictAt(plan, b, t, ws, i);
      OneFurther(plan, b, t, ws, i, v);
      if Decides(v) { DecidedHere(plan, b, t, ws, i, v); }
      ApplyAllAppend(t, log, events);
      log := log + events;
      if v.OverBudget? { return Gave(Internal(BudgetExhausted(ws[i].elapsedMs))), log; }
      attempts := attempts + records;
      tried := tried + [provider];
      if v.Won? { return Done(ExecutionResult(v.response, attempts, tried, fallbackCount)), log; }
      if v.Stops? { return Gave(v.error), log; }
      fallbackCount := fallbackCount + 1;
    }
    outcome := Gave(Internal(AllExhausted(|tried|)));
  }

  lemma DecidesHereOrLater(plan: Plan, b: Breaker, t: Table, ws: seq<Turn>, i: nat)
    requires Scripted(plan, ws) && i < |ws|
    ensures FirstDecider(plan, b, t, ws, i) ==
      if Decides(VerdictAt(plan, b, t, ws, i)) then i else FirstDecider(plan, b, t, ws, i + 1)
  {
  }

  /** The walk by one more entry. */
  lemma OneFurther(plan: Plan, b: Breaker, t: Table, ws: seq<Turn>, i: nat, v: Verdict)
    requires Scripted(plan, ws) && i < |ws| && v == VerdictAt(plan, b, t, ws, i)
    ensures LogUpTo(plan, b, t, ws, i + 1) == LogUpTo(plan, b, t, ws, i) + EventsOf(plan, v, ws[i], b)
    ensures TableAt(plan, b, t, ws, i + 1) == ApplyAll(TableAt(plan, b, t, ws, i), EventsOf(plan, v, ws[i], b))
    ensures AttemptsUpTo(plan, b, t, ws, i + 1)
            == AttemptsUpTo(plan, b, t, ws, i) + AttemptsOf(v, Chain(plan)[i], ws[i])
    ensures TriedUpTo(plan, b, t, ws, i + 1) == TriedUpTo(plan, b, t, ws, i) + [TriedOf(v, Chain(plan)[i], ws[i])]
  {
  }

  /** The walk ends where the first entry decides. */
  lemma DecidedHere(plan: Plan, b: Breaker, t: Table, ws: seq<Turn>, i: nat, v: Verdict)
    requires Scripted(plan, ws) && i < |ws| && v == VerdictAt(plan, b, t, ws, i) && Decides(v)
    requires FirstDecider(plan, b, t, ws, 0) == FirstDecider(plan, b, t, ws, i)
    ensures Visited(plan, b, t, ws) == i + 1
    ensures OutcomeFor(plan, b, t, ws) ==
              match v
              case Won(r) =>
                Done(ExecutionResult(r, AttemptsUpTo(plan, b, t, ws, i + 1), TriedUpTo(plan, b, t, ws, i + 1), i))
              case Stops(e) => Gave(e)
              case _ => Gave(Internal(BudgetExhausted(ws[i].elapsedMs)))
  {
    DecidesHereOrLater(plan, b, t, ws, i);
  }

  // ----- First success -----

  /** The entry's provider is out of cooldown when its turn comes, and the resolver knows it. */
  ghost predicate Callable(plan: Plan, b: Breaker, t: Table, ws: seq<Turn>, i: nat)
    requires Scripted(plan, ws) && i < |ws|
  {
    !InCooldown(TableAt(plan, b, t, ws, i), Chain(plan)[i].0, ws[i].checkedAt) && ws[i].handle.Some?
  }

  ghost predicate AsksAgain(w: Turn) {
    w.first.Refused? && Classify(w.first.error).Retry?
  }

  /** The reply that an entry ends with: the second call's, when the first asked for one. */
  ghost function LastReply(w: Turn): Reply {
    if AsksAgain(w) then w.second else w.first
  }

  /** The entry would answer if it were called. */
  ghost predicate Succeeds(plan: Plan, b: Breaker, t: Table, ws: seq<Turn>, i: nat)
    requires Scripted(plan, ws) && i < |ws|
  {
    Callable(plan, b, t, ws, i) && LastReply(ws[i]).Answer?
  }

  /** The entry's first reply says to give up the whole chain. */
  ghost predicate GivesUp(plan: Plan, b: Breaker, t: Table, ws: seq<Turn>, i: nat)
    requires Scripted(plan, ws) && i < |ws|
  {
    Callable(plan, b, t, ws, i) && ws[i].first.Refused?
    && (Classify(ws[i].first.error).Fatal? || Classify(ws[i].first.error).TooLong?)
  }

  ghost predicate InBudget(plan: Plan, w: Turn) { w.elapsedMs < plan.requestBudgetMs }

  /** The entry is passed over, without a success and without giving up. */
  ghost predicate PassedOver(plan: Plan, b: Breaker, t: Table, ws: seq<Turn>, i: nat)
    requires Scripted(plan, ws) && i < |ws|
  {
    InBudget(plan, ws[i]) && !Succeeds(plan, b, t, ws, i) && !GivesUp(plan, b, t, ws, i)
  }

  ghost predicate FirstSuccess(plan: Plan, b: Breaker, t: Table, ws: seq<Turn>, n: nat)
    requires Scripted(plan, ws) && n < |ws|
  {
    && InBudget(plan, ws[n]) && Succeeds(plan, b, t, ws, n)
    && forall k :: 0 <= k < n ==> PassedOver(plan, b, t, ws, k)
  }

  lemma VerdictMeans(plan: Plan, b: Breaker, t: Table, ws: seq<Turn>, i: nat)
    requires Scripted(plan, ws) && i < |ws|
    ensures
      var v := VerdictAt(plan, b, t, ws, i);
      && (v.OverBudget? <==> !InBudget(plan, ws[i]))
      && (v.Won? <==> InBudget(plan, ws[i]) && Succeeds(plan, b, t, ws, i))
      && (v.Stops? <==> InBudget(plan, ws[i]) && GivesUp(plan, b, t, ws, i))
      && (v.Won? ==> v.response == LastReply(ws[i]).response)
      && (!Decides(v) <==> PassedOver(plan, b, t, ws, i))
  {
  }

  lemma FirstDeciderIs(plan: Plan, b: Breaker, t: Table, ws: seq<Turn>, n: nat)
    requires Scripted(plan, ws) && n < |ws|
    requires Decides(VerdictAt(plan, b, t, ws, n)) && forall k :: 0 <= k < n ==> PassedOver(plan, b, t, ws, k)
    ensures FirstDecider(plan, b, t, ws, 0) == n
  {
    forall k | 0 <= k < n { VerdictMeans(plan, b, t, ws, k); }
  }

  lemma TriedStep(plan: Plan, b: Breaker, t: Table, ws: seq<Turn>, i: nat)
    requires Scripted(plan, ws) && i < |ws|
    ensures TriedUpTo(plan, b, t, ws, i + 1)
            == TriedUpTo(plan, b, t, ws, i) + [TriedOf(VerdictAt(plan, b, t, ws, i), Chain(plan)[i], ws[i])]
  {
  }

  /** The k-th provider tried is the one that was called at entry k, or the one the chain names there. */
  lemma {:induction false} TriedAt(plan: Plan, b: Breaker, t: Table, ws: seq<Turn>, k: nat, i: nat) returns (n: nat)
    requires Scripted(plan, ws) && k < i <= |ws|
    ensures n == i && TriedUpTo(plan, b, t, ws, n)[k] == TriedOf(VerdictAt(plan, b, t, ws, k), Chain(plan)[k], ws[k])
    decreases i
  {
    if i == k + 1 {
      n := k;
    } else {
      n := TriedAt(plan, b, t, ws, k, i - 1);
    }
    TriedStep(plan, b, t, ws, n);
    n := n + 1;
  }

  /** The outcome is the answer of entry n, after the entries before it. */
  ghost predicate AnswersAt(plan: Plan, b: Breaker, t: Table, ws: seq<Turn>, o: Outcome, n: nat)
    requires Scripted(plan, ws) && n < |ws|
  {
    && o.Done? && LastReply(ws[n]) == Answer(o.result.response)
    && o.result.fallbackCount == n == |o.result.providersTried| - 1
    && forall k :: 0 <= k <= n ==> TriedIs(plan, b, t, ws, k, o.result.providersTried[k])
  }

  /** A provider tried: the one that the resolver returned when it could be called, else the one the chain names. */
  ghost predicate TriedIs(plan: Plan, b: Breaker, t: Table, ws: seq<Turn>, k: nat, tried: string)
    requires Scripted(plan, ws) && k < |ws|
  {
    tried == if Callable(plan, b, t, ws, k) then ws[k].handle.value.providerId else Chain(plan)[k].0
  }

  lemma TriedInBudget(plan: Plan, b: Breaker, t: Table, ws: seq<Turn>, k: nat)
    requires Scripted(plan, ws) && k < |ws| && InBudget(plan, ws[k])
    ensures TriedIs(plan, b, t, ws, k, TriedOf(VerdictAt(plan, b, t, ws, k), Chain(plan)[k], ws[k]))
  {
  }

  lemma AllTried(plan: Plan, b: Breaker, t: Table, ws: seq<Turn>, n: nat, tried: seq<string>)
    requires Scripted(plan, ws) && n < |ws| && forall k :: 0 <= k <= n ==> InBudget(plan, ws[k])
    requires tried == TriedUpTo(plan, b, t, ws, n + 1)
    ensures forall k :: 0 <= k <= n ==> TriedIs(plan, b, t, ws, k, tried[k])
  {
    forall k {:trigger tried[k]} | 0 <= k <= n
      ensures TriedIs(plan, b, t, ws, k, tried[k])
    {
      var _ := TriedAt(plan, b, t, ws, k, n + 1);
      TriedInBudget(plan, b, t, ws, k);
    }
  }

  lemma FirstSuccessAnswers(plan: Plan, b: Breaker, t: Table, ws: seq<Turn>, n: nat)
    requires Scripted(plan, ws) && n < |ws| && FirstSuccess(plan, b, t, ws, n)
    ensures AnswersAt(plan, b, t, ws, OutcomeFor(plan, b, t, ws), n)
  {
    VerdictMeans(plan, b, t, ws, n);
    FirstDeciderIs(plan, b, t, ws, n);
    DecidedHere(plan, b, t, ws, n, VerdictAt(plan, b, t, ws, n));
    forall k | 0 <= k <= n
      ensures InBudget(plan, ws[k])
    {
      if k < n { assert PassedOver(plan, b, t, ws, k); }
    }
    AllTried(plan, b, t, ws, n, TriedUpTo(plan, b, t, ws, n + 1));
  }

  lemma AnswerIsFirstSuccess(plan: Plan, b: Breaker, t: Table, ws: seq<Turn>) returns (n: nat)
    requires Scripted(plan, ws) && OutcomeFor(plan, b, t, ws).Done?
    ensures n < |ws| && FirstSuccess(plan, b, t, ws, n)
  {
    n := FirstDecider(plan, b, t, ws, 0);
    VerdictMeans(plan, b, t, ws, n);
    forall k | 0 <= k < n
      ensures PassedOver(plan, b, t, ws, k)
    {
      VerdictMeans(plan, b, t, ws, k);
    }
  }

  /** The executor answers exactly when the chain has a first success: the earliest entry that is out of cooldown,
      resolves, and answers on its first call or on the one retry, with nothing before it that gave up and the budget
      not yet spent. It returns that entry's answer, counts the entries before it, and names the providers tried. */
  lemma OkIsFirstSuccess(plan: Plan, b: Breaker, t: Table, ws: seq<Turn>)
    requires Scripted(plan, ws)
    ensures OutcomeFor(plan, b, t, ws).Done? <==> exists n :: 0 <= n < |ws| && FirstSuccess(plan, b, t, ws, n)
    ensures forall n :: 0 <= n < |ws| && FirstSuccess(plan, b, t, ws, n) ==>
              AnswersAt(plan, b, t, ws, OutcomeFor(plan, b, t, ws), n)
  {
    forall n | 0 <= n < |ws| && FirstSuccess(plan, b, t, ws, n)
      ensures AnswersAt(plan, b, t, ws, OutcomeFor(plan, b, t, ws), n)
    {
      FirstSuccessAnswers(plan, b, t, ws, n);
    }
    if OutcomeFor(plan, b, t, ws).Done? {
      var n := AnswerIsFirstSuccess(plan, b, t, ws);
    }
  }

  /** It reports that every fallback is exhausted exactly when every entry was visited and passed over. */
  lemma ExhaustedIsAllPassedOver(plan: Plan, b: Breaker, t: Table, ws: seq<Turn>)
    requires Scripted(plan, ws)
    ensures OutcomeFor(plan, b, t, ws) == Gave(Internal(AllExhausted(|ws|)))
            <==> forall k :: 0 <= k < |ws| ==> PassedOver(plan, b, t, ws, k)
  {
    var n := FirstDecider(plan, b, t, ws, 0);
    forall k | 0 <= k < |ws| { VerdictMeans(plan, b, t, ws, k); }
    if n < |ws| && VerdictAt(plan, b, t, ws, n).Stops? {
      StopsWithItsOwnError(plan, b, t, ws, n);
    }
  }

  /** What stops the chain is the entry's own first error, or a context error that names the chain's model and the
      limit of that error, 8192 when the provider named none. */
  lemma StopsWithItsOwnError(plan: Plan, b: Breaker, t: Table, ws: seq<Turn>, i: nat)
    requires Scripted(plan, ws) && i < |ws| && VerdictAt(plan, b, t, ws, i).Stops?
    ensures
      var e, first := VerdictAt(plan, b, t, ws, i).error, ws[i].first.error;
      if first.ContextTooLong? then e == ContextTooLong(Chain(plan)[i].1, first.limit)
      else first.ProviderError?
           && if first.status == 400 then e == ContextTooLong(Chain(plan)[i].1, 8192)
              else first.status in {401, 403} && e == first
  {
  }

  /** The second call has no say in whether the chain stops, or with what: a 401 or 403 stops it on a first call,
      but not on the retry. */
  lemma FatalRetryDoesNotStop(plan: Plan, t: Table, entry: (string, string), w: Turn, other: Reply)
    ensures
      var v, v' := VerdictOf(plan, t, entry, w), VerdictOf(plan, t, entry, w.(second := other));
      && (v.Stops? <==> v'.Stops?) && (v.Stops? ==> v == v' && !AsksAgain(w))
      && (AsksAgain(w) && w.second.Refused? ==> !Decides(v) || v.OverBudget?)
  {
  }

  // ----- What the walk leaves behind -----

  function CallsIn(log: seq<Event>): nat {
    if log == [] then 0 else CallsIn(log[..|log| - 1]) + if log[|log| - 1].Called? then 1 else 0
  }

  lemma {:induction false} CallsAppend(a: seq<Event>, c: seq<Event>)
    ensures CallsIn(a + c) == CallsIn(a) + CallsIn(c)
    decreases |c|
  {
    if c == [] {
      assert a + c == a;
    } else {
      CallsAppend(a, c[..|c| - 1]);
      assert (a + c)[..|a + c| - 1] == a + c[..|c| - 1];
    }
  }

  lemma CallsOfTwo(e: Event, f: Event)
    ensures CallsIn([e]) <= 1
    ensures !f.Called? ==> CallsIn([e, f]) <= 1
  {
  }

  lemma EntryCalls(plan: Plan, v: Verdict, w: Turn, b: Breaker)
    ensures CallsIn(EventsOf(plan, v, w, b)) <= 2
  {
    if Reaches(v) && w.handle.Some? {
      var p, o := w.handle.value.providerId, OutcomeOf(w.first);
      CallsOfTwo(Called(p, w.calledAt), Recorded(p, w.first, w.firstAt, b));
      if o.Retry? {
        var nap := Nap(plan, o.waitMs);
        CallsOfTwo(Called(p, w.recalledAt), Recorded(p, w.second, w.secondAt, b));
        assert CallsIn(nap) == 0;
        CallsAppend(nap, [Called(p, w.recalledAt), Recorded(p, w.second, w.secondAt, b)]);
        CallsAppend(FirstEvents(p, w, b), RetryEvents(plan, p, w, o.waitMs, b));
      }
    }
  }

  /** No run makes more than two adapter calls for each entry that it visits. */
  lemma {:induction false} CallBound(plan: Plan, b: Breaker, t: Table, ws: seq<Turn>, i: nat)
    requires Scripted(plan, ws) && i <= |ws|
    ensures CallsIn(LogUpTo(plan, b, t, ws, i)) <= 2 * i
  {
    if i > 0 {
      CallBound(plan, b, t, ws, i - 1);
      EntryCalls(plan, VerdictAt(plan, b, t, ws, i - 1), ws[i - 1], b);
      CallsAppend(LogUpTo(plan, b, t, ws, i - 1), EventsOf(plan, VerdictAt(plan, b, t, ws, i - 1), ws[i - 1], b));
    }
  }

  ghost predicate NoSuccess(attempts: seq<AttemptRecord>) {
    forall k :: 0 <= k < |attempts| ==> !attempts[k].outcome.Success?
  }

  lemma EntryRecords(plan: Plan, t: Table, entry: (string, string), w: Turn)
    ensures
      var v := VerdictOf(plan, t, entry, w);
      var records := AttemptsOf(v, entry, w);
      && (!v.Won? ==> NoSuccess(records))
      && (v.Won? ==> records != [] && records[|records| - 1].outcome.Success? && NoSuccess(records[..|records| - 1]))
  {
  }

  lemma {:induction false} PassedOverLeavesNoSuccess(plan: Plan, b: Breaker, t: Table, ws: seq<Turn>, i: nat)
    requires Scripted(plan, ws) && i <= |ws| && forall k :: 0 <= k < i ==> !VerdictAt(plan, b, t, ws, k).Won?
    ensures NoSuccess(AttemptsUpTo(plan, b, t, ws, i))
  {
    if i > 0 {
      PassedOverLeavesNoSuccess(plan, b, t, ws, i - 1);
      EntryRecords(plan, TableAt(plan, b, t, ws, i - 1), Chain(plan)[i - 1], ws[i - 1]);
    }
  }

  /** In a successful run the only record of a success is the last. */
  lemma OnlyLastSucceeds(plan: Plan, b: Breaker, t: Table, ws: seq<Turn>)
    requires Scripted(plan, ws) && OutcomeFor(plan, b, t, ws).Done?
    ensures
      var attempts := OutcomeFor(plan, b, t, ws).result.attempts;
      && attempts != [] && attempts[|attempts| - 1].outcome.Success?
      && NoSuccess(attempts[..|attempts| - 1])
  {
    var n := FirstDecider(plan, b, t, ws, 0);
    PassedOverLeavesNoSuccess(plan, b, t, ws, n);
    EntryRecords(plan, TableAt(plan, b, t, ws, n), Chain(plan)[n], ws[n]);
    LastOfTwo(AttemptsUpTo(plan, b, t, ws, n), AttemptsOf(VerdictAt(plan, b, t, ws, n), Chain(plan)[n], ws[n]));
  }

  lemma LastOfTwo(before: seq<AttemptRecord>, own: seq<AttemptRecord>)
    requires NoSuccess(before) && own != [] && NoSuccess(own[..|own| - 1])
    ensures var all := before + own; all[|all| - 1] == own[|own| - 1] && NoSuccess(all[..|all| - 1])
  {
    assert (before + own)[..|before + own| - 1] == before + own[..|own| - 1];
  }

  // ----- What the replies of an entry do -----

  /** The provider answered, or said 408 or 429: neither counts against it. */
  ghost predicate Clears(r: Reply) {
    r.Answer? || (r.error.ProviderError? && r.error.status in {408, 429})
  }

  /** The first reply said 408 or 429, so there was a second call. */
  ghost predicate Retried(w: Turn) {
    w.first.Refused? && Clears(w.first)
  }

  ghost function HealthEvent(p: string, r: Reply, at: nat, b: Breaker): Event {
    if Clears(r) then Succeeded(p) else Failed(p, at, b)
  }

  /** After a 429 the executor sleeps a second and a half, or as long as the plan allows; after a 408 not at all. */
  ghost function Pause(plan: Plan, r: Reply): seq<Event>
    requires r.Refused? && r.error.ProviderError?
  {
    if r.error.status == 408 || plan.maxRetryAfterMs == 0 then []
    else if plan.maxRetryAfterMs < 1500 then [Slept(plan.maxRetryAfterMs)]
    else [Slept(1500)]
  }

  /** The trace of an entry by its replies alone. */
  lemma EntryTrace(plan: Plan, b: Breaker, t: Table, entry: (string, string), w: Turn)
    ensures
      var v := VerdictOf(plan, t, entry, w);
      var events := EventsOf(plan, v, w, b);
      && (!Reaches(v) ==> events == [])
      && (Reaches(v) ==>
            w.handle.Some?
            && var p := w.handle.value.providerId;
               events == [Called(p, w.calledAt), HealthEvent(p, w.first, w.firstAt, b)]
                         + if !Retried(w) then []
                           else Pause(plan, w.first)
                                + [Called(p, w.recalledAt), HealthEvent(p, w.second, w.secondAt, b)])
  {
  }

  /** What an entry that calls a provider makes of its health. */
  ghost predicate Counted(h: ProviderHealth, h': ProviderHealth, b: Breaker, w: Turn) {
    var (last, at) := if Retried(w) then (w.second, w.secondAt) else (w.first, w.firstAt);
    if Clears(last) then
      h' == ProviderHealth(Healthy, 0, None, h.lastFailure)
    else
      var n := if Retried(w) then 1 else h.consecutiveFailures + 1;
      && h'.consecutiveFailures == n && h'.lastFailure == Some(at)
      && if n >= b.threshold then h'.status == Down && h'.cooldownUntil == Some(at + 1000 * b.cooldownSecs)
         else if Retried(w) then h'.status == Healthy && h'.cooldownUntil == None
         else h'.status == h.status && h'.cooldownUntil == h.cooldownUntil
  }

  lemma ApplyPause(plan: Plan, r: Reply, t: Table)
    requires r.Refused? && r.error.ProviderError?
    ensures ApplyAll(t, Pause(plan, r)) == t
  {
    if Pause(plan, r) != [] { ApplyAllSnoc(t, [], Pause(plan, r)[0]); }
  }

  lemma OneCall(t: Table, p: string, calledAt: nat, r: Reply, at: nat, b: Breaker)
    ensures ApplyAll(t, [Called(p, calledAt), HealthEvent(p, r, at, b)])
            == t[p := AfterOne(Get(t, p), r, at, b)]
  {
    ApplyTwo(t, Called(p, calledAt), HealthEvent(p, r, at, b));
  }

  ghost function AfterOne(h: ProviderHealth, r: Reply, at: nat, b: Breaker): ProviderHealth {
    if Clears(r) then AfterSuccess(h) else AfterFailure(h, b, at)
  }

  ghost function AfterCalls(h: ProviderHealth, b: Breaker, w: Turn): ProviderHealth {
    var one := AfterOne(h, w.first, w.firstAt, b);
    if Retried(w) then AfterOne(one, w.second, w.secondAt, b) else one
  }

  lemma AfterCallsCounts(h: ProviderHealth, b: Breaker, w: Turn)
    ensures Counted(h, AfterCalls(h, b, w), b, w)
  {
  }

  lemma CallsApplied(plan: Plan, b: Breaker, t: Table, p: string, w: Turn)
    ensures
      var one := [Called(p, w.calledAt), HealthEvent(p, w.first, w.firstAt, b)];
      var two := [Called(p, w.recalledAt), HealthEvent(p, w.second, w.secondAt, b)];
      ApplyAll(t, one + if Retried(w) then Pause(plan, w.first) + two else []) == t[p := AfterCalls(Get(t, p), b, w)]
  {
    var one := [Called(p, w.calledAt), HealthEvent(p, w.first, w.firstAt, b)];
    OneCall(t, p, w.calledAt, w.first, w.firstAt, b);
    if Retried(w) {
      var t1, nap := ApplyAll(t, one), Pause(plan, w.first);
      var two := [Called(p, w.recalledAt), HealthEvent(p, w.second, w.secondAt, b)];
      ApplyPause(plan, w.first, t1);
      OneCall(t1, p, w.recalledAt, w.second, w.secondAt, b);
      ApplyAllAppend(t1, nap, two);
      ApplyAllAppend(t, one, nap + two);
    } else {
      assert one + [] == one;
    }
  }

  lemma EntryApplied(plan: Plan, b: Breaker, t: Table, entry: (string, string), w: Turn)
    requires Reaches(VerdictOf(plan, t, entry, w))
    ensures w.handle.Some?
    ensures
      var p := w.handle.value.providerId;
      ApplyAll(t, EventsOf(plan, VerdictOf(plan, t, entry, w), w, b)) == t[p := AfterCalls(Get(t, p), b, w)]
  {
    EntryTrace(plan, b, t, entry, w);
    CallsApplied(plan, b, t, w.handle.value.providerId, w);
  }

  /**
   * The health of all providers after entry i, by the replies that its provider gave: an answer, a 408 or a
   * 429 wipes what was counted, any other last reply counts one failure more, at its own instant and under
   * the breaker of the run, or the first if a 408 or 429 came just before it. Nobody else is touched, and an
   * entry without a call touches no one.
   */
  lemma HealthAfterEntry(plan: Plan, b: Breaker, t: Table, ws: seq<Turn>, i: nat)
    requires Scripted(plan, ws) && i < |ws|
    ensures
      var before, after := TableAt(plan, b, t, ws, i), TableAt(plan, b, t, ws, i + 1);
      if !Reaches(VerdictAt(plan, b, t, ws, i)) then after == before
      else
        && ws[i].handle.Some?
        && var p := ws[i].handle.value.providerId;
           Counted(Get(before, p), Get(after, p), b, ws[i])
           && forall q :: q != p ==> Get(after, q) == Get(before, q)
  {
    OneFurther(plan, b, t, ws, i, VerdictAt(plan, b, t, ws, i));
    var before := TableAt(plan, b, t, ws, i);
    EntryTrace(plan, b, before, Chain(plan)[i], ws[i]);
    if Reaches(VerdictAt(plan, b, t, ws, i)) {
      EntryApplied(plan, b, before, Chain(plan)[i], ws[i]);
      AfterCallsCounts(Get(before, ws[i].handle.value.providerId), b, ws[i]);
    }
  }

  /** The same of the history that the runs leave: the failures since the last reply that cleared. */
  lemma TrailingAfterEntry(plan: Plan, b: Breaker, log: seq<Event>, entry: (string, string), w: Turn)
    requires Reaches(VerdictOf(plan, Replay(log), entry, w))
    ensures w.handle.Some?
    ensures
      var p, log' := w.handle.value.providerId, log + EventsOf(plan, VerdictOf(plan, Replay(log), entry, w), w, b);
      Trailing(log', p) == if Clears(if Retried(w) then w.second else w.first) then 0
                           else if Retried(w) then 1 else Trailing(log, p) + 1
  {
    var events := EventsOf(plan, VerdictOf(plan, Replay(log), entry, w), w, b);
    EntryApplied(plan, b, Replay(log), entry, w);
    AfterCallsCounts(Get(Replay(log), w.handle.value.providerId), b, w);
    ApplyAllAppend(map[], log, events);
    StateIsHistory(log, w.handle.value.providerId);
    StateIsHistory(log + events, w.handle.value.providerId);
  }

  /** The registry at the end of the walk is that after its last entry. */
  lemma {:induction false} TableIsReplayed(plan: Plan, b: Breaker, t: Table, ws: seq<Turn>, i: nat) returns (n: nat)
    requires Scripted(plan, ws) && i <= |ws|
    ensures n == i && TableAt(plan, b, t, ws, n) == ApplyAll(t, LogUpTo(plan, b, t, ws, n))
  {
    n := 0;
    if i > 0 {
      n := TableIsReplayed(plan, b, t, ws, i - 1);
      var v := VerdictAt(plan, b, t, ws, n);
      OneFurther(plan, b, t, ws, n, v);
      ApplyAllAppend(t, LogUpTo(plan, b, t, ws, n), EventsOf(plan, v, ws[n], b));
      n := n + 1;
    }
  }

  /** An outcome says what the reply was. */
  ghost predicate Describes(o: AttemptOutcome, r: Reply) {
    && (o.Success? <==> r.Answer?)
    && (o.Retry? <==> r.Refused? && Clears(r))
    && (o.Fatal? <==> r.Refused? && r.error.ProviderError? && r.error.status in {401, 403})
    && (o.TooLong? <==> r.Refused? && (r.error.ContextTooLong? || (r.error.ProviderError? && r.error.status == 400
                                                                   && SpeaksOfContext(r.error.message))))
  }

  /** One record for each call, in order; one that says so when the entry makes none; none past the budget. */
  lemma RecordsDescribe(plan: Plan, t: Table, entry: (string, string), w: Turn)
    ensures
      var v := VerdictOf(plan, t, entry, w);
      var records := AttemptsOf(v, entry, w);
      if w.elapsedMs >= plan.requestBudgetMs then records == []
      else if Reaches(v) then
        |records| == (if Retried(w) then 2 else 1)
        && Describes(records[0].outcome, w.first) && (Retried(w) ==> Describes(records[1].outcome, w.second))
      else
        |records| == 1 && records[0].outcome
                          == Skip(if InCooldown(t, entry.0, w.checkedAt) then "in cooldown" else "no adapter")
  {
  }

  // ----- How a run fails -----

  /**
   * With everything before entry n passed over, a spent budget ends the run with the time it took, and an
   * entry that gives up ends it with that entry's error.
   */
  lemma FailsAt(plan: Plan, b: Breaker, t: Table, ws: seq<Turn>, n: nat)
    requires Scripted(plan, ws) && n < |ws| && forall k :: 0 <= k < n ==> PassedOver(plan, b, t, ws, k)
    ensures !InBudget(plan, ws[n]) ==>
              OutcomeFor(plan, b, t, ws) == Gave(Internal(BudgetExhausted(ws[n].elapsedMs)))
    ensures InBudget(plan, ws[n]) && GivesUp(plan, b, t, ws, n) ==>
              var first := ws[n].first.error;
              OutcomeFor(plan, b, t, ws)
              == Gave(if first.ProviderError? && first.status in {401, 403} then first
                      else ContextTooLong(Chain(plan)[n].1, if first.ContextTooLong? then first.limit else 8192))
  {
    VerdictMeans(plan, b, t, ws, n);
    if Decides(VerdictAt(plan, b, t, ws, n)) {
      FirstDeciderIs(plan, b, t, ws, n);
      DecidedHere(plan, b, t, ws, n, VerdictAt(plan, b, t, ws, n));
    }
    if VerdictAt(plan, b, t, ws, n).Stops? { StopsWithItsOwnError(plan, b, t, ws, n); }
  }

  /** A message speaks of the context exactly when one of two phrases is in it, in any case; the third adds nothing. */
  lemma ContextPhrases(message: string)
    ensures SpeaksOfContext(message) <==> Contains(Lower(message), "context") || Contains(Lower(message), "too long")
  {
    if Contains(Lower(message), "maximum context") {
      var i :| 0 <= i <= |Lower(message)| && OccursAt(Lower(message), "maximum context", i);
      assert "maximum context"[8..] == "context";
      assert Lower(message)[i + 8..i + 15] == Lower(message)[i..i + 15][8..];
      assert OccursAt(Lower(message), "context", i + 8);
    }
  }

  // ----- The breaker over many runs -----

  /** One request: its plan, the breaker of its configuration, and what the world does at each entry. */
  datatype Job = Job(plan: Plan, breaker: Breaker, ws: seq<Turn>)

  ghost predicate AllScripted(jobs: seq<Job>) {
    forall i :: 0 <= i < |jobs| ==> Scripted(jobs[i].plan, jobs[i].ws)
  }

  /** The history of runs, one after the other, that share a registry. */
  ghost function RunLog(jobs: seq<Job>): seq<Event>
    requires AllScripted(jobs)
  {
    if jobs == [] then []
    else
      var before, job := RunLog(jobs[..|jobs| - 1]), jobs[|jobs| - 1];
      var t := Replay(before);
      before + LogUpTo(job.plan, job.breaker, t, job.ws, Visited(job.plan, job.breaker, t, job.ws))
  }

  /** The resolver returns the provider it was asked for, and a call comes after its check. */
  ghost predicate Faithful(plan: Plan, ws: seq<Turn>) {
    && Scripted(plan, ws)
    && forall i :: 0 <= i < |ws| ==> FaithfulTurn(Chain(plan)[i], ws[i])
  }

  ghost predicate FaithfulTurn(entry: (string, string), w: Turn) {
    w.checkedAt <= w.calledAt && (w.handle.Some? ==> w.handle.value.providerId == entry.0)
  }

  lemma HonouredAppend(log: seq<Event>, e: Event, f: Event)
    requires Honoured(log) && !f.Called?
    requires e.Called? ==> CallAllowed(log, e.provider, e.at)
    ensures Honoured(log + [e, f])
  {
    HonouredSnoc(log, e);
    HonouredSnoc(log + [e], f);
    assert log + [e] + [f] == log + [e, f];
  }

  /** After a recorded success the provider may be called at once, and a wait does not change that. */
  lemma AllowedAfterSuccess(log: seq<Event>, e: Event, p: string, nap: seq<Event>, at: nat)
    requires nap == [] || exists ms :: nap == [Slept(ms)]
    ensures CallAllowed(log + [e, Succeeded(p)] + nap, p, at)
  {
    var now := log + [e, Succeeded(p)];
    assert now[..|now| - 1] == log + [e];
    assert CoolsUntil(now, p) == None;
    if nap == [] {
      assert now + nap == now;
    } else {
      assert (now + nap)[..|now|] == now;
    }
  }

  lemma EntryHonours(plan: Plan, b: Breaker, log: seq<Event>, entry: (string, string), w: Turn)
    requires Honoured(log) && FaithfulTurn(entry, w)
    ensures Honoured(log + EventsOf(plan, VerdictOf(plan, Replay(log), entry, w), w, b))
  {
    var v := VerdictOf(plan, Replay(log), entry, w);
    if Reaches(v) && w.handle.Some? {
      var p, o := entry.0, OutcomeOf(w.first);
      CheckedCall(log, p, w.checkedAt, w.calledAt);
      HonouredAppend(log, Called(p, w.calledAt), Recorded(p, w.first, w.firstAt, b));
      if o.Retry? {
        var now, nap := log + FirstEvents(p, w, b), Nap(plan, o.waitMs);
        AllowedAfterSuccess(log, Called(p, w.calledAt), p, nap, w.recalledAt);
        if nap != [] { HonouredSnoc(now, nap[0]); }
        assert now + nap == if nap == [] then now else now + [nap[0]];
        HonouredAppend(now + nap, Called(p, w.recalledAt), Recorded(p, w.second, w.secondAt, b));
        Assoc(now, nap, [Called(p, w.recalledAt), Recorded(p, w.second, w.secondAt, b)]);
        Assoc(log, FirstEvents(p, w, b), RetryEvents(plan, p, w, o.waitMs, b));
      }
    } else {
      assert log + [] == log;
    }
  }

  lemma StepHonours(plan: Plan, b: Breaker, log: seq<Event>, before: seq<Event>, t: Table,
                    entry: (string, string), w: Turn)
    requires Honoured(log + before) && Replay(log + before) == t && FaithfulTurn(entry, w)
    ensures
      var events := EventsOf(plan, VerdictOf(plan, t, entry, w), w, b);
      && Honoured(log + (before + events))
      && Replay(log + (before + events)) == ApplyAll(t, events)
  {
    var events := EventsOf(plan, VerdictOf(plan, t, entry, w), w, b);
    EntryHonours(plan, b, log + before, entry, w);
    ApplyAllAppend(map[], log + before, events);
    Assoc(log, before, events);
  }

  /** The trace of a run keeps the breakers and leads to the tables of its definition, up to entry i. */
  ghost predicate WalkKept(b: Breaker, log: seq<Event>, plan: Plan, ws: seq<Turn>, i: nat)
    requires Scripted(plan, ws) && i <= |ws|
  {
    var so := log + LogUpTo(plan, b, Replay(log), ws, i);
    Honoured(so) && Replay(so) == TableAt(plan, b, Replay(log), ws, i)
  }

  lemma WalkStart(b: Breaker, log: seq<Event>, plan: Plan, ws: seq<Turn>)
    requires Honoured(log) && Scripted(plan, ws)
    ensures WalkKept(b, log, plan, ws, 0)
  {
    assert log + [] == log;
  }

  lemma WalkStep(b: Breaker, log: seq<Event>, plan: Plan, ws: seq<Turn>, i: nat)
    requires Faithful(plan, ws) && i < |ws| && WalkKept(b, log, plan, ws, i)
    ensures WalkKept(b, log, plan, ws, i + 1)
  {
    var t := Replay(log);
    StepHonours(plan, b, log, LogUpTo(plan, b, t, ws, i), TableAt(plan, b, t, ws, i), Chain(plan)[i], ws[i]);
  }

  /** Every index up to the end is reached by steps; the last of them is returned. */
  lemma {:induction false} WalkHonours(b: Breaker, log: seq<Event>, plan: Plan, ws: seq<Turn>, i: nat) returns (n: nat)
    requires Honoured(log) && Faithful(plan, ws) && i <= |ws|
    ensures n == i && WalkKept(b, log, plan, ws, n)
  {
    if i == 0 {
      WalkStart(b, log, plan, ws);
      n := 0;
    } else {
      n := WalkHonours(b, log, plan, ws, i - 1);
      WalkStep(b, log, plan, ws, n);
      n := n + 1;
    }
  }

  /** Over any sequence of runs that share a registry, each with its own threshold and cooldown, and with a resolver
      that returns the provider it is asked for, no adapter call is made to a provider in cooldown. */
  lemma {:induction false} RunsHonourBreaker(jobs: seq<Job>)
    requires AllScripted(jobs)
    requires forall i :: 0 <= i < |jobs| ==> Faithful(jobs[i].plan, jobs[i].ws)
    ensures Honoured(RunLog(jobs))
    decreases |jobs|
  {
    if jobs != [] {
      var before, job := RunLog(jobs[..|jobs| - 1]), jobs[|jobs| - 1];
      RunsHonourBreaker(jobs[..|jobs| - 1]);
      var visited := Visited(job.plan, job.breaker, Replay(before), job.ws);
      var _ := WalkHonours(job.breaker, before, job.plan, job.ws, visited);
    }
  }

  lemma SingleRun(job: Job)
    requires Scripted(job.plan, job.ws)
    ensures RunLog([job])
            == LogUpTo(job.plan, job.breaker, map[], job.ws, Visited(job.plan, job.breaker, map[], job.ws))
  {
    assert [job][..0] == [];
    assert RunLog([job][..0]) == [];
  }

  /** At time 0 the resolver hands out provider c, whose adapter times out. */
  function TimesOut(c: string): Turn {
    Turn(0, 0, Some(Handle(c, "m")), 0, Refused(UpstreamTimeout(1)), 0, 0, Refused(UpstreamTimeout(1)), 0)
  }

  function CalledInVain(c: string, b: Breaker): seq<Event> { [Called(c, 0), Failed(c, 0, b)] }

  lemma MovesOn(plan: Plan, t: Table, entry: (string, string), c: string, b: Breaker)
    requires plan.requestBudgetMs > 0 && !InCooldown(t, entry.0, 0)
    ensures VerdictOf(plan, t, entry, TimesOut(c)) == Moves
    ensures EventsOf(plan, Moves, TimesOut(c), b) == CalledInVain(c, b)
  {
  }

  lemma OthersUntouched(b: Breaker, c: string, p: string)
    requires p != c
    ensures !InCooldown(ApplyAll(map[], CalledInVain(c, b)), p, 0)
  {
    ApplyAllSnoc(map[], [], Called(c, 0));
    ApplyAllSnoc(map[], [Called(c, 0)], Failed(c, 0, b));
    assert [Called(c, 0)] + [Failed(c, 0, b)] == CalledInVain(c, b);
  }

  lemma TwoSkips(plan: Plan, c: string, b: Breaker)
    requires |plan.fallbacks| == 1 && plan.requestBudgetMs > 0 && Chain(plan)[1].0 != c
    ensures Visited(plan, b, map[], [TimesOut(c), TimesOut(c)]) == 2
    ensures LogUpTo(plan, b, map[], [TimesOut(c), TimesOut(c)], 2) == CalledInVain(c, b) + CalledInVain(c, b)
  {
    var t: Table, ws := map[], [TimesOut(c), TimesOut(c)];
    MovesOn(plan, t, Chain(plan)[0], c, b);
    OthersUntouched(b, c, Chain(plan)[1].0);
    assert VerdictAt(plan, b, t, ws, 0) == Moves;
    assert LogUpTo(plan, b, t, ws, 1) == [] + CalledInVain(c, b) == CalledInVain(c, b);
    MovesOn(plan, TableAt(plan, b, t, ws, 1), Chain(plan)[1], c, b);
    assert VerdictAt(plan, b, t, ws, 1) == Moves;
  }

  lemma VainTwice(b: Breaker, c: string)
    requires b.threshold == 1 && b.Cooldown() > 0
    ensures !Honoured(CalledInVain(c, b) + CalledInVain(c, b))
  {
    var one := CalledInVain(c, b);
    var log := one + one;
    assert log[..2] == one && one[..1] == [Called(c, 0)] && log[..3][..2] == one;
    assert Trailing([Called(c, 0)], c) == 0;
    assert Trailing(one, c) == 1 && CoolsUntil(one, c) == Some(b.Cooldown());
    assert log[2].Called? && !CallAllowed(log[..2], c, 0);
    if Honoured(log) { EachCallAllowed(log, 2); }
  }

  /** Without that the breaker is checked under one name and charged under another: two entries that resolve to a
      third provider call it again while it cools. */
  lemma UnfaithfulResolver(plan: Plan, c: string)
    requires |plan.fallbacks| == 1 && plan.requestBudgetMs > 0 && Chain(plan)[1].0 != c
    ensures !Honoured(RunLog([Job(plan, Breaker(1, 60), [TimesOut(c), TimesOut(c)])]))
  {
    var b := Breaker(1, 60);
    TwoSkips(plan, c, b);
    SingleRun(Job(plan, b, [TimesOut(c), TimesOut(c)]));
    VainTwice(b, c);
  }
}
