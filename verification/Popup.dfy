/**
 * The pending states of the pop-up flow of src/oauth/mod.rs as a state machine: starting a flow
 * stores a state with its provider and a PKCE verifier; the callback consumes the state. The
 * theorems hold for every sequence of starts and callbacks, with no assumption that states are
 * fresh.
 */
module Popup {
  import opened Base
  import opened Base64Url
  import opened AuthorizeUrl

  type Manifest = map<bytes, PopupConfig>

  datatype Pending = Pending(states: map<bytes, bytes>, verifiers: map<bytes, string>)

  const NOTHING := Pending(map[], map[])

  datatype Event =
    | Started(provider: bytes, nonce: bytes, seed: octets)
    | Returned(provider: bytes, state: bytes)

  predicate Startable(m: Manifest, provider: bytes) {
    provider in m && m[provider].authorizeUrl != "" && !m[provider].pasteCode
  }

  function StateOf(provider: bytes, nonce: bytes): bytes {
    provider + Ascii(".") + nonce
  }

  /** The state comes off first; the verifier only when provider and manifest agree. */
  function Next(m: Manifest, p: Pending, e: Event): Pending {
    match e
    case Started(provider, nonce, seed) =>
      if Startable(m, provider) then
        Pending(p.states[StateOf(provider, nonce) := provider], p.verifiers[StateOf(provider, nonce) := Base64(seed)])
      else p
    case Returned(provider, state) =>
      if state !in p.states then p
      else if p.states[state] != provider || provider !in m then Pending(p.states - {state}, p.verifiers)
      else Pending(p.states - {state}, p.verifiers - {state})
  }

  /** The verifier sent, when the callback gets as far as the token endpoint. */
  function Exchange(m: Manifest, p: Pending, e: Event): Option<Option<string>> {
    if e.Returned? && e.state in p.states && p.states[e.state] == e.provider && e.provider in m then
      Some(if e.state in p.verifiers then Some(p.verifiers[e.state]) else None)
    else
      None
  }

  function Run(m: Manifest, log: seq<Event>): Pending {
    if log == [] then NOTHING else Next(m, Run(m, log[..|log| - 1]), log[|log| - 1])
  }

  // ----- what the history says -----

  predicate Issues(m: Manifest, e: Event, state: bytes) {
    e.Started? && Startable(m, e.provider) && StateOf(e.provider, e.nonce) == state
  }

  predicate Touches(m: Manifest, e: Event, state: bytes) {
    Issues(m, e, state) || (e.Returned? && e.state == state)
  }

  /** The state was issued at j, and nothing after j re-issued it or came back with it. */
  ghost predicate LiveSince(m: Manifest, log: seq<Event>, state: bytes, j: nat) {
    j < |log| && Issues(m, log[j], state)
    && forall i :: j < i < |log| ==> !Touches(m, log[i], state)
  }

  /** The index that makes the state live, if any. */
  function LiveIssue(m: Manifest, log: seq<Event>, state: bytes): (r: Option<nat>)
  {
    if log == [] then None
    else if Issues(m, log[|log| - 1], state) then Some(|log| - 1)
    else if Touches(m, log[|log| - 1], state) then None
    else LiveIssue(m, log[..|log| - 1], state)
  }

  lemma {:induction false} LiveIssueExact(m: Manifest, log: seq<Event>, state: bytes)
    ensures forall j: nat :: LiveSince(m, log, state, j) <==> LiveIssue(m, log, state) == Some(j)
  {
    if log != [] {
      var before := log[..|log| - 1];
      LiveIssueExact(m, before, state);
      forall j: nat
        ensures LiveSince(m, log, state, j) <==> LiveIssue(m, log, state) == Some(j)
      {
        if j < |log| - 1 && !Touches(m, log[|log| - 1], state) {
          assert LiveSince(m, log, state, j) <==> LiveSince(m, before, state, j);
        }
      }
    }
  }

  /** A state is pending exactly when it is live, for the provider and with the verifier of its issue. */
  lemma {:induction false} PendingExact(m: Manifest, log: seq<Event>, state: bytes)
    ensures var p, live := Run(m, log), LiveIssue(m, log, state);
            (state in p.states <==> live.Some?)
            && (live.Some? ==>
                  live.value < |log| && Issues(m, log[live.value], state)
                  && p.states[state] == log[live.value].provider
                  && state in p.verifiers && p.verifiers[state] == Base64(log[live.value].seed))
  {
    if log != [] {
      PendingExact(m, log[..|log| - 1], state);
    }
  }

  /**
   * A callback reaches the token endpoint if and only if its state was issued, to that provider, by
   * a start since which the state was neither re-issued nor brought back; and the verifier sent is
   * the one generated at that start.
   */
  lemma ExchangeExact(m: Manifest, log: seq<Event>, e: Event, verifier: Option<string>)
    requires e.Returned?
    ensures Exchange(m, Run(m, log), e) == Some(verifier)
            <==> exists j: nat :: LiveSince(m, log, e.state, j) && log[j].provider == e.provider
                                  && verifier == Some(Base64(log[j].seed))
  {
    PendingExact(m, log, e.state);
    LiveIssueExact(m, log, e.state);
    var live := LiveIssue(m, log, e.state);
    if live.Some? {
      assert LiveSince(m, log, e.state, live.value);
    }
  }

  ghost predicate ExchangedAt(m: Manifest, log: seq<Event>, k: nat, state: bytes) {
    k < |log| && log[k].Returned? && log[k].state == state && Exchange(m, Run(m, log[..k]), log[k]).Some?
  }

  /** Between two exchanges of one state lies a new issue of it: a state issued once is used at most once. */
  lemma SingleUse(m: Manifest, log: seq<Event>, k: nat, l: nat, state: bytes) returns (j: nat)
    requires ExchangedAt(m, log, k, state) && ExchangedAt(m, log, l, state) && k < l
    ensures k < j < l && Issues(m, log[j], state)
  {
    PendingExact(m, log[..l], state);
    LiveIssueExact(m, log[..l], state);
    j := LiveIssue(m, log[..l], state).value;
    assert LiveSince(m, log[..l], state, j);
    assert log[..l][k] == log[k] && Touches(m, log[k], state);
  }

  function IssueCount(m: Manifest, log: seq<Event>, state: bytes): nat {
    if log == [] then 0
    else IssueCount(m, log[..|log| - 1], state) + if Issues(m, log[|log| - 1], state) then 1 else 0
  }

  function ExchangeCount(m: Manifest, log: seq<Event>, state: bytes): nat {
    if log == [] then 0
    else
      var before, e := log[..|log| - 1], log[|log| - 1];
      ExchangeCount(m, before, state)
      + if e.Returned? && e.state == state && Exchange(m, Run(m, before), e).Some? then 1 else 0
  }

  /** Exchanges made and still possible never outnumber the issues. */
  lemma {:induction false} ExchangesBounded(m: Manifest, log: seq<Event>, state: bytes)
    ensures ExchangeCount(m, log, state) + (if state in Run(m, log).states then 1 else 0)
            <= IssueCount(m, log, state)
  {
    if log != [] {
      ExchangesBounded(m, log[..|log| - 1], state);
    }
  }

  /** Every pending state has a verifier; a callback for the wrong provider leaves its verifier behind. */
  lemma WrongProviderBurnsState(m: Manifest, log: seq<Event>, provider: bytes, state: bytes)
    requires state in Run(m, log).states && Run(m, log).states[state] != provider
    ensures var p := Run(m, log + [Returned(provider, state)]);
            state !in p.states && state in p.verifiers
    ensures Exchange(m, Run(m, log), Returned(provider, state)).None?
    ensures forall again :: Exchange(m, Run(m, log + [Returned(provider, state)]), Returned(again, state)).None?
  {
  }

  /** Nonces have one length, so a state names its provider: a re-issue is for the same provider. */
  lemma StateNamesProvider(p: bytes, q: bytes, n: bytes, o: bytes)
    requires |n| == |o| && StateOf(p, n) == StateOf(q, o)
    ensures p == q && n == o
  {
    assert |p| == |q|;
    assert p == StateOf(p, n)[..|p|] && q == StateOf(q, o)[..|q|];
    assert n == StateOf(p, n)[|p| + 1..] && o == StateOf(q, o)[|q| + 1..];
  }
}
