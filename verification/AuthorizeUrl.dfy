/**
 * The authorize URL of src/oauth/mod.rs: which parameters the pop-up flow sends, how the URL is
 * written, and what a provider that reads the URL finds in it. Strings are their UTF-8 bytes; the
 * URL itself is a string of characters.
 */
module AuthorizeUrl {
  import opened Base
  import opened UrlQuery

  /** The manifest entry of a provider, as far as the pop-up flow reads it. */
  datatype PopupConfig = PopupConfig(
    authorizeUrl: string,
    clientId: bytes,
    clientSecret: bytes,
    scope: bytes,
    redirectUri: bytes,
    extraParams: Pairs,
    requiresPkce: bool,
    pasteCode: bool)

  function EffectiveRedirect(cfg: PopupConfig, redirect: bytes): bytes {
    if cfg.redirectUri == [] then redirect else cfg.redirectUri
  }

  function WithPlus(scope: bytes): bytes {
    seq(|scope|, i requires 0 <= i < |scope| => if scope[i] == ' ' as int then '+' as int else scope[i])
  }

  function ScopeSent(cfg: PopupConfig): bytes {
    if cfg.scope == [] then Ascii("openid profile email offline_access") else WithPlus(cfg.scope)
  }

  function First(): (bytes, bytes) {
    (Ascii("response_type"), Ascii("code"))
  }

  function Own(cfg: PopupConfig, redirect: bytes, state: bytes): Pairs {
    [(Ascii("client_id"), cfg.clientId),
     (Ascii("redirect_uri"), EffectiveRedirect(cfg, redirect)),
     (Ascii("state"), state),
     (Ascii("scope"), ScopeSent(cfg))]
  }

  function Tail(cfg: PopupConfig, challenge: string): Pairs {
    if cfg.requiresPkce then
      [(Ascii("code_challenge"), Ascii(challenge)), (Ascii("code_challenge_method"), Ascii("S256"))]
    else
      []
  }

  /** The parameters a provider must read from the URL, in order. */
  function AuthorizeParams(cfg: PopupConfig, redirect: bytes, state: bytes, challenge: string): Pairs {
    [First()] + (Own(cfg, redirect, state) + cfg.extraParams + Tail(cfg, challenge))
  }

  predicate Plain(s: string) {
    forall i :: 0 <= i < |s| ==> Unreserved(s[i] as int)
  }

  lemma PlainAsIs(s: string)
    requires Plain(s)
    ensures Percent(Ascii(s)) == s
  {
    PercentFixes(Ascii(s));
    assert Percent(Ascii(s)) == s;
  }

  lemma PlainNames()
    ensures Plain("client_id") && Plain("redirect_uri") && Plain("state") && Plain("scope")
  {
  }

  lemma PlainPkceNames()
    ensures Plain("code_challenge") && Plain("code_challenge_method")
  {
  }

  lemma OnePair(name: string, value: string)
    requires Plain(name) && Plain(value)
    ensures Query([(Ascii(name), Ascii(value))]) == name + "=" + value
  {
    PlainAsIs(name);
    PlainAsIs(value);
    assert Fields([(Ascii(name), Ascii(value))]) == [Field((Ascii(name), Ascii(value)))];
  }

  lemma FirstWritten()
    ensures Query([First()]) == "response_type" + "=" + "code"
  {
    assert Plain("response_type");
    assert Plain("code");
    OnePair("response_type", "code");
  }

  lemma Chain<T>(ps: seq<T>, a: T, b: T, c: T, d: T)
    ensures ps + [a] + [b] + [c] + [d] == ps + [a, b, c, d]
    ensures ps + [a] + [b] == ps + [a, b]
  {
  }

  /** Append one pair, a name that needs no encoding and a value that may, to a non-empty query. */
  method AddParam(query: string, name: string, value: bytes, ghost ps: Pairs) returns (longer: string)
    requires |ps| > 0 && query == Query(ps) && Plain(name)
    ensures longer == Query(ps + [(Ascii(name), value)])
  {
    var encoded := UrlEncode(value);
    PlainAsIs(name);
    QuerySnoc(ps, (Ascii(name), value));
    longer := query + ("&" + (name + "=" + encoded));
  }

  method AddOwn(query: string, cfg: PopupConfig, redirect: bytes, state: bytes, ghost ps: Pairs)
    returns (longer: string)
    requires |ps| > 0 && query == Query(ps)
    ensures longer == Query(ps + Own(cfg, redirect, state))
  {
    PlainNames();
    ghost var a := (Ascii("client_id"), cfg.clientId);
    ghost var b := (Ascii("redirect_uri"), EffectiveRedirect(cfg, redirect));
    ghost var c := (Ascii("state"), state);
    ghost var d := (Ascii("scope"), ScopeSent(cfg));
    longer := AddParam(query, "client_id", cfg.clientId, ps);
    longer := AddParam(longer, "redirect_uri", EffectiveRedirect(cfg, redirect), ps + [a]);
    longer := AddParam(longer, "state", state, ps + [a] + [b]);
    longer := AddParam(longer, "scope", ScopeSent(cfg), ps + [a] + [b] + [c]);
    Chain(ps, a, b, c, d);
  }

  lemma PairWritten(query: string, ps: Pairs, p: (bytes, bytes), key: string, value: string)
    requires |ps| > 0 && query == Query(ps) && key == Percent(p.0) && value == Percent(p.1)
    ensures query + ("&" + (key + "=" + value)) == Query(ps + [p])
  {
    QuerySnoc(ps, p);
  }

  lemma OneMore<T>(s: seq<T>, t: seq<T>, i: nat)
    requires i < |t|
    ensures s + t[..i] + [t[i]] == s + t[..i + 1]
  {
  }

  method AddExtra(query: string, extra: Pairs, ghost ps: Pairs) returns (longer: string)
    requires |ps| > 0 && query == Query(ps)
    ensures longer == Query(ps + extra)
  {
    longer := query;
    assert ps + extra[..0] == ps;
    for i := 0 to |extra|
      invariant longer == Query(ps + extra[..i])
    {
      var key := UrlEncode(extra[i].0);
      var value := UrlEncode(extra[i].1);
      PairWritten(longer, ps + extra[..i], extra[i], key, value);
      longer := longer + ("&" + (key + "=" + value));
      OneMore(ps, extra, i);
    }
    assert extra[..|extra|] == extra;
  }

  method AddChallenge(query: string, cfg: PopupConfig, challenge: string, ghost ps: Pairs) returns (longer: string)
    requires |ps| > 0 && query == Query(ps)
    ensures longer == Query(ps + Tail(cfg, challenge))
  {
    longer := query;
    if cfg.requiresPkce {
      PlainPkceNames();
      ghost var a := (Ascii("code_challenge"), Ascii(challenge));
      ghost var b := (Ascii("code_challenge_method"), Ascii("S256"));
      longer := AddParam(longer, "code_challenge", Ascii(challenge), ps);
      longer := AddParam(longer, "code_challenge_method", Ascii("S256"), ps + [a]);
      Chain(ps, a, b, a, b);
    } else {
      assert ps + [] == ps;
    }
  }

  /** src/oauth/mod.rs, start_popup_oauth: the URL the user is sent to. */
  method BuildAuthorizeUrl(cfg: PopupConfig, redirect: bytes, state: bytes, challenge: string)
    returns (url: string)
    ensures url == cfg.authorizeUrl + "?" + Query(AuthorizeParams(cfg, redirect, state, challenge))
  {
    ghost var ps := [First()];
    FirstWritten();
    var query := "response_type" + "=" + "code";
    query := AddOwn(query, cfg, redirect, state, ps);
    query := AddExtra(query, cfg.extraParams, ps + Own(cfg, redirect, state));
    query := AddChallenge(query, cfg, challenge, ps + Own(cfg, redirect, state) + cfg.extraParams);
    Assoc(ps, Own(cfg, redirect, state), cfg.extraParams);
    Assoc(ps, Own(cfg, redirect, state) + cfg.extraParams, Tail(cfg, challenge));
    url := cfg.authorizeUrl + "?" + query;
  }

  /** Reading the query of the URL gives back the ordered parameters, whatever bytes they hold. */
  lemma ProviderReads(cfg: PopupConfig, redirect: bytes, state: bytes, challenge: string)
    ensures var query := Query(AuthorizeParams(cfg, redirect, state, challenge));
            (cfg.authorizeUrl + "?" + query)[|cfg.authorizeUrl| + 1..] == query
            && ReadQuery(query) == Some(AuthorizeParams(cfg, redirect, state, challenge))
  {
    QueryRoundTrip(AuthorizeParams(cfg, redirect, state, challenge));
  }

  /** The value of the first pair with a name, as a provider looks parameters up. */
  function ValueOf(ps: Pairs, name: bytes): Option<bytes> {
    if ps == [] then None else if ps[0].0 == name then Some(ps[0].1) else ValueOf(ps[1..], name)
  }

  lemma {:induction false} FirstNamed(ps: Pairs, k: nat)
    requires k < |ps| && forall i :: 0 <= i < k ==> ps[i].0 != ps[k].0
    ensures ValueOf(ps, ps[k].0) == Some(ps[k].1)
  {
    if k > 0 {
      FirstNamed(ps[1..], k - 1);
    }
  }

  lemma OwnNamesDiffer()
    ensures Ascii("response_type") != Ascii("scope") && Ascii("client_id") != Ascii("scope")
    ensures Ascii("redirect_uri") != Ascii("scope") && Ascii("state") != Ascii("scope")
  {
    assert |Ascii("scope")| == 5 && Ascii("scope")[1] != Ascii("state")[1];
  }

  lemma ScopePair(cfg: PopupConfig, redirect: bytes, state: bytes, challenge: string)
    ensures ValueOf(AuthorizeParams(cfg, redirect, state, challenge), Ascii("scope")) == Some(ScopeSent(cfg))
  {
    var ps := AuthorizeParams(cfg, redirect, state, challenge);
    OwnNamesDiffer();
    assert ps[4] == (Ascii("scope"), ScopeSent(cfg));
    FirstNamed(ps, 4);
  }

  lemma SpaceIsLost(cfg: PopupConfig)
    requires cfg.scope != []
    ensures ScopeSent(cfg) == cfg.scope <==> ' ' as int !in cfg.scope
  {
  }

  /**
   * What the provider finds under "scope" in the query of the URL is the manifest's scope exactly when
   * that has no space: a space is turned into '+', and the '+' is then percent-encoded.
   */
  lemma ScopeArrives(cfg: PopupConfig, redirect: bytes, state: bytes, challenge: string)
    requires cfg.scope != []
    ensures var read := ReadQuery(Query(AuthorizeParams(cfg, redirect, state, challenge)));
            read.Some? && (ValueOf(read.value, Ascii("scope")) == Some(cfg.scope) <==> ' ' as int !in cfg.scope)
  {
    ProviderReads(cfg, redirect, state, challenge);
    ScopePair(cfg, redirect, state, challenge);
    SpaceIsLost(cfg);
  }

  // ----- what the provider reads -----

  lemma NamesApart()
    ensures |Ascii("response_type")| == 13 && |Ascii("client_id")| == 9 && |Ascii("redirect_uri")| == 12
    ensures |Ascii("state")| == |Ascii("scope")| == 5 && Ascii("state")[1] == 116 && Ascii("scope")[1] == 99
    ensures |Ascii("code_challenge")| == 14 && |Ascii("code_challenge_method")| == 21
  {
  }

  /** A plus sign, 43, for each space, 32, and nothing else changed. */
  ghost predicate Plussed(scope: bytes, sent: bytes) {
    |sent| == |scope| && forall i :: 0 <= i < |scope| ==> sent[i] == if scope[i] == 32 then 43 else scope[i]
  }

  /** The five parameters of every start, looked up by their names, and after them the manifest's own in order. */
  ghost predicate Asks(cfg: PopupConfig, redirect: bytes, state: bytes, read: Pairs) {
    && ValueOf(read, Ascii("response_type")) == Some(Ascii("code"))
    && ValueOf(read, Ascii("client_id")) == Some(cfg.clientId)
    && ValueOf(read, Ascii("redirect_uri")) == Some(if cfg.redirectUri != [] then cfg.redirectUri else redirect)
    && ValueOf(read, Ascii("state")) == Some(state)
    && ValueOf(read, Ascii("scope")).Some?
    && (var scope := ValueOf(read, Ascii("scope")).value;
        if cfg.scope == [] then scope == Ascii("openid profile email offline_access") else Plussed(cfg.scope, scope))
    && |read| >= 5 + |cfg.extraParams| && read[5..5 + |cfg.extraParams|] == cfg.extraParams
  }

  /** The PKCE pair of section 4.3 of RFC 7636, exactly when the manifest asks for it, unless it sends its own. */
  ghost predicate Challenges(cfg: PopupConfig, challenge: string, read: Pairs) {
    && (cfg.requiresPkce && ValueOf(cfg.extraParams, Ascii("code_challenge")).None? ==>
          ValueOf(read, Ascii("code_challenge")) == Some(Ascii(challenge)))
    && (cfg.requiresPkce && ValueOf(cfg.extraParams, Ascii("code_challenge_method")).None? ==>
          ValueOf(read, Ascii("code_challenge_method")) == Some(Ascii("S256")))
    && (!cfg.requiresPkce ==> |read| == 5 + |cfg.extraParams|)
  }

  lemma PairAt(ps: Pairs, k: nat, name: bytes, value: bytes)
    requires k < |ps| && ps[k] == (name, value) && forall i :: 0 <= i < k ==> ps[i].0 != name
    ensures ValueOf(ps, name) == Some(value)
  {
    FirstNamed(ps, k);
  }

  lemma ParamsAsk(cfg: PopupConfig, redirect: bytes, state: bytes, challenge: string)
    ensures Asks(cfg, redirect, state, AuthorizeParams(cfg, redirect, state, challenge))
  {
    var ps := AuthorizeParams(cfg, redirect, state, challenge);
    NamesApart();
    PairAt(ps, 0, Ascii("response_type"), Ascii("code"));
    PairAt(ps, 1, Ascii("client_id"), cfg.clientId);
    PairAt(ps, 2, Ascii("redirect_uri"), if cfg.redirectUri != [] then cfg.redirectUri else redirect);
    PairAt(ps, 3, Ascii("state"), state);
    PairAt(ps, 4, Ascii("scope"), ScopeSent(cfg));
  }

  lemma {:induction false} ValueAfter(a: Pairs, b: Pairs, name: bytes)
    requires ValueOf(a, name).None?
    ensures ValueOf(a + b, name) == ValueOf(b, name)
  {
    if a == [] {
      assert a + b == b;
    } else {
      assert (a + b)[1..] == a[1..] + b;
      ValueAfter(a[1..], b, name);
    }
  }

  lemma ParamsChallenge(cfg: PopupConfig, redirect: bytes, state: bytes, challenge: string)
    ensures Challenges(cfg, challenge, AuthorizeParams(cfg, redirect, state, challenge))
  {
    NamesApart();
    var own, tail := [First()] + Own(cfg, redirect, state), Tail(cfg, challenge);
    assert AuthorizeParams(cfg, redirect, state, challenge) == own + (cfg.extraParams + tail);
    if cfg.requiresPkce {
      assert tail[0] == (Ascii("code_challenge"), Ascii(challenge));
      PairAt(tail, 0, Ascii("code_challenge"), Ascii(challenge));
      PairAt(tail, 1, Ascii("code_challenge_method"), Ascii("S256"));
      OwnHasNot(own, Ascii("code_challenge"));
      OwnHasNot(own, Ascii("code_challenge_method"));
      ValueAfter(own, cfg.extraParams + tail, Ascii("code_challenge"));
      ValueAfter(own, cfg.extraParams + tail, Ascii("code_challenge_method"));
      if ValueOf(cfg.extraParams, Ascii("code_challenge")).None? {
        ValueAfter(cfg.extraParams, tail, Ascii("code_challenge"));
      }
      if ValueOf(cfg.extraParams, Ascii("code_challenge_method")).None? {
        ValueAfter(cfg.extraParams, tail, Ascii("code_challenge_method"));
      }
    }
  }

  lemma {:induction false} OwnHasNot(ps: Pairs, name: bytes)
    requires forall p <- ps :: p.0 != name
    ensures ValueOf(ps, name).None?
  {
    if ps != [] { OwnHasNot(ps[1..], name); }
  }

  /**
   * Who reads the query of the URL finds the response type, the client, the redirect and the state of the
   * start under their names, then the manifest's own parameters, and the challenge where one is required.
   */
  lemma QueryAsks(cfg: PopupConfig, redirect: bytes, state: bytes, challenge: string)
    ensures
      var read := ReadQuery(Query(AuthorizeParams(cfg, redirect, state, challenge)));
      read.Some? && Asks(cfg, redirect, state, read.value) && Challenges(cfg, challenge, read.value)
  {
    ProviderReads(cfg, redirect, state, challenge);
    ParamsAsk(cfg, redirect, state, challenge);
    ParamsChallenge(cfg, redirect, state, challenge);
  }
}
