/**
 * The OAuth manager of src/oauth/mod.rs: starting and completing the pop-up flow, and refreshing a
 * stored token. The object is proved against the pending-state machine, the stored-blob functions and
 * the key store. Random values, the replies of the token endpoint and failures of the table are
 * parameters; SHA-256 and JSON are functions.
 */
module OAuth {
  import opened Base
  import opened Base64Url
  import opened UrlQuery
  import opened AuthorizeUrl
  import opened Popup
  import opened Redirect
  import opened Refresh
  import Keys

  datatype Error =
    | NoConfig | NotPopup | UsesPasteCode
    | InvalidState | WrongProvider
    | EndpointFailed | MissingToken | StoreFailed

  datatype Result<+T> = Ok(value: T) | Err(error: Error)

  /** What the token endpoint answered to an authorization code. */
  datatype CodeReply = Refused | Tokens(refreshToken: Option<bytes>)

  function KeyName(provider: bytes): bytes {
    Ascii("oauth:") + provider
  }

  function ClientSecret(cfg: PopupConfig, provider: bytes, googleSecret: bytes): bytes {
    if cfg.clientSecret != [] then cfg.clientSecret
    else if provider == Ascii("google") then googleSecret
    else []
  }

  function CodeForm(cfg: PopupConfig, code: bytes, redirect: bytes, verifier: Option<string>, secret: bytes): Pairs {
    [(Ascii("grant_type"), Ascii("authorization_code")),
     (Ascii("code"), code),
     (Ascii("redirect_uri"), EffectiveRedirect(cfg, redirect)),
     (Ascii("client_id"), cfg.clientId)]
    + (if verifier.Some? then [(Ascii("code_verifier"), Ascii(verifier.value))] else [])
    + (if secret != [] then [(Ascii("client_secret"), secret)] else [])
  }

  /** What a callback answers: the first check that fails decides. */
  function CallbackVerdict(m: Manifest, p: Pending, provider: bytes, state: bytes, reply: CodeReply, saved: bool)
    : Result<()>
  {
    if state !in p.states then Err(InvalidState)
    else if p.states[state] != provider then Err(WrongProvider)
    else if provider !in m then Err(NoConfig)
    else if reply.Refused? then Err(EndpointFailed)
    else if reply.refreshToken.None? then Err(MissingToken)
    else if !saved then Err(StoreFailed)
    else Ok(())
  }

  /** The URL leads to the provider's page, and its query asks for what was started. */
  ghost predicate Carries(cfg: PopupConfig, redirect: bytes, url: string, state: bytes, challenge: string) {
    var page := cfg.authorizeUrl + "?";
    && page <= url && ReadQuery(url[|page|..]).Some?
    && Asks(cfg, redirect, state, ReadQuery(url[|page|..]).value)
    && Challenges(cfg, challenge, ReadQuery(url[|page|..]).value)
  }

  lemma UrlCarries(cfg: PopupConfig, redirect: bytes, state: bytes, challenge: string)
    ensures Carries(cfg, redirect,
                    cfg.authorizeUrl + "?" + Query(AuthorizeParams(cfg, redirect, state, challenge)), state, challenge)
  {
    QueryAsks(cfg, redirect, state, challenge);
    var page, query := cfg.authorizeUrl + "?", Query(AuthorizeParams(cfg, redirect, state, challenge));
    assert (page + query)[|page|..] == query;
  }

  class OAuthManager {
    const manifest: Manifest
    const configs: map<bytes, RefreshConfig>
    const googleSecret: bytes
    const sha256: string -> octets
    const json: Json
    const keyStore: Keys.KeyStore
    var states: map<bytes, bytes>
    var verifiers: map<bytes, string>
    var cache: map<bytes, bytes>

    ghost predicate Valid()
      reads this, keyStore
    {
      keyStore.Valid() && json.Correct()
      && (forall t, i, s :: keyStore.cipher.isText(json.write(t, i, s)))
      && (forall raw :: LooksLikeBlob(json, raw) ==> keyStore.cipher.isText(json.read(raw).value.refreshToken.value))
    }

    function View(): Pending
      reads this
    {
      Pending(states, verifiers)
    }

    function Stored(provider: bytes): Keys.Result<Option<bytes>>
      reads this, keyStore
    {
      Keys.Stored(keyStore.cipher, keyStore.table, KeyName(provider))
    }

    constructor (manifest: Manifest, configs: map<bytes, RefreshConfig>, googleSecret: bytes,
                 sha256: string -> octets, json: Json, keyStore: Keys.KeyStore)
      requires keyStore.Valid() && json.Correct()
      requires forall t, i, s :: keyStore.cipher.isText(json.write(t, i, s))
      requires forall raw :: LooksLikeBlob(json, raw) ==>
                 keyStore.cipher.isText(json.read(raw).value.refreshToken.value)
      ensures Valid() && View() == NOTHING && cache == map[]
      ensures this.manifest == manifest && this.configs == configs && this.googleSecret == googleSecret
      ensures this.sha256 == sha256 && this.json == json && this.keyStore == keyStore
    {
      this.manifest, this.configs, this.googleSecret := manifest, configs, googleSecret;
      this.sha256, this.json, this.keyStore := sha256, json, keyStore;
      states, verifiers, cache := map[], map[], map[];
    }

    method StartPopup(provider: bytes, redirect: bytes, nonce: bytes, seed: octets)
      returns (r: Result<(string, bytes)>)
      modifies this`states, this`verifiers
      ensures View() == Next(manifest, old(View()), Started(provider, nonce, seed))
      ensures r.Ok? <==> Startable(manifest, provider)
      ensures r.Ok? ==>
                var cfg, state := manifest[provider], StateOf(provider, nonce);
                r.value == (cfg.authorizeUrl + "?"
                            + Query(AuthorizeParams(cfg, redirect, state, Base64(sha256(Base64(seed))))), state)
      ensures r == Err(NoConfig) <==> provider !in manifest
      ensures r == Err(NotPopup) <==> provider in manifest && manifest[provider].authorizeUrl == ""
      ensures r == Err(UsesPasteCode)
              <==> provider in manifest && manifest[provider].authorizeUrl != "" && manifest[provider].pasteCode
      ensures r.Ok? ==> r.value.1 == provider + Ascii(".") + nonce && r.value.1 in states && r.value.1 in verifiers
      ensures r.Ok? ==> states[r.value.1] == provider
      ensures r.Ok? ==> Carries(manifest[provider], redirect, r.value.0, r.value.1,
                                Base64(sha256(verifiers[r.value.1])))
    {
      if provider !in manifest { return Err(NoConfig); }
      var cfg := manifest[provider];
      if cfg.authorizeUrl == "" { return Err(NotPopup); }
      if cfg.pasteCode { return Err(UsesPasteCode); }
      var state := StateOf(provider, nonce);
      var verifier := Base64UrlEncode(seed);
      var challenge := Base64UrlEncode(sha256(verifier));
      var url := BuildAuthorizeUrl(cfg, redirect, state, challenge);
      UrlCarries(cfg, redirect, state, challenge);
      states := states[state := provider];
      verifiers := verifiers[state := verifier];
      r := Ok((url, state));
    }

    method SetRefreshToken(provider: bytes, token: bytes, nonce: bytes, dbOk: bool) returns (r: Result<()>)
      requires Valid() && |nonce| == Keys.NONCE_LEN && keyStore.cipher.isText(token)
      modifies this`cache, keyStore
      ensures Valid()
      ensures r == if dbOk then Ok(()) else Err(StoreFailed)
      ensures keyStore.View() == Keys.Next(keyStore.cipher, old(keyStore.View()),
                                           Keys.Set(KeyName(provider), token, nonce, dbOk))
      ensures cache == if dbOk then old(cache) - {provider} else old(cache)
      ensures dbOk ==> Stored(provider) == Keys.Ok(Some(token))
    {
      var stored := keyStore.Set(KeyName(provider), token, nonce, dbOk);
      if stored.Err? { return Err(StoreFailed); }
      cache := cache - {provider};
      r := Ok(());
    }

    method CompletePopup(provider: bytes, code: bytes, state: bytes, redirect: bytes,
                         reply: CodeReply, nonce: bytes, dbOk: bool)
      returns (r: Result<()>, sent: Option<Pairs>)
      requires Valid() && |nonce| == Keys.NONCE_LEN
      requires reply.Tokens? && reply.refreshToken.Some? ==> keyStore.cipher.isText(reply.refreshToken.value)
      modifies this, keyStore
      ensures Valid()
      ensures View() == Next(manifest, old(View()), Returned(provider, state))
      ensures r == CallbackVerdict(manifest, old(View()), provider, state, reply, dbOk)
      ensures var exchange := Exchange(manifest, old(View()), Returned(provider, state));
              sent == if exchange.None? then None
                      else Some(CodeForm(manifest[provider], code, redirect, exchange.value,
                                         ClientSecret(manifest[provider], provider, googleSecret)))
      ensures r.Ok? ==> Stored(provider) == Keys.Ok(reply.refreshToken) && provider !in cache
      ensures r.Err? ==> keyStore.View() == old(keyStore.View()) && cache == old(cache)
    {
      sent := None;
      if state !in states { return Err(InvalidState), sent; }
      var expected := states[state];
      states := states - {state};
      if expected != provider { return Err(WrongProvider), sent; }
      if provider !in manifest { return Err(NoConfig), sent; }
      var cfg := manifest[provider];
      var verifier := if state in verifiers then Some(verifiers[state]) else None;
      verifiers := verifiers - {state};
      sent := Some(CodeForm(cfg, code, redirect, verifier, ClientSecret(cfg, provider, googleSecret)));
      match reply {
        case Refused => r := Err(EndpointFailed);
        case Tokens(None) => r := Err(MissingToken);
        case Tokens(Some(token)) => r := SetRefreshToken(provider, token, nonce, dbOk);
      }
    }

    /** The last step of a refresh: store the next blob in the shape of the one that was read. */
    method StoreRotated(provider: bytes, raw: bytes, c: Credential, renewed: Option<bytes>, nonce: bytes, dbOk: bool)
      returns (r: Keys.Result<()>)
      requires Valid() && |nonce| == Keys.NONCE_LEN
      requires Stored(provider) == Keys.Ok(Some(raw)) && c == ParseStored(json, raw)
      requires renewed.Some? ==> keyStore.cipher.isText(renewed.value)
      modifies keyStore
      ensures Valid() && r.Ok? == dbOk
      ensures Stored(provider) == Keys.Ok(Some(if dbOk then NextBlob(json, c, renewed) else raw))
      ensures forall other :: other != KeyName(provider) ==>
                Keys.Stored(keyStore.cipher, keyStore.table, other)
                == Keys.Stored(keyStore.cipher, old(keyStore.table), other)
    {
      var next := SerializeStored(json, c.(token := OrElse(renewed, c.token)));
      NextBlobIsText(json, keyStore.cipher.isText, raw, renewed);
      r := keyStore.Set(KeyName(provider), next, nonce, dbOk);
    }

    /** Refresh a provider's access token; the blob that was stored keeps its shape. */
    method Refresh(provider: bytes, reply: Reply, nonce: bytes, getOk: bool, setOk: bool)
      returns (r: Result<Option<bytes>>, sent: Option<Pairs>)
      requires Valid() && |nonce| == Keys.NONCE_LEN
      requires reply.Granted? && reply.refreshToken.Some? ==> keyStore.cipher.isText(reply.refreshToken.value)
      modifies this`cache, keyStore
      ensures Valid()
      ensures var answer := Keys.Answer(keyStore.cipher, old(keyStore.View()), KeyName(provider), getOk);
              if provider !in configs || answer.Err? || answer.value.None? then
                r == Ok(None) && sent.None? && cache == old(cache) && keyStore.table == old(keyStore.table)
              else
                var raw := answer.value.value;
                sent == Some(RefreshForm(configs[provider], ParseStored(json, raw)))
                && Stored(provider) == Keys.Ok(Some(Rotate(json, raw, reply, setOk)))
                && r == (match reply
                         case Failed => Err(EndpointFailed)
                         case NoAccessToken => Err(MissingToken)
                         case Granted(access, _) => if setOk then Ok(Some(access)) else Err(StoreFailed))
                && cache == if reply.Granted? then old(cache)[provider := reply.accessToken] else old(cache)
      ensures forall other :: other != KeyName(provider) ==>
                Keys.Stored(keyStore.cipher, keyStore.table, other)
                == Keys.Stored(keyStore.cipher, old(keyStore.table), other)
    {
      sent := None;
      var answer := keyStore.Get(KeyName(provider), getOk);
      if provider !in configs { return Ok(None), sent; }
      var cfg := configs[provider];
      if answer.Err? || answer.value.None? { return Ok(None), sent; }
      var raw := answer.value.value;
      var c := ParseStored(json, raw);
      sent := Some(RefreshForm(cfg, c));
      match reply {
        case Failed => r := Err(EndpointFailed);
        case NoAccessToken => r := Err(MissingToken);
        case Granted(access, renewed) =>
          cache := cache[provider := access];
          var stored := StoreRotated(provider, raw, c, renewed, nonce, setOk);
          r := if stored.Ok? then Ok(Some(access)) else Err(StoreFailed);
      }
    }
  }

  /**
   * PKCE end to end, in every run: a callback that reaches the token endpoint sends a verifier whose
   * S256 challenge is in the URL of the start that issued its state, and the same client (section 4.6
   * of RFC 7636). It sends the redirect of that URL, as section 4.1.3 of RFC 6749 wants, exactly when
   * the manifest fixes one or the start and the callback were given the same.
   */
  lemma ExchangeMatchesAuthorize(m: Manifest, log: seq<Event>, e: Event, sha256: string -> octets,
                                 code: bytes, started: bytes, returned: bytes, secret: bytes) returns (j: nat)
    requires e.Returned? && Exchange(m, Run(m, log), e).Some?
    ensures j < |log| && Issues(m, log[j], e.state) && log[j].provider == e.provider
    ensures var cfg, verifier := m[e.provider], Base64(log[j].seed);
            var asked := AuthorizeParams(cfg, started, e.state, Base64(sha256(verifier)));
            var form := CodeForm(cfg, code, returned, Exchange(m, Run(m, log), e).value, secret);
            (Ascii("code_verifier"), Ascii(verifier)) in form
            && (cfg.requiresPkce ==> (Ascii("code_challenge"), Ascii(Base64(sha256(verifier)))) in asked)
            && form[3] == asked[1]
            && (form[2] == asked[2] <==> cfg.redirectUri != [] || started == returned)
  {
    var verifier := Exchange(m, Run(m, log), e).value;
    ExchangeExact(m, log, e, verifier);
    j :| 0 <= j && LiveSince(m, log, e.state, j) && log[j].provider == e.provider
         && verifier == Some(Base64(log[j].seed));
    var cfg, v := m[e.provider], Base64(log[j].seed);
    assert CodeForm(cfg, code, returned, verifier, secret)[4] == (Ascii("code_verifier"), Ascii(v));
    ChallengeAsked(cfg, started, e.state, Base64(sha256(v)));
  }

  /**
   * With the addresses the handlers use authorize and token requests agree for all providers exactly when
   * the manifest fixes one, or the configuration, without a placeholder, has the browser's origin for its
   * prefix, or, with one, is the button's address for the placeholder.
   */
  lemma HandlersAgree(cfg: PopupConfig, configured: bytes, origin: bytes)
    requires '{' as int !in origin
    ensures
      (forall provider :: EffectiveRedirect(cfg, Rebuild(configured, provider))
                          == EffectiveRedirect(cfg, FromBrowser(origin, provider)))
      <==> cfg.redirectUri != []
           || if Contains(configured, PLACEHOLDER) then configured == FromBrowser(origin, PLACEHOLDER)
              else Prefix(configured) == origin
  {
    if cfg.redirectUri == [] {
      AgreeExactly(configured, origin);
      assert forall r :: EffectiveRedirect(cfg, r) == r;
    }
  }

  lemma ChallengeAsked(cfg: PopupConfig, redirect: bytes, state: bytes, challenge: string)
    ensures var asked := AuthorizeParams(cfg, redirect, state, challenge);
            (cfg.requiresPkce ==> (Ascii("code_challenge"), Ascii(challenge)) in asked)
            && asked[1] == (Ascii("client_id"), cfg.clientId)
            && asked[2] == (Ascii("redirect_uri"), EffectiveRedirect(cfg, redirect))
  {
  }

  // ----- what the token endpoint and the key store are told -----

  lemma FormNamesApart()
    ensures |Ascii("grant_type")| == 10 && |Ascii("code")| == 4 && |Ascii("redirect_uri")| == 12
    ensures |Ascii("client_id")| == 9 && |Ascii("code_verifier")| == |Ascii("client_secret")| == 13
    ensures Ascii("code_verifier")[1] == 111 && Ascii("client_secret")[1] == 108
  {
  }

  /**
   * The form of a token request, read by its names: the code of the callback, the client and its redirect
   * (section 4.1.3 of RFC 6749), the verifier exactly when one was stored, the secret exactly when there is one.
   */
  lemma CodeFormSays(cfg: PopupConfig, code: bytes, redirect: bytes, verifier: Option<string>, secret: bytes)
    ensures
      var form := CodeForm(cfg, code, redirect, verifier, secret);
      && ValueOf(form, Ascii("grant_type")) == Some(Ascii("authorization_code"))
      && ValueOf(form, Ascii("code")) == Some(code)
      && ValueOf(form, Ascii("redirect_uri")) == Some(if cfg.redirectUri != [] then cfg.redirectUri else redirect)
      && ValueOf(form, Ascii("client_id")) == Some(cfg.clientId)
      && ValueOf(form, Ascii("code_verifier")) == (if verifier.Some? then Some(Ascii(verifier.value)) else None)
      && ValueOf(form, Ascii("client_secret")) == (if secret != [] then Some(secret) else None)
  {
    var form := CodeForm(cfg, code, redirect, verifier, secret);
    FormNamesApart();
    PairAt(form, 0, Ascii("grant_type"), Ascii("authorization_code"));
    PairAt(form, 1, Ascii("code"), code);
    PairAt(form, 2, Ascii("redirect_uri"), if cfg.redirectUri != [] then cfg.redirectUri else redirect);
    PairAt(form, 3, Ascii("client_id"), cfg.clientId);
    if verifier.Some? {
      PairAt(form, 4, Ascii("code_verifier"), Ascii(verifier.value));
    } else {
      OwnHasNot(form, Ascii("code_verifier"));
    }
    if secret != [] {
      PairAt(form, |form| - 1, Ascii("client_secret"), secret);
    } else {
      OwnHasNot(form, Ascii("client_secret"));
    }
  }

  /** The manifest's secret goes first; only Google has another to fall back on. */
  lemma SecretSent(cfg: PopupConfig, provider: bytes, googleSecret: bytes)
    ensures
      var secret := ClientSecret(cfg, provider, googleSecret);
      && (cfg.clientSecret != [] ==> secret == cfg.clientSecret)
      && (cfg.clientSecret == [] ==> secret == if provider == Ascii("google") then googleSecret else [])
  {
  }

  /** Two providers never share a stored credential, and a credential's id is "oauth:" with the provider after it. */
  lemma KeyNamesApart(p: bytes, q: bytes)
    ensures KeyName(p) == KeyName(q) <==> p == q
    ensures |KeyName(p)| == 6 + |p| && KeyName(p)[..6] == Ascii("oauth:") && KeyName(p)[6..] == p
  {
    assert |Ascii("oauth:")| == 6;
    assert KeyName(p)[6..] == p && KeyName(q)[6..] == q;
  }

  /** What each answer to a callback means, the checks in their order. */
  lemma CallbackMeans(m: Manifest, p: Pending, provider: bytes, state: bytes, reply: CodeReply, saved: bool)
    ensures
      var r := CallbackVerdict(m, p, provider, state, reply, saved);
      var sent := Exchange(m, p, Returned(provider, state)).Some?;
      && (r == Err(InvalidState) <==> state !in p.states)
      && (r == Err(WrongProvider) <==> state in p.states && p.states[state] != provider)
      && (r == Err(NoConfig) <==> state in p.states && p.states[state] == provider && provider !in m)
      && (r == Err(EndpointFailed) <==> sent && reply.Refused?)
      && (r == Err(MissingToken) <==> sent && reply.Tokens? && reply.refreshToken.None?)
      && (r == Err(StoreFailed) <==> sent && reply.Tokens? && reply.refreshToken.Some? && !saved)
      && (r.Ok? <==> sent && reply.Tokens? && reply.refreshToken.Some? && saved)
  {
  }

  /**
   * The form of a refresh, read by its names, for whatever is stored: the token in the stored object, or the
   * stored text itself; the client and the secret of the object, each by itself, or the configured ones.
   */
  lemma RefreshFormSays(js: Json, cfg: RefreshConfig, raw: bytes)
    ensures
      var form := RefreshForm(cfg, ParseStored(js, raw));
      var blob := if LooksLikeBlob(js, raw) then js.read(raw).value else Fields(Some(raw), None, None);
      && ValueOf(form, Ascii("grant_type")) == Some(Ascii("refresh_token"))
      && ValueOf(form, Ascii("refresh_token")) == blob.refreshToken
      && ValueOf(form, Ascii("client_id")) == Some(if blob.clientId.Some? then blob.clientId.value else cfg.clientId)
      && (blob.clientSecret.Some? ==> ValueOf(form, Ascii("client_secret")) == blob.clientSecret)
      && (blob.clientSecret.None? && cfg.clientSecret.Some? ==>
            ValueOf(form, Ascii("client_secret")) == cfg.clientSecret)
      && (blob.clientSecret.None? && cfg.clientSecret.None? ==> form[3..] == cfg.extra)
  {
    var form, c := RefreshForm(cfg, ParseStored(js, raw)), ParseStored(js, raw);
    RefreshNamesApart();
    PairAt(form, 0, Ascii("grant_type"), Ascii("refresh_token"));
    PairAt(form, 1, Ascii("refresh_token"), c.token);
    PairAt(form, 2, Ascii("client_id"), OrElse(c.clientId, cfg.clientId));
    var secret := if c.clientSecret.Some? then c.clientSecret else cfg.clientSecret;
    if secret.Some? {
      PairAt(form, 3, Ascii("client_secret"), secret.value);
    }
  }

  lemma RefreshNamesApart()
    ensures |Ascii("grant_type")| == 10 && |Ascii("refresh_token")| == |Ascii("client_secret")| == 13
    ensures |Ascii("client_id")| == 9 && Ascii("refresh_token")[0] == 114 && Ascii("client_secret")[0] == 99
  {
  }
}
