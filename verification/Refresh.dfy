/**
 * The stored refresh-token blob of src/oauth/mod.rs and what happens to it over rotations. A blob is
 * a bare token, or a JSON object that carries the dynamically registered client pair beside it. JSON
 * is abstract: reading undoes writing, and a string inside an object is shorter than the object.
 */
module Refresh {
  import opened Base
  import opened UrlQuery

  datatype Credential = Credential(token: bytes, clientId: Option<bytes>, clientSecret: Option<bytes>)

  /** The string fields of a parsed object; a value that is not an object has none. */
  datatype Fields = Fields(refreshToken: Option<bytes>, clientId: Option<bytes>, clientSecret: Option<bytes>)

  datatype Json = Json(write: (bytes, bytes, bytes) -> bytes, read: bytes -> Option<Fields>)
  {
    ghost predicate Correct() {
      (forall t, i, s :: read(write(t, i, s)) == Some(Fields(Some(t), Some(i), Some(s))))
      && (forall raw :: read(raw).Some? && read(raw).value.refreshToken.Some? ==>
            |read(raw).value.refreshToken.value| < |raw|)
    }
  }

  /** src/oauth/mod.rs, parse_stored_refresh. */
  function ParseStored(js: Json, raw: bytes): Credential {
    match js.read(raw)
    case Some(Fields(Some(token), id, secret)) => Credential(token, id, secret)
    case _ => Credential(raw, None, None)
  }

  /** src/oauth/mod.rs, serialize_stored_refresh. */
  function SerializeStored(js: Json, c: Credential): bytes {
    match (c.clientId, c.clientSecret)
    case (Some(id), Some(secret)) => js.write(c.token, id, secret)
    case _ => c.token
  }

  /** A token that would itself be read as a blob. */
  predicate LooksLikeBlob(js: Json, token: bytes) {
    js.read(token).Some? && js.read(token).value.refreshToken.Some?
  }

  predicate Registered(c: Credential) {
    c.clientId.Some? && c.clientSecret.Some?
  }

  predicate Bare(c: Credential) {
    c.clientId.None? && c.clientSecret.None?
  }

  /**
   * A credential survives storage exactly when it carries the whole client pair, or none of it and
   * its token is not itself such an object. Half a pair is dropped.
   */
  lemma StorageRoundTrip(js: Json, c: Credential)
    requires js.Correct()
    ensures ParseStored(js, SerializeStored(js, c)) == c
            <==> Registered(c) || (Bare(c) && !LooksLikeBlob(js, c.token))
  {
  }

  // ----- refreshing -----

  datatype RefreshConfig = RefreshConfig(clientId: bytes, clientSecret: Option<bytes>, extra: Pairs)

  /** What the token endpoint answered. */
  datatype Reply =
    | Failed
    | NoAccessToken
    | Granted(accessToken: bytes, refreshToken: Option<bytes>)

  function OrElse<T>(a: Option<T>, b: T): T {
    if a.Some? then a.value else b
  }

  /** The form of a refresh request: a registered client takes the place of the configured one. */
  function RefreshForm(cfg: RefreshConfig, c: Credential): Pairs {
    var secret := if c.clientSecret.Some? then c.clientSecret else cfg.clientSecret;
    [(Ascii("grant_type"), Ascii("refresh_token")),
     (Ascii("refresh_token"), c.token),
     (Ascii("client_id"), OrElse(c.clientId, cfg.clientId))]
    + (if secret.Some? then [(Ascii("client_secret"), secret.value)] else [])
    + cfg.extra
  }

  /** The next blob, in the shape of the one read. */
  function NextBlob(js: Json, c: Credential, renewed: Option<bytes>): bytes {
    SerializeStored(js, c.(token := OrElse(renewed, c.token)))
  }

  /** The blob after a reply, and whether the table accepted it. */
  function Rotate(js: Json, raw: bytes, reply: Reply, saved: bool): bytes {
    if reply.Granted? && saved then
      NextBlob(js, ParseStored(js, raw), reply.refreshToken)
    else
      raw
  }

  /** What is written is text when what is read is. */
  lemma NextBlobIsText(js: Json, isText: bytes -> bool, raw: bytes, renewed: Option<bytes>)
    requires isText(raw) && (renewed.Some? ==> isText(renewed.value))
    requires forall t, i, s :: isText(js.write(t, i, s))
    requires LooksLikeBlob(js, raw) ==> isText(js.read(raw).value.refreshToken.value)
    ensures isText(NextBlob(js, ParseStored(js, raw), renewed))
  {
  }

  type Attempts = seq<(Reply, bool)>

  function RotateAll(js: Json, raw: bytes, tries: Attempts): bytes {
    if tries == [] then raw
    else
      var last := tries[|tries| - 1];
      Rotate(js, RotateAll(js, raw, tries[..|tries| - 1]), last.0, last.1)
  }

  /** The last token the endpoint issued and the table accepted, or the first. */
  function LastToken(token: bytes, tries: Attempts): bytes {
    if tries == [] then token
    else
      var last := tries[|tries| - 1];
      if last.0.Granted? && last.1 && last.0.refreshToken.Some? then last.0.refreshToken.value
      else LastToken(token, tries[..|tries| - 1])
  }

  predicate Issued(tries: Attempts, token: bytes) {
    exists i :: 0 <= i < |tries| && tries[i].0.Granted? && tries[i].0.refreshToken == Some(token)
  }

  lemma {:induction false} LastTokenIssued(token: bytes, tries: Attempts)
    ensures LastToken(token, tries) == token || Issued(tries, LastToken(token, tries))
  {
    if tries != [] {
      var before := tries[..|tries| - 1];
      LastTokenIssued(token, before);
      if Issued(before, LastToken(token, before)) {
        var i :| 0 <= i < |before| && before[i].0.Granted?
                 && before[i].0.refreshToken == Some(LastToken(token, before));
        assert tries[i] == before[i];
      }
      assert tries[|tries| - 1].0.Granted? && tries[|tries| - 1].0.refreshToken.Some?
             ==> Issued(tries, tries[|tries| - 1].0.refreshToken.value);
    }
  }

  /**
   * A registered client pair survives any number of rotations, whatever the endpoint answers and
   * whichever writes fail, and the blob always holds the last token that was issued and saved.
   */
  lemma {:induction false} PairSurvives(js: Json, c: Credential, tries: Attempts)
    requires js.Correct() && Registered(c)
    ensures ParseStored(js, RotateAll(js, SerializeStored(js, c), tries))
            == c.(token := LastToken(c.token, tries))
  {
    if tries == [] {
      StorageRoundTrip(js, c);
    } else {
      var before := tries[..|tries| - 1];
      PairSurvives(js, c, before);
      StorageRoundTrip(js, c.(token := LastToken(c.token, tries)));
    }
  }

  /** The same for a bare token, as long as no token issued is itself an object with a token in it. */
  lemma {:induction false} BareSurvives(js: Json, token: bytes, tries: Attempts)
    requires js.Correct() && !LooksLikeBlob(js, token)
    requires forall t :: Issued(tries, t) ==> !LooksLikeBlob(js, t)
    ensures RotateAll(js, token, tries) == LastToken(token, tries)
    ensures ParseStored(js, RotateAll(js, token, tries)) == Credential(LastToken(token, tries), None, None)
  {
    LastTokenIssued(token, tries);
    if tries != [] {
      var before := tries[..|tries| - 1];
      forall t | Issued(before, t)
        ensures Issued(tries, t)
      {
        var i :| 0 <= i < |before| && before[i].0.Granted? && before[i].0.refreshToken == Some(t);
        assert tries[i] == before[i];
      }
      BareSurvives(js, token, before);
    }
  }

  /** One rotation keeps the client pair exactly when the blob held both halves, or none and stays bare. */
  lemma RotationKeepsPair(js: Json, raw: bytes, access: bytes, renewed: Option<bytes>)
    requires js.Correct()
    ensures var c := ParseStored(js, raw);
            var d := ParseStored(js, Rotate(js, raw, Granted(access, renewed), true));
            var token := OrElse(renewed, c.token);
            (d == c.(token := token)) <==> Registered(c) || (Bare(c) && !LooksLikeBlob(js, token))
  {
  }

  /**
   * Whatever was answered and saved before, the next request of a registered client sends its own
   * pair, not the configured one, and the last token.
   */
  lemma RequestsCarryPair(js: Json, cfg: RefreshConfig, c: Credential, tries: Attempts)
    requires js.Correct() && Registered(c)
    ensures var form := RefreshForm(cfg, ParseStored(js, RotateAll(js, SerializeStored(js, c), tries)));
            form == [(Ascii("grant_type"), Ascii("refresh_token")),
                     (Ascii("refresh_token"), LastToken(c.token, tries)),
                     (Ascii("client_id"), c.clientId.value),
                     (Ascii("client_secret"), c.clientSecret.value)] + cfg.extra
  {
    PairSurvives(js, c, tries);
  }

  /** A bare token is refreshed with the configured client, and with its secret exactly when one is configured. */
  lemma RequestsCarryConfigured(js: Json, cfg: RefreshConfig, token: bytes, tries: Attempts)
    requires js.Correct() && !LooksLikeBlob(js, token)
    requires forall t :: Issued(tries, t) ==> !LooksLikeBlob(js, t)
    ensures RefreshForm(cfg, ParseStored(js, RotateAll(js, token, tries)))
            == [(Ascii("grant_type"), Ascii("refresh_token")),
                (Ascii("refresh_token"), LastToken(token, tries)),
                (Ascii("client_id"), cfg.clientId)]
               + (match cfg.clientSecret
                  case None => cfg.extra
                  case Some(secret) => [(Ascii("client_secret"), secret)] + cfg.extra)
  {
    BareSurvives(js, token, tries);
  }
}
