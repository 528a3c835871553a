/** The Google entry of src/providers/manifest.rs, as far as its scope goes. */
module Manifest {
  import opened Base
  import opened UrlQuery
  import opened AuthorizeUrl

  const CLOUD := Ascii("https://www.googleapis.com/auth/cloud-platform")
  const EMAIL := Ascii("https://www.googleapis.com/auth/userinfo.email")
  const PROFILE := Ascii("https://www.googleapis.com/auth/userinfo.profile")
  const SPACE: bytes := [' ' as int]

  /** The scope that the manifest lists: four names with spaces between them. */
  const GOOGLE_SCOPE := CLOUD + SPACE + (EMAIL + SPACE + PROFILE + SPACE + Ascii("openid"))

  lemma Spaced(before: bytes, after: bytes)
    ensures ' ' as int in before + SPACE + after
  {
    assert (before + SPACE + after)[|before|] == ' ' as int;
  }

  /** With that entry the provider finds a scope other than the one the manifest lists. */
  lemma GoogleScopeIsLost(cfg: PopupConfig, redirect: bytes, state: bytes, challenge: string)
    requires cfg.scope == GOOGLE_SCOPE
    ensures var read := ReadQuery(Query(AuthorizeParams(cfg, redirect, state, challenge)));
            read.Some? && ValueOf(read.value, Ascii("scope")) != Some(GOOGLE_SCOPE)
  {
    Spaced(CLOUD, EMAIL + SPACE + PROFILE + SPACE + Ascii("openid"));
    ScopeArrives(cfg, redirect, state, challenge);
  }
}
