/**
 * Which tokens the client keys of the configuration admit, src/server/auth.rs, and what the rewrite of
 * the file does to that: the program compares the stored text of a key as it stands, sealed or not.
 */
module ClientKeys {
  import opened Base
  import Keys
  import opened Migrate

  const ENABLED := "enabled"
  const ADMIN_KEY := "admin_key"

  function AuthField(tree: Toml, name: string): Option<Toml> {
    var auth := Get(tree, AUTH);
    if auth.None? then None else Get(auth.value, name)
  }

  function Text(v: Option<Toml>): Option<bytes> {
    match v
    case Some(Str(text)) => Some(text)
    case _ => None
  }

  /** On by default, and when it says so. */
  predicate Enabled(tree: Toml) {
    Get(tree, AUTH).None? || AuthField(tree, ENABLED) == Some(Bool(true))
  }

  function AdminKey(tree: Toml): Option<bytes> {
    Text(AuthField(tree, ADMIN_KEY))
  }

  function KeyText(entry: Toml): Option<bytes> {
    Text(Get(entry, KEY))
  }

  ghost predicate HasEntry(tree: Toml, token: bytes) {
    AuthKeys(tree).Some? && InList(AuthKeys(tree).value, token)
  }

  ghost predicate InList(items: seq<Toml>, token: bytes) {
    exists i :: 0 <= i < |items| && KeyText(items[i]) == Some(token)
  }

  /**
   * A token is admitted when it is the text of a key: the single one, one of the list, or the master key's
   * variable.
   */
  ghost predicate Admits(tree: Toml, env: bytes, token: bytes) {
    token != [] && Enabled(tree) && (AdminKey(tree) == Some(token) || HasEntry(tree, token) || token == env)
  }

  /** src/server/auth.rs, keys_from_config; `env` is empty when the variable is not set. */
  method KeysFromConfig(tree: Toml, env: bytes) returns (keys: seq<bytes>)
    ensures forall k :: k in keys <==> k != [] && (AdminKey(tree) == Some(k) || HasEntry(tree, k) || k == env)
  {
    keys := [];
    var admin := AdminKey(tree);
    if admin.Some? && admin.value != [] {
      keys := keys + [admin.value];
    }
    ghost var first := keys;
    if AuthKeys(tree).Some? {
      var items := AuthKeys(tree).value;
      for i := 0 to |items|
        invariant forall k :: k in keys <==>
                    k in first || (k != [] && exists j :: 0 <= j < i && KeyText(items[j]) == Some(k))
      {
        var text := KeyText(items[i]);
        if text.Some? && text.value != [] {
          keys := keys + [text.value];
        }
      }
    }
    if env != [] {
      keys := keys + [env];
    }
  }

  /** src/server/auth.rs, check. */
  method Check(keys: seq<bytes>, presented: bytes) returns (ok: bool)
    ensures ok == (presented != [] && presented in keys)
  {
    if presented == [] { return false; }
    for i := 0 to |keys|
      invariant presented !in keys[..i]
    {
      if keys[i] == presented { return true; }
    }
    ok := false;
  }

  method Authenticate(tree: Toml, env: bytes, presented: bytes) returns (ok: bool)
    ensures ok == Admits(tree, env, presented)
  {
    if presented == [] || !Enabled(tree) { return false; }
    var keys := KeysFromConfig(tree, env);
    if keys == [] {
      assert presented !in keys;
      return false;
    }
    ok := Check(keys, presented);
  }

  // ----- before and after the rewrite -----

  lemma AuthOtherwiseKept(tree: Toml, master: Option<Keys.MasterKey>, nonces: nat -> bytes, name: string)
    requires tree.Table? && name != KEYS
    ensures var t := Migrated(tree, master, nonces);
            Get(t, AUTH).None? == Get(tree, AUTH).None? && AuthField(t, name) == AuthField(tree, name)
  {
    assert |RATELIMIT| != |AUTH|;
  }

  lemma SettingsKept(tree: Toml, master: Option<Keys.MasterKey>, nonces: nat -> bytes)
    requires tree.Table?
    ensures Enabled(Migrated(tree, master, nonces)) == Enabled(tree)
    ensures AdminKey(Migrated(tree, master, nonces)) == AdminKey(tree)
  {
    assert |ENABLED| != |KEYS| && |ADMIN_KEY| != |KEYS|;
    AuthOtherwiseKept(tree, master, nonces, ENABLED);
    AuthOtherwiseKept(tree, master, nonces, ADMIN_KEY);
  }

  /** A plaintext entry whose sealed form is the token. */
  ghost predicate SealsTo(m: Keys.MasterKey, tree: Toml, nonces: nat -> bytes, token: bytes) {
    AuthKeys(tree).Some? && ListSealsTo(m, AuthKeys(tree).value, nonces, token)
  }

  ghost predicate ListSealsTo(m: Keys.MasterKey, items: seq<Toml>, nonces: nat -> bytes, token: bytes) {
    exists i :: 0 <= i < |items| && SealsAt(m, items[i], nonces(i), token)
  }

  ghost predicate SealsAt(m: Keys.MasterKey, entry: Toml, nonce: bytes, token: bytes) {
    IsPlaintext(entry) && token == Keys.Encrypt(m, KeyText(entry).value, PURPOSE, nonce)
  }

  lemma SealedText(m: Keys.MasterKey, entry: Toml, nonce: bytes, token: bytes)
    ensures KeyText(Seal(m, entry, nonce)) == Some(token)
            <==> (Keys.Sealed(token) && KeyText(entry) == Some(token)) || SealsAt(m, entry, nonce, token)
  {
  }

  lemma ListAfter(m: Keys.MasterKey, items: seq<Toml>, nonces: nat -> bytes, token: bytes)
    ensures InList(SealAll(m, items, nonces), token)
            <==> (Keys.Sealed(token) && InList(items, token)) || ListSealsTo(m, items, nonces, token)
  {
    var after := SealAll(m, items, nonces);
    forall i | 0 <= i < |items|
      ensures KeyText(after[i]) == Some(token)
              <==> (Keys.Sealed(token) && KeyText(items[i]) == Some(token)) || SealsAt(m, items[i], nonces(i), token)
    {
      SealedText(m, items[i], nonces(i), token);
    }
  }

  lemma NothingToSeal(m: Keys.MasterKey, items: seq<Toml>, nonces: nat -> bytes)
    requires forall i :: 0 <= i < |items| ==> !IsPlaintext(items[i])
    ensures SealAll(m, items, nonces) == items
  {
    forall i | 0 <= i < |items|
      ensures Seal(m, items[i], nonces(i)) == items[i]
    {
    }
  }

  /** The list after the rewrite with a key: what was sealed before, and the sealed form of what was not. */
  lemma EntriesAfter(m: Keys.MasterKey, tree: Toml, nonces: nat -> bytes, token: bytes)
    requires tree.Table?
    ensures HasEntry(Migrated(tree, Some(m), nonces), token)
            <==> (Keys.Sealed(token) && HasEntry(tree, token)) || SealsTo(m, tree, nonces, token)
  {
    MigratedParts(tree, Some(m), nonces);
    if AuthKeys(tree).Some? {
      var items := AuthKeys(tree).value;
      ListAfter(m, items, nonces, token);
      if !HasPlaintextKey(tree) { NothingToSeal(m, items, nonces); }
    }
  }

  /**
   * What is admitted after a rewrite with a master key, exactly. Of the tokens in plain text, only the
   * single admin key and the variable; of the others, those admitted before and the sealed texts that
   * took the place of the plain ones.
   */
  lemma AdmittedAfter(m: Keys.MasterKey, tree: Toml, nonces: nat -> bytes, env: bytes, token: bytes)
    requires tree.Table?
    ensures var t := Migrated(tree, Some(m), nonces);
            if !Keys.Sealed(token) then
              Admits(t, env, token) <==> token != [] && Enabled(tree) && (AdminKey(tree) == Some(token) || token == env)
            else
              Admits(t, env, token) <==> Admits(tree, env, token) || (Enabled(tree) && SealsTo(m, tree, nonces, token))
  {
    SettingsKept(tree, Some(m), nonces);
    EntriesAfter(m, tree, nonces, token);
    if SealsTo(m, tree, nonces, token) { assert Keys.Sealed(token); }
    assert Keys.Sealed(token) ==> token != [];
  }

  /** Every key of the list in plain text is also the admin key or the variable. */
  ghost predicate NothingToLose(tree: Toml, env: bytes) {
    forall token :: !Keys.Sealed(token) && token != [] && HasEntry(tree, token) ==>
      AdminKey(tree) == Some(token) || token == env
  }

  ghost predicate SameAdmitted(tree: Toml, after: Toml, env: bytes) {
    forall token :: !Keys.Sealed(token) ==> (Admits(after, env, token) <==> Admits(tree, env, token))
  }

  /** The clients' keys go on working through a rewrite with a master key exactly when the list had none of its own. */
  lemma KeysKeepWorking(m: Keys.MasterKey, tree: Toml, nonces: nat -> bytes, env: bytes)
    requires tree.Table?
    ensures SameAdmitted(tree, Migrated(tree, Some(m), nonces), env) <==> !Enabled(tree) || NothingToLose(tree, env)
  {
    var after := Migrated(tree, Some(m), nonces);
    forall token | !Keys.Sealed(token)
      ensures Admits(after, env, token) <==>
                token != [] && Enabled(tree) && (AdminKey(tree) == Some(token) || token == env)
    {
      AdmittedAfter(m, tree, nonces, env, token);
    }
    if SameAdmitted(tree, after, env) && Enabled(tree) {
      forall token | !Keys.Sealed(token) && token != [] && HasEntry(tree, token)
        ensures AdminKey(tree) == Some(token) || token == env
      {
        assert Admits(tree, env, token);
        assert Admits(after, env, token);
      }
    }
  }

  /**
   * The ordinary case: a list key in plain text is refused afterwards, and its sealed text is admitted in
   * its place.
   */
  lemma PlainKeyRefused(m: Keys.MasterKey, tree: Toml, nonces: nat -> bytes, env: bytes, i: nat)
    requires tree.Table? && Enabled(tree) && AuthKeys(tree).Some? && i < |AuthKeys(tree).value|
    requires IsPlaintext(AuthKeys(tree).value[i])
    requires var key := KeyText(AuthKeys(tree).value[i]); key != Some([]) && key != AdminKey(tree) && key != Some(env)
    ensures var key := KeyText(AuthKeys(tree).value[i]).value;
            var t := Migrated(tree, Some(m), nonces);
            Admits(tree, env, key) && !Admits(t, env, key)
            && Admits(t, env, Keys.Encrypt(m, key, PURPOSE, nonces(i)))
  {
    var key := KeyText(AuthKeys(tree).value[i]).value;
    AdmittedAfter(m, tree, nonces, env, key);
    AdmittedAfter(m, tree, nonces, env, Keys.Encrypt(m, key, PURPOSE, nonces(i)));
    assert SealsAt(m, AuthKeys(tree).value[i], nonces(i), Keys.Encrypt(m, key, PURPOSE, nonces(i)));
    assert Keys.Sealed(Keys.Encrypt(m, key, PURPOSE, nonces(i)));
  }

  /** Without a master key the rewrite changes nothing for clients. */
  lemma NoKeyNoChange(tree: Toml, nonces: nat -> bytes, env: bytes, token: bytes)
    requires tree.Table?
    ensures Admits(Migrated(tree, None, nonces), env, token) <==> Admits(tree, env, token)
  {
    SettingsKept(tree, None, nonces);
    MigratedParts(tree, None, nonces);
  }

  /** The settings by their names in the file: authentication is on without the table, or when the table says so. */
  lemma AuthNames(tree: Toml)
    ensures Enabled(tree) <==> Get(tree, "auth").None? || Get(Get(tree, "auth").value, "enabled") == Some(Bool(true))
    ensures forall k :: AdminKey(tree) == Some(k)
              <==> Get(tree, "auth").Some? && Get(Get(tree, "auth").value, "admin_key") == Some(Str(k))
    ensures forall k :: KeyText(tree) == Some(k) <==> Get(tree, "key") == Some(Str(k))
  {
  }
}
