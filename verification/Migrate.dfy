/**
 * The v0.1 to v0.2 rewrite of the configuration file, src/config/service.rs. The file is a TOML tree
 * behind an abstract text codec; reading, copying and writing may fail, and a failed copy or write
 * may leave anything behind. Random nonces and the presence of a master key are parameters.
 */
module Migrate {
  import opened Base
  import opened Keys

  datatype Toml =
    | Str(text: bytes)
    | Int(value: int)
    | Bool(flag: bool)
    | Other(literal: bytes)
    | Array(items: seq<Toml>)
    | Table(fields: map<string, Toml>)

  const RATELIMIT := "ratelimit"
  const AUTH := "auth"
  const KEYS := "keys"
  const KEY := "key"

  /** The purpose under which auth keys are sealed. */
  const PURPOSE := Ascii("token-dealer/v0.2/auth-keys/v1")

  function Budget(perMinute: int, burst: int): Toml {
    Table(map["refill_per_minute" := Int(perMinute), "burst" := Int(burst)])
  }

  const RATELIMIT_DEFAULTS :=
    Table(map["enabled" := Bool(true), "global" := Budget(600, 1200), "per_key" := Budget(60, 120)])

  function Get(t: Toml, name: string): Option<Toml> {
    if t.Table? && name in t.fields then Some(t.fields[name]) else None
  }

  function Put(t: Toml, name: string, v: Toml): Toml
    requires t.Table?
  {
    Table(t.fields[name := v])
  }

  // ----- what needs migrating -----

  predicate HasRatelimit(tree: Toml) {
    Get(tree, RATELIMIT).Some? && Get(tree, RATELIMIT).value.Table?
  }

  /** The entries of auth.keys, when that is an array. */
  function AuthKeys(tree: Toml): Option<seq<Toml>> {
    match Get(tree, AUTH)
    case None => None
    case Some(auth) =>
      match Get(auth, KEYS)
      case Some(Array(items)) => Some(items)
      case _ => None
  }

  predicate IsPlaintext(entry: Toml) {
    var k := Get(entry, KEY);
    k.Some? && k.value.Str? && !Sealed(k.value.text)
  }

  predicate HasPlaintextKey(tree: Toml) {
    AuthKeys(tree).Some? && exists i :: 0 <= i < |AuthKeys(tree).value| && IsPlaintext(AuthKeys(tree).value[i])
  }

  predicate NeedsMigration(tree: Toml) {
    !HasRatelimit(tree) || HasPlaintextKey(tree)
  }

  // ----- the rewrite -----

  function Seal(m: MasterKey, entry: Toml, nonce: bytes): Toml {
    if IsPlaintext(entry) then Put(entry, KEY, Str(Encrypt(m, Get(entry, KEY).value.text, PURPOSE, nonce))) else entry
  }

  function SealAll(m: MasterKey, items: seq<Toml>, nonces: nat -> bytes): seq<Toml> {
    seq(|items|, i requires 0 <= i < |items| => Seal(m, items[i], nonces(i)))
  }

  function WithRatelimit(tree: Toml): Toml
    requires tree.Table?
  {
    if HasRatelimit(tree) then tree else Put(tree, RATELIMIT, RATELIMIT_DEFAULTS)
  }

  function WithKeys(tree: Toml, items: seq<Toml>): Toml
    requires AuthKeys(tree).Some?
  {
    Put(tree, AUTH, Put(Get(tree, AUTH).value, KEYS, Array(items)))
  }

  function Migrated(tree: Toml, master: Option<MasterKey>, nonces: nat -> bytes): Toml
    requires tree.Table?
  {
    var t := WithRatelimit(tree);
    if master.Some? && HasPlaintextKey(tree) && AuthKeys(t).Some? then
      WithKeys(t, SealAll(master.value, AuthKeys(t).value, nonces))
    else
      t
  }

  lemma KeysReplaced(tree: Toml, items: seq<Toml>)
    requires AuthKeys(tree).Some?
    ensures AuthKeys(WithKeys(tree, items)) == Some(items)
    ensures HasRatelimit(WithKeys(tree, items)) == HasRatelimit(tree)
  {
  }

  /** The tree after the rewrite, seen from its two parts. */
  lemma MigratedParts(tree: Toml, master: Option<MasterKey>, nonces: nat -> bytes)
    requires tree.Table?
    ensures var t := Migrated(tree, master, nonces);
            HasRatelimit(t)
            && AuthKeys(t) == if AuthKeys(tree).Some? && master.Some? && HasPlaintextKey(tree)
                              then Some(SealAll(master.value, AuthKeys(tree).value, nonces))
                              else AuthKeys(tree)
  {
  }

  method SealKeys(m: MasterKey, items: seq<Toml>, nonces: nat -> bytes) returns (sealed: seq<Toml>)
    ensures sealed == SealAll(m, items, nonces)
  {
    sealed := items;
    for i := 0 to |items|
      invariant |sealed| == |items|
      invariant forall j :: 0 <= j < i ==> sealed[j] == Seal(m, items[j], nonces(j))
      invariant forall j :: i <= j < |items| ==> sealed[j] == items[j]
    {
      var entry := sealed[i];
      if entry.Table? {
        var k := Get(entry, KEY);
        if k.Some? && k.value.Str? && !Sealed(k.value.text) {
          sealed := sealed[i := Put(entry, KEY, Str(Encrypt(m, k.value.text, PURPOSE, nonces(i))))];
        }
      }
    }
  }

  method FindPlaintext(items: seq<Toml>) returns (found: bool)
    ensures found <==> exists i :: 0 <= i < |items| && IsPlaintext(items[i])
  {
    for i := 0 to |items|
      invariant forall j :: 0 <= j < i ==> !IsPlaintext(items[j])
    {
      if IsPlaintext(items[i]) { return true; }
    }
    found := false;
  }

  method MigrateTree(tree: Toml, plaintext: bool, master: Option<MasterKey>, nonces: nat -> bytes) returns (t: Toml)
    requires tree.Table? && plaintext == HasPlaintextKey(tree)
    ensures t == Migrated(tree, master, nonces)
  {
    t := tree;
    if !HasRatelimit(tree) {
      t := Put(tree, RATELIMIT, RATELIMIT_DEFAULTS);
    }
    if plaintext && master.Some? {
      var keys := AuthKeys(t);
      if keys.Some? {
        var sealed := SealKeys(master.value, keys.value, nonces);
        t := WithKeys(t, sealed);
      }
    }
  }

  // ----- the file -----

  datatype Codec = Codec(parse: bytes -> Option<Toml>, write: Toml -> bytes)
  {
    ghost predicate Correct() {
      (forall text :: parse(text).Some? ==> parse(text).value.Table?)
      && (forall tree: Toml :: tree.Table? ==> parse(write(tree)) == Some(tree))
    }
  }

  datatype Disk = Disk(text: bytes, backup: Option<bytes>)

  /** What the file system and the environment do in one run. */
  datatype Trial = Trial(
    readOk: bool,
    copyFailure: Option<Option<bytes>>,  // None: the copy is complete
    writeFailure: Option<bytes>,         // None: the write is complete
    master: Option<MasterKey>,
    nonces: nat -> bytes)

  function Backed(d: Disk, t: Trial): Disk {
    if d.backup.Some? then d
    else d.(backup := if t.copyFailure.Some? then t.copyFailure.value else Some(d.text))
  }

  predicate CopyFails(d: Disk, t: Trial) {
    d.backup.None? && t.copyFailure.Some?
  }

  function RunOnce(c: Codec, d: Disk, t: Trial): Disk {
    if !t.readOk || c.parse(d.text).None? then d
    else
      var tree := c.parse(d.text).value;
      if !NeedsMigration(tree) then d
      else if CopyFails(d, t) || !tree.Table? then Backed(d, t)
      else if t.writeFailure.Some? then Backed(d, t).(text := t.writeFailure.value)
      else Backed(d, t).(text := c.write(Migrated(tree, t.master, t.nonces)))
  }

  predicate Succeeds(c: Codec, d: Disk, t: Trial) {
    t.readOk && c.parse(d.text).Some?
    && (!NeedsMigration(c.parse(d.text).value) || (!CopyFails(d, t) && t.writeFailure.None?))
  }

  class ConfigFile {
    var text: bytes
    var backup: Option<bytes>

    function View(): Disk
      reads this
    {
      Disk(text, backup)
    }

    constructor (text: bytes)
      ensures View() == Disk(text, None)
    {
      this.text, backup := text, None;
    }

    method MigrateIfNeeded(c: Codec, t: Trial) returns (ok: bool)
      requires c.Correct()
      modifies this
      ensures View() == RunOnce(c, old(View()), t) && ok == Succeeds(c, old(View()), t)
    {
      if !t.readOk { return false; }
      var parsed := c.parse(text);
      if parsed.None? { return false; }
      var tree := parsed.value;
      var plaintext := false;
      var keys := AuthKeys(tree);
      if keys.Some? {
        plaintext := FindPlaintext(keys.value);
      }
      if HasRatelimit(tree) && !plaintext { return true; }
      if backup.None? {
        if t.copyFailure.Some? {
          backup := t.copyFailure.value;
          return false;
        }
        backup := Some(text);
      }
      var next := MigrateTree(tree, plaintext, t.master, t.nonces);
      if t.writeFailure.Some? {
        text := t.writeFailure.value;
        return false;
      }
      text := c.write(next);
      ok := true;
    }
  }

  // ----- what the rewrite means -----

  /** The text of an entry once it is unsealed with the master key. */
  function Unsealed(m: MasterKey, entry: Toml): Option<Option<bytes>> {
    var k := Get(entry, KEY);
    if k.None? || !k.value.Str? then None
    else Some(if Sealed(k.value.text) then Decrypt(m, k.value.text, PURPOSE) else Some(k.value.text))
  }

  ghost predicate Fit(m: MasterKey, tree: Toml, nonces: nat -> bytes) {
    m.Correct() && (forall i :: |nonces(i)| == NONCE_LEN)
    && (AuthKeys(tree).Some? ==>
          forall entry <- AuthKeys(tree).value :: IsPlaintext(entry) ==>
            m.cipherFor(PURPOSE).isText(Get(entry, KEY).value.text))
  }

  lemma SealUnseals(m: MasterKey, entry: Toml, nonce: bytes)
    requires m.Correct() && |nonce| == NONCE_LEN
    requires IsPlaintext(entry) ==> m.cipherFor(PURPOSE).isText(Get(entry, KEY).value.text)
    ensures Unsealed(m, Seal(m, entry, nonce)) == Unsealed(m, entry) && !IsPlaintext(Seal(m, entry, nonce))
  {
  }

  /** With a master key: every sealed key decrypts to its original text, none is plaintext any more, and nothing is left
      to do. */
  lemma KeysDecryptToOriginals(m: MasterKey, tree: Toml, nonces: nat -> bytes)
    requires tree.Table? && Fit(m, tree, nonces)
    ensures var t := Migrated(tree, Some(m), nonces);
            !NeedsMigration(t)
            && AuthKeys(t).Some? == AuthKeys(tree).Some?
            && (AuthKeys(tree).Some? ==>
                  var old_, new_ := AuthKeys(tree).value, AuthKeys(t).value;
                  |old_| == |new_| && forall i :: 0 <= i < |old_| ==> Unsealed(m, new_[i]) == Unsealed(m, old_[i]))
  {
    MigratedParts(tree, Some(m), nonces);
    if AuthKeys(tree).Some? {
      var items := AuthKeys(tree).value;
      forall i | 0 <= i < |items|
        ensures Unsealed(m, Seal(m, items[i], nonces(i))) == Unsealed(m, items[i])
        ensures !IsPlaintext(Seal(m, items[i], nonces(i)))
      {
        assert items[i] in items;
        SealUnseals(m, items[i], nonces(i));
      }
    }
  }

  function Blanked(entry: Toml): Toml {
    var k := Get(entry, KEY);
    if k.Some? && k.value.Str? then Put(entry, KEY, Str([])) else entry
  }

  function BlankAll(items: seq<Toml>): seq<Toml> {
    seq(|items|, i requires 0 <= i < |items| => Blanked(items[i]))
  }

  /** The tree without its rate limits, and with the text of every auth key taken out. */
  function Skeleton(tree: Toml): Toml
    requires tree.Table?
  {
    var t := Table(tree.fields - {RATELIMIT});
    if AuthKeys(t).Some? then WithKeys(t, BlankAll(AuthKeys(t).value)) else t
  }

  lemma SealIsBlankedOut(m: MasterKey, entry: Toml, nonce: bytes)
    ensures Blanked(Seal(m, entry, nonce)) == Blanked(entry)
  {
  }

  lemma SealAllBlanked(m: MasterKey, items: seq<Toml>, nonces: nat -> bytes)
    ensures BlankAll(SealAll(m, items, nonces)) == BlankAll(items)
  {
    forall i | 0 <= i < |items|
      ensures Blanked(Seal(m, items[i], nonces(i))) == Blanked(items[i])
    {
      SealIsBlankedOut(m, items[i], nonces(i));
    }
  }

  lemma WithoutRatelimit(tree: Toml)
    requires tree.Table?
    ensures var t := Table(tree.fields - {RATELIMIT});
            AuthKeys(t) == AuthKeys(tree) && Get(t, AUTH) == Get(tree, AUTH)
  {
  }

  lemma PutTwice(t: Toml, name: string, v: Toml, w: Toml)
    requires t.Table?
    ensures Put(Put(t, name, v), name, w) == Put(t, name, w)
  {
  }

  lemma SkeletonOfKeys(tree: Toml, items: seq<Toml>)
    requires tree.Table? && AuthKeys(tree).Some? && BlankAll(items) == BlankAll(AuthKeys(tree).value)
    ensures Skeleton(WithKeys(tree, items)) == Skeleton(tree)
  {
    WithoutRatelimit(tree);
    WithoutRatelimit(WithKeys(tree, items));
    KeysReplaced(tree, items);
    var auth, blank := Get(tree, AUTH).value, Array(BlankAll(items));
    PutTwice(auth, KEYS, Array(items), blank);
    assert |RATELIMIT| != |AUTH|;
    assert Skeleton(WithKeys(tree, items)).fields == Skeleton(tree).fields;
  }

  lemma SkeletonOfRatelimit(tree: Toml)
    requires tree.Table?
    ensures Skeleton(WithRatelimit(tree)) == Skeleton(tree)
  {
  }

  /**
   * The rewrite changes nothing but rate limits and the text of auth keys; and rate limits only where
   * there was no such table.
   */
  lemma RestUnchanged(tree: Toml, master: Option<MasterKey>, nonces: nat -> bytes)
    requires tree.Table?
    ensures var t := Migrated(tree, master, nonces);
            Skeleton(t) == Skeleton(tree)
            && Get(t, RATELIMIT) == if HasRatelimit(tree) then Get(tree, RATELIMIT) else Some(RATELIMIT_DEFAULTS)
  {
    SkeletonOfRatelimit(tree);
    var t := WithRatelimit(tree);
    if master.Some? && AuthKeys(t).Some? {
      SealAllBlanked(master.value, AuthKeys(t).value, nonces);
      SkeletonOfKeys(t, SealAll(master.value, AuthKeys(t).value, nonces));
      assert |RATELIMIT| != |AUTH|;
    }
  }

  // ----- many runs -----

  /** Without a master key the rewrite is still settled after one pass, plaintext keys included. */
  lemma SettledWithoutKey(tree: Toml, nonces: nat -> bytes, others: nat -> bytes)
    requires tree.Table?
    ensures Migrated(Migrated(tree, None, nonces), None, others) == Migrated(tree, None, nonces)
  {
  }

  /**
   * After a run that succeeds with a master key, no later run changes anything, whatever fails and
   * with or without a key; it succeeds if the file can be read.
   */
  lemma SettledWithKey(c: Codec, d: Disk, t: Trial, later: Trial)
    requires c.Correct() && Succeeds(c, d, t)
    requires t.master.Some? && Fit(t.master.value, c.parse(d.text).value, t.nonces)
    ensures var e := RunOnce(c, d, t);
            RunOnce(c, e, later) == e && Succeeds(c, e, later) == later.readOk
  {
    var tree := c.parse(d.text).value;
    if NeedsMigration(tree) {
      KeysDecryptToOriginals(t.master.value, tree, t.nonces);
    }
  }

  /** Without a key, a later run that also succeeds without one leaves the same file. */
  lemma SettledFile(c: Codec, d: Disk, t: Trial, later: Trial)
    requires c.Correct() && Succeeds(c, d, t) && t.master.None? && later.master.None?
    requires Succeeds(c, RunOnce(c, d, t), later)
    ensures RunOnce(c, RunOnce(c, d, t), later).text == RunOnce(c, d, t).text
  {
  }

  function RunAll(c: Codec, d: Disk, ts: seq<Trial>): Disk
    decreases |ts|
  {
    if ts == [] then d else RunAll(c, RunOnce(c, d, ts[0]), ts[1..])
  }

  lemma OneRun(c: Codec, d: Disk, t: Trial)
    requires c.Correct()
    ensures d.backup.Some? ==> RunOnce(c, d, t).backup == d.backup
    ensures d.backup.None? && RunOnce(c, d, t).backup.None? ==> RunOnce(c, d, t).text == d.text
    ensures d.backup.None? && (t.copyFailure.Some? ==> t.copyFailure.value.None?) ==>
              RunOnce(c, d, t).backup.None? || RunOnce(c, d, t).backup == Some(d.text)
  {
  }

  /** Once there is a backup, no run touches it. */
  lemma {:induction false} BackupStays(c: Codec, d: Disk, ts: seq<Trial>)
    requires c.Correct() && d.backup.Some?
    ensures RunAll(c, d, ts).backup == d.backup
    decreases |ts|
  {
    if ts != [] {
      OneRun(c, d, ts[0]);
      BackupStays(c, RunOnce(c, d, ts[0]), ts[1..]);
    }
  }

  predicate Wants(c: Codec, text: bytes) {
    c.parse(text).Some? && NeedsMigration(c.parse(text).value)
  }

  /** A run that gets as far as the copy, and whose copy leaves a file, complete or not. */
  predicate Leaves(t: Trial) {
    t.readOk && (t.copyFailure.None? || t.copyFailure.value.Some?)
  }

  function Left(t: Trial, text: bytes): bytes
    requires Leaves(t)
  {
    if t.copyFailure.None? then text else t.copyFailure.value.value
  }

  ghost predicate FirstToLeave(ts: seq<Trial>, i: nat) {
    i < |ts| && Leaves(ts[i]) && forall k :: 0 <= k < i ==> !Leaves(ts[k])
  }

  /**
   * Until a copy leaves a file, a run changes nothing; that run makes the backup, if the file wants
   * migrating at all.
   */
  lemma RunBeforeBackup(c: Codec, d: Disk, t: Trial)
    requires c.Correct() && d.backup.None?
    ensures RunOnce(c, d, t).backup == if Wants(c, d.text) && Leaves(t) then Some(Left(t, d.text)) else None
    ensures !(Wants(c, d.text) && Leaves(t)) ==> RunOnce(c, d, t) == d
  {
  }

  /**
   * The backup after any runs and failures, exactly: what the first run whose copy left a file wrote
   * there, if the file wanted migrating; otherwise there is none and the file is untouched.
   */
  lemma {:induction false} BackupExactly(c: Codec, d: Disk, ts: seq<Trial>) returns (i: Option<nat>)
    requires c.Correct() && d.backup.None?
    ensures i.Some? ==> Wants(c, d.text) && FirstToLeave(ts, i.value)
                        && RunAll(c, d, ts).backup == Some(Left(ts[i.value], d.text))
    ensures i.None? ==> RunAll(c, d, ts) == d && !(Wants(c, d.text) && exists k: nat :: FirstToLeave(ts, k))
    decreases |ts|
  {
    i := None;
    if ts != [] {
      RunBeforeBackup(c, d, ts[0]);
      if Wants(c, d.text) && Leaves(ts[0]) {
        i := Some(0);
        BackupStays(c, RunOnce(c, d, ts[0]), ts[1..]);
      } else {
        var k := BackupExactly(c, d, ts[1..]);
        if k.Some? {
          i := Some(k.value + 1);
        } else if Wants(c, d.text) {
          forall j: nat | FirstToLeave(ts, j)
            ensures FirstToLeave(ts[1..], j - 1)
          {
          }
        }
      }
    }
  }

  /** The backup is the original file exactly when the first copy that left a file was as good as complete. */
  lemma BackupIsOriginal(c: Codec, d: Disk, ts: seq<Trial>)
    requires c.Correct() && d.backup.None?
    ensures RunAll(c, d, ts).backup == Some(d.text)
            <==> Wants(c, d.text) && exists i: nat :: FirstToLeave(ts, i) && Left(ts[i], d.text) == d.text
    ensures RunAll(c, d, ts).backup.None? ==> RunAll(c, d, ts).text == d.text
  {
    var i := BackupExactly(c, d, ts);
    assert forall j: nat, k: nat :: FirstToLeave(ts, j) && FirstToLeave(ts, k) ==> j == k;
  }

  /** What a failed copy leaves behind counts as the backup from then on, whatever it holds. */
  lemma PartialCopyStays(c: Codec, d: Disk, t: Trial, ts: seq<Trial>, left: bytes)
    requires c.Correct() && d.backup.None? && t.readOk && t.copyFailure == Some(Some(left))
    requires c.parse(d.text).Some? && NeedsMigration(c.parse(d.text).value)
    ensures RunAll(c, d, [t] + ts).backup == Some(left)
  {
    assert ([t] + ts)[1..] == ts;
    BackupStays(c, RunOnce(c, d, t), ts);
  }

  /** A single table under auth.keys is not looked at: its key stays as it is, key present or not. */
  lemma SingleTableIgnored(tree: Toml, master: Option<MasterKey>, nonces: nat -> bytes)
    requires tree.Table? && Get(tree, AUTH).Some?
    requires Get(Get(tree, AUTH).value, KEYS).Some? && Get(Get(tree, AUTH).value, KEYS).value.Table?
    ensures NeedsMigration(tree) == !HasRatelimit(tree)
    ensures Get(Migrated(tree, master, nonces), AUTH) == Get(tree, AUTH)
  {
  }

  /** With a key, the rewrite leaves no plaintext; without one it leaves exactly what there was. */
  lemma PlaintextLeft(tree: Toml, master: Option<MasterKey>, nonces: nat -> bytes)
    requires tree.Table? && (master.Some? ==> Fit(master.value, tree, nonces))
    ensures HasPlaintextKey(Migrated(tree, master, nonces)) <==> HasPlaintextKey(tree) && master.None?
  {
  }

  // ----- the names in the file -----

  lemma FileNames(tree: Toml, entry: Toml)
    ensures HasRatelimit(tree) <==> Get(tree, "ratelimit").Some? && Get(tree, "ratelimit").value.Table?
    ensures forall items :: AuthKeys(tree) == Some(items)
              <==> Get(tree, "auth").Some? && Get(Get(tree, "auth").value, "keys") == Some(Array(items))
    ensures IsPlaintext(entry)
            <==> Get(entry, "key").Some? && Get(entry, "key").value.Str?
                 && !(Ascii("enc:") <= Get(entry, "key").value.text)
  {
  }

  /** A number of a budget of the rate limits. */
  function LimitAt(tree: Toml, which: string, name: string): Option<Toml> {
    var table := Get(tree, "ratelimit");
    if table.None? then None
    else
      var budget := Get(table.value, which);
      if budget.None? then None else Get(budget.value, name)
  }

  /** Where there were no rate limits: 600 requests a minute for all, 60 for each, and twice as many at once. */
  lemma LimitsWritten(tree: Toml, master: Option<MasterKey>, nonces: nat -> bytes)
    requires tree.Table? && !HasRatelimit(tree)
    ensures
      var t := Migrated(tree, master, nonces);
      && LimitAt(t, "global", "refill_per_minute") == Some(Int(600)) && LimitAt(t, "global", "burst") == Some(Int(1200))
      && LimitAt(t, "per_key", "refill_per_minute") == Some(Int(60)) && LimitAt(t, "per_key", "burst") == Some(Int(120))
      && Get(Get(t, "ratelimit").value, "enabled") == Some(Bool(true))
  {
    RestUnchanged(tree, master, nonces);
    assert "global" != "per_key" && "enabled" != "global" && "enabled" != "per_key" && "burst" != "refill_per_minute";
  }

  /** A key in plain text becomes the mark and the base64 of the nonce and the text sealed for the file's purpose. */
  lemma KeyWritten(m: MasterKey, entry: Toml, nonce: bytes)
    requires IsPlaintext(entry)
    ensures
      var text := Get(entry, "key").value.text;
      var sealed := m.cipherFor(Ascii("token-dealer/v0.2/auth-keys/v1")).seal(nonce, text);
      Get(Seal(m, entry, nonce), "key") == Some(Str(Ascii("enc:") + m.encode64(nonce + sealed)))
  {
  }

  /**
   * What a run does to the text: nothing unless the file is read, parses and wants migrating and its backup is
   * there; then the rewritten tree, as it parses again, unless the write fails and leaves what it leaves.
   */
  lemma FileChanges(c: Codec, d: Disk, t: Trial)
    requires c.Correct()
    ensures
      var tree, text := c.parse(d.text), RunOnce(c, d, t).text;
      if !t.readOk || tree.None? || !NeedsMigration(tree.value) || CopyFails(d, t) then text == d.text
      else if t.writeFailure.Some? then text == t.writeFailure.value
      else c.parse(text) == Some(Migrated(tree.value, t.master, t.nonces))
  {
  }
}
