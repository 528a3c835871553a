/**
 * The encrypted credential store of src/auth/keystore.rs: a table of sealed rows behind a cache of
 * opened ones, and the text form of a sealed value. The cipher is abstract; all that is used of it
 * is that opening undoes sealing and that a sealed text is longer than its tag. A statement on the
 * table either takes effect or fails and changes nothing; which of the two is a parameter.
 */
module Keys {
  import opened Base

  const NONCE_LEN := 12
  const TAG_LEN := 16

  /** One key of an authenticated cipher, and the check that opened bytes are UTF-8. */
  datatype Cipher = Cipher(seal: (bytes, bytes) -> bytes, open: (bytes, bytes) -> Option<bytes>, isText: bytes -> bool)
  {
    ghost predicate Correct() {
      forall nonce, text :: |nonce| == NONCE_LEN ==>
        open(nonce, seal(nonce, text)) == Some(text) && |seal(nonce, text)| >= TAG_LEN
    }
  }

  datatype Error = DbFailed | NonceLength | DecryptFailed | NotUtf8

  datatype Result<+T> = Ok(value: T) | Err(error: Error)

  datatype Row = Row(ciphertext: bytes, nonce: bytes)

  /** What a row holds, if it can be opened at all. */
  function Opened(c: Cipher, row: Row): Result<bytes> {
    if |row.nonce| != NONCE_LEN then Err(NonceLength)
    else
      match c.open(row.nonce, row.ciphertext)
      case None => Err(DecryptFailed)
      case Some(text) => if c.isText(text) then Ok(text) else Err(NotUtf8)
  }

  type Table = map<bytes, Row>

  /** What the table alone says of an id. */
  function Stored(c: Cipher, table: Table, id: bytes): Result<Option<bytes>> {
    if id !in table then Ok(None)
    else match Opened(c, table[id])
         case Ok(text) => Ok(Some(text))
         case Err(e) => Err(e)
  }

  /** Every cached text is what its row opens to. */
  predicate Agrees(c: Cipher, table: Table, cache: map<bytes, bytes>) {
    forall id <- cache :: id in table && Opened(c, table[id]) == Ok(cache[id])
  }

  datatype Op =
    | Set(id: bytes, text: bytes, nonce: bytes, dbOk: bool)
    | Get(id: bytes, dbOk: bool)
    | Delete(id: bytes, dbOk: bool)

  datatype State = State(table: Table, cache: map<bytes, bytes>)

  /** Operations the program can make: what it stores is text, under a nonce of the right length. */
  predicate Proper(c: Cipher, op: Op) {
    op.Set? ==> |op.nonce| == NONCE_LEN && c.isText(op.text)
  }

  function Next(c: Cipher, st: State, op: Op): State {
    match op
    case Set(id, text, nonce, dbOk) =>
      if dbOk then State(st.table[id := Row(c.seal(nonce, text), nonce)], st.cache[id := text]) else st
    case Get(id, dbOk) =>
      (match Answer(c, st, id, dbOk)
       case Ok(Some(text)) => st.(cache := st.cache[id := text])
       case _ => st)
    case Delete(id, dbOk) =>
      if dbOk then State(st.table - {id}, st.cache - {id}) else st
  }

  function Answer(c: Cipher, st: State, id: bytes, dbOk: bool): Result<Option<bytes>> {
    if id in st.cache then Ok(Some(st.cache[id]))
    else if dbOk then Stored(c, st.table, id)
    else Err(DbFailed)
  }

  class KeyStore {
    const cipher: Cipher
    var table: Table
    var cache: map<bytes, bytes>

    ghost predicate Valid()
      reads this
    {
      cipher.Correct() && Agrees(cipher, table, cache)
    }

    function View(): State
      reads this
    {
      State(table, cache)
    }

    constructor (cipher: Cipher, table: Table)
      requires cipher.Correct()
      ensures Valid() && View() == State(table, map[]) && this.cipher == cipher
    {
      this.cipher := cipher;
      this.table := table;
      this.cache := map[];
    }

    method Set(id: bytes, text: bytes, nonce: bytes, dbOk: bool) returns (r: Result<()>)
      requires Valid() && Proper(cipher, Op.Set(id, text, nonce, dbOk))
      modifies this
      ensures Valid() && View() == Next(cipher, old(View()), Op.Set(id, text, nonce, dbOk))
      ensures r == if dbOk then Ok(()) else Err(DbFailed)
      ensures r.Ok? ==> Stored(cipher, table, id) == Ok(Some(text))
      ensures forall other :: (r.Err? || other != id) ==>
                Stored(cipher, table, other) == Stored(cipher, old(table), other)
    {
      var ciphertext := cipher.seal(nonce, text);
      if !dbOk { return Err(DbFailed); }
      table := table[id := Row(ciphertext, nonce)];
      cache := cache[id := text];
      r := Ok(());
    }

    method Get(id: bytes, dbOk: bool) returns (r: Result<Option<bytes>>)
      requires Valid()
      modifies this`cache
      ensures Valid() && View() == Next(cipher, old(View()), Op.Get(id, dbOk))
      ensures r == if dbOk || id in old(cache) then Stored(cipher, table, id) else Err(DbFailed)
    {
      if id in cache { return Ok(Some(cache[id])); }
      if !dbOk { return Err(DbFailed); }
      if id !in table { return Ok(None); }
      var row := table[id];
      if |row.nonce| != NONCE_LEN { return Err(NonceLength); }
      match cipher.open(row.nonce, row.ciphertext) {
        case None => return Err(DecryptFailed);
        case Some(text) =>
          if !cipher.isText(text) { return Err(NotUtf8); }
          cache := cache[id := text];
          r := Ok(Some(text));
      }
    }

    method Delete(id: bytes, dbOk: bool) returns (r: Result<()>)
      requires Valid()
      modifies this
      ensures Valid() && View() == Next(cipher, old(View()), Op.Delete(id, dbOk))
      ensures r == if dbOk then Ok(()) else Err(DbFailed)
      ensures r.Ok? ==> Stored(cipher, table, id) == Ok(None) && id !in cache
      ensures forall other :: (r.Err? || other != id) ==>
                Stored(cipher, table, other) == Stored(cipher, old(table), other)
    {
      if !dbOk { return Err(DbFailed); }
      table := table - {id};
      cache := cache - {id};
      r := Ok(());
    }
  }

  // ----- whole runs -----

  function Run(c: Cipher, st: State, ops: seq<Op>): State {
    if ops == [] then st else Next(c, Run(c, st, ops[..|ops| - 1]), ops[|ops| - 1])
  }

  ghost predicate ProperRun(c: Cipher, ops: seq<Op>) {
    c.Correct() && forall op <- ops :: Proper(c, op)
  }

  /** What a reader of the history expects of an id: the last change that succeeded decides. */
  function Expected(c: Cipher, table: Table, ops: seq<Op>, id: bytes): Result<Option<bytes>> {
    if ops == [] then
      Stored(c, table, id)
    else
      var op := ops[|ops| - 1];
      if op.Set? && op.id == id && op.dbOk then Ok(Some(op.text))
      else if op.Delete? && op.id == id && op.dbOk then Ok(None)
      else Expected(c, table, ops[..|ops| - 1], id)
  }

  lemma NextKeeps(c: Cipher, st: State, op: Op, id: bytes)
    requires c.Correct() && Proper(c, op) && Agrees(c, st.table, st.cache)
    ensures Agrees(c, Next(c, st, op).table, Next(c, st, op).cache)
    ensures Stored(c, Next(c, st, op).table, id) ==
              if op.Set? && op.id == id && op.dbOk then Ok(Some(op.text))
              else if op.Delete? && op.id == id && op.dbOk then Ok(None)
              else Stored(c, st.table, id)
  {
  }

  /**
   * In every run from an empty cache, with any failures of the table, the cache agrees with the
   * table and the table holds the last text set, or nothing after a delete.
   */
  lemma {:induction false} RunsAgree(c: Cipher, table: Table, ops: seq<Op>, id: bytes)
    requires ProperRun(c, ops)
    ensures var st := Run(c, State(table, map[]), ops);
            Agrees(c, st.table, st.cache) && Stored(c, st.table, id) == Expected(c, table, ops, id)
  {
    if ops != [] {
      var before := ops[..|ops| - 1];
      RunsAgree(c, table, before, id);
      NextKeeps(c, Run(c, State(table, map[]), before), ops[|ops| - 1], id);
    }
  }

  /**
   * The cache is invisible: a get after any run answers what the history says, except that it fails
   * when the table cannot be read and the id is not cached.
   */
  lemma GetAnswersHistory(c: Cipher, table: Table, ops: seq<Op>, id: bytes, dbOk: bool)
    requires ProperRun(c, ops)
    ensures var st := Run(c, State(table, map[]), ops);
            Answer(c, st, id, dbOk) ==
              if dbOk || id in st.cache then Expected(c, table, ops, id) else Err(DbFailed)
  {
    RunsAgree(c, table, ops, id);
  }

  /** An id is cached exactly when it was set, or read with success, after its last delete. */
  function Warm(c: Cipher, table: Table, ops: seq<Op>, id: bytes): bool {
    if ops == [] then false
    else
      var before := ops[..|ops| - 1];
      match ops[|ops| - 1]
      case Set(i, _, _, dbOk) => (i == id && dbOk) || Warm(c, table, before, id)
      case Get(i, dbOk) =>
        Warm(c, table, before, id)
        || (i == id && dbOk && Expected(c, table, before, id).Ok? && Expected(c, table, before, id).value.Some?)
      case Delete(i, dbOk) => !(i == id && dbOk) && Warm(c, table, before, id)
  }

  lemma {:induction false} CachedIsWarm(c: Cipher, table: Table, ops: seq<Op>, id: bytes)
    requires ProperRun(c, ops)
    ensures id in Run(c, State(table, map[]), ops).cache <==> Warm(c, table, ops, id)
  {
    if ops != [] {
      var before := ops[..|ops| - 1];
      CachedIsWarm(c, table, before, id);
      RunsAgree(c, table, before, id);
    }
  }

  // ----- sealed values as text -----

  const ENC_PREFIX := Ascii("enc:")

  /** A master key: one cipher per purpose, and the base64 codec of the text form. */
  datatype MasterKey = MasterKey(cipherFor: bytes -> Cipher, encode64: bytes -> bytes, decode64: bytes -> Option<bytes>)
  {
    ghost predicate Correct() {
      (forall purpose :: cipherFor(purpose).Correct()) && (forall b :: decode64(encode64(b)) == Some(b))
    }
  }

  predicate Sealed(blob: bytes) {
    ENC_PREFIX <= blob
  }

  function Encrypt(k: MasterKey, text: bytes, purpose: bytes, nonce: bytes): bytes {
    ENC_PREFIX + k.encode64(nonce + k.cipherFor(purpose).seal(nonce, text))
  }

  function Decrypt(k: MasterKey, blob: bytes, purpose: bytes): Option<bytes> {
    if !Sealed(blob) then None
    else
      match k.decode64(blob[|ENC_PREFIX|..])
      case None => None
      case Some(b) =>
        if |b| <= NONCE_LEN then None
        else
          match k.cipherFor(purpose).open(b[..NONCE_LEN], b[NONCE_LEN..])
          case None => None
          case Some(text) => if k.cipherFor(purpose).isText(text) then Some(text) else None
  }

  /** Text sealed for a purpose opens for that purpose, and the sealed form is recognisable. */
  lemma DecryptUndoesEncrypt(k: MasterKey, text: bytes, purpose: bytes, nonce: bytes)
    requires k.Correct() && |nonce| == NONCE_LEN && k.cipherFor(purpose).isText(text)
    ensures Sealed(Encrypt(k, text, purpose, nonce))
    ensures Decrypt(k, Encrypt(k, text, purpose, nonce), purpose) == Some(text)
  {
  }

  /** Base64 of a nonce of twelve bytes and a sealed text is read under its mark, and nothing without it. */
  lemma DecryptReads(k: MasterKey, encoded: bytes, nonce: bytes, sealed: bytes, purpose: bytes)
    requires |nonce| == 12 && k.decode64(encoded) == Some(nonce + sealed) && sealed != []
    ensures
      var found := k.cipherFor(purpose).open(nonce, sealed);
      Decrypt(k, Ascii("enc:") + encoded, purpose)
      == if found.Some? && k.cipherFor(purpose).isText(found.value) then found else None
    ensures !(Ascii("enc:") <= encoded) ==> Decrypt(k, encoded, purpose) == None
  {
    assert (Ascii("enc:") + encoded)[|ENC_PREFIX|..] == encoded;
    assert (nonce + sealed)[..12] == nonce && (nonce + sealed)[12..] == sealed;
  }
}
