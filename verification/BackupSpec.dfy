/** The backup store: records, archives, and the cache of what the current key can open. */
module BackupSpec {
  import opened Bytes
  import opened Wrappers
  import opened BackupCrypto

  datatype Status = Compatible | Incompatible | Unverified | Unknown | MissingFile

  /** `fingerprint` is empty on records from before fingerprints. */
  datatype Record = Record(source: string, createdAt: int, fingerprint: string)

  datatype Store = Store(
    records: map<string, Record>, archives: map<string, seq<byte>>, cache: map<string, Status>, cacheKey: string)

  /** `currentKeyFingerprint` */
  function CurrentFingerprint(c: Cipher, key: Option<Key>): string {
    if key.Some? then c.fingerprint(key.value) else ""
  }

  /** `classifyByFingerprint` */
  function Classify(r: Record, current: string): Status {
    if r.fingerprint == "" then Unverified
    else if r.fingerprint == current then Compatible
    else Incompatible
  }

  /** `decorateStatus`: what `List` and `Find` show. */
  function Shown(c: Cipher, s: Store, key: Option<Key>, id: string): Status
    requires id in s.records
  {
    var current := CurrentFingerprint(c, key);
    if s.cacheKey != current || current == "" then
      if current == "" then Unknown else Classify(s.records[id], current)
    else if id in s.cache then s.cache[id]
    else Classify(s.records[id], current)
  }

  /** `cacheStatus`: an unpinned cache is pinned to the current key. */
  function CacheStatus(c: Cipher, s: Store, key: Option<Key>, id: string, status: Status): Store {
    s.(cacheKey := if s.cacheKey == "" then CurrentFingerprint(c, key) else s.cacheKey,
       cache := s.cache[id := status])
  }

  function Create(c: Cipher, s: Store, key: Option<Key>, id: string, source: string, now: int,
                  plaintext: seq<byte>, nonce: seq<byte>): Store
  {
    if key.None? then s
    else
      var fp := c.fingerprint(key.value);
      Store(
        s.records[id := Record(if source == "" then "manual" else source, now, fp)],
        s.archives[id := EncryptAtRest(c, key.value, nonce, plaintext)],
        if s.cacheKey == fp then s.cache[id := Compatible] else s.cache,
        s.cacheKey)
  }

  function Delete(s: Store, id: string): Store {
    if id !in s.records then s
    else s.(records := s.records - {id}, archives := s.archives - {id}, cache := s.cache - {id})
  }

  /** `Verify`: the new store and what it answers, or nothing for an unknown record. */
  function Verify(c: Cipher, s: Store, key: Option<Key>, id: string): (Store, Option<Status>) {
    if id !in s.records then (s, None)
    else if key.None? then (CacheStatus(c, s, key, id, Unknown), Some(Unknown))
    else if id !in s.archives then (CacheStatus(c, s, key, id, MissingFile), Some(MissingFile))
    else
      var r, fp := s.records[id], c.fingerprint(key.value);
      if r.fingerprint != "" then
        var status := if r.fingerprint == fp then Compatible else Incompatible;
        (CacheStatus(c, s, key, id, status), Some(status))
      else if OpenAtRest(c, s.archives[id], key.value).Err? then
        (CacheStatus(c, s, key, id, Incompatible), Some(Incompatible))
      else
        var filled := s.(records := s.records[id := r.(fingerprint := fp)]);
        (CacheStatus(c, filled, key, id, Compatible), Some(Compatible))
  }

  /** What `VerifyAll` decides about one record. */
  function Judged(c: Cipher, s: Store, key: Option<Key>, id: string): Status
    requires id in s.records
  {
    if key.None? then Unknown
    else if id !in s.archives then MissingFile
    else Classify(s.records[id], c.fingerprint(key.value))
  }

  function VerifyAll(c: Cipher, s: Store, key: Option<Key>): Store {
    s.(cache := map id | id in s.records :: Judged(c, s, key, id), cacheKey := CurrentFingerprint(c, key))
  }

  /** What `Recover` finds in the archive with the old passphrase. */
  function Recovered(c: Cipher, s: Store, key: Option<Key>, id: string, phrase: string): Result<seq<byte>> {
    if |phrase| < MIN_PASSPHRASE then Err(MissingPassphrase)
    else if key.None? then Err(MissingKey)
    else if id !in s.records || id !in s.archives then Err(NotFound)
    else OpenAtRest(c, s.archives[id], KeyOf(c, phrase))
  }

  function Recover(c: Cipher, s: Store, key: Option<Key>, id: string, phrase: string, nonce: seq<byte>): Store {
    match Recovered(c, s, key, id, phrase)
    case Err(_) => s
    case Ok(plaintext) =>
      if key.None? || id !in s.records then s
      else
        var written := s.(
          records := s.records[id := s.records[id].(fingerprint := c.fingerprint(key.value))],
          archives := s.archives[id := EncryptAtRest(c, key.value, nonce, plaintext)]);
        CacheStatus(c, written, key, id, Compatible)
  }

  // ---------- runs ----------

  datatype Op =
    | CreateOp(id: string, source: string, now: int, plaintext: seq<byte>, nonce: seq<byte>)
    | DeleteOp(id: string)
    | VerifyOp(id: string)
    | VerifyAllOp
    | RecoverOp(id: string, phrase: string, nonce: seq<byte>)

  function Apply(c: Cipher, s: Store, key: Option<Key>, op: Op): Store {
    match op
    case CreateOp(id, source, now, plaintext, nonce) => Create(c, s, key, id, source, now, plaintext, nonce)
    case DeleteOp(id) => Delete(s, id)
    case VerifyOp(id) => Verify(c, s, key, id).0
    case VerifyAllOp => VerifyAll(c, s, key)
    case RecoverOp(id, phrase, nonce) => Recover(c, s, key, id, phrase, nonce)
  }

  /** Nonces have their length and new records have new ids. */
  predicate Legal(s: Store, op: Op) {
    match op
    case CreateOp(id, _, _, _, nonce) => id !in s.records && |nonce| == NONCE_LENGTH
    case RecoverOp(_, _, nonce) => |nonce| == NONCE_LENGTH
    case _ => true
  }

  function ApplyAll(c: Cipher, s: Store, key: Option<Key>, ops: seq<Op>): Store
    decreases |ops|
  {
    if ops == [] then s else ApplyAll(c, Apply(c, s, key, ops[0]), key, ops[1..])
  }

  predicate LegalAll(c: Cipher, s: Store, key: Option<Key>, ops: seq<Op>)
    decreases |ops|
  {
    ops == [] || (Legal(s, ops[0]) && LegalAll(c, Apply(c, s, key, ops[0]), key, ops[1..]))
  }

  /** What happens while one key, or none, is configured. */
  datatype Session = Session(key: Option<Key>, ops: seq<Op>)

  function Run(c: Cipher, s: Store, run: seq<Session>): Store
    decreases |run|
  {
    if run == [] then s
    else
      var last := run[|run| - 1];
      ApplyAll(c, Run(c, s, run[..|run| - 1]), last.key, last.ops)
  }

  predicate LegalRun(c: Cipher, s: Store, run: seq<Session>)
    decreases |run|
  {
    run == [] || (
      var last := run[|run| - 1];
      && LegalRun(c, s, run[..|run| - 1])
      && LegalAll(c, Run(c, s, run[..|run| - 1]), last.key, last.ops))
  }

  function Keys(run: seq<Session>): seq<Option<Key>> {
    seq(|run|, i requires 0 <= i < |run| => run[i].key)
  }
}
