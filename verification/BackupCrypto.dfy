/** The two containers of a backup archive. The primitives inside them stay abstract. */
module BackupCrypto {
  import opened Bytes
  import opened Wrappers

  type Key = seq<byte>

  /** Key derivation, authenticated encryption and key fingerprints. */
  datatype Cipher = Cipher(
    derive: (string, seq<byte>) -> Key,
    seal: (Key, seq<byte>, seq<byte>) -> seq<byte>,
    open: (Key, seq<byte>, seq<byte>) -> Option<seq<byte>>,
    fingerprint: Key -> string)

  /** Opening inverts sealing, with the right key and no other; fingerprints tell keys apart. */
  ghost predicate Lawful(c: Cipher) {
    && (forall k, n, p :: c.open(k, n, c.seal(k, n, p)) == Some(p))
    && (forall k, k', n, p :: k != k' ==> c.open(k', n, c.seal(k, n, p)) == None)
    && (forall k, k' :: c.fingerprint(k) == c.fingerprint(k') ==> k == k')
    && (forall k :: c.fingerprint(k) != "")
  }

  datatype Error = MissingKey | InvalidFormat | WrongKey | MissingPassphrase | NotFound

  datatype Result<T> = Ok(value: T) | Err(error: Error)

  const MIN_PASSPHRASE: nat := 16
  const NONCE_LENGTH: nat := 12
  const SALT_LENGTH: nat := 16

  /** "SWBR" and "SWBP" */
  const MAGIC_AT_REST: seq<byte> := [83, 87, 66, 82]
  const MAGIC_PORTABLE: seq<byte> := [83, 87, 66, 80]

  /** "swirl-backup-at-rest" */
  const SALT_AT_REST: seq<byte> :=
    [115, 119, 105, 114, 108, 45, 98, 97, 99, 107, 117, 112, 45, 97, 116, 45, 114, 101, 115, 116]

  function KeyOf(c: Cipher, passphrase: string): Key { c.derive(passphrase, SALT_AT_REST) }

  function EncryptAtRest(c: Cipher, key: Key, nonce: seq<byte>, plaintext: seq<byte>): seq<byte> {
    MAGIC_AT_REST + nonce + c.seal(key, nonce, plaintext)
  }

  /** `openAtRest` */
  function OpenAtRest(c: Cipher, archive: seq<byte>, key: Key): Result<seq<byte>> {
    if |archive| < 4 + NONCE_LENGTH || archive[..4] != MAGIC_AT_REST then Err(InvalidFormat)
    else
      match c.open(key, archive[4..4 + NONCE_LENGTH], archive[4 + NONCE_LENGTH..])
      case Some(p) => Ok(p)
      case None => Err(WrongKey)
  }

  function EncryptPortable(
    c: Cipher, plaintext: seq<byte>, passphrase: string, salt: seq<byte>, nonce: seq<byte>): Result<seq<byte>>
  {
    if passphrase == "" then Err(MissingPassphrase)
    else Ok(MAGIC_PORTABLE + salt + nonce + c.seal(c.derive(passphrase, salt), nonce, plaintext))
  }

  function DecryptPortable(c: Cipher, archive: seq<byte>, passphrase: string): Result<seq<byte>> {
    if |archive| < 4 + SALT_LENGTH + NONCE_LENGTH || archive[..4] != MAGIC_PORTABLE then Err(InvalidFormat)
    else if passphrase == "" then Err(MissingPassphrase)
    else
      var body := archive[4 + SALT_LENGTH..];
      match c.open(c.derive(passphrase, archive[4..4 + SALT_LENGTH]), body[..NONCE_LENGTH], body[NONCE_LENGTH..])
      case Some(p) => Ok(p)
      case None => Err(WrongKey)
  }

  /** `decryptAny`; the master key may be missing. */
  function DecryptAny(c: Cipher, archive: seq<byte>, master: Option<Key>, passphrase: string): Result<seq<byte>> {
    if |archive| >= 4 && archive[..4] == MAGIC_AT_REST then
      match master
      case Some(key) => OpenAtRest(c, archive, key)
      case None => Err(MissingKey)
    else if |archive| >= 4 && archive[..4] == MAGIC_PORTABLE then DecryptPortable(c, archive, passphrase)
    else Err(InvalidFormat)
  }

  /** The layout of both containers: four letters, the salt where there is one, the nonce, the sealed
      content; and the key of an archive at rest is derived with a fixed salt. */
  lemma Layout(c: Cipher, key: Key, phrase: string, salt: seq<byte>, nonce: seq<byte>, plaintext: seq<byte>)
    requires |salt| == 16 && |nonce| == 12 && phrase != ""
    ensures EncryptAtRest(c, key, nonce, plaintext)
         == Ascii("SWBR") + nonce + c.seal(key, nonce, plaintext)
    ensures EncryptPortable(c, plaintext, phrase, salt, nonce)
         == Ok(Ascii("SWBP") + salt + nonce + c.seal(c.derive(phrase, salt), nonce, plaintext))
    ensures KeyOf(c, phrase) == c.derive(phrase, Ascii("swirl-backup-at-rest"))
  {
    assert Ascii("SWBR") == MAGIC_AT_REST && Ascii("SWBP") == MAGIC_PORTABLE;
    assert Ascii("swirl-backup-at-rest") == SALT_AT_REST;
  }

  function Ascii(s: string): seq<byte> {
    seq(|s|, i requires 0 <= i < |s| => (s[i] as int % 0x80) as byte)
  }

  lemma AtRestParts(c: Cipher, key: Key, nonce: seq<byte>, plaintext: seq<byte>)
    requires |nonce| == NONCE_LENGTH
    ensures var a := EncryptAtRest(c, key, nonce, plaintext);
      a[..4] == MAGIC_AT_REST && a[4..16] == nonce && a[16..] == c.seal(key, nonce, plaintext)
  {
  }

  /** At rest: the key opens, every other key fails, and `decryptAny` agrees whatever the passphrase. */
  lemma AtRestRoundTrip(c: Cipher, key: Key, other: Key, nonce: seq<byte>, plaintext: seq<byte>, passphrase: string)
    requires Lawful(c) && |nonce| == NONCE_LENGTH
    ensures var a := EncryptAtRest(c, key, nonce, plaintext);
      && OpenAtRest(c, a, other) == (if other == key then Ok(plaintext) else Err(WrongKey))
      && DecryptAny(c, a, Some(other), passphrase) == OpenAtRest(c, a, other)
      && DecryptAny(c, a, None, passphrase) == Err(MissingKey)
      && DecryptPortable(c, a, passphrase) == Err(InvalidFormat)
  {
    AtRestParts(c, key, nonce, plaintext);
  }

  lemma PortableParts(c: Cipher, plaintext: seq<byte>, passphrase: string, salt: seq<byte>, nonce: seq<byte>)
    requires |salt| == SALT_LENGTH && |nonce| == NONCE_LENGTH && passphrase != ""
    ensures var a := EncryptPortable(c, plaintext, passphrase, salt, nonce).value; var body := a[20..];
      && a[..4] == MAGIC_PORTABLE && a[4..20] == salt
      && body[..12] == nonce && body[12..] == c.seal(c.derive(passphrase, salt), nonce, plaintext)
  {
    var a := EncryptPortable(c, plaintext, passphrase, salt, nonce).value;
    var sealed := c.seal(c.derive(passphrase, salt), nonce, plaintext);
    assert a[20..] == nonce + sealed;
  }

  /** Portable: the passphrase opens, one that derives another key fails, and `decryptAny`
      agrees whatever the master key. */
  lemma PortableRoundTrip(
    c: Cipher, plaintext: seq<byte>, passphrase: string, salt: seq<byte>, nonce: seq<byte>,
    other: string, master: Option<Key>, key: Key)
    requires Lawful(c) && |salt| == SALT_LENGTH && |nonce| == NONCE_LENGTH && passphrase != ""
    ensures EncryptPortable(c, plaintext, passphrase, salt, nonce).Ok?
    ensures var a := EncryptPortable(c, plaintext, passphrase, salt, nonce).value;
      && DecryptPortable(c, a, passphrase) == Ok(plaintext)
      && (other != "" && c.derive(other, salt) != c.derive(passphrase, salt) ==>
            DecryptPortable(c, a, other) == Err(WrongKey))
      && DecryptPortable(c, a, "") == Err(MissingPassphrase)
      && DecryptAny(c, a, master, other) == DecryptPortable(c, a, other)
      && OpenAtRest(c, a, key) == Err(InvalidFormat)
  {
    PortableParts(c, plaintext, passphrase, salt, nonce);
  }

  /** Neither container is ever taken for the other: an archive opens in at most one of them. */
  lemma ContainersAreDisjoint(c: Cipher, archive: seq<byte>, key: Key, passphrase: string)
    ensures OpenAtRest(c, archive, key) == Err(InvalidFormat) ||
            DecryptPortable(c, archive, passphrase) == Err(InvalidFormat)
    ensures DecryptAny(c, archive, Some(key), passphrase) ==
      if OpenAtRest(c, archive, key) != Err(InvalidFormat) then OpenAtRest(c, archive, key)
      else DecryptPortable(c, archive, passphrase)
  {
    if |archive| >= 4 && archive[..4] == MAGIC_AT_REST {
      assert archive[..4][3] == 82;
    }
  }
}
