/** The AEAD framing and key handling of crypto/encryption.go.
    AES-GCM (NIST SP 800-38D) and PBKDF2 (section 5.2 of RFC 8018) are not modelled: they are
    uninterpreted functions carried in `Primitives`, and the only facts assumed about them are
    the ghost predicates below, each required by the proofs that need it. */
module Crypto {
  import opened Wrappers

  type Bytes = seq<bv8>

  const KeySize: nat := 32         // AES-256
  const NonceSize: nat := 12       // the GCM standard nonce size
  const SaltSize: nat := 32        // salt size for key derivation
  const Pbkdf2Iterations: nat := 10000

  datatype Primitives = Primitives(
    /** `gcm.Seal` without the destination prefix: (key, nonce, plaintext) to ciphertext and tag. */
    seal: (Bytes, Bytes, Bytes) -> Bytes,
    /** `gcm.Open`: (key, nonce, ciphertext and tag) to the plaintext, or None when authentication fails. */
    open: (Bytes, Bytes, Bytes) -> Option<Bytes>,
    /** `pbkdf2.Key` with SHA-256: (password, salt, iterations, key length) to key bytes. */
    pbkdf2: (string, Bytes, nat, nat) -> Bytes)

  /** The AEAD contract: opening what was sealed under the same key and nonce gives the plaintext back. */
  ghost predicate SealOpens(p: Primitives) {
    forall key, nonce, plaintext {:trigger p.seal(key, nonce, plaintext)} ::
      |key| == KeySize && |nonce| == NonceSize ==> p.open(key, nonce, p.seal(key, nonce, plaintext)) == Some(plaintext)
  }

  /** PBKDF2 returns exactly the requested number of bytes. */
  ghost predicate KdfLength(p: Primitives) {
    forall password, salt, iterations, length {:trigger p.pbkdf2(password, salt, iterations, length)} ::
      |p.pbkdf2(password, salt, iterations, length)| == length
  }

  datatype EncryptionKey = EncryptionKey(key: Bytes, salt: Bytes)

  /** `DeriveKey`: a nil salt is replaced by `randomSalt`, the SaltSize bytes read from the
      system random source; a given salt is kept as it is. The key is PBKDF2 with 10000
      iterations and KeySize bytes over (password, salt) and depends on nothing else. */
  function DeriveKey(p: Primitives, masterPassword: string, salt: Option<Bytes>, randomSalt: Bytes): (k: EncryptionKey)
    requires salt.None? ==> |randomSalt| == SaltSize
    ensures salt.Some? ==> k.salt == salt.value
    ensures salt.None? ==> k.salt == randomSalt && |k.salt| == SaltSize
    ensures k.key == p.pbkdf2(masterPassword, k.salt, Pbkdf2Iterations, KeySize)
    ensures KdfLength(p) ==> |k.key| == KeySize
  {
    var s := if salt.Some? then salt.value else randomSalt;
    EncryptionKey(p.pbkdf2(masterPassword, s, Pbkdf2Iterations, KeySize), s)
  }

  /** `Encrypt`: the key length is checked before any cipher work; the output is the fresh
      `nonce` (read from the random source) followed by the sealed plaintext. An AES-256 key of
      the right length never makes `aes.NewCipher` or `cipher.NewGCM` fail. */
  function Encrypt(p: Primitives, plaintext: Bytes, key: Bytes, nonce: Bytes): (r: Result<Bytes>)
    requires |nonce| == NonceSize
    ensures r.Err? <==> |key| != KeySize
    ensures r.Err? ==> r.msg == "invalid key size"
    ensures r.Ok? ==> |r.value| >= NonceSize && r.value[..NonceSize] == nonce
                      && r.value[NonceSize..] == p.seal(key, nonce, plaintext)
  {
    if |key| != KeySize then Err("invalid key size")
    else Ok(nonce + p.seal(key, nonce, plaintext))
  }

  /** `Decrypt`: key length first, then "too short" below NonceSize bytes, then the input is
      split at NonceSize into nonce and sealed body and opened. */
  function Decrypt(p: Primitives, ciphertext: Bytes, key: Bytes): (r: Result<Bytes>)
    ensures |key| != KeySize ==> r == Err("invalid key size")
    ensures |key| == KeySize && |ciphertext| < NonceSize ==> r == Err("ciphertext too short")
    ensures r.Ok? ==> |key| == KeySize && |ciphertext| >= NonceSize
                      && p.open(key, ciphertext[..NonceSize], ciphertext[NonceSize..]) == Some(r.value)
    ensures |key| == KeySize && |ciphertext| >= NonceSize
            && p.open(key, ciphertext[..NonceSize], ciphertext[NonceSize..]).None?
            ==> r == Err("cipher: message authentication failed")
  {
    if |key| != KeySize then Err("invalid key size")
    else if |ciphertext| < NonceSize then Err("ciphertext too short")
    else
      var nonce := ciphertext[..NonceSize];
      var body := ciphertext[NonceSize..];
      match p.open(key, nonce, body)
      case Some(plaintext) => Ok(plaintext)
      case None => Err("cipher: message authentication failed")
  }

  /** Decrypting what `Encrypt` produced under the same 32-byte key gives the plaintext back. */
  lemma EncryptDecrypt(p: Primitives, plaintext: Bytes, key: Bytes, nonce: Bytes)
    requires SealOpens(p)
    requires |key| == KeySize && |nonce| == NonceSize
    ensures Encrypt(p, plaintext, key, nonce).Ok?
    ensures Decrypt(p, Encrypt(p, plaintext, key, nonce).value, key) == Ok(plaintext)
  {
    var sealed := p.seal(key, nonce, plaintext);
    var c := nonce + sealed;
    assert c[..NonceSize] == nonce && c[NonceSize..] == sealed;
  }

  /** `SecureZero`: overwrites every byte of the buffer with zero, in place. */
  method SecureZero(b: array<bv8>)
    modifies b
    ensures forall i :: 0 <= i < b.Length ==> b[i] == 0
  {
    var i := 0;
    while i < b.Length
      invariant 0 <= i <= b.Length
      invariant forall j :: 0 <= j < i ==> b[j] == 0
    {
      b[i] := 0;
      i := i + 1;
    }
  }

  predicate AllZero(s: Bytes) {
    forall i :: 0 <= i < |s| ==> s[i] == 0
  }
}
