/** vault/vault.go: the on-disk container and the create / open / save steps, over an abstract
    file store (path to file bytes). JSON encoding and the argon2id password hash are foreign:
    they are uninterpreted functions in `Codec` and `Hasher`, with the ghost predicates below as
    the only facts assumed about them. */
module VaultContainer {
  import opened Wrappers
  import opened Crypto
  import opened Models

  const VaultVersion: string := "1.0.0"

  /** The envelope written to disk. The two timestamps are RFC 3339 texts in the source; they are
      kept here as the whole second they show. */
  datatype VaultFile = VaultFile(
    version: string,
    passwordHash: string,
    salt: Option<Bytes>,
    encryptedData: Bytes,
    createdAt: nat,
    updatedAt: nat)

  datatype Codec = Codec(
    marshalVault: Vault -> Bytes,            // json.Marshal of the payload
    unmarshalVault: Bytes -> Result<Vault>,  // json.Unmarshal of the payload
    marshalFile: VaultFile -> Bytes,         // json.MarshalIndent of the envelope
    unmarshalFile: Bytes -> Result<VaultFile>)

  ghost predicate CodecRoundTrips(c: Codec) {
    && (forall v {:trigger c.marshalVault(v)} :: c.unmarshalVault(c.marshalVault(v)) == Ok(v))
    && (forall f {:trigger c.marshalFile(f)} :: c.unmarshalFile(c.marshalFile(f)) == Ok(f))
  }

  datatype Hasher = Hasher(
    hash: (string, Bytes) -> Result<string>,   // HashMasterPassword, given its own random salt
    verify: (string, string) -> Result<bool>)  // VerifyMasterPassword(candidate, encoded hash)

  /** A hash verifies the password it was made from. */
  ghost predicate VerifiesOwnHash(h: Hasher) {
    forall pw, r {:trigger h.hash(pw, r)} :: h.hash(pw, r).Ok? ==> h.verify(pw, h.hash(pw, r).value) == Ok(true)
  }

  /** A hash rejects every other password. */
  ghost predicate RejectsOthers(h: Hasher) {
    forall pw, other, r {:trigger h.verify(other, h.hash(pw, r).value)} ::
      pw != other && h.hash(pw, r).Ok? ==> h.verify(other, h.hash(pw, r).value) == Ok(false)
  }

  datatype Foreign = Foreign(crypto: Primitives, codec: Codec, hasher: Hasher)

  /** What `os.MkdirAll` and `os.WriteFile` do. A failed write may leave a truncated or partial
      file behind (`leftover`): the file is overwritten in place, not replaced atomically. */
  datatype IoOutcome = IoOk | MkdirFailed(cause: string) | WriteFailed(cause: string, leftover: Option<Bytes>)

  class FileStore {
    var files: map<string, Bytes>

    constructor(files: map<string, Bytes>)
      ensures this.files == files
    {
      this.files := files;
    }
  }

  /** `VaultExists`: `os.Stat` succeeds, that is, the store holds bytes under the path. */
  function VaultExists(fs: FileStore, path: string): (found: bool)
    reads fs
    ensures found <==> path in fs.files
  {
    path in fs.files
  }

  function Seconds(t: Time): nat {
    t / NanosPerSecond
  }

  /** The payload of a freshly created vault. */
  function FreshVault(now: Time, salt: Bytes): (v: Vault)
    ensures v.version == VaultVersion && v.salt == Some(salt)
    ensures EntryMap(v) == map[] && v.entries.Some? && v.metadata == map[]
  {
    Vault(VaultVersion, now, now, Some(salt), Some(map[]), map[])
  }

  /** The envelope bytes `SaveVault` writes for a payload, key, hash and nonce. */
  function SealedBytes(f: Foreign, vault: Vault, key: Bytes, passwordHash: string, nonce: Bytes): Bytes
    requires |key| == KeySize && |nonce| == NonceSize
  {
    var data := Encrypt(f.crypto, f.codec.marshalVault(vault), key, nonce).value;
    f.codec.marshalFile(VaultFile(VaultVersion, passwordHash, vault.salt, data, Seconds(vault.createdAt), Seconds(vault.updatedAt)))
  }

  /** The error `SaveVault` returns: the key size is checked by `Encrypt` before any I/O. */
  function SaveOutcome(key: Bytes, io: IoOutcome): (r: Outcome)
    ensures r.Pass? <==> |key| == KeySize && io.IoOk?
  {
    if |key| != KeySize then Fail("failed to encrypt vault: invalid key size")
    else match io
      case IoOk => Pass
      case MkdirFailed(cause) => Fail("failed to create vault directory: " + cause)
      case WriteFailed(cause, _) => Fail("failed to write vault file: " + cause)
  }

  /** The file store after `SaveVault`: only `path` can change; it holds the new envelope on
      success, whatever a failed write left there, and is untouched on every earlier failure. */
  function FilesAfterSave(files: map<string, Bytes>, path: string, f: Foreign, vault: Vault, key: Bytes,
                          passwordHash: string, nonce: Bytes, io: IoOutcome): (after: map<string, Bytes>)
    requires |nonce| == NonceSize
    ensures forall p :: p != path ==> (p in after <==> p in files) && (p in files ==> after[p] == files[p])
    ensures SaveOutcome(key, io).Pass? ==> path in after && after[path] == SealedBytes(f, vault, key, passwordHash, nonce)
    ensures |key| != KeySize || io.MkdirFailed? ==> after == files
  {
    if |key| != KeySize then files
    else match io
      case IoOk => files[path := SealedBytes(f, vault, key, passwordHash, nonce)]
      case MkdirFailed(_) => files
      case WriteFailed(_, leftover) => if leftover.Some? then files[path := leftover.value] else files
  }

  /** No save attempt removes an existing vault file, and a successful one leaves the path
      holding a vault, so `VaultExists` holds afterwards in both cases. */
  lemma SaveKeepsVault(files: map<string, Bytes>, path: string, f: Foreign, vault: Vault, key: Bytes,
                       passwordHash: string, nonce: Bytes, io: IoOutcome)
    requires |nonce| == NonceSize
    ensures path in files || SaveOutcome(key, io).Pass? ==>
              path in FilesAfterSave(files, path, f, vault, key, passwordHash, nonce, io)
  {
  }

  /** `SaveVault`: stamps `UpdatedAt`, serialises, encrypts with the given key, writes the envelope
      (version, the given hash, the payload's salt, nonce followed by the sealed payload), and only
      then, on success, zeroes the plaintext buffer and the caller's key. Every early error return
      leaves both buffers as they were. */
  method SaveVault(fs: FileStore, vault: Vault, path: string, key: array<bv8>, passwordHash: string,
                   now: Time, f: Foreign, nonce: Bytes, io: IoOutcome)
    returns (stamped: Vault, result: Outcome, ghost plaintext: array<bv8>)
    requires |nonce| == NonceSize
    modifies fs, key
    ensures stamped == vault.(updatedAt := now)
    ensures result == SaveOutcome(old(key[..]), io)
    ensures fs.files == FilesAfterSave(old(fs.files), path, f, stamped, old(key[..]), passwordHash, nonce, io)
    ensures fresh(plaintext)
    ensures result.Pass? ==> AllZero(key[..]) && AllZero(plaintext[..])
    ensures result.Fail? ==> key[..] == old(key[..]) && plaintext[..] == f.codec.marshalVault(stamped)
  {
    ghost var oldKey, oldFiles := key[..], fs.files;
    stamped := vault.(updatedAt := now);
    var serialised := f.codec.marshalVault(stamped);
    var vaultData := Buffer(serialised);
    plaintext := vaultData;
    var encrypted := Encrypt(f.crypto, vaultData[..], key[..], nonce);
    assert key[..] == oldKey;
    if encrypted.Err? {
      assert encrypted.msg == "invalid key size" && |oldKey| != KeySize;
      result := Fail("failed to encrypt vault: " + encrypted.msg);
      return;
    }
    assert |oldKey| == KeySize;
    var file := VaultFile(VaultVersion, passwordHash, stamped.salt, encrypted.value, Seconds(stamped.createdAt), Seconds(stamped.updatedAt));
    var fileData := f.codec.marshalFile(file);
    assert fileData == SealedBytes(f, stamped, oldKey, passwordHash, nonce);
    match io {
      case MkdirFailed(cause) =>
        result := Fail("failed to create vault directory: " + cause);
        return;
      case WriteFailed(cause, leftover) =>
        if leftover.Some? {
          fs.files := fs.files[path := leftover.value];
        }
        result := Fail("failed to write vault file: " + cause);
        return;
      case IoOk =>
        fs.files := fs.files[path := fileData];
    }
    SecureZero(vaultData);
    SecureZero(key);
    result := Pass;
  }

  /** A fresh byte buffer holding `data` (the `[]byte` the JSON encoder returns). */
  method Buffer(data: Bytes) returns (buffer: array<bv8>)
    ensures fresh(buffer) && buffer[..] == data
  {
    buffer := new bv8[|data|](i requires 0 <= i < |data| => data[i]);
  }

  /** `CreateVault`: refuses an existing path without writing; otherwise hashes the password,
      derives a key under a fresh random salt and saves an empty vault carrying that salt. */
  method CreateVault(fs: FileStore, masterPassword: string, path: string, now: Time, f: Foreign,
                     hashSalt: Bytes, randomSalt: Bytes, nonce: Bytes, io: IoOutcome)
    returns (result: Outcome)
    requires |randomSalt| == SaltSize && |nonce| == NonceSize
    modifies fs
    ensures path in old(fs.files) ==> result == Fail("vault already exists at " + path) && fs.files == old(fs.files)
    ensures path !in old(fs.files) && f.hasher.hash(masterPassword, hashSalt).Err? ==>
              result == Fail("failed to hash master password: " + f.hasher.hash(masterPassword, hashSalt).msg)
              && fs.files == old(fs.files)
    ensures path !in old(fs.files) && f.hasher.hash(masterPassword, hashSalt).Ok? ==>
              var k := DeriveKey(f.crypto, masterPassword, None, randomSalt);
              && result == SaveOutcome(k.key, io)
              && fs.files == FilesAfterSave(old(fs.files), path, f, FreshVault(now, randomSalt), k.key,
                                            f.hasher.hash(masterPassword, hashSalt).value, nonce, io)
    ensures result.Pass? ==> VaultExists(fs, path)
  {
    if path in fs.files {
      result := Fail("vault already exists at " + path);
      return;
    }
    var hashed := f.hasher.hash(masterPassword, hashSalt);
    if hashed.Err? {
      result := Fail("failed to hash master password: " + hashed.msg);
      return;
    }
    var encKey := DeriveKey(f.crypto, masterPassword, None, randomSalt);
    var vault := FreshVault(now, encKey.salt);
    var key := new bv8[|encKey.key|](i requires 0 <= i < |encKey.key| => encKey.key[i]);
    assert key[..] == encKey.key;
    var _, saved, _ := SaveVault(fs, vault, path, key, hashed.value, now, f, nonce, io);
    result := saved;
  }

  /** The result of `OpenVault`, check by check: existence, envelope parse, password verification,
      key derivation from the stored salt, decryption, payload parse. */
  function OpenResult(files: map<string, Bytes>, masterPassword: string, path: string, f: Foreign,
                      randomSalt: Bytes): (r: Result<Vault>)
    requires |randomSalt| == SaltSize
    ensures path !in files ==> r == Err("vault not found at " + path)
  {
    if path !in files then Err("vault not found at " + path)
    else match f.codec.unmarshalFile(files[path])
      case Err(e) => Err("failed to parse vault file: " + e)
      case Ok(file) =>
        match f.hasher.verify(masterPassword, file.passwordHash)
        case Err(e) => Err("failed to verify password: " + e)
        case Ok(false) => Err("invalid master password")
        case Ok(true) =>
          var encKey := DeriveKey(f.crypto, masterPassword, file.salt, randomSalt);
          match Decrypt(f.crypto, file.encryptedData, encKey.key)
          case Err(e) => Err("failed to decrypt vault: " + e)
          case Ok(data) =>
            match f.codec.unmarshalVault(data)
            case Err(e) => Err("failed to parse decrypted vault: " + e)
            case Ok(v) => Ok(v)
  }

  /** `OpenVault`, step by step with early returns; it reads the store and changes nothing.
      `randomSalt` is used only when the envelope has no salt. */
  method OpenVault(fs: FileStore, masterPassword: string, path: string, f: Foreign, randomSalt: Bytes)
    returns (r: Result<Vault>)
    requires |randomSalt| == SaltSize
    ensures r == OpenResult(fs.files, masterPassword, path, f, randomSalt)
    ensures path !in fs.files ==> r == Err("vault not found at " + path)
  {
    if path !in fs.files {
      return Err("vault not found at " + path);
    }
    var data := fs.files[path];
    var parsed := f.codec.unmarshalFile(data);
    if parsed.Err? {
      return Err("failed to parse vault file: " + parsed.msg);
    }
    var vaultFile := parsed.value;
    var matched := f.hasher.verify(masterPassword, vaultFile.passwordHash);
    if matched.Err? {
      return Err("failed to verify password: " + matched.msg);
    }
    if !matched.value {
      return Err("invalid master password");
    }
    var encKey := DeriveKey(f.crypto, masterPassword, vaultFile.salt, randomSalt);
    var decrypted := Decrypt(f.crypto, vaultFile.encryptedData, encKey.key);
    if decrypted.Err? {
      return Err("failed to decrypt vault: " + decrypted.msg);
    }
    var vault := f.codec.unmarshalVault(decrypted.value);
    if vault.Err? {
      return Err("failed to parse decrypted vault: " + vault.msg);
    }
    return Ok(vault.value);
  }

  /** The password is checked before any key is derived or anything decrypted: when verification
      does not succeed, the outcome is the same whatever the cipher and the encrypted bytes. */
  lemma VerificationComesFirst(files: map<string, Bytes>, masterPassword: string, path: string,
                               f: Foreign, g: Primitives, randomSalt: Bytes)
    requires |randomSalt| == SaltSize
    requires path in files && f.codec.unmarshalFile(files[path]).Ok?
    requires f.hasher.verify(masterPassword, f.codec.unmarshalFile(files[path]).value.passwordHash) != Ok(true)
    ensures OpenResult(files, masterPassword, path, f, randomSalt).Err?
    ensures OpenResult(files, masterPassword, path, f, randomSalt)
            == OpenResult(files, masterPassword, path, f.(crypto := g), randomSalt)
  {
  }

  /** What `SaveVault` writes under the key derived from the password and the payload's own salt,
      `OpenVault` reads back with that password: the stamped payload, unchanged. */
  lemma SaveThenOpen(files: map<string, Bytes>, path: string, f: Foreign, vault: Vault, salt: Bytes,
                     masterPassword: string, hashSalt: Bytes, nonce: Bytes, randomSalt: Bytes)
    requires SealOpens(f.crypto) && KdfLength(f.crypto) && CodecRoundTrips(f.codec) && VerifiesOwnHash(f.hasher)
    requires vault.salt == Some(salt)
    requires f.hasher.hash(masterPassword, hashSalt).Ok?
    requires |nonce| == NonceSize && |randomSalt| == SaltSize
    ensures var key := DeriveKey(f.crypto, masterPassword, vault.salt, randomSalt).key;
            var hash := f.hasher.hash(masterPassword, hashSalt).value;
            OpenResult(files[path := SealedBytes(f, vault, key, hash, nonce)], masterPassword, path, f, randomSalt) == Ok(vault)
  {
    var key := DeriveKey(f.crypto, masterPassword, vault.salt, randomSalt).key;
    var hash := f.hasher.hash(masterPassword, hashSalt).value;
    var plaintext := f.codec.marshalVault(vault);
    EncryptDecrypt(f.crypto, plaintext, key, nonce);
    var data := Encrypt(f.crypto, plaintext, key, nonce).value;
    var file := VaultFile(VaultVersion, hash, vault.salt, data, Seconds(vault.createdAt), Seconds(vault.updatedAt));
    assert f.codec.unmarshalFile(f.codec.marshalFile(file)) == Ok(file);
    assert f.hasher.verify(masterPassword, hash) == Ok(true);
    assert f.codec.unmarshalVault(plaintext) == Ok(vault);
  }

  /** Creating a vault and opening it with the same password gives the empty payload back,
      stamped with the creation time and carrying the generated salt. */
  lemma CreateThenOpen(files: map<string, Bytes>, path: string, f: Foreign, masterPassword: string,
                       now: Time, hashSalt: Bytes, randomSalt: Bytes, nonce: Bytes, otherSalt: Bytes)
    requires SealOpens(f.crypto) && KdfLength(f.crypto) && CodecRoundTrips(f.codec) && VerifiesOwnHash(f.hasher)
    requires f.hasher.hash(masterPassword, hashSalt).Ok?
    requires |randomSalt| == SaltSize && |nonce| == NonceSize && |otherSalt| == SaltSize
    ensures var k := DeriveKey(f.crypto, masterPassword, None, randomSalt);
            var hash := f.hasher.hash(masterPassword, hashSalt).value;
            var after := FilesAfterSave(files, path, f, FreshVault(now, randomSalt), k.key, hash, nonce, IoOk);
            OpenResult(after, masterPassword, path, f, otherSalt) == Ok(FreshVault(now, randomSalt))
  {
    var v := FreshVault(now, randomSalt);
    assert DeriveKey(f.crypto, masterPassword, None, randomSalt).key == DeriveKey(f.crypto, masterPassword, v.salt, otherSalt).key;
    SaveThenOpen(files, path, f, v, randomSalt, masterPassword, hashSalt, nonce, otherSalt);
  }

  /** Opening with any other password is refused as "invalid master password", whatever the
      envelope holds besides the hash. */
  lemma WrongPasswordRejected(files: map<string, Bytes>, path: string, f: Foreign, file: VaultFile,
                              masterPassword: string, other: string, hashSalt: Bytes, randomSalt: Bytes)
    requires RejectsOthers(f.hasher) && CodecRoundTrips(f.codec)
    requires masterPassword != other && f.hasher.hash(masterPassword, hashSalt).Ok?
    requires file.passwordHash == f.hasher.hash(masterPassword, hashSalt).value
    requires |randomSalt| == SaltSize
    ensures OpenResult(files[path := f.codec.marshalFile(file)], other, path, f, randomSalt) == Err("invalid master password")
  {
    assert f.codec.unmarshalFile(f.codec.marshalFile(file)) == Ok(file);
    assert f.hasher.verify(other, f.hasher.hash(masterPassword, hashSalt).value) == Ok(false);
  }
}
