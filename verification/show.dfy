/** cmd/show.go: resolve the entry, stamp its access time, store it and save; failures of the
    store or the save are only warnings and the entry is still shown. */
module Show {
  import opened Wrappers
  import opened Crypto
  import opened Models
  import opened VaultContainer
  import opened Sessions
  import opened Commands

  const UpdateWarning: string := "Failed to update access time"
  const SaveWarning: string := "Failed to save access time update"

  /** Lines 116-125 of `runShow`. `entry` is the object stored under `key`, so stamping its
      `AccessedAt` changes the map under `key` whether or not `UpdateEntry` succeeds. `UpdateEntry`
      then stamps `UpdatedAt` on that same object and stores it under its ID as well, so the shown
      entry, the one under `key` and the one under its ID have both times advanced to `now`. The
      save runs whether or not the update succeeded. */
  method TouchAndSave(reg: Registry, s: Session, key: string, entry: Entry, now: Time,
                      fs: FileStore, f: Foreign, nonce: Bytes, io: IoOutcome)
    returns (shown: Entry, warnings: seq<string>)
    requires reg.current == s && s.lastAccessed == now
    requires key in s.Entries() && s.Entries()[key] == entry
    requires |nonce| == NonceSize
    modifies reg, s, s.encryptionKey, fs
    ensures reg.current == s && s.vault.updatedAt == now
    ensures entry.id in old(s.Entries()) ==>
              && shown == entry.(accessedAt := now, updatedAt := now)
              && s.Entries() == old(s.Entries())[key := shown][entry.id := shown]
    ensures entry.id !in old(s.Entries()) ==>
              shown == entry.(accessedAt := now) && s.Entries() == old(s.Entries())[key := shown]
    ensures fs.files == FilesAfterSave(old(fs.files), s.vaultPath, f, s.vault, old(s.encryptionKey[..]),
                                       s.passwordHash, nonce, io)
    ensures warnings == (if entry.id in old(s.Entries()) then [] else [UpdateWarning])
                        + (if SaveOutcome(old(s.encryptionKey[..]), io).Pass? then [] else [SaveWarning])
  {
    warnings := [];
    var touched := entry.(accessedAt := now);
    s.vault := WithStored(s.vault, key, touched);
    var stamped, updated := s.UpdateEntry(touched, now);
    shown := stamped;
    if updated.Fail? {
      warnings := warnings + [UpdateWarning];
    } else {
      s.vault := WithStored(s.vault, key, stamped);
    }
    var saved := reg.SaveCurrentSession(now, fs, f, nonce, io);
    if saved.Fail? {
      warnings := warnings + [SaveWarning];
    }
  }

  /** `runShow` after the session prologue: only a failed resolution ends the command. The
      resolved entry is changed where it is stored (under `key`) and, when its ID is a key, under
      its ID too; when entries are keyed by their own ID these are the same key. */
  method ShowResolved(reg: Registry, s: Session, identifier: string, now: Time,
                      fs: FileStore, f: Foreign, nonce: Bytes, io: IoOutcome)
    returns (status: Status, shown: Entry, warnings: seq<string>, ghost resolved: Result<Entry>, ghost key: string)
    requires reg.current == s && s.lastAccessed == now
    requires |nonce| == NonceSize
    modifies reg, s, s.encryptionKey, fs
    ensures resolved.Err? ==> status == Exited(resolved.msg) && fs.files == old(fs.files) && s.vault == old(s.vault)
    ensures resolved.Ok? ==> status == Completed && key in old(s.Entries()) && old(s.Entries())[key] == resolved.value
    ensures resolved.Ok? ==> reg.current == s && s.vault.updatedAt == now
    ensures resolved.Ok? ==> fs.files == FilesAfterSave(old(fs.files), s.vaultPath, f, s.vault, old(s.encryptionKey[..]),
                                                         s.passwordHash, nonce, io)
    ensures resolved.Ok? && resolved.value.id in old(s.Entries()) ==>
              && shown == resolved.value.(accessedAt := now, updatedAt := now)
              && s.Entries() == old(s.Entries())[key := shown][shown.id := shown]
              && (warnings == [] <==> SaveOutcome(old(s.encryptionKey[..]), io).Pass?)
    ensures resolved.Ok? && resolved.value.id !in old(s.Entries()) ==>
              && shown == resolved.value.(accessedAt := now)
              && s.Entries() == old(s.Entries())[key := shown]
              && |warnings| >= 1 && warnings[0] == UpdateWarning
    ensures resolved.Ok? && KeyedById(old(s.vault)) ==> key == resolved.value.id
  {
    shown, warnings := Entry("", "", "", "", "", "", [], map[], 0, 0, 0), [];
    var found, at, _, _ := ResolveEntry(s, identifier, now);
    resolved, key := found, at;
    if found.Err? {
      return Exited(found.msg), shown, warnings, resolved, key;
    }
    shown, warnings := TouchAndSave(reg, s, at, found.value, now, fs, f, nonce, io);
    status := Completed;
  }

  /** `runShow`: the session prologue (`AcquireSession`), then the display path. What it does to
      the session and the vault file is stated by `ShowResolved` and `TouchAndSave`, whose
      contracts hold for the session acquired here. */
  method RunShow(reg: Registry, fs: FileStore, vaultPath: string, identifier: string, isTTY: bool,
                 masterPassword: Result<string>, now: Time, f: Foreign, hashSalt: Bytes,
                 randomSalt: Bytes, sessionSalt: Bytes, nonce: Bytes, io: IoOutcome)
    returns (status: Status, shown: Entry, warnings: seq<string>)
    requires |randomSalt| == SaltSize && |sessionSalt| == SaltSize && |nonce| == NonceSize
    modifies reg, reg.Footprint(), fs
    ensures vaultPath !in old(fs.files) ==> status == Exited(NoVaultMessage) && fs.files == old(fs.files)
    ensures status == Completed ==> shown.accessedAt == now && reg.current != null
  {
    shown, warnings := Entry("", "", "", "", "", "", [], map[], 0, 0, 0), [];
    var s, acquired := AcquireSession(reg, fs, vaultPath, now, isTTY, masterPassword, f, hashSalt, randomSalt, sessionSalt);
    if s == null {
      return acquired, shown, warnings;
    }
    var st, e, w, _, _ := ShowResolved(reg, s, identifier, now, fs, f, nonce, io);
    status, shown, warnings := st, e, w;
  }
}
