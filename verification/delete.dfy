/** cmd/delete.go: resolve the entry, pass the confirmation gate, delete by the resolved entry's
    ID and save. */
module Delete {
  import opened Wrappers
  import opened Crypto
  import opened Models
  import opened VaultContainer
  import opened Sessions
  import opened Commands

  datatype Gate = Proceed | Cancel | Abort(message: string)

  const ConfirmationRequired: string := "Deletion requires confirmation. Use --force to bypass or run in interactive mode"

  /** The confirmation gate. `--force` skips both prompts; otherwise a terminal is required and
      both the confirmation and the second confirmation must be yes. The second prompt is only
      consulted after a yes to the first. */
  function DeleteGate(force: bool, isTTY: bool, first: Result<bool>, second: Result<bool>): (g: Gate)
    ensures g.Proceed? <==> force || (isTTY && first == Ok(true) && second == Ok(true))
    ensures !force && !isTTY ==> g == Abort(ConfirmationRequired)
    ensures g.Cancel? <==> !force && isTTY && (first == Ok(false) || (first == Ok(true) && second == Ok(false)))
  {
    if force then Proceed
    else if !isTTY then Abort(ConfirmationRequired)
    else match first
      case Err(e) => Abort("Failed to get confirmation: " + e)
      case Ok(false) => Cancel
      case Ok(true) =>
        match second
        case Err(e) => Abort("Failed to get confirmation: " + e)
        case Ok(false) => Cancel
        case Ok(true) => Proceed
  }

  /** The second prompt is not consulted unless the first was answered yes. */
  lemma SecondPromptOnlyAfterYes(force: bool, isTTY: bool, first: Result<bool>, second: Result<bool>, other: Result<bool>)
    requires first != Ok(true)
    ensures DeleteGate(force, isTTY, first, second) == DeleteGate(force, isTTY, first, other)
  {
  }

  /** Lines 152-162 of `runDelete`: remove the ID, and save only if that succeeded. */
  method RemoveAndSave(reg: Registry, s: Session, id: string, now: Time,
                       fs: FileStore, f: Foreign, nonce: Bytes, io: IoOutcome)
    returns (status: Status)
    requires reg.current == s && s.lastAccessed == now
    requires |nonce| == NonceSize
    modifies reg, s, s.encryptionKey, fs
    ensures id !in old(s.Entries()) ==>
              status == Exited("Failed to delete entry: entry not found") && fs.files == old(fs.files) && s.vault == old(s.vault)
    ensures id in old(s.Entries()) ==>
              && s.Entries() == old(s.Entries()) - {id}
              && s.vault.updatedAt == now && reg.current == s
              && fs.files == FilesAfterSave(old(fs.files), s.vaultPath, f, s.vault, old(s.encryptionKey[..]),
                                            s.passwordHash, nonce, io)
              && (status == Completed <==> SaveOutcome(old(s.encryptionKey[..]), io).Pass?)
              && (status != Completed ==> status == Exited("Failed to save vault: " + SaveOutcome(old(s.encryptionKey[..]), io).msg))
  {
    var removed := s.DeleteEntry(id, now);
    if removed.Fail? {
      return Exited("Failed to delete entry: " + removed.msg);
    }
    var saved := reg.SaveCurrentSession(now, fs, f, nonce, io);
    if saved.Fail? {
      return Exited("Failed to save vault: " + saved.msg);
    }
    status := Completed;
  }

  /** `runDelete` after the session prologue. Nothing changes unless the gate lets the deletion
      through; then exactly the resolved entry's ID is removed (even when a number was given)
      and the vault is saved only if the removal succeeded. */
  method DeleteResolved(reg: Registry, s: Session, identifier: string, force: bool, isTTY: bool,
                        first: Result<bool>, second: Result<bool>, now: Time,
                        fs: FileStore, f: Foreign, nonce: Bytes, io: IoOutcome)
    returns (status: Status, ghost resolved: Result<Entry>)
    requires reg.current == s && s.lastAccessed == now
    requires |nonce| == NonceSize
    modifies reg, s, s.encryptionKey, fs
    ensures resolved.Err? ==> status == Exited(resolved.msg) && fs.files == old(fs.files) && s.vault == old(s.vault)
    ensures resolved.Ok? ==> resolved.value in old(s.Entries()).Values
    ensures resolved.Ok? && KeyedById(old(s.vault)) ==> resolved.value.id in old(s.Entries())
    ensures status == Cancelled ==> resolved.Ok? && DeleteGate(force, isTTY, first, second) == Cancel
    ensures resolved.Ok? && DeleteGate(force, isTTY, first, second) == Cancel ==>
              status == Cancelled && fs.files == old(fs.files) && s.vault == old(s.vault)
    ensures resolved.Ok? && DeleteGate(force, isTTY, first, second).Abort? ==>
              status == Exited(DeleteGate(force, isTTY, first, second).message) && fs.files == old(fs.files) && s.vault == old(s.vault)
    ensures resolved.Ok? && DeleteGate(force, isTTY, first, second).Proceed? && resolved.value.id !in old(s.Entries()) ==>
              status == Exited("Failed to delete entry: entry not found") && fs.files == old(fs.files) && s.vault == old(s.vault)
    ensures resolved.Ok? && DeleteGate(force, isTTY, first, second).Proceed? && resolved.value.id in old(s.Entries()) ==>
              && s.Entries() == old(s.Entries()) - {resolved.value.id}
              && s.vault.updatedAt == now && reg.current == s
              && fs.files == FilesAfterSave(old(fs.files), s.vaultPath, f, s.vault, old(s.encryptionKey[..]),
                                            s.passwordHash, nonce, io)
              && (status == Completed <==> SaveOutcome(old(s.encryptionKey[..]), io).Pass?)
  {
    var found, _, _, _ := ResolveEntry(s, identifier, now);
    resolved := found;
    if found.Err? {
      return Exited(found.msg), resolved;
    }
    var entry := found.value;
    var gate := DeleteGate(force, isTTY, first, second);
    if gate.Cancel? {
      return Cancelled, resolved;
    }
    if gate.Abort? {
      return Exited(gate.message), resolved;
    }
    status := RemoveAndSave(reg, s, entry.id, now, fs, f, nonce, io);
  }

  /** `runDelete`: the session prologue (`AcquireSession`), then the deletion. What the deletion
      does to the session and the vault file is stated by `DeleteResolved` and `RemoveAndSave`,
      whose contracts hold for the session acquired here. */
  method RunDelete(reg: Registry, fs: FileStore, vaultPath: string, identifier: string, force: bool,
                   isTTY: bool, masterPassword: Result<string>, first: Result<bool>, second: Result<bool>,
                   now: Time, f: Foreign, hashSalt: Bytes, randomSalt: Bytes, sessionSalt: Bytes,
                   nonce: Bytes, io: IoOutcome)
    returns (status: Status)
    requires |randomSalt| == SaltSize && |sessionSalt| == SaltSize && |nonce| == NonceSize
    modifies reg, reg.Footprint(), fs
    ensures vaultPath !in old(fs.files) ==> status == Exited(NoVaultMessage) && fs.files == old(fs.files)
    ensures status == Cancelled ==> fs.files == old(fs.files)
  {
    var s, acquired := AcquireSession(reg, fs, vaultPath, now, isTTY, masterPassword, f, hashSalt, randomSalt, sessionSalt);
    if s == null {
      return acquired;
    }
    var st, _ := DeleteResolved(reg, s, identifier, force, isTTY, first, second, now, fs, f, nonce, io);
    status := st;
  }
}
