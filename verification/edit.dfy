/** cmd/edit.go: resolve the entry, change its fields from the flags (or, without flags, from the
    interactive answers), stamp it, store it and save the vault. */
module Edit {
  import opened Wrappers
  import opened Crypto
  import opened Models
  import opened Generator
  import opened VaultContainer
  import opened Sessions
  import opened Commands

  datatype EditFlags = EditFlags(
    title: string, username: string, password: string, url: string, notes: string,
    generate: bool, length: int)

  /** The default of `--length`. */
  const DefaultEditLength: int := 16

  /** Any of the six flags given; `--length` alone does not count. */
  function HasFlags(fl: EditFlags): (given: bool)
    ensures !given <==> fl == EditFlags("", "", "", "", "", false, fl.length)
  {
    fl.title != "" || fl.username != "" || fl.password != "" || fl.url != "" || fl.notes != "" || fl.generate
  }

  /** The generated length: a `--length` below 8 is replaced by 16. */
  function GeneratedLength(length: int): (n: int)
    ensures n >= 8
    ensures length >= 8 ==> n == length
    ensures length < 8 ==> n == DefaultLength
  {
    if length < 8 then DefaultLength else length
  }

  function Replaced(current: string, given: string): string {
    if given != "" then given else current
  }

  /** The flag merge: a field takes its flag's value exactly when that flag is non-empty; the ID,
      tags, custom fields and timestamps are never touched. */
  function ApplyFlags(e: Entry, fl: EditFlags): (r: Entry)
    ensures r.(title := e.title, username := e.username, password := e.password, url := e.url, notes := e.notes) == e
    ensures (fl.title != "" ==> r.title == fl.title) && (fl.title == "" ==> r.title == e.title)
    ensures (fl.username != "" ==> r.username == fl.username) && (fl.username == "" ==> r.username == e.username)
    ensures (fl.password != "" ==> r.password == fl.password) && (fl.password == "" ==> r.password == e.password)
    ensures (fl.url != "" ==> r.url == fl.url) && (fl.url == "" ==> r.url == e.url)
    ensures (fl.notes != "" ==> r.notes == fl.notes) && (fl.notes == "" ==> r.notes == e.notes)
  {
    e.(title := Replaced(e.title, fl.title), username := Replaced(e.username, fl.username),
       password := Replaced(e.password, fl.password), url := Replaced(e.url, fl.url),
       notes := Replaced(e.notes, fl.notes))
  }

  /** The interactive answers: a prompt error, like an empty answer, keeps the current value,
      except for the "generate?" confirmation, whose error ends the command. */
  datatype EditAnswers = EditAnswers(
    title: Result<string>, username: Result<string>, generate: Result<bool>,
    password: Result<string>, url: Result<string>, notes: Result<string>)

  /** A prompt answer replaces the current value only when it was read and is non-empty. */
  function Answered(current: string, answer: Result<string>): (r: string)
    ensures r == current || (answer.Ok? && r == answer.value != "")
    ensures answer.Ok? && answer.value != "" ==> r == answer.value
  {
    if answer.Ok? && answer.value != "" then answer.value else current
  }

  /** The options of a generated password in flag mode. */
  function FlagOptions(fl: EditFlags): (opts: PasswordOptions)
    ensures opts == DefaultOptions().(length := GeneratedLength(fl.length))
    ensures EffectiveLength(opts) == GeneratedLength(fl.length)
  {
    DefaultOptions().(length := GeneratedLength(fl.length))
  }

  /** The field changes of `runEdit` (lines 135-228). `generated` is the password drawn, if any;
      it overrides `--password`. The result always keeps the ID. Go assigns the fields one by
      one on the entry it resolved; `current` is that entry as the assignments left it, also
      when the edit stops with an error (the title and username answers are already in place
      when the "generate?" prompt fails). */
  method EditFields(e: Entry, fl: EditFlags, isTTY: bool, answers: EditAnswers, draw: nat -> nat)
    returns (r: Result<Entry>, current: Entry, ghost generated: Option<string>)
    ensures r.Ok? ==> current == r.value
    ensures r.Ok? ==> r.value.(title := e.title, username := e.username, password := e.password, url := e.url, notes := e.notes) == e
    ensures HasFlags(fl) && !fl.generate ==> r == Ok(ApplyFlags(e, fl)) && generated == None
    ensures HasFlags(fl) && fl.generate ==>
              && generated.Some? && r == Ok(ApplyFlags(e, fl).(password := generated.value))
              && |generated.value| == GeneratedLength(fl.length)
              && forall i :: 0 <= i < |generated.value| ==> generated.value[i] in Charset(FlagOptions(fl))
    ensures !HasFlags(fl) && !isTTY ==> r == Err("Interactive mode requires a terminal. Use flags instead") && current == e
    ensures !HasFlags(fl) && isTTY && answers.generate.Err? ==>
              && r == Err("Failed to get password choice: " + answers.generate.msg)
              && current == e.(title := Answered(e.title, answers.title), username := Answered(e.username, answers.username))
    ensures !HasFlags(fl) && isTTY && answers.generate.Ok? ==>
              && r.Ok?
              && r.value == e.(title := Answered(e.title, answers.title), username := Answered(e.username, answers.username),
                               password := r.value.password, url := Answered(e.url, answers.url),
                               notes := Answered(e.notes, answers.notes))
              && (answers.generate.value ==> generated.Some? && r.value.password == generated.value
                                             && |generated.value| == DefaultLength
                                             && forall i :: 0 <= i < |generated.value| ==> generated.value[i] in Charset(DefaultOptions()))
              && (!answers.generate.value ==> generated == None && r.value.password == Answered(e.password, answers.password))
  {
    generated := None;
    if HasFlags(fl) {
      var edited := ApplyFlags(e, fl);
      if fl.generate {
        var password := GeneratePassword(FlagOptions(fl), draw);
        generated := Some(password);
        edited := edited.(password := password);
      }
      return Ok(edited), edited, generated;
    }
    if !isTTY {
      return Err("Interactive mode requires a terminal. Use flags instead"), e, generated;
    }
    var edited := e.(title := Answered(e.title, answers.title), username := Answered(e.username, answers.username));
    if answers.generate.Err? {
      return Err("Failed to get password choice: " + answers.generate.msg), edited, generated;
    }
    if answers.generate.value {
      var password := GeneratePassword(DefaultOptions(), draw);
      generated := Some(password);
      edited := edited.(password := password);
    } else {
      edited := edited.(password := Answered(edited.password, answers.password));
    }
    edited := edited.(url := Answered(edited.url, answers.url));
    edited := edited.(notes := Answered(edited.notes, answers.notes));
    r, current := Ok(edited), edited;
  }

  /** Lines 230-243 of `runEdit`: stamp, `UpdateEntry`, and the save only if the update
      succeeded. `e` is the edited object, the one stored under `key`, so the edited and stamped
      entry lands under `key` even when `UpdateEntry` then fails; on success the same object is
      stored under its ID too. */
  method StoreAndSave(reg: Registry, s: Session, key: string, e: Entry, now: Time,
                      fs: FileStore, f: Foreign, nonce: Bytes, io: IoOutcome)
    returns (status: Status, ghost updated: Entry)
    requires reg.current == s && s.lastAccessed == now
    requires key in s.Entries()
    requires |nonce| == NonceSize
    modifies reg, s, s.encryptionKey, fs
    ensures updated == e.(updatedAt := now)
    ensures e.id !in old(s.Entries()) ==>
              && status == Exited("Failed to update entry: entry not found") && fs.files == old(fs.files)
              && s.vault == WithStored(old(s.vault), key, updated)
    ensures e.id in old(s.Entries()) ==>
              && s.Entries() == old(s.Entries())[key := updated][e.id := updated]
              && s.vault.updatedAt == now && reg.current == s
              && fs.files == FilesAfterSave(old(fs.files), s.vaultPath, f, s.vault, old(s.encryptionKey[..]),
                                            s.passwordHash, nonce, io)
              && (status == Completed <==> SaveOutcome(old(s.encryptionKey[..]), io).Pass?)
              && (status != Completed ==> status == Exited("Failed to save vault: " + SaveOutcome(old(s.encryptionKey[..]), io).msg))
  {
    var stampedEdit := e.(updatedAt := now);
    updated := stampedEdit;
    s.vault := WithStored(s.vault, key, stampedEdit);
    var stamped, outcome := s.UpdateEntry(stampedEdit, now);
    if outcome.Fail? {
      return Exited("Failed to update entry: " + outcome.msg), updated;
    }
    var saved := reg.SaveCurrentSession(now, fs, f, nonce, io);
    if saved.Fail? {
      return Exited("Failed to save vault: " + saved.msg), updated;
    }
    status := Completed;
  }

  /** The edit of the resolved entry, stored under `key`: the field changes (`EditFields`), which
      land under `key` as they are made (also those made before a failure), then `StoreAndSave`.
      A failed edit exits without saving; a successful edit keeps the ID. */
  method EditAndStore(reg: Registry, s: Session, key: string, target: Entry, fl: EditFlags, isTTY: bool,
                      answers: EditAnswers, draw: nat -> nat, now: Time,
                      fs: FileStore, f: Foreign, nonce: Bytes, io: IoOutcome)
    returns (status: Status, ghost edit: Result<Entry>, ghost current: Entry, ghost updated: Entry)
    requires reg.current == s && s.lastAccessed == now
    requires key in s.Entries() && s.Entries()[key] == target
    requires |nonce| == NonceSize
    modifies reg, s, s.encryptionKey, fs
    ensures edit.Err? ==> status == Exited(edit.msg) && fs.files == old(fs.files) && s.vault == WithStored(old(s.vault), key, current)
    ensures edit.Ok? ==> current == edit.value && edit.value.id == target.id && updated == current.(updatedAt := now)
    ensures status == Completed ==> edit.Ok? && target.id in old(s.Entries())
    ensures edit.Ok? && target.id !in old(s.Entries()) ==>
              && status == Exited("Failed to update entry: entry not found") && fs.files == old(fs.files)
              && s.vault == WithStored(old(s.vault), key, updated)
    ensures edit.Ok? && target.id in old(s.Entries()) ==>
              && s.Entries() == old(s.Entries())[key := updated][target.id := updated]
              && s.vault.updatedAt == now && reg.current == s
              && fs.files == FilesAfterSave(old(fs.files), s.vaultPath, f, s.vault, old(s.encryptionKey[..]),
                                            s.passwordHash, nonce, io)
              && (status == Completed <==> SaveOutcome(old(s.encryptionKey[..]), io).Pass?)
  {
    updated := target;
    var edited, reached, _ := EditFields(target, fl, isTTY, answers, draw);
    edit, current := edited, reached;
    if edited.Err? {
      s.vault := WithStored(s.vault, key, reached);
      return Exited(edited.msg), edit, current, updated;
    }
    status, updated := StoreAndSave(reg, s, key, reached, now, fs, f, nonce, io);
  }

  /** `runEdit` after the session prologue: resolution, then `EditAndStore` on the entry under the
      resolved key. A failed resolution writes nothing; when every entry is stored under its own
      ID the resolved key is that ID, so a successful edit lands on it alone. */
  method EditResolved(reg: Registry, s: Session, identifier: string, fl: EditFlags, isTTY: bool,
                      answers: EditAnswers, draw: nat -> nat, now: Time,
                      fs: FileStore, f: Foreign, nonce: Bytes, io: IoOutcome)
    returns (status: Status, ghost resolved: Result<Entry>, ghost key: string, ghost edit: Result<Entry>,
             ghost current: Entry, ghost updated: Entry)
    requires reg.current == s && s.lastAccessed == now
    requires |nonce| == NonceSize
    modifies reg, s, s.encryptionKey, fs
    ensures resolved.Err? ==> status == Exited(resolved.msg) && fs.files == old(fs.files) && s.vault == old(s.vault)
    ensures resolved.Ok? ==> key in old(s.Entries()) && old(s.Entries())[key] == resolved.value
    ensures resolved.Ok? && KeyedById(old(s.vault)) ==> key == resolved.value.id
    ensures resolved.Ok? && edit.Err? ==>
              status == Exited(edit.msg) && fs.files == old(fs.files) && s.vault == WithStored(old(s.vault), key, current)
    ensures resolved.Ok? && edit.Ok? ==>
              current == edit.value && edit.value.id == resolved.value.id && updated == current.(updatedAt := now)
    ensures status == Completed ==> resolved.Ok? && edit.Ok? && resolved.value.id in old(s.Entries())
    ensures resolved.Ok? && edit.Ok? && resolved.value.id !in old(s.Entries()) ==>
              && status == Exited("Failed to update entry: entry not found") && fs.files == old(fs.files)
              && s.vault == WithStored(old(s.vault), key, updated)
    ensures resolved.Ok? && edit.Ok? && resolved.value.id in old(s.Entries()) ==>
              && s.Entries() == old(s.Entries())[key := updated][resolved.value.id := updated]
              && s.vault.updatedAt == now && reg.current == s
              && fs.files == FilesAfterSave(old(fs.files), s.vaultPath, f, s.vault, old(s.encryptionKey[..]),
                                            s.passwordHash, nonce, io)
              && (status == Completed <==> SaveOutcome(old(s.encryptionKey[..]), io).Pass?)
  {
    updated, current := Entry("", "", "", "", "", "", [], map[], 0, 0, 0), Entry("", "", "", "", "", "", [], map[], 0, 0, 0);
    edit := Err("");
    ghost var vault, encKey, files := s.vault, s.encryptionKey[..], fs.files;
    var found, at, _, _ := ResolveEntry(s, identifier, now);
    resolved, key := found, at;
    if found.Err? {
      return Exited(found.msg), resolved, key, edit, current, updated;
    }
    assert s.vault == vault && s.encryptionKey[..] == encKey && fs.files == files;
    status, edit, current, updated := EditAndStore(reg, s, at, found.value, fl, isTTY, answers, draw, now, fs, f, nonce, io);
  }

  /** `runEdit`: the session prologue (`AcquireSession`), then the edit. Nothing is written unless
      a session was obtained; what the edit does to the session and the vault file is stated by
      `EditResolved` and `EditAndStore`, whose contracts hold for the session acquired here. */
  method RunEdit(reg: Registry, fs: FileStore, vaultPath: string, identifier: string, fl: EditFlags,
                 isTTY: bool, masterPassword: Result<string>, answers: EditAnswers, draw: nat -> nat,
                 now: Time, f: Foreign, hashSalt: Bytes, randomSalt: Bytes, sessionSalt: Bytes,
                 nonce: Bytes, io: IoOutcome)
    returns (status: Status)
    requires |randomSalt| == SaltSize && |sessionSalt| == SaltSize && |nonce| == NonceSize
    modifies reg, reg.Footprint(), fs
    ensures vaultPath !in old(fs.files) ==> status == Exited(NoVaultMessage) && fs.files == old(fs.files)
    ensures status == Completed ==> reg.current != null && reg.current.vault.updatedAt == now
  {
    var s, acquired := AcquireSession(reg, fs, vaultPath, now, isTTY, masterPassword, f, hashSalt, randomSalt, sessionSalt);
    if s == null {
      return acquired;
    }
    var st, _, _, _, _, _ := EditResolved(reg, s, identifier, fl, isTTY, answers, draw, now, fs, f, nonce, io);
    status := st;
  }
}
