/** What cmd/edit.go, cmd/delete.go and cmd/show.go share: acquiring a session (reuse the live one
    or open the vault with the typed master password) and resolving the entry argument, by ID
    first and otherwise as a 1-based number into the title-sorted list. Prompt answers and the TTY
    test are inputs; `display.Error` followed by `os.Exit(1)` is the `Exited` status. */
module Commands {
  import opened Wrappers
  import opened Text
  import opened Crypto
  import opened Models
  import opened Display
  import opened VaultContainer
  import opened Sessions

  datatype Status = Completed | Cancelled | Exited(message: string)

  const NoVaultMessage: string := "No vault found. Please run 'gopassman init' first"
  const NoSessionMessage: string := "No active session. Please run with a valid session or in interactive mode"

  /** Go's `%d` of an integer. */
  function IntText(n: int): (s: string)
    ensures n >= 0 ==> s == Decimal(n)
    ensures n < 0 ==> s == "-" + Decimal(-n)
  {
    if n < 0 then "-" + Decimal(-n) else Decimal(n)
  }

  /** The session prologue of `runEdit`, `runDelete` and `runShow`. The clock is read once: the
      session returned is live at `now`. `randomSalt` serves `OpenVault` for an envelope without
      a salt and `sessionSalt` serves `StartSession` for a payload without one. */
  method AcquireSession(reg: Registry, fs: FileStore, vaultPath: string, now: Time, isTTY: bool,
                        masterPassword: Result<string>, f: Foreign, hashSalt: Bytes,
                        randomSalt: Bytes, sessionSalt: Bytes)
    returns (s: Session?, status: Status)
    requires |randomSalt| == SaltSize && |sessionSalt| == SaltSize
    modifies reg, reg.Footprint()
    ensures s != null <==> status == Completed
    ensures !VaultExists(fs, vaultPath) ==> status == Exited(NoVaultMessage) && reg.current == old(reg.current)
    ensures s != null ==> reg.current == s && s.lastAccessed == now && !Expired(s.lastAccessed, s.sessionTimeout, now)
    ensures VaultExists(fs, vaultPath) && old(reg.current) != null
            && !Expired(old(reg.current.lastAccessed), old(reg.current.sessionTimeout), now) ==>
              s == old(reg.current) && s.vault == old(reg.current.vault)
    ensures s != null && s != old(reg.current) ==>
              && fresh(s) && fresh(s.encryptionKey) && masterPassword.Ok? && isTTY
              && OpenResult(fs.files, masterPassword.value, vaultPath, f, randomSalt) == Ok(s.vault)
              && s.vaultPath == vaultPath
              && f.hasher.hash(masterPassword.value, hashSalt).Ok?
              && s.passwordHash == f.hasher.hash(masterPassword.value, hashSalt).value
              && s.encryptionKey[..] == DeriveKey(f.crypto, masterPassword.value, s.vault.salt, sessionSalt).key
    ensures status.Exited? && VaultExists(fs, vaultPath) ==> reg.current == null
  {
    if !VaultExists(fs, vaultPath) {
      return null, Exited(NoVaultMessage);
    }
    s := reg.GetSession(now);
    if s != null {
      return s, Completed;
    }
    if !isTTY {
      return null, Exited(NoSessionMessage);
    }
    if masterPassword.Err? {
      return null, Exited("Failed to read password: " + masterPassword.msg);
    }
    var loaded := OpenVault(fs, masterPassword.value, vaultPath, f, randomSalt);
    if loaded.Err? {
      return null, Exited("Failed to open vault: " + loaded.msg);
    }
    var hashed := f.hasher.hash(masterPassword.value, hashSalt);
    if hashed.Err? {
      return null, Exited("Failed to hash password: " + hashed.msg);
    }
    reg.StartSession(loaded.value, vaultPath, masterPassword.value, hashed.value, now, f.crypto, sessionSalt);
    s := reg.GetSession(now);
    status := Completed;
  }

  /** The by-number half of entry resolution: a title-sorted copy of the listing (`sorted`), of
      which `n` in 1..count picks element n-1; any other `n` is an error. `key` is the key the
      picked entry is stored under. */
  method ResolveNumber(s: Session, n: int, now: Time)
    returns (r: Result<Entry>, key: string, ghost listed: seq<Entry>, ghost sorted: seq<Entry>)
    modifies s`lastAccessed
    ensures exists order :: Listing(listed, order, s.Entries())
    ensures TitleOrdered(sorted) && multiset(sorted) == multiset(listed) && |sorted| == |listed|
    ensures 0 < n <= |listed| ==> r == Ok(sorted[n - 1])
    ensures !(0 < n <= |listed|) ==>
              r == Err("Entry number " + IntText(n) + " not found. Use 'gopassman list' to see available entries")
    ensures r.Ok? ==> key in s.Entries() && s.Entries()[key] == r.value
    ensures s.lastAccessed == now
  {
    var entries, order := s.ListEntries(now);
    listed := entries;
    var copy := new Entry[|entries|](i requires 0 <= i < |entries| => entries[i]);
    assert copy[..] == entries;
    SortByTitle(copy);
    sorted := copy[..];
    key := "";
    assert Listing(listed, order, s.Entries());
    if 0 < n <= |entries| {
      r := Ok(copy[n - 1]);
      ListingValues(entries, order, s.Entries());
      assert sorted[n - 1] in multiset(listed);
      key :| key in s.Entries() && s.Entries()[key] == r.value;
    } else {
      r := Err("Entry number " + IntText(n) + " not found. Use 'gopassman list' to see available entries");
    }
  }

  /** Entry resolution: an identifier that is a stored ID is used as such and never read as a
      number; otherwise a decimal `n` with 1 <= n <= count picks element n-1 of a title-sorted copy
      of the listing (`sorted`); anything else is an error. Go resolves to the `*Entry` held in the
      map; `key` is the key that pointer is stored under, so a later write through it is a write
      under `key`. */
  method ResolveEntry(s: Session, identifier: string, now: Time)
    returns (r: Result<Entry>, key: string, ghost listed: seq<Entry>, ghost sorted: seq<Entry>)
    modifies s`lastAccessed
    ensures identifier in s.Entries() ==> r == Ok(s.Entries()[identifier])
    ensures identifier !in s.Entries() && Atoi(identifier).None? ==> r == Err("Entry '" + identifier + "' not found")
    ensures identifier !in s.Entries() && Atoi(identifier).Some? ==>
              && (exists order :: Listing(listed, order, s.Entries()))
              && TitleOrdered(sorted) && multiset(sorted) == multiset(listed) && |sorted| == |listed|
              && var n := Atoi(identifier).value;
                 if 0 < n <= |listed| then r == Ok(sorted[n - 1])
                 else r == Err("Entry number " + IntText(n) + " not found. Use 'gopassman list' to see available entries")
    ensures identifier in s.Entries() ==> key == identifier
    ensures r.Ok? ==> key in s.Entries() && s.Entries()[key] == r.value && s.lastAccessed == now
    ensures r.Ok? && KeyedById(s.vault) ==> key == r.value.id
  {
    listed, sorted := [], [];
    key := identifier;
    r := s.GetEntry(identifier, now);
    if r.Ok? {
      return;
    }
    var num := Atoi(identifier);
    if num.None? {
      return Err("Entry '" + identifier + "' not found"), key, listed, sorted;
    }
    r, key, listed, sorted := ResolveNumber(s, num.value, now);
  }
}
