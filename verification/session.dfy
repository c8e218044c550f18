/** vault/session.go: the process-wide session (an open vault, its path, the derived key and the
    password hash) with a sliding expiry, and the entry operations on the open vault. */
module Sessions {
  import opened Wrappers
  import opened Crypto
  import opened Models
  import opened VaultContainer

  /** Fifteen minutes. */
  const SessionTimeout: nat := 15 * 60 * NanosPerSecond

  /** `time.Since(lastAccessed) > timeout`: a session stays valid up to and including the
      instant `lastAccessed + timeout`. */
  function Expired(lastAccessed: Time, timeout: nat, now: Time): (expired: bool)
    ensures expired <==> now > lastAccessed + timeout
    ensures now <= lastAccessed ==> !expired
  {
    now - lastAccessed > timeout
  }

  /** Every entry is stored under its own ID: what `AddEntry` and `UpdateEntry` maintain. */
  predicate KeyedById(v: Vault) {
    forall id :: id in EntryMap(v) ==> EntryMap(v)[id].id == id
  }

  /** The payload with `e` under `key` (a nil map is created first). The map holds pointers, so
      an assignment to a field of the entry a command obtained from the map is this update with
      the key it is stored under. */
  function WithStored(v: Vault, key: string, e: Entry): Vault {
    v.(entries := Some(EntryMap(v)[key := e]))
  }

  /** The payload with `e` stored under its ID. */
  function WithEntry(v: Vault, e: Entry): Vault {
    WithStored(v, e.id, e)
  }

  /** The payload with the entry under `id` removed. */
  function WithoutEntry(v: Vault, id: string): Vault {
    v.(entries := Some(EntryMap(v) - {id}))
  }

  /** Storing an entry makes it the one under its ID, keeps every other entry and the rest of the
      payload, and grows the map by one exactly when the ID was new. */
  lemma WithEntryEffect(v: Vault, e: Entry)
    ensures EntryMap(WithEntry(v, e)).Keys == EntryMap(v).Keys + {e.id}
    ensures EntryMap(WithEntry(v, e))[e.id] == e
    ensures forall id :: id in EntryMap(v) && id != e.id ==> EntryMap(WithEntry(v, e))[id] == EntryMap(v)[id]
    ensures |EntryMap(WithEntry(v, e))| == if e.id in EntryMap(v) then |EntryMap(v)| else |EntryMap(v)| + 1
    ensures WithEntry(v, e).(entries := v.entries) == v
    ensures KeyedById(v) ==> KeyedById(WithEntry(v, e))
  {
    var m := EntryMap(v);
    if e.id in m {
      assert m[e.id := e].Keys == m.Keys;
    } else {
      assert m[e.id := e].Keys == m.Keys + {e.id};
    }
  }

  /** Removing a present ID drops exactly that key. */
  lemma WithoutEntryEffect(v: Vault, id: string)
    requires id in EntryMap(v)
    ensures EntryMap(WithoutEntry(v, id)).Keys == EntryMap(v).Keys - {id}
    ensures forall k :: k in EntryMap(WithoutEntry(v, id)) ==> EntryMap(WithoutEntry(v, id))[k] == EntryMap(v)[k]
    ensures |EntryMap(WithoutEntry(v, id))| == |EntryMap(v)| - 1
    ensures KeyedById(v) ==> KeyedById(WithoutEntry(v, id))
  {
    var m := EntryMap(v);
    assert (m - {id}).Keys == m.Keys - {id};
  }

  /** Two entries made within the same second of the ID clock share an ID, so adding the second
      replaces the first: the payload ends up with one entry where two were added. */
  lemma SameSecondOverwrites(v: Vault, t1: string, u1: string, p1: string, now1: Time,
                             t2: string, u2: string, p2: string, now2: Time, clock: Civil)
    requires KeyedById(v) && GenerateID(clock) !in EntryMap(v)
    ensures var e1 := NewEntry(t1, u1, p1, now1, clock);
            var e2 := NewEntry(t2, u2, p2, now2, clock);
            var after := WithEntry(WithEntry(v, e1), e2);
            && EntryMap(after)[e2.id] == e2
            && |EntryMap(after)| == |EntryMap(v)| + 1
            && (e1 != e2 ==> forall id :: id in EntryMap(after) ==> EntryMap(after)[id] != e1)
  {
    var e1 := NewEntry(t1, u1, p1, now1, clock);
    var e2 := NewEntry(t2, u2, p2, now2, clock);
    WithEntryEffect(v, e1);
    WithEntryEffect(WithEntry(v, e1), e2);
    var after := WithEntry(WithEntry(v, e1), e2);
    forall id | id in EntryMap(after)
      ensures e1 != e2 ==> EntryMap(after)[id] != e1
    {
      if id != e2.id {
        assert EntryMap(after)[id] == EntryMap(v)[id];
      }
    }
  }

  /** `entries` lists the values of `m` once each, visiting the keys in the order `order`. */
  ghost predicate Listing(entries: seq<Entry>, order: seq<string>, m: map<string, Entry>) {
    && |entries| == |order| == |m|
    && (forall i, j :: 0 <= i < j < |order| ==> order[i] != order[j])
    && (forall id :: id in m <==> id in order)
    && (forall i :: 0 <= i < |order| ==> order[i] in m && entries[i] == m[order[i]])
  }

  /** A listing holds exactly the stored entries. */
  lemma ListingValues(entries: seq<Entry>, order: seq<string>, m: map<string, Entry>)
    requires Listing(entries, order, m)
    ensures forall e :: e in entries <==> e in m.Values
  {
    forall e | e in m.Values
      ensures e in entries
    {
      var id :| id in m && m[id] == e;
      var i :| 0 <= i < |order| && order[i] == id;
      assert entries[i] == e;
    }
  }

  class Session {
    var vault: Vault
    var vaultPath: string
    const encryptionKey: array<bv8>
    var passwordHash: string
    var lastAccessed: Time
    var sessionTimeout: nat

    constructor(vault: Vault, vaultPath: string, key: array<bv8>, passwordHash: string, now: Time)
      ensures this.vault == vault && this.vaultPath == vaultPath && encryptionKey == key
      ensures this.passwordHash == passwordHash && lastAccessed == now && sessionTimeout == SessionTimeout
    {
      this.vault := vault;
      this.vaultPath := vaultPath;
      encryptionKey := key;
      this.passwordHash := passwordHash;
      lastAccessed := now;
      sessionTimeout := SessionTimeout;
    }

    function Entries(): map<string, Entry>
      reads this
    {
      EntryMap(vault)
    }

    /** `AddEntry`: stores under the entry's ID, replacing whatever was there, and never fails. */
    method AddEntry(entry: Entry, now: Time)
      modifies this`vault, this`lastAccessed
      ensures vault == WithEntry(old(vault), entry)
      ensures Entries()[entry.id] == entry && lastAccessed == now
    {
      if vault.entries.None? {
        vault := vault.(entries := Some(map[]));
      }
      vault := vault.(entries := Some(vault.entries.value[entry.id := entry]));
      lastAccessed := now;
    }

    /** `GetEntry`: the entry under `id`, or "entry not found"; only a hit refreshes the clock. */
    method GetEntry(id: string, now: Time) returns (r: Result<Entry>)
      modifies this`lastAccessed
      ensures r.Ok? <==> id in Entries()
      ensures r.Ok? ==> r.value == Entries()[id] && lastAccessed == now
      ensures r.Err? ==> r.msg == "entry not found" && lastAccessed == old(lastAccessed)
    {
      if id !in Entries() {
        return Err("entry not found");
      }
      r := Ok(Entries()[id]);
      lastAccessed := now;
    }

    /** `ListEntries`: every stored entry once, in an unspecified order (Go's map iteration order);
        `order` is the sequence of IDs the loop visited. */
    method ListEntries(now: Time) returns (entries: seq<Entry>, ghost order: seq<string>)
      modifies this`lastAccessed
      ensures lastAccessed == now
      ensures Listing(entries, order, Entries())
    {
      var m := Entries();
      var remaining := m.Keys;
      entries, order := [], [];
      while remaining != {}
        invariant remaining <= m.Keys
        invariant |entries| == |order|
        invariant forall i, j :: 0 <= i < j < |order| ==> order[i] != order[j]
        invariant forall id :: id in m ==> (id in order <==> id !in remaining)
        invariant forall i :: 0 <= i < |order| ==> order[i] in m && entries[i] == m[order[i]]
        invariant |order| + |remaining| == |m|
        decreases |remaining|
      {
        var id :| id in remaining;
        entries, order := entries + [m[id]], order + [id];
        remaining := remaining - {id};
      }
      lastAccessed := now;
    }

    /** `UpdateEntry`: fails if the ID is absent; otherwise stamps `UpdatedAt` on the caller's entry
        (returned as `stamped`) and stores it under its ID. */
    method UpdateEntry(entry: Entry, now: Time) returns (stamped: Entry, result: Outcome)
      modifies this`vault, this`lastAccessed
      ensures result.Pass? <==> entry.id in old(Entries())
      ensures result.Fail? ==> result.msg == "entry not found" && stamped == entry
                               && vault == old(vault) && lastAccessed == old(lastAccessed)
      ensures result.Pass? ==> stamped == entry.(updatedAt := now) && vault == WithEntry(old(vault), stamped)
                               && Entries().Keys == old(Entries()).Keys && lastAccessed == now
    {
      if entry.id !in Entries() {
        return entry, Fail("entry not found");
      }
      stamped := entry.(updatedAt := now);
      WithEntryEffect(vault, stamped);
      vault := vault.(entries := Some(vault.entries.value[entry.id := stamped]));
      lastAccessed := now;
      result := Pass;
    }

    /** `DeleteEntry`: fails if the ID is absent; otherwise removes exactly that key. */
    method DeleteEntry(id: string, now: Time) returns (result: Outcome)
      modifies this`vault, this`lastAccessed
      ensures result.Pass? <==> id in old(Entries())
      ensures result.Fail? ==> result.msg == "entry not found" && vault == old(vault) && lastAccessed == old(lastAccessed)
      ensures result.Pass? ==> vault == WithoutEntry(old(vault), id) && id !in Entries() && lastAccessed == now
    {
      if id !in Entries() {
        return Fail("entry not found");
      }
      vault := vault.(entries := Some(vault.entries.value - {id}));
      lastAccessed := now;
      result := Pass;
    }
  }

  /** The package-level `currentSession`. */
  class Registry {
    var current: Session?

    constructor()
      ensures current == null
    {
      current := null;
    }

    /** What the registry may change besides `current`: the session object and its key buffer. */
    function Footprint(): set<object>
      reads this
    {
      if current == null then {} else {current, current.encryptionKey}
    }

    /** `StartSession`: installs a new session whose key is derived from the password and the
        vault's salt (a fresh random one when the vault has none). A previous session is dropped
        without its key being zeroed. */
    method StartSession(vault: Vault, vaultPath: string, masterPassword: string, passwordHash: string,
                        now: Time, p: Primitives, randomSalt: Bytes)
      requires |randomSalt| == SaltSize
      modifies this
      ensures current != null && fresh(current) && fresh(current.encryptionKey)
      ensures current.vault == vault && current.vaultPath == vaultPath && current.passwordHash == passwordHash
      ensures current.encryptionKey[..] == DeriveKey(p, masterPassword, vault.salt, randomSalt).key
      ensures current.lastAccessed == now && current.sessionTimeout == SessionTimeout
      ensures old(current) != null ==> unchanged(old(current).encryptionKey)
    {
      var encKey := DeriveKey(p, masterPassword, vault.salt, randomSalt);
      var key := new bv8[|encKey.key|](i requires 0 <= i < |encKey.key| => encKey.key[i]);
      current := new Session(vault, vaultPath, key, passwordHash, now);
    }

    /** `ClearSession`: zeroes the key of the current session, if any, and drops it. */
    method ClearSession()
      modifies this, Footprint()
      ensures current == null
      ensures old(current) != null ==> AllZero(old(current).encryptionKey[..])
    {
      if current != null {
        SecureZero(current.encryptionKey);
        current := null;
      }
    }

    /** `GetSession`: nothing without a session; an expired session is cleared; a live one has its
        clock refreshed (sliding expiry) and is returned. */
    method GetSession(now: Time) returns (s: Session?)
      modifies this, Footprint()
      ensures old(current) == null ==> s == null && current == null
      ensures old(current) != null && Expired(old(current.lastAccessed), old(current.sessionTimeout), now) ==>
                s == null && current == null && AllZero(old(current).encryptionKey[..])
      ensures old(current) != null && !Expired(old(current.lastAccessed), old(current.sessionTimeout), now) ==>
                s == old(current) && current == s && s.lastAccessed == now
                && s.vault == old(s.vault) && s.vaultPath == old(s.vaultPath) && s.passwordHash == old(s.passwordHash)
                && s.sessionTimeout == old(s.sessionTimeout) && unchanged(s.encryptionKey)
    {
      if current == null {
        return null;
      }
      if now - current.lastAccessed > current.sessionTimeout {
        ClearSession();
        return null;
      }
      current.lastAccessed := now;
      s := current;
    }

    /** `IsSessionActive`: `GetSession` found a live session (with the same effects). */
    method IsSessionActive(now: Time) returns (active: bool)
      modifies this, Footprint()
      ensures active <==> old(current) != null && !Expired(old(current.lastAccessed), old(current.sessionTimeout), now)
      ensures active ==> current == old(current) && current.lastAccessed == now
      ensures !active ==> current == null
    {
      var s := GetSession(now);
      active := s != null;
    }

    /** `SaveCurrentSession`: `GetSession`, then `SaveVault` of the session's vault with the
        session's own key buffer and hash. The stamp lands in the session's vault whatever the
        outcome, and a successful save zeroes the key the live session keeps using. */
    method SaveCurrentSession(now: Time, fs: FileStore, f: Foreign, nonce: Bytes, io: IoOutcome)
      returns (result: Outcome)
      requires |nonce| == NonceSize
      modifies this, Footprint(), fs
      ensures old(current) == null || Expired(old(current.lastAccessed), old(current.sessionTimeout), now) ==>
                result == Fail("no active session") && current == null && fs.files == old(fs.files)
      ensures old(current) != null && !Expired(old(current.lastAccessed), old(current.sessionTimeout), now) ==>
                && current == old(current) && current.lastAccessed == now
                && current.vault == old(current.vault).(updatedAt := now)
                && current.vaultPath == old(current.vaultPath) && current.passwordHash == old(current.passwordHash)
                && current.sessionTimeout == old(current.sessionTimeout)
                && result == SaveOutcome(old(current.encryptionKey[..]), io)
                && fs.files == FilesAfterSave(old(fs.files), old(current.vaultPath), f, current.vault,
                                              old(current.encryptionKey[..]), old(current.passwordHash), nonce, io)
                && (result.Pass? ==> AllZero(current.encryptionKey[..]))
                && (result.Fail? ==> current.encryptionKey[..] == old(current.encryptionKey[..]))
    {
      var s := GetSession(now);
      if s == null {
        return Fail("no active session");
      }
      ghost var key0 := s.encryptionKey[..];
      assert key0 == old(current.encryptionKey[..]);
      assert s.vaultPath == old(current.vaultPath) && s.passwordHash == old(current.passwordHash);
      var stamped, saved, _ := SaveVault(fs, s.vault, s.vaultPath, s.encryptionKey, s.passwordHash, now, f, nonce, io);
      s.vault := stamped;
      result := saved;
    }
  }
}
