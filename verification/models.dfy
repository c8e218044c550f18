/** The records of models/entry.go: a password entry and the decrypted vault payload. */
module Models {
  import opened Wrappers
  import opened Text
  import Crypto

  /** An instant, in nanoseconds since the Unix epoch. */
  type Time = nat

  const NanosPerSecond: nat := 1_000_000_000

  datatype Entry = Entry(
    id: string,
    title: string,
    username: string,
    password: string,
    url: string,
    notes: string,
    tags: seq<string>,
    custom: map<string, string>,
    createdAt: Time,
    updatedAt: Time,
    accessedAt: Time)

  /** The decrypted payload. `entries` is None for a nil Go map (what a JSON `null` decodes to). */
  datatype Vault = Vault(
    version: string,
    createdAt: Time,
    updatedAt: Time,
    salt: Option<Crypto.Bytes>,
    entries: Option<map<string, Entry>>,
    metadata: map<string, string>)

  /** The entry map as Go reads it: a nil map reads as empty. */
  function EntryMap(v: Vault): map<string, Entry> {
    v.entries.GetOr(map[])
  }

  /** The local calendar reading of the clock, down to the second, as `time.Now()` shows it in
      the process's time zone (the time zone itself is environment, not modelled). */
  datatype Civil = Civil(year: nat, month: nat, day: nat, hour: nat, minute: nat, second: nat)

  predicate ValidCivil(c: Civil) {
    c.year <= 9999 && 1 <= c.month <= 12 && 1 <= c.day <= 31
    && c.hour < 24 && c.minute < 60 && c.second < 60
  }

  const IdSuffix: string := "_entry"

  /** `generateID`: the clock formatted with the layout "20060102150405" followed by "_entry".
      Years are zero-padded to four digits, the other fields to two. */
  function GenerateID(clock: Civil): (id: string)
    ensures |id| >= |IdSuffix| && id[|id| - |IdSuffix|..] == IdSuffix
  {
    var stamp := ZeroPad(clock.year, 4) + ZeroPad(clock.month, 2) + ZeroPad(clock.day, 2)
                 + ZeroPad(clock.hour, 2) + ZeroPad(clock.minute, 2) + ZeroPad(clock.second, 2);
    stamp + IdSuffix
  }

  /** For a calendar reading up to year 9999 the ID is 14 digits followed by "_entry". */
  lemma IdShape(clock: Civil)
    requires ValidCivil(clock)
    ensures |GenerateID(clock)| == 20
    ensures AllDigits(GenerateID(clock)[..14]) && GenerateID(clock)[14..] == IdSuffix
  {
    DecimalWidth(clock.year, 4);
    DecimalWidth(clock.month, 2);
    DecimalWidth(clock.day, 2);
    DecimalWidth(clock.hour, 2);
    DecimalWidth(clock.minute, 2);
    DecimalWidth(clock.second, 2);
  }

  /** `NewEntry`: `now` is the instant read once for the three timestamps; `idClock` is the
      separate clock reading `generateID` formats. */
  function NewEntry(title: string, username: string, password: string, now: Time, idClock: Civil): (e: Entry)
    ensures e.createdAt == e.updatedAt == e.accessedAt == now
    ensures e.title == title && e.username == username && e.password == password
    ensures e.url == "" && e.notes == "" && e.tags == [] && e.custom == map[]
    ensures e.id == GenerateID(idClock)
  {
    Entry(GenerateID(idClock), title, username, password, "", "", [], map[], now, now, now)
  }
}
