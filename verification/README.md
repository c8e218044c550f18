# Go-Password-Manager vault engine, modelled in Dafny

This project models the core of `gopassman`, a command-line password manager written in Go.
The model covers:

- **Session (`Sessions`).** One process-wide session holds:
  - the decrypted vault;
  - its path;
  - the derived AES key buffer;
  - the password hash;
  - a sliding 15-minute expiry.

  Entries are stored in a map keyed by ID, with add, get, list, update and delete operations.
- **Vault container (`VaultContainer`).** Creates, opens and saves the encrypted vault file over an abstract file store (path to bytes). It fixes:
  - the order of checks when opening;
  - the envelope written on save;
  - the wiping of buffers after a successful save.
- **AEAD framing and key handling (`Crypto`).**
  - PBKDF2 key derivation (section 5.2 of RFC 8018) with its salt handling.
  - AES-GCM (NIST SP 800-38D) framing: the key-size check, the layout nonce ‖ sealed, the split at 12 bytes, the "too short" rejection.
  - The in-place `SecureZero` loop.
- **Records (`Models`).** Entries and the vault payload, `NewEntry`, and the timestamp-based entry ID.
- **Password generator (`Generator`).** Builds the charset (classes, removal of ambiguous characters, fallback) and fills the password from a random-index oracle.
- **Display helpers (`Display`).**
  - masking;
  - the strength score;
  - "time ago" buckets;
  - column truncation;
  - the title sort and row numbering of the listing;
  - the heading underline.
- **Commands.** The decisions of `edit`, `delete`, `show` and `generate`, modelled in `Commands`, `Edit`, `Delete`, `Show` and `GenerateCommand`:
  - the session prologue;
  - entry resolution: ID first, otherwise a 1-based number into the title-sorted list;
  - the edit field merge;
  - the delete confirmation gate;
  - the access-time stamp of `show`;
  - flag validation in `generate`.

Foreign code is represented by uninterpreted functions carried in records:
- AES-GCM seal/open and PBKDF2: `Crypto.Primitives`.
- JSON encoding: `VaultContainer.Codec`.
- The argon2 password hash (`HashMasterPassword` / `VerifyMasterPassword`, not part of this model): `VaultContainer.Hasher`.

The only facts assumed about them are ghost predicates, each required only by the lemmas that need it:
- `SealOpens`: opening what was sealed gives the plaintext back.
- `KdfLength`: PBKDF2 returns the requested length.
- `CodecRoundTrips`: decoding an encoding gives the value back.
- `VerifiesOwnHash` and `RejectsOthers`: a hash verifies its own password and rejects every other.

Randomness enters as parameters: salts, nonces, the argon2 salt, and `draw`, the index oracle that stands for `rand.Int`.

Clock readings enter as parameters too:
- `now` is nanoseconds since the epoch; one reading serves each operation.
- `Models.Civil` is the local calendar reading used by `generateID`.

Prompt answers, the TTY test and the outcome of file writes (`IoOutcome`) are also inputs. A `display.Error` followed by `os.Exit(1)` becomes the status `Exited(message)`.

Go pointers shared between caller and callee become values with an explicit write-back:
- `SaveVault` returns the stamped vault, and `SaveCurrentSession` stores it back into the session.
- `UpdateEntry` returns the entry with its new `UpdatedAt`.
- The vault map holds `*Entry` pointers, and `edit` and `show` change the resolved entry through the pointer they got from the map. Resolution therefore also returns the key that pointer is stored under, and every assignment to the resolved entry is an update of the map under that key (`Sessions.WithStored`). This write happens even when `UpdateEntry` then fails. When `UpdateEntry` succeeds, the same object is also stored under the entry's ID, so both keys hold the changed entry.
- When two keys hold identical entries, the resolved key may be either of them. In Go the choice depends on map iteration order and an unstable sort.

The contracts make visible several behaviours of the source:
- **Sharing one key buffer.** `SaveCurrentSession` gives `SaveVault` the session's own key buffer. A successful save therefore leaves the live session holding an all-zero key.
- **`StartSession`.** It drops a previous session without zeroing its key.
- **`show` advances `UpdatedAt`.** `UpdateEntry` always stamps `UpdatedAt`, so showing an entry moves its update time.
- **Entries stored under a foreign key.** An opened vault may hold an entry under a key other than its ID. `show` and `edit` then change it under that key, and also under its ID when that ID is a key. When the ID is not a key, `show` still saves the new access time and `edit` exits without saving.
- **ID collisions.** Entry IDs have one-second resolution. Two entries made in the same second share an ID, and the second replaces the first (`SameSecondOverwrites`).
- **Non-atomic writes.** The vault file is overwritten in place, so a failed write can leave a partial file behind (`WriteFailed` with a `leftover`).

## Model

| member | source | states |
|---|---|---|
| Crypto.DeriveKey | crypto/encryption.go:27-41 | a given salt is kept unchanged and a nil salt is replaced by the fresh random one; the key is PBKDF2 over (password, salt) with 10000 iterations and 32 bytes, so it depends on nothing else; with a length-correct PBKDF2 the key is 32 bytes |
| Crypto.Encrypt | crypto/encryption.go:44-66 | fails with "invalid key size" exactly when the key is not 32 bytes; otherwise the output starts with the 12-byte nonce, followed by Seal(key, nonce, plaintext) |
| Crypto.Decrypt | crypto/encryption.go:69-97 | "invalid key size" first, then "ciphertext too short" under 12 bytes; otherwise the input is split at index 12 into nonce and body and opened, and a failed open is an error |
| Crypto.EncryptDecrypt | crypto/encryption.go:64-91 | under the seal/open round trip, decrypting an encryption under the same 32-byte key gives the plaintext back |
| Crypto.SecureZero | crypto/encryption.go:100-104 | every element of the buffer is zero afterwards (in place, same length) |
| Models.GenerateID | models/entry.go:49-52 | the ID ends in "_entry" after the zero-padded clock digits |
| Models.IdShape | models/entry.go:51 | for a calendar reading up to year 9999 the ID is 20 characters: 14 digits then "_entry" |
| Models.NewEntry | models/entry.go:33-46 | created, updated and accessed times are equal; title, username and password are copied; URL, notes, tags and custom fields start empty; the ID is the clock's `generateID` |
| Text.Utf8Len | internal/display/display.go:195 | Go's `len` of a string: the UTF-8 byte count, between one and four bytes per character |
| Text.Utf8LenAscii | internal/display/display.go:195 | for ASCII text the byte count is the number of characters |
| Text.Atoi | cmd/edit.go:110 | the `strconv.Atoi` used to read entry numbers: a result comes only from an optional sign followed by at least one digit and nothing else; digits with no sign or with '+' read as their decimal value, and with '-' as its negation; such a string succeeds iff that value is within the int64 range |
| Text.AtoiDecimal | cmd/show.go:95 | a number printed in decimal (as the listing prints row numbers) is read back as that number |
| Text.DecimalWidth | models/entry.go:51 | a number below 10^w has at most w digits, so zero padding to w gives exactly w |
| Text.StrLessIrreflexive | internal/display/display.go:89 | Go's string `<` is irreflexive |
| Text.StrLessTransitive | internal/display/display.go:89 | Go's string `<` is transitive |
| Text.StrLessTotal | internal/display/display.go:89 | any two different strings are ordered one way or the other |
| Text.StrLessAsymmetric | internal/display/display.go:89 | Go's string `<` never holds both ways |
| Generator.DefaultOptions | internal/generator/password.go:27-36 | an effective length of 16, all four classes, ambiguous characters excluded |
| Generator.SelectedMembers | internal/generator/password.go:46-57 | a character is in the concatenation exactly when it belongs to a selected class |
| Generator.WithoutMembers | internal/generator/password.go:59-65 | filtering keeps exactly the characters of the input outside the removal set |
| Generator.StripWithout | internal/generator/password.go:62-64 | one more `ReplaceAll` of a character is filtering by one more character |
| Generator.AppendClasses | internal/generator/password.go:44-57 | the successive appends produce the selected classes in the order lower, upper, digits, symbols |
| Generator.RemoveAll | internal/generator/password.go:59-65 | deleting each character of the removal set in turn with `ReplaceAll` is filtering by the whole set |
| Generator.BuildCharset | internal/generator/password.go:44-69 | the charset built by appends, the `ReplaceAll` loop and the fallback equals `Charset` (selected classes, minus "0O1lI\|" when excluding, lower+upper+digits when empty) |
| Generator.EffectiveLength | internal/generator/password.go:40-42 | a length of 0 or less becomes 16; a positive length is kept |
| Generator.GeneratePassword | internal/generator/password.go:39-83 | the password has the effective length and character i is charset[draw(i) mod \|charset\|], so every character is in the charset |
| Generator.SomeClassSurvives | internal/generator/password.go:59-69 | with at least one class selected, filtering leaves a non-empty set, so the fallback is not taken |
| Generator.CharsetMembership | internal/generator/password.go:46-69 | with a class selected, a character is in the charset iff it is in a selected class and not excluded as ambiguous |
| Generator.FallbackUnfiltered | internal/generator/password.go:67-69 | with no class selected the charset is lower+upper+digits and keeps the ambiguous '0' |
| Generator.DefaultCharsetSize | internal/generator/password.go:27-69 | the default charset has 82 characters |
| Display.Underline | internal/display/display.go:46 | "=" repeated once per byte of the heading (`len`), so at least once per character |
| Display.Min | internal/display/display.go:242-247 | the smaller of the two |
| Display.MaskPassword | internal/display/display.go:50-55 | empty for the empty password, otherwise min(byte length, 8) asterisks |
| Display.TimeAgo | internal/display/display.go:63-78 | "just now" under a minute, whole minutes under an hour, whole hours under a day, whole days otherwise, each count rounded down |
| Display.FormatTimeAgo | internal/display/display.go:63-78 | "just now" under a minute; otherwise the elapsed time in whole minutes under an hour, whole hours under a day, whole days beyond, rounded down, with its unit |
| Display.Points | internal/display/display.go:201-219 | the score counts one point each for a byte length (`len`) >= 8 and >= 12, upper, lower, digit, symbol, so it is at most 6 |
| Display.StrengthLabel | internal/display/display.go:224-234 | "Strong" iff score >= 5, "Medium" iff 3..4, "Weak" otherwise |
| Display.PasswordStrength | internal/display/display.go:194-234 | the score accumulated from the byte length and the four classes equals `Points`, is at most 6, and the label follows it |
| Display.ShowPasswordStrength | internal/display/display.go:194-239 | the printed line carries the label of `Points`, the byte length and the score out of 6 |
| Display.FullMarks | internal/display/display.go:201-226 | 12 or more characters with all four classes give 6 points and "Strong" |
| Display.ShortLowercaseIsWeak | internal/display/display.go:201-233 | a lowercase-only password under 8 characters gets at most 1 point and is "Weak" |
| Display.Truncate | internal/display/display.go:103-116 | a value over the limit becomes its first limit-3 characters plus "...", exactly the limit wide; shorter values are unchanged |
| Display.TitleLeTransitive | internal/display/display.go:88-90 | the title order used for sorting is transitive |
| Display.SortByTitle | internal/display/display.go:88-90 | the slice is sorted by title in place and is a permutation of the original |
| Display.ListEntries | internal/display/display.go:81-120 | an empty slice gives no rows; otherwise the caller's slice ends sorted by title (a permutation), and row i is numbered i+1 with truncated cells and a masked or plain password |
| VaultContainer.FreshVault | vault/vault.go:43-50 | version "1.0.0", the derived salt, an empty non-nil entry map and empty metadata |
| VaultContainer.SaveOutcome | vault/vault.go:114-143 | a save succeeds iff the key is 32 bytes and the directory creation and write both succeed; the key check comes first |
| VaultContainer.FilesAfterSave | vault/vault.go:135-143 | only the vault path can change; it holds the new envelope on success, whatever a failed write left, and is untouched on earlier failures |
| VaultContainer.VaultExists | vault/vault.go:153-156 | true iff the store holds bytes under the path (the `os.Stat` succeeds) |
| VaultContainer.SaveKeepsVault | vault/vault.go:134-143 | no save attempt removes an existing vault file, and a successful save leaves one, so `VaultExists` holds afterwards |
| VaultContainer.SaveVault | vault/vault.go:103-150 | `UpdatedAt` is stamped before serialising; the file written is the envelope (version, given hash, payload salt, nonce ‖ sealed payload); on success the plaintext buffer and the caller's key are all zero, and on every early error both are left as they were |
| VaultContainer.CreateVault | vault/vault.go:27-54 | an existing path fails without writing; a hash error fails without writing; otherwise an empty vault under a fresh salt is saved with the derived key, and on success the vault exists |
| VaultContainer.OpenVault | vault/vault.go:57-100 | reads only; the result is `OpenResult`: not found, then envelope parse, password verification, key derivation from the stored salt, decryption, payload parse, in that order |
| VaultContainer.OpenResult | vault/vault.go:59-61 | a missing path gives "vault not found at <path>" |
| VaultContainer.VerificationComesFirst | vault/vault.go:76-88 | when verification fails or errs, opening fails and the outcome does not depend on the cipher: no key is derived and nothing is decrypted |
| VaultContainer.SaveThenOpen | vault/vault.go:85-127 | a payload saved under the key derived from the password and the payload's salt is opened by that password unchanged |
| VaultContainer.CreateThenOpen | vault/vault.go:27-100 | a freshly created vault opened with the same password gives the empty payload with the creation time and the generated salt |
| VaultContainer.WrongPasswordRejected | vault/vault.go:76-82 | any other password is refused with "invalid master password" |
| Sessions.Expired | vault/session.go:55-56 | expired iff now is strictly after `LastAccessed + timeout`; a session is still valid at exactly the timeout |
| Sessions.WithEntryEffect | vault/session.go:102-106 | storing an entry puts it under its ID, keeps all other entries, grows the map by one only for a new ID, and keeps entries keyed by their own IDs |
| Sessions.WithoutEntryEffect | vault/session.go:159-163 | deleting a present ID removes exactly that key and shrinks the map by one |
| Sessions.SameSecondOverwrites | models/entry.go:51 | two entries created in the same clock second share an ID: after adding both, only the second remains under it and the map grew by one |
| Sessions.ListingValues | vault/session.go:130-133 | a listing holds exactly the stored entries |
| Sessions.Session.AddEntry | vault/session.go:98-109 | a nil map is created, then the entry is stored under its ID, overwriting any entry with that ID; the clock is refreshed |
| Sessions.Session.GetEntry | vault/session.go:112-123 | succeeds iff the ID is stored, returning its entry; only a hit refreshes the clock |
| Sessions.Session.ListEntries | vault/session.go:126-137 | returns every stored entry once (length equals the map's size), in some key order |
| Sessions.Session.UpdateEntry | vault/session.go:140-152 | fails iff the ID is absent, changing nothing; otherwise stamps `UpdatedAt := now`, overwrites only that key, and refreshes the clock |
| Sessions.Session.DeleteEntry | vault/session.go:155-166 | fails iff the ID is absent, changing nothing; otherwise removes exactly that key |
| Sessions.Registry.StartSession | vault/session.go:29-44 | installs a fresh session with the key derived from the password and the vault salt, `LastAccessed = now` and a 15-minute timeout; a previous session's key is left unwiped |
| Sessions.Registry.ClearSession | vault/session.go:68-77 | the old session's key is all zero and no session remains; with none it does nothing |
| Sessions.Registry.GetSession | vault/session.go:47-65 | null with no session; cleared (key zeroed) and null iff now - LastAccessed > timeout, equality still valid; otherwise the same session with `LastAccessed = now` and nothing else changed |
| Sessions.Registry.IsSessionActive | vault/session.go:80-82 | true iff a session exists and has not expired, with `GetSession`'s effects |
| Sessions.Registry.SaveCurrentSession | vault/session.go:85-95 | "no active session" without writing when there is no live session; otherwise `SaveVault` of the session vault with the session's key and hash; the stamp lands in the session, and a successful save zeroes the key the session keeps |
| Commands.AcquireSession | cmd/edit.go:57-100 | no vault file gives the "No vault found" exit; a live session is reused; otherwise TTY, password prompt, `OpenVault`, hash and `StartSession`, and a new session holds exactly the opened payload, the path, the new hash and the key derived from the payload salt |
| Commands.ResolveNumber | cmd/edit.go:109-122 | a number n in 1..count picks element n-1 of a title-sorted permutation of the listing, otherwise "Entry number n not found"; the key returned holds the picked entry |
| Commands.ResolveEntry | cmd/edit.go:106-129 | a stored ID is used directly and never read as a number; otherwise a number n in 1..count picks element n-1 of a title-sorted permutation of the listing; a bad number or a non-number is an error; the key returned is the one the resolved entry is stored under (the identifier for an ID, the entry's own ID when entries are keyed by ID) |
| Commands.IntText | cmd/edit.go:122 | `%d` of a number, with a leading '-' for negatives |
| Edit.HasFlags | cmd/edit.go:136-137 | false iff all five text flags are empty and `--generate` is unset; `--length` alone does not count |
| Edit.GeneratedLength | cmd/edit.go:160-163 | a length below 8 becomes 16; 8 or more is kept |
| Edit.ApplyFlags | cmd/edit.go:139-155 | each field takes its flag's value iff the flag is non-empty; all other fields, the ID included, are unchanged |
| Edit.Answered | cmd/edit.go:186-227 | an interactive answer replaces the value only when it was read and is non-empty |
| Edit.EditFields | cmd/edit.go:135-228 | flag mode merges the flags, and with `--generate` a password of the clamped length drawn from the default charset overrides `--password`; an interactive "generate" draws 16 characters from the default charset; without flags, no TTY or a failed "generate?" prompt is an error, and otherwise each answer is merged; the ID never changes; the entry as the in-place assignments left it is returned too, with the title and username answers already applied when the "generate?" prompt fails |
| Edit.StoreAndSave | cmd/edit.go:230-243 | the stamped entry lands under the key it is stored under even when its ID is missing, which exits before any save; otherwise it is stored under its ID too, the vault is saved, and the status is success iff the save succeeded |
| Edit.EditAndStore | cmd/edit.go:131-246 | a failed edit exits without saving, its partial changes left under the entry's key in the session; a successful edit keeps the target's ID; the edited entry stamped `now` lands under the entry's key, and when its ID is stored, under that ID too, and the vault is saved, succeeding iff the save did |
| Edit.EditResolved | cmd/edit.go:102-246 | a failed resolution writes nothing; otherwise the resolved entry is the one under the returned key (the entry's own ID when entries are keyed by ID), and the edit's effects are those of `EditAndStore` on that key |
| Edit.RunEdit | cmd/edit.go:52-246 | without a vault file the command exits and writes nothing; a completed edit leaves the session's vault stamped `now` |
| Delete.DeleteGate | cmd/delete.go:120-150 | deletion proceeds iff `--force` or (TTY and both confirmations yes); without `--force` a non-TTY run aborts; a "no" answer cancels |
| Delete.SecondPromptOnlyAfterYes | cmd/delete.go:133-140 | the second confirmation is irrelevant unless the first was yes |
| Delete.RemoveAndSave | cmd/delete.go:152-162 | the save runs only after a successful delete, which removes exactly that ID |
| Delete.DeleteResolved | cmd/delete.go:87-165 | cancelled or aborted runs change nothing; a proceeding run deletes the resolved entry's ID (also when a number was given), and the vault is saved |
| Delete.RunDelete | cmd/delete.go:37-166 | without a vault file the command exits and writes nothing; a cancelled run writes nothing |
| Show.TouchAndSave | cmd/show.go:116-125 | `AccessedAt := now` lands under the entry's key before `UpdateEntry`; a successful update also stamps `UpdatedAt := now` under that key and under the ID; the save runs either way; update and save failures are only warnings |
| Show.ShowResolved | cmd/show.go:87-133 | only a failed resolution ends the command; otherwise the resolved entry is the one under the returned key, the shown entry has access time `now` and is stored under that key (and, with its update time `now`, under its ID when the ID is stored), and the vault is saved |
| Show.RunShow | cmd/show.go:37-133 | without a vault file the command exits and writes nothing; a completed show has stamped the access time |
| GenerateCommand.Options | cmd/generate.go:56-63 | each class is included iff its `--no-*` flag is unset; ambiguous characters are excluded iff `--ambiguous` is unset |
| GenerateCommand.Validate | cmd/generate.go:45-69 | accepted iff length >= 4, count in 1..50 and some class included, with the source's messages in its order |
| GenerateCommand.AcceptedFlags | cmd/generate.go:45-75 | accepted flags use the given length and never reach the charset fallback |
| GenerateCommand.CountLabel | cmd/generate.go:85 | `%2d`: the decimal number right-aligned with spaces |
| GenerateCommand.CountLabelWidth | cmd/generate.go:85 | numbers below 100 take exactly two columns |
| GenerateCommand.KeptMembers | cmd/generate.go:93-105 | a class name is listed iff its class is enabled |
| GenerateCommand.IncludedList | cmd/generate.go:93-105 | the appended list is the enabled class names in the order lowercase, uppercase, numbers, symbols |
| GenerateCommand.GenerateAll | cmd/generate.go:74-87 | exactly count passwords, password i drawn with oracle i, each on its own line |
| GenerateCommand.DescribeSettings | cmd/generate.go:89-113 | the length line, then "Includes: [...]" with the enabled class names exactly when some class is enabled, then the ambiguity note exactly when ambiguous characters are excluded |
| GenerateCommand.RunGenerate | cmd/generate.go:43-114 | rejected flags generate nothing; otherwise exactly count passwords of the given length from the options' charset, printed as "Password: …" followed by its strength line for one, and numbered "%2d: …" for several, then the settings lines |

## Left out

- AES-GCM, PBKDF2, argon2id and JSON encoding are foreign; they appear only through uninterpreted functions and the predicates listed above.
- Failures of `crypto/rand` (the panic in `DeriveKey`, the error returns of `Encrypt` and `GeneratePassword`) are not modelled: random bytes and indices are parameters.
- `aes.NewCipher` and `cipher.NewGCM` errors are not modelled: they cannot occur with a 32-byte key.
- JSON marshalling errors in `SaveVault` are not modelled. `os.ReadFile` errors after a successful `os.Stat` are not modelled either: the file store either holds the path or not.
- File permissions, directories (`filepath.Dir`, `MkdirAll` beyond its failure) and `os.Stat` errors other than absence are not modelled.
- Concurrency: `sync.RWMutex` locking is not modelled, and everything runs sequentially.
- Sessions.Registry.GetSession: on expiry, `GetSession` calls `ClearSession` while holding the read lock, and `ClearSession` then takes the write lock of the same mutex (vault/session.go:48-49, 58, 69). In Go that call blocks forever; the model takes the evidently intended behaviour instead: the session is cleared and null is returned. Also, one clock reading serves the expiry test and the refresh, where the source reads the clock twice.
- VaultContainer.CreateVault: `CreatedAt` and `UpdatedAt` come from one clock reading; the source reads the clock twice.
- VaultContainer.VaultFile: timestamps are kept as whole seconds, not as RFC 3339 text in the local time zone. Time-zone handling and the `FormatTime` date rendering are not modelled.
- Display.TimeAgo: Go converts the duration to floating-point minutes, hours and days before truncating. The model divides integers, which agrees for durations below 2^53 nanoseconds (about 104 days). `FormatTimeAgo` reads the clock itself; here the clock reading is a parameter.
- Display.Truncate counts and cuts characters, while Go's `len` and slicing count and cut bytes (and may split a multi-byte character). The two agree for ASCII text. `Underline`, `MaskPassword` and the strength score use the byte length (`Text.Utf8Len`).
- `ShowEntryDetails`, `ShowVaultInfo`, `ConfirmAction`, colours and the table's column padding are not modelled: they only print.
- The string "wipe" loop in edit, delete and show (cmd/edit.go:96-99) is not modelled: Go strings are immutable, so it wipes nothing.
- internal/input/prompts.go is not part of this model; prompt answers and the TTY test are inputs.
- config/config.go is not part of this model; the vault path is a parameter.
- cmd/root.go and vault/kdf.go are not part of this model: the first is cobra wiring, and nothing shown calls the second.
- `os.Exit` is modelled as the `Exited` status. Informational messages such as "Deletion cancelled" are not returned.
