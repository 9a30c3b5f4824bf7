# A verified model of the Leyni password manager client

This Dafny project models the logic of a password manager client for Sailfish OS
and proves what it promises:

- **Storage codecs** (`BitStrings`, `Base64`, `Base32`, `Decimals`, `Splitting`, `EncString`, `PinWrap`): base64
  and base32 as bit strings, the text form of encrypted values, and the stored PIN line, each with the exact
  language it accepts and its round trips.
- **Passwords and codes** (`FisherYates`, `PasswordGen`, `PasswordDraws`, `Totp`, `TotpSecret`, `VaultTotp`): rejection sampling and
  shuffling as counting and bijection statements over explicit draws, and one-time codes from the secret's text to
  the countdown on screen.
- **The list model** (`StableSort`, `RowDiff`, `ListModel`, `ListModelRuns`, `ListDrift`, `ListFilters`): which rows
  are shown, and the merge walk that turns one filtered list into the next by row operations.
- **The vault** (`Json`, `SyncParser`, `SyncReads`, `VaultSpec`, `VaultRuns`, `VaultRows`, `Accounts`,
  `OrganizationAccount`, `VaultEdit`, `EditedRows`, `SavedCodes`, `Vault`): reading a sync response, the lock, unlock,
  reload and auto-lock state machine with its decrypted caches, and the JSON patcher of the editor.
- **The controller** (`ControllerSpec`, `ControllerRuns`, `ControllerPages`, `ControllerLosses`, `ControllerTokens`,
  `ControllerVault`, `ControllerSignOut`, `ControllerPin`, `ControllerFlows`, `AppController`): slots, callbacks and jobs
  as atomic steps, with safety over all interleavings.

Code that works by changing fields, arrays or loops is written that way (`Vault.Vault`, `ListModel.VaultListModel`,
`AppController.AppController`, the codecs' loops, the in-place shuffle), and each such method is proved against a
function of its inputs or of the old state. The theorems are about those functions and hold for the methods through
their contracts; for whole runs of the controller object, `AppController.Handle` and `AppController.Play` say so.

Cryptography is a value of type `CryptoSuite.Suite`, a record of functions. `Lawful` is all that is assumed of it:
decrypting an encryption under a 32-byte key and a 16-byte iv gives the plaintext, the ciphertext has 16(n/16 + 1)
bytes, MACs and expanded keys have 32 bytes, and UTF-8 text survives encoding. `ToyIsLawful` shows that the laws
are consistent. Random bytes are parameters; the generator is a finite supply of 32-bit draws whose end is the
failure of the system's source.

## Where the code and its documentation differ

- src/vault/syncparser.h:27-28 wants one bad item not to make the whole vault unreadable. It does not, as long as
  the bad item fails to parse or has no usable key; but an item with a key and one undecryptable display field, or one
  undecryptable folder name, fails the whole unlock. `VaultRuns.RebuildExactly` gives the exact condition.
- src/crypto/pinwrap.cpp:91-92 says that non-type-2 payloads are rejected while parsing. Type 4 passes and is refused
  only by decryption (`PinWrap.Type4Payload`).
- `reloadSync` keeps the old private key when the new blob has none (src/vault/vault.cpp:251), so it then differs from
  a full load and unlock; `VaultRuns.ReloadRefines` says that this is the only difference.
- A blank URI over two or more stored URIs leaves them alone (src/vault/vault.cpp:629); `VaultEdit.LoginRoundTrip` has
  this as its one exception.
- The editor defaults a missing `match` to null; over a URI entry spelled `Match` that default hides the old setting
  from the reader. `VaultEdit.MatchKeptExactly` gives the exact condition.
- The list diff compares ids only. With two different items under one id the list can show the wrong one:
  `ListDrift.ChangeExactly` says on which sources and changes, `ListDrift.DriftExample` is an input.
- Inputs for the first five of these are in `Accounts`, `PinWrap.Type4Line`, `VaultEdit.BlankUriStays` and
  `VaultEdit.MatchHidden`.
- The base64 decoder ignores non-zero pad bits, which section 3.5 of RFC 4648 allows (`Base64.CanonicalExactly`).
- The page can say locked, or ask for a login, while the vault is still open: after a re-sync that does not parse, after
  cancelling a login or configuring an account, and by three more steps. `ControllerPages.PageExactly` lists all of them
  and shows that there are no others; `ControllerPages.OpenBehindPages` gives runs. `ControllerRuns.SessionSafety`
  therefore states the other direction only: an unlocked page means an unlocked vault.
- A second-factor reply reads pending secrets (src/ui/appcontroller.cpp:323) that may be gone by then;
  `ControllerLosses.DangerExactly` lists the steps that drop them, `ControllerLosses.CancelledLogin` gives a run.
- src/ui/appcontroller.cpp:85 takes a stored blob to mean that the application can work offline. A sync reply is stored
  before it is parsed (line 415), so one that does not parse replaces a blob that did, and the next start asks for a
  login over an empty vault. `ControllerLosses.UnloadableExactly` and `ControllerLosses.OfflineExactly` give the exact
  conditions, `ControllerLosses.OfflineLost` a run.
- Signing out is to delete token, blob and wrapped key (SECURITY.md:142 and 203, doc/PLAN.md:139). It does, but work that
  was outstanding is not cancelled and can bring each of them back, and open the vault again.
  `ControllerSignOut.LeftExactly` gives the exact condition, `ControllerSignOut.SignOutUndone` a run, and
  `ControllerSignOut.QuietSignOut` says that with nothing outstanding signing out is final.

## Model

| member | source | states |
|---|---|---|
| Base64.Encode | src/crypto/base64.cpp:26-55 | The loop over three-byte blocks with the 24-bit accumulator, and the one- and two-byte tails, write section 4 of RFC 4648: the bit string of the data cut into 6-bit groups, zero-filled, one alphabet character each, then `=` up to a multiple of four. |
| Base64.Decode | src/crypto/base64.cpp:57-101 | The character loop gives, for every string, the bytes of the concatenated 6-bit groups or the error the code raises for it (length, bad padding, bad character). |
| Base64.SymbolTable | src/crypto/base64.cpp:10-22 | The value of each character, written and read alike, is that of table 1 of RFC 4648. |
| Base64.AcceptedExactly | src/crypto/base64.cpp:57-101 | Decoding succeeds if and only if the length is a multiple of 4 and the text is alphabet characters followed by zero, one or two `=`. |
| Base64.RoundTrip | src/crypto/base64.cpp:26-101 | Decoding an encoding gives the bytes back, for every byte string. |
| Base64.DecodedLength | src/crypto/base64.cpp:57-101 | An accepted text of n characters with p padding characters decodes to 3n/4 - p bytes. |
| Base64.CanonicalExactly | src/crypto/base64.cpp:57-101 | Re-encoding restores an accepted text if and only if its unused pad bits are zero (section 3.5 of RFC 4648); in every case decoding the re-encoding gives the same bytes. |
| BitStrings.GroupsRoundTrip | src/crypto/base64.cpp:26-101 | The specification of both base encodings is lossless at any group width from 1 to 8: cutting bytes into filled groups and reading whole bytes back is the identity. |
| Splitting.SplitJoin | src/crypto/encstring.cpp:20-33 | Splitting at a separator recovers parts that were joined with it, when no part holds the separator. |
| Splitting.JoinSplit | src/crypto/encstring.cpp:20-33 | Joining what a split gives restores the text, and no part holds the separator. |
| EncString.SplitParts | src/crypto/encstring.cpp:20-33 | The find loop returns exactly the split of the text. |
| EncString.Parse | src/crypto/encstring.cpp:47-99 | The parser returns the specified value or error for every text, over the branches of the missing dot, the digit and range checks of the type prefix, and the two payload shapes. |
| EncString.ParseType2 | src/crypto/encstring.cpp:47-99 | Type 2: exactly three parts, all decodable, iv 16 bytes, mac 32 bytes, ciphertext non-empty and of whole blocks; otherwise the code's error. |
| EncString.ParseType4 | src/crypto/encstring.cpp:47-99 | Type 4: exactly one decodable, non-empty part. |
| EncString.Serialize | src/crypto/encstring.cpp:101-109 | Only type 2 is printed; every other type is refused. |
| EncString.AcceptedExactly | src/crypto/encstring.cpp:47-99 | The accepted language, both directions: a one- or two-digit prefix of value 2 (so `02.` too) with three base64 parts of the right sizes, or of value 4 with one non-empty base64 part. |
| EncString.RoundTrip | src/crypto/encstring.cpp:47-109 | Parsing a printed type-2 value gives it back if it is well-sized and fails if it is not. |
| EncString.Normalised | src/crypto/encstring.cpp:47-109 | Whatever was accepted as type 2 is well-sized and stable under printing and parsing; the only other accepted type is 4. |
| EncString.ConstantTimeEqual | src/crypto/securebytes.cpp:28-38 | The or-accumulating loop that visits every byte answers true if and only if neither buffer is null and the first n bytes agree. |
| EncString.Decrypt | src/crypto/encstring.cpp:111-148 | Verify-then-decrypt in the code's order: type, key sizes, MAC over iv and ciphertext, then decryption. |
| EncString.Seal | src/crypto/encstring.cpp:150-193 | Encrypt, MAC, and print as text. |
| EncString.Open | src/crypto/encstring.cpp:47-148 | Parse, verify, decrypt. |
| EncString.OpenSealed | src/crypto/encstring.cpp:47-193 | Every value sealed under a full-size key opens under it to itself, through separators, three base64 parts, size checks and the MAC. |
| EncString.OpenedIsAuthentic | src/crypto/encstring.cpp:111-148 | Nothing is decrypted unless the text is a well-sized type-2 value whose MAC is the HMAC of iv and ciphertext; what comes out is the decryption of exactly that ciphertext. |
| CryptoSuite.KeyFromBytes | src/crypto/keys.cpp:70-79 | Exactly 64 raw bytes make a key, of two 32-byte halves that are those bytes in order. |
| CryptoSuite.ToyIsLawful | src/crypto/keys.cpp:59-97 | The laws assumed of AES-CBC, HMAC, HKDF and UTF-8 are consistent: a concrete suite satisfies all of them. |
| PinWrap.ParseUint | src/crypto/pinwrap.cpp:29-42 | The 32-bit accumulation loop accepts exactly one to nine digits, returns the number they denote and never wraps. |
| PinWrap.SplitFields | src/crypto/pinwrap.cpp:63-96 | The five-iteration loop cuts five fields at `:` and keeps the rest as the sixth, or fails when a separator is missing. |
| PinWrap.Parse | src/crypto/pinwrap.cpp:63-96 | The version, the three numbers, the 16-byte salt and the payload are checked in the code's order with the code's errors. |
| PinWrap.Serialize | src/crypto/pinwrap.cpp:55-61 | The printed line is the version, the numbers in decimal, the salt in base64 and the payload, separated by `:`. |
| PinWrap.RoundTrip | src/crypto/pinwrap.cpp:55-96 | For every wrapped key: parsing its printed form gives it back if the salt is 16 bytes, the numbers are below 10^9 and the payload is an accepted EncString; otherwise parsing fails. |
| PinWrap.WrapWithPin | src/crypto/pinwrap.cpp:98-108 | Wrapping seals the secret under the key derived from PIN and salt, with the default parameters. |
| PinWrap.UnwrapWithPin | src/crypto/pinwrap.cpp:110-116 | Unwrapping derives the key with the stored parameters and opens the payload. |
| PinWrap.EndToEnd | src/crypto/pinwrap.cpp:55-116 | Wrap, print, parse, unwrap returns the secret, for every secret, PIN, salt and iv; wrapping fails only when the key derivation does. |
| PinWrap.Type4Payload | src/crypto/pinwrap.cpp:63-116 | Against the comment at lines 91-92: every storable line with a type-4 payload is accepted by the parser, and only unwrapping refuses it. |
| PinWrap.Type4Line | src/crypto/pinwrap.cpp:63-116 | Such a line for every salt: payload `4.` and one byte in base64. |
| Base32.Decode | src/crypto/totp.cpp:11-38 | The unmasked 32-bit shift buffer emits exactly the whole bytes of the concatenated 5-bit groups, for input of any length, and fails exactly on a foreign character. |
| Base32.RoundTrip | src/crypto/totp.cpp:11-38 | Decoding inverts the encoder of section 6 of RFC 4648 on every byte string. |
| Base32.SameSecret | src/crypto/totp.cpp:11-38 | Texts that differ only in letter case, spaces and `=` decode alike, errors included. |
| Totp.WriteCounter | src/crypto/totp.cpp:66-70 | The loop fills the eight-byte buffer with the big-endian counter. |
| Totp.CounterRoundTrip | src/crypto/totp.cpp:66-70 | Every 64-bit counter can be read back from those eight bytes. |
| Totp.TruncationWord | src/crypto/totp.cpp:80-85 | The masked, shifted and or-ed word is the big-endian value of the four bytes modulo 2^31. |
| Totp.Reduce | src/crypto/totp.cpp:86-91 | The modulus loop computes the remainder modulo 10^digits. |
| Totp.PadLeft | src/crypto/totp.cpp:92-97 | The padding loop gives exactly `digits` decimal digits that denote the code. |
| Totp.HotpCode | src/crypto/totp.cpp:40-98 | Section 5.3 of RFC 4226: the code is exactly `digits` digits denoting the truncated 31-bit number modulo 10^digits; the truncation stays inside the MAC; the refusals are those of the code. |
| Totp.CodeUnique | src/crypto/totp.cpp:86-97 | There is only one string that is the code of a number at a width. |
| Totp.TotpCode | src/crypto/totp.cpp:100-107 | Section 4.2 of RFC 6238: the HOTP code of unixTime / period; period 0 is refused. |
| Totp.Countdown | src/vault/vault.cpp:548-551 | The shown seconds are 1..period if and only if period - unixTime mod period fits an int, as for every period below 2^31; for that many seconds the time step stays the same, and it is one more right after if and only if that same condition holds. |
| TotpSecret.Assign | src/vault/vault.cpp:76-94 | One key=value pair changes the parameter of that name, the algorithm in either accepted spelling; an unknown algorithm is refused. |
| TotpSecret.ReadQuery | src/vault/vault.cpp:68-98 | The two-cursor loop over `&` and `=` equals applying the split pieces in order; a `=` found beyond the piece does not count. |
| TotpSecret.ParseTotpSecret | src/vault/vault.cpp:53-108 | Steam secrets are refused, text without the otpauth prefix is the bare secret with the defaults, and a URI is read from its first `?` and then checked. |
| TotpSecret.QueryMeans | src/vault/vault.cpp:68-98 | Whatever the order of the pieces: reading succeeds if and only if every named algorithm is known, and then every parameter has its last assigned value, or its default. |
| TotpSecret.AcceptedExactly | src/vault/vault.cpp:53-108 | A URI is accepted if and only if it has a query, all its algorithms are known, and the last values give a non-empty secret, a positive period and 6..10 digits; the result is those last values. |
| TotpSecret.RoundTrip | src/vault/vault.cpp:53-108 | Every usable secret with parameters, written as an otpauth URI under any account label, is read back exactly. |
| VaultTotp.Usable | src/vault/vault.cpp:509-557 | Parameters that reach the generator always have a positive period and 6..10 digits. |
| Vault.Vault.TotpCode | src/vault/vault.cpp:509-557 | A locked vault, a missing item or secret, an unresolvable key, and each decoding error are reported as in the code; otherwise the answer is the HOTP code of the item's own decrypted secret with its countdown. |
| VaultTotp.SameCodeUntilZero | src/vault/vault.cpp:509-557 | Asked again before the countdown has run out, the vault gives the same code with the countdown lowered by exactly the time passed. |
| PasswordGen.Rng.Random32 | src/crypto/passwordgen.cpp:15-24 | Four bytes are taken and assembled with shifts and or into one 32-bit value, the next of the supply; an exhausted supply is the failure of RAND_bytes. |
| PasswordGen.WordsAreQuads | src/crypto/passwordgen.cpp:15-24 | Each 32-bit value comes from exactly one choice of four bytes, so uniform bytes are uniform values. |
| PasswordGen.FilterAmbiguous | src/crypto/passwordgen.cpp:28-41 | The loop keeps the specified characters in order. |
| PasswordGen.AllowedExactly | src/crypto/passwordgen.cpp:28-41 | A character stays if and only if it is in the class and not an ambiguous one that was to be avoided. |
| PasswordGen.RemainderIs | src/crypto/passwordgen.cpp:56-63 | The remainder as computed in 32 bits is 2^32 mod bound, without overflow. |
| PasswordGen.RandomIndex | src/crypto/passwordgen.cpp:50-70 | The rejection loop returns the first accepted draw modulo the bound, consuming exactly the draws up to it. |
| PasswordGen.Unbiased | src/crypto/passwordgen.cpp:50-70 | For every bound from 1 to 2^32-1: the acceptance limit is a multiple of the bound and more than half of 2^32; each index has exactly limit / bound draws; and a draw yields the index at once if and only if it is one of these. |
| PasswordGen.PushMany | src/crypto/passwordgen.cpp:108-117 | A filling loop appends n picks of its class and consumes exactly their draws. |
| PasswordGen.ShuffleInPlace | src/crypto/passwordgen.cpp:118-123 | The in-place swap loop over the array computes the specified shuffle from the draws it takes. |
| FisherYates.Injective | src/crypto/passwordgen.cpp:119-123 | Different draw vectors give different arrangements of distinct elements, for every length. |
| FisherYates.Surjective | src/crypto/passwordgen.cpp:119-123 | Every arrangement is reached, with the draw vector constructed. |
| FisherYates.ExactlyUniform | src/crypto/passwordgen.cpp:119-123 | The map from draw vectors to arrangements is a bijection: a sequence is an arrangement of the n distinct elements if and only if some draw vector gives it, and then only one does. PasswordDraws.EquallyLikely carries this to the drawn values. |
| FisherYates.ShuffleKeeps | src/crypto/passwordgen.cpp:119-123 | The shuffle preserves the multiset of characters. |
| PasswordGen.Classes | src/crypto/passwordgen.cpp:80-92 | The four class strings of the options, filtered. |
| PasswordGen.PoolExactly | src/crypto/passwordgen.cpp:80-94 | Which characters a password may hold: the letters, digits and the 23 symbols of the enabled classes, without the six look-alikes if those are avoided. |
| PasswordGen.GeneratePassword | src/crypto/passwordgen.cpp:72-126 | The whole generation, checks, minima, fill and shuffle in place, equals the specified function of options and draws, errors and consumed draws included. |
| PasswordDraws.FailsOnlyWhenDry | src/crypto/passwordgen.cpp:72-126 | The source's failure is reported only for a feasible request and only when all its values are used up; a feasible request with 2 * length - 1 values below 2^31 always gives a password. |
| PasswordDraws.SupplyIsUsed | src/crypto/passwordgen.cpp:118-123 | The loop uses what it draws: from values that the bounds n..2 accept with remainders js, rejected ones interspersed, it makes exactly the shuffle by js and leaves the rest of the supply. |
| PasswordDraws.UsedIsSupply | src/crypto/passwordgen.cpp:118-123 | And every supply that a shuffle uses up is one of these, for some vector of draws. |
| PasswordDraws.EquallyLikely | src/crypto/passwordgen.cpp:50-123 | The whole shuffle, rejection included, is exactly uniform: for every number m of values, each arrangement of distinct characters comes from the same number of supplies of m values, and from at least one of n - 1. |
| PasswordGen.Promise | src/crypto/passwordgen.cpp:72-126 | An infeasible request (length not 1..256, no class enabled, or minima above the length) is refused, and a feasible one gives a password or the failure of the source, which PasswordDraws.FailsOnlyWhenDry pins down; the password has the exact length, only pool characters, no ambiguous one when asked, and still every class minimum after the shuffle. |
| ListModel.VaultListModel.FilteredItems | src/vault/vaultmodel.cpp:106-142 | The filter loop and the stable sort give the specified list; ListFilters.RowsExactly says which rows these are. |
| ListModel.VaultListModel.Refresh | src/vault/vaultmodel.cpp:78-86 | A reset to the recomputed list, with the favourite flag and the emitted signals. |
| ListModel.VaultListModel.SetSearchQuery | src/vault/vaultmodel.cpp:88-95 | Nothing happens for an unchanged query; otherwise the row diff runs. |
| ListModel.VaultListModel.SetFolderFilter | src/vault/vaultmodel.cpp:97-104 | Nothing happens for an unchanged folder; otherwise the row diff runs. |
| ListModel.VaultListModel.ApplyFilterDiff | src/vault/vaultmodel.cpp:149-183 | The merge walk with the moving row emits exactly the specified row operations and leaves in place what they lead to. |
| ListModel.VaultListModel.UpdateHasFavorites | src/vault/vaultmodel.cpp:185-192 | The flag follows the first row and is signalled only when it changes. |
| StableSort.SortIsStable | src/vault/vaultmodel.cpp:129-141 | The sort used is a stable sort: sorted, and equivalent elements in source order. |
| StableSort.StableSortUnique | src/vault/vaultmodel.cpp:129-141 | There is only one stable sort, so std::stable_sort computes the same list. |
| StableSort.FilterCommutes | src/vault/vaultmodel.cpp:144-148 | Filtering commutes with the stable sort, for every weak order and predicate. |
| ListFilters.RowsExactly | src/vault/vaultmodel.cpp:106-192 | After any slots in any order: on sources with one item per id the rows are exactly the items of the last source in the chosen folder (all, those without a folder, or those of one) in whose name, user name or URI the last text occurs up to letter case, each as often as in the source, favourites first, then by name, then in source order; on any source an id is shown if and only if such an item has it. |
| ListFilters.FoldersAndSearch | src/vault/vaultmodel.cpp:106-127 | The lists a user sees: without filters every item; under `none` exactly the items without a folder; under a folder exactly its items; and with a text exactly the items it is found in. |
| ListModelRuns.FilteredIsCut | src/vault/vaultmodel.cpp:106-148 | Every filtered list is cut out of one and the same sorted source. |
| RowDiff.DiffArrives | src/vault/vaultmodel.cpp:149-183 | For any two lists the operations are valid where they are emitted and end with the wanted ids; where equal ids mean equal items, with the wanted items. |
| RowDiff.DiffExact | src/vault/vaultmodel.cpp:149-183 | For two lists in one duplicate-free order, exactly the old-only items are removed and the new-only items inserted, once each and in order. |
| RowDiff.Minimal | src/vault/vaultmodel.cpp:149-183 | No other script that ends with the wanted ids has fewer operations. |
| ListModelRuns.FilterChangeMinimal | src/vault/vaultmodel.cpp:106-183 | So every change of search or folder on a source with distinct ids emits a minimal script, without touching a row that stays. |
| ListModelRuns.ViewsNeverDisagree | src/vault/vaultmodel.cpp:78-192 | After any slots in any order, on any sources: every row index was valid when emitted, replaying the signals gives the model's rows and flag, and the shown ids are those of a recomputation. |
| ListDrift.ChangeExactly | src/vault/vaultmodel.cpp:88-183 | For every source, ids repeated or not, and every change of search or folder: the diff leaves the recomputed list if and only if the change does not drift. Whether it drifts is read off the sorted source and the two filters: going along it, a hidden row goes by whose id the next kept row has and which is now wanted, or a kept row is no longer wanted while its id still is. |
| ListDrift.DriftsExactly | src/vault/vaultmodel.cpp:78-192 | Over every run on any sources: the shown list is ever another than the recomputed one if and only if some change ever drifts from a list that was right. |
| ListDrift.NeverDrifts | src/vault/vaultmodel.cpp:78-192 | Hence over every run whose sources give one item per id, the shown list equals the recomputed one item for item and the flag says whether a shown item is a favourite. |
| ListDrift.DriftExample | src/vault/vaultmodel.cpp:153-183 | Without that, drift is real: a source with two items under one id, on which a search leaves the wrong one on show. |
| SyncParser.ReadParts | src/vault/syncparser.cpp:30-39 | Card and identity parts that are present, under their key, in order. |
| SyncParser.ReadUris | src/vault/syncparser.cpp:41-80 | The non-blank URIs of the login, in order. |
| SyncParser.ReadFields | src/vault/syncparser.cpp:107-120 | The custom fields with a name or a value, in order. |
| SyncParser.ParseCipher | src/vault/syncparser.cpp:41-123 | A cipher needs an id, a type 1..4 and a name; every part is read as specified, and SyncReads says from where. |
| SyncParser.ReadCiphers | src/vault/syncparser.cpp:172-197 | The cipher loop keeps the parseable entries in order and counts the skipped ones. |
| SyncParser.EveryEntryCounted | src/vault/syncparser.cpp:172-197 | Every entry is kept, counted as skipped, or in the trash: the three numbers add up. |
| SyncParser.ParseSync | src/vault/syncparser.cpp:127-234 | The response reader with its three errors, its lists and its count. |
| SyncReads.TypeExactly | src/vault/syncparser.cpp:41-65 | An object is a cipher of a type if and only if it has an id, a name and that type's number: 1 login, 2 note, 3 card, 4 identity. |
| SyncReads.TextsRead | src/vault/syncparser.cpp:41-70 | Each text of a cipher, and its favourite mark, stands under its own key; anything but a text there reads as none. |
| SyncReads.LoginReads | src/vault/syncparser.cpp:71-89 | Only logins have login data; user name, password and TOTP secret stand under their own keys, and the URIs are the non-empty ones of the entries. |
| SyncReads.DetailsRead | src/vault/syncparser.cpp:91-116 | A card has its six parts and an identity its eighteen, each under its key, once, in the order of the keys, and no other item has any. |
| SyncReads.CardAndIdentity | src/vault/syncparser.cpp:91-116 | The same from the object: which parts are in the card fields for type 3 and in the identity fields for type 4. |
| SyncReads.CustomReads | src/vault/syncparser.cpp:107-130 | The custom fields are those of the entries with a name or a value, each with name, value and kind from its own key. |
| SyncReads.ResponseExactly | src/vault/syncparser.cpp:127-234 | A response is read if and only if its profile is an object with a key; organizations, folders and the ciphers outside the trash are then exactly those of the entries under their keys. |
| SyncParser.ParsedAreFaithful | src/vault/syncparser.cpp:127-234 | Each cipher is exactly what its own raw object parses to. |
| SyncParser.SpellingDoesNotMatter | src/vault/syncparser.cpp:14-22 | Two responses with the same values under every camelCase key at any depth (profile, ciphers, logins, URIs, cards, identities, fields, folders), in whatever mix of camelCase and PascalCase, give the same result, errors included, up to the kept raw objects. |
| SyncParser.OneKeyCapitalised | src/vault/syncparser.cpp:14-22 | Capitalising a key of an object is such a change of spelling. |
| Vault.Vault.constructor | src/vault/vault.cpp:112-117 | A new vault is locked and empty. |
| Vault.Vault.Lock | src/vault/vault.cpp:311-329 | Every key and every decrypted cache is cleared, the timer stops, and lockedChanged is sent only by a vault that was unlocked. |
| Vault.Vault.LoadSync | src/vault/vault.cpp:124-135 | A readable blob locks the vault and replaces its data; an unreadable one changes nothing. |
| Vault.Vault.CipherKey | src/vault/vault.cpp:361-391 | The item's own key unwrapped under the owner's key if it has one, else the organization's or the user's key (VaultRows.KeyExactly), with the code's errors. |
| Vault.Vault.OrganizationKey | src/vault/vault.cpp:257-270 | An organization key is a type-4 payload decrypted with the private key, of the right size. |
| Vault.Vault.ReadOrganizationKeys | src/vault/vault.cpp:257-270 | The keys that unwrap; for a repeated id the first stays. |
| Vault.Vault.ReadFolderNames | src/vault/vault.cpp:272-277 | All folder names, or the first decryption error. |
| Vault.Vault.DecryptItem | src/vault/vault.cpp:283-306 | The display fields of one item, or the first decryption error; VaultRows.RowExactly says what the row holds. |
| Vault.Vault.ReadItems | src/vault/vault.cpp:279-308 | The items whose key resolves, in order, or the error of the first that then does not decrypt. |
| Vault.Vault.RebuildDisplayData | src/vault/vault.cpp:249-309 | The rebuild over private key, organization keys, folder names and items equals the pure function of data and keys. |
| Vault.Vault.UnlockWithMasterKey | src/vault/vault.cpp:153-191 | Locks first; then the whole new state and the result, for success and for each failure. |
| Vault.Vault.VerifyMasterKey | src/vault/vault.cpp:193-211 | True if and only if the master key opens the stored protected key; the vault is unchanged. |
| Vault.Vault.ReloadSync | src/vault/vault.cpp:213-247 | The whole new state and the result for a locked vault, an unreadable blob, changed keys, a failed rebuild and success. |
| Vault.Vault.SetAutoLockSeconds | src/vault/vault.cpp:559-570 | A non-positive interval stops the timer; a positive one restarts it on an unlocked vault. |
| Vault.Vault.NoteActivity | src/vault/vault.cpp:572-577 | Activity restarts the timer of an unlocked vault and does nothing to a locked one. |
| Vault.Vault.TimePasses | src/vault/vault.cpp:112-117 | A running timer counts down and, when it ends, locks. |
| VaultRuns.StepKeepsInv | src/vault/vault.cpp:124-329 | Every operation keeps: locked means wiped, unlocked means current, and the timer runs exactly when unlocked with an interval. |
| VaultRuns.Lifecycle | src/vault/vault.cpp:124-329 | After any run of the operations: locked implies no key, item or folder name; unlocked implies the user key comes from the current protected key and the display data is the rebuild of the current data; an unlocked vault with an interval has been idle for less than it. |
| VaultRows.UserKeyExactly | src/vault/vault.cpp:160-173 | The user key is what the protected key opens to under the two expansions of a 32-byte master key, split in halves. |
| VaultRows.KeyExactly | src/vault/vault.cpp:361-391 | Which key an item is read with: the user's, or its organization's if it has one, and behind either the item's own key if it has one. |
| VaultRows.RowExactly | src/vault/vault.cpp:283-306 | What a row holds, part by part: the texts opened from their own stored parts, and a mark for each part that is stored. |
| VaultRows.ContentsOverRuns | src/vault/vault.cpp:124-309 | After every run: a vault is closed and holds nothing, or it is open and its user key, private key, organization keys (the first that unwraps), folder names (the last of an id) and rows (one for each item whose key can be had, in order) are exactly those of its data. |
| VaultRows.SealedRow | src/vault/vault.cpp:283-306 | A login whose name, user name and first URI are sealed under its key shows these three in their places, and marks exactly the stored password, TOTP secret, notes and details. |
| OrganizationAccount.SharedAccountOpens | src/vault/vault.cpp:249-308 | An account with an organization opens and shows an organization's item as sealed under the organization's key, an item with an own key as sealed under that, the user's item as sealed under the user key, and not an item of an organization without a key. |
| VaultRuns.RebuildExactly | src/vault/vault.cpp:249-309 | The rebuild succeeds if and only if the private key, every folder name, and every display field of every item with a resolvable key decrypt. |
| Accounts.OneBadItem | src/vault/vault.cpp:249-309 | An input on which that fails: a document that parses, one item with an undecryptable name, and the right master password opens nothing, while the same account without the item opens. |
| VaultRuns.UnlockExactly | src/vault/vault.cpp:153-191 | Unlocking succeeds if and only if the master key opens a protected key of the right size and every folder name and display field then decrypts. |
| VaultRuns.SealedKeyUnlocks | src/vault/vault.cpp:153-191 | A user key sealed under a master key is what that master key recovers, so a new account without items always opens with it. |
| VaultRuns.ReloadRefines | src/vault/vault.cpp:213-247 | Reloading a blob with an unchanged protected key against loading it and unlocking with the master key: the same failure; on success the same state if and only if the blob has a private key or none was held. |
| Accounts.StalePrivateKey | src/vault/vault.cpp:213-247 | An input on which they differ: an open vault with a private key reloads a document without one and keeps the key, where loading and unlocking leaves none. |
| Vault.Vault.EncryptField | src/vault/vault.cpp:579-591 | An empty text is stored as nothing; any other is sealed. |
| Vault.Vault.BuildLoginObject | src/vault/vault.cpp:593-633 | The patched login object, with the branches for the URI list. |
| Vault.DropResponseOnly | src/vault/vault.cpp:728-739 | The loop removes the ten response-only keys in both spellings and nothing else. |
| Vault.Vault.BuildUpdateBody | src/vault/vault.cpp:692-771 | The update body or the error, for every vault state and item id. |
| Vault.Vault.BuildCreateBody | src/vault/vault.cpp:635-690 | The creation body or the error, for every vault state and type. |
| VaultEdit.FindCipher | src/vault/vault.cpp:351-359 | The first cipher with the id, or none if there is no such cipher. |
| VaultEdit.FieldRoundTrip | src/vault/vault.cpp:579-591 | Any entered text, encrypted and read back, is itself; blank if and only if stored as nothing. |
| VaultEdit.LoginRoundTrip | src/vault/vault.cpp:593-633 | Reading a patched login gives the entered user name, password and TOTP secret, and the entered primary URI, except exactly when a blank URI meets two or more stored entries with a URI: those are then unchanged. |
| VaultEdit.BlankUriStays | src/vault/vault.cpp:628-631 | That exception on an input: two stored entries and a blank field still show the stored URI. |
| VaultEdit.LoginFrame | src/vault/vault.cpp:593-633 | Every other key of the login object is unchanged, every URI entry after the first is unchanged, and the first changes only in `uri` and a `match` that was missing. |
| VaultEdit.MatchKeptExactly | src/vault/vault.cpp:618-627 | The match setting of a patched URI is kept as the reader sees it, if and only if it is not spelled `Match` alone. |
| VaultEdit.MatchHidden | src/vault/vault.cpp:618-627 | An entry spelled `Uri` and `Match` loses its setting for the reader. |
| VaultEdit.UpdateFrame | src/vault/vault.cpp:692-771 | Key by key: outside the edited keys the body equals the original object, the response-only keys are gone, and lastKnownRevisionDate is the revision date if there is one. |
| VaultEdit.UpdateExactly | src/vault/vault.cpp:692-712 | A body is built exactly for an unlocked vault, an item that exists, an entry with a name and a key that can be had; the first of these that fails is the error. |
| EditedRows.EditThenSync | src/vault/vault.cpp:692-771 | Saving an entry and reloading the response with the saved item in its place: the written name opens under the item's own key, the reload succeeds, the row shows the entered name, user name, URI, favourite mark and folder and marks exactly the entered password, TOTP secret and notes, and no other row, key or folder name changes. |
| EditedRows.CreateThenSync | src/vault/vault.cpp:635-690 | Creating an item and reloading the response that ends with it: one more row, as entered, and the others as before. |
| SavedCodes.SetupExactly | src/vault/vault.cpp:509-535 | What a code is made from: the item's own TOTP part, opened with the item's key, read as a secret and decoded. |
| SavedCodes.SavedSecret | src/vault/vault.cpp:509-557 | After saving and reloading a login with an otpauth URI, its codes are made from exactly the parameters and secret the URI was written for. |
| VaultEdit.EditRoundTrip | src/vault/vault.cpp:692-771 | For every unlocked vault, item with a resolvable key and entry with a name: the body is built, and read back with its id it decrypts under the same key to what was entered, with type, owner, item key, custom, card and identity fields unchanged, whatever the spelling of the original keys. |
| VaultEdit.CreateRoundTrip | src/vault/vault.cpp:635-690 | A body is built if and only if there is a name and the type is login or note; with an id it reads back as entered. |
| AppController.AppController.constructor | src/ui/appcontroller.cpp:57-98 | The start state over what was stored, with a fresh vault and list. |
| AppController.AppController.HandleLockedChanged | src/ui/appcontroller.cpp:71-76 | The list refreshes, and an unlocked interface follows a locking vault. |
| AppController.AppController.Deliver | src/ui/appcontroller.cpp:71-76 | All signals sent since a mark are handled in order. |
| AppController.AppController.TryUnlock | src/ui/appcontroller.cpp:473-486 | The vault unlocks, its listeners run, and only on success the list refreshes and the interface unlocks. |
| AppController.AppController.Reload | src/ui/appcontroller.cpp:420-434 | reloadSync with the list refreshed on success and the interface locked on failure. |
| AppController.AppController.ApplySyncBlob | src/ui/appcontroller.cpp:413-457 | The blob is stored; an open vault reloads, a locked one loads and after a fresh login unlocks. |
| AppController.AppController.FinishFreshLogin | src/ui/appcontroller.cpp:440-456 | The key derived during login is used once and forgotten. |
| AppController.AppController.ApplyWriteSync | src/ui/appcontroller.cpp:796-812 | After a write the blob is stored and the vault reloads. |
| AppController.AppController.Lock | src/ui/appcontroller.cpp:670-676 | The vault locks; the interface shows the lock page if a blob is stored. |
| AppController.AppController.SignOut | src/ui/appcontroller.cpp:939-949 | Vault locked, tokens, blob and PIN removed, as ControllerSignOut.SignOutExactly spells out. |
| AppController.AppController.HandleAppStateChanged | src/ui/appcontroller.cpp:1060-1066 | Minimising locks an open vault if the setting says so. |
| AppController.AppController.SetAutoLockMinutes | src/ui/appcontroller.cpp:115-120 | The setting is stored and handed to the vault in seconds. |
| AppController.AppController.UnlockWithPin | src/ui/appcontroller.cpp:594-628 | The two checks, the parse that forgets an unreadable PIN, then the unwrap job. |
| AppController.AppController.WriteItem | src/ui/appcontroller.cpp:814-878 | Only on an unlocked interface and only if the vault builds a body; counts as activity. |
| AppController.AppController.DeriveDone | src/ui/appcontroller.cpp:309-320 | The three continuations of a derivation: log in, unlock, or wrap under a PIN after verifying the master key. |
| AppController.AppController.PinDone | src/ui/appcontroller.cpp:556-668 | The result of the wrap or unwrap job, which is computed by the storage code itself. |
| AppController.AppController.Unwrapped | src/ui/appcontroller.cpp:633-667 | A wrong PIN is counted and the third deletes the wrapped key; a right one unlocks and clears the counter, or is forgotten when it no longer fits. |
| AppController.AppController.BlobReply | src/ui/appcontroller.cpp:399-410 | The replies of the three sync calls. |
| AppController.AppController.NetDone | src/ui/appcontroller.cpp:689-794 | A completion is handled once, and only if its call is outstanding. |
| ControllerRuns.VaultMoves | src/ui/appcontroller.cpp:71-76 | Whatever a vault operation announces, delivering it leaves the list showing the vault's items and no unlocked interface over a locked vault. |
| ControllerRuns.NextKeeps | src/ui/appcontroller.cpp:57-1066 | Every event keeps the controller's invariant, and only PIN events, sign-out and PIN results touch the stored PIN. |
| ControllerRuns.SessionSafety | src/ui/appcontroller.cpp:71-76 | Over every interleaving of user actions, completions with any outcome, time, minimising and restarts: an unlocked interface implies an unlocked vault, the list shows exactly the vault's items and nothing once it is locked, and an unlocked vault is idle for less than its interval. |
| ControllerRuns.PinAttemptBound | src/ui/appcontroller.cpp:594-668 | Over every run, restarts included: between two resets at most three wrong PINs are answered against a stored key, the third always deletes it, and while there is a key the stored counter is the number of wrong PINs, 0..2. |
| ControllerRuns.PinUnlocks | src/ui/appcontroller.cpp:514-668 | A PIN that was enabled and still fits opens vault, interface and list, clears the counter and keeps the stored key. |
| AppController.AppController.Handle | src/ui/appcontroller.cpp:57-1066 | The object follows the transition function on every event, a restart giving a new object over what was stored, and keeps the invariant: so the unlocked page means an unlocked vault, a locked vault holds and shows nothing, an unlocked one is idle for less than its interval, and the PIN counter is 0..2. |
| AppController.AppController.Play | src/main.cpp:28 | The event loop from the first start: after any sequence of events the object is where the run of the transition function is, and safe. |
| ControllerPages.PageExactly | src/ui/appcontroller.cpp:57-1066 | For any set of pages without the unlocked one: a step first shows one of them over an open vault if and only if it is one of these: configuring an account, cancelling a login, unlocking without KDF parameters, a second-factor reply, a failed sync after a login, or a sync document that does not parse; the vault is then exactly as before. |
| ControllerPages.LockPageExactly | src/ui/appcontroller.cpp:413-434 | The lock page comes to cover an open vault if and only if an outstanding sync call delivers a document that does not parse. |
| ControllerPages.PagesOverRuns | src/ui/appcontroller.cpp:57-1066 | Over every run: an open vault is ever behind another page than the unlocked one if and only if one of the listed steps is ever taken, and ever behind the lock page if and only if an unparseable document is ever delivered to an open vault. |
| ControllerPages.FirstSession | src/ui/appcontroller.cpp:289-457 | Every account without items reaches an unlocked session from the first start. |
| ControllerPages.OpenBehindPages | src/ui/appcontroller.cpp:383-434 | From there: a re-sync answered with something that is no JSON object shows the lock page over the open vault, and cancelling a login or configuring an account shows the login page over it. |
| AppController.AppController.PasswordReply | src/ui/appcontroller.cpp:318-338 | The reply to the password: a token, a second factor, or a failure that drops the pending secrets. |
| AppController.AppController.SyncTokenReply | src/ui/appcontroller.cpp:691-718 | The refreshed token of a sync, or a refusal that forgets the refresh token and shows the login page over a locked vault. |
| ControllerLosses.NextAfter | src/ui/appcontroller.cpp:57-1066 | What every event does to the pending secrets, the number of outstanding login replies, the stored blob and the stored address, event by event, over the whole controller. |
| ControllerLosses.DangerExactly | src/ui/appcontroller.cpp:289-457 | A login reply comes to be outstanding without the secrets that the handler at line 323 reads if and only if one is outstanding with its secrets and one of these happens: the login is cancelled, another outstanding login reply fails, or the sync of an earlier login is answered without a document or with one that a locked vault can load. |
| ControllerLosses.DangerOverRuns | src/ui/appcontroller.cpp:289-457 | Over every run from the first start: a login reply is ever outstanding without its secrets if and only if one of these steps is ever taken from a state where none was. |
| ControllerLosses.CancelledLogin | src/ui/appcontroller.cpp:289-390 | Cancelling a login whose reply is outstanding leads there from the first start, so that a request for a second factor then reads missing secrets. |
| ControllerLosses.UnloadableExactly | src/ui/appcontroller.cpp:413-457 | The stored blob comes to be one from which the application cannot start if and only if an outstanding sync call delivers a document that does not parse; it stays so until signing out or until a document arrives that does parse. |
| ControllerLosses.UnloadableOverRuns | src/ui/appcontroller.cpp:413-457 | Over every run from the first start: such a blob is ever stored if and only if such a document is ever delivered. |
| ControllerLosses.OfflineExactly | src/ui/appcontroller.cpp:85-97 | A start shows the lock page over the stored data if and only if there is an address and a stored blob that loads; otherwise the vault is empty. |
| ControllerLosses.OfflineLost | src/ui/appcontroller.cpp:85-457 | From the first start: a session that would start offline, a re-sync answered with something that is no JSON object, and a restart, which asks for a login over an empty vault. |
| ControllerSignOut.LockExactly | src/ui/appcontroller.cpp:670-676 | Locking wipes vault and list, shows the lock page if a blob is stored and else the login page, and changes no setting, token or work; minimising does the same to an open vault under the setting and otherwise nothing. |
| ControllerSignOut.SignOutExactly | src/ui/appcontroller.cpp:939-949 | Signing out wipes vault and list, forgets both tokens, the stored token, blob and wrapped key with its counter, and shows the login page; it keeps the other settings and the work that is outstanding. |
| ControllerSignOut.LeftExactly | src/ui/appcontroller.cpp:939-949 | After a sign-out a step brings something back if and only if it completes outstanding work with a token, a document, a wrapped key, or a key that opens the data still held. |
| ControllerSignOut.SignedOutRuns | src/ui/appcontroller.cpp:939-949 | Over every run after a sign-out, restarts included: something is ever back if and only if outstanding work ever brings it, and until then no step starts a refresh or a write. |
| ControllerSignOut.QuietSignOut | src/ui/appcontroller.cpp:939-949 | With nothing outstanding a sign-out is final until the user asks to log in. |
| ControllerSignOut.LateSync | src/ui/appcontroller.cpp:678-720 | In every session: ask for a sync, sign out, and then the two replies store the refresh token and the blob again. |
| ControllerSignOut.SignOutUndone | src/ui/appcontroller.cpp:678-720 | Such a run from the first start. |
| ControllerTokens.NextTokens | src/ui/appcontroller.cpp:57-1066 | The access token, the refresh token and the stored one after every event. |
| ControllerTokens.TokensAgree | src/ui/appcontroller.cpp:57-1066 | Over every run the refresh token in memory is the stored one. |
| ControllerTokens.CallsExactly | src/ui/appcontroller.cpp:678-772 | A refresh for a sync starts exactly by asking for a sync with a refresh token, a write exactly by writing an item with an access token, and a refresh for a write exactly by writing without one or by a refused write, with a refresh token. |
| ControllerVault.NextVault | src/ui/appcontroller.cpp:57-1066 | The vault after every event: which of its operations runs, and with what. |
| ControllerVault.OpensExactly | src/ui/appcontroller.cpp:413-486 | A closed vault opens exactly when a derived master key, a key behind a PIN, or the key of a pending login opens it. |
| ControllerVault.ClosesExactly | src/ui/appcontroller.cpp:413-676 | An open vault closes exactly by locking, signing out, a restart, minimising under the setting, the end of the interval, a key that does not open it, or a document that parses but cannot be taken over. |
| ControllerVault.AutoLockExactly | src/ui/appcontroller.cpp:115-120 | Under an interval of some minutes an open vault that is left alone stays open for exactly that long, however the time is cut up, and activity starts it anew. |
| ControllerVault.SettingsStay | src/ui/appcontroller.cpp:115-144 | The interval and the choice to lock when minimised outlive a restart. |
| ControllerPin.WrongPinExactly | src/ui/appcontroller.cpp:633-645 | The first and second wrong PIN in a row only count, the third deletes the wrapped key and its counter, and nothing else changes. |
| ControllerPin.KeyLostExactly | src/ui/appcontroller.cpp:588-668 | A stored wrapped key is lost exactly by forgetting it, signing out, finding it unreadable, a third wrong PIN, or a right PIN whose key does not open the vault. |
| ControllerPin.PasswordUnlocks | src/ui/appcontroller.cpp:459-486 | Asking to unlock and the derived key: a key that opens the vault shows its items on the unlocked page; any other leaves vault closed, page and settings as they were. |
| ControllerPin.PinEnables | src/ui/appcontroller.cpp:514-586 | A PIN of at least four characters and a master key that verifies store the wrapped key and clear the counter; without either nothing is stored. |
| ControllerPin.PinSession | src/ui/appcontroller.cpp:514-676 | Enabling a PIN in an open vault, locking, and entering it shows the same items again. |
| ControllerFlows.WriteEitherWay | src/ui/appcontroller.cpp:722-812 | A write that goes through at once, after a refusal and a refresh, or after a refresh without an access token: the vault reloads the same document, and the page stays unlocked exactly when that succeeds. |
| ControllerFlows.RefusedTwice | src/ui/appcontroller.cpp:722-780 | A token is refreshed once per write: a second refusal ends it and leaves vault, list and page alone. |
| ControllerFlows.SaveShows | src/ui/appcontroller.cpp:722-861 | From the editor to the list: saving an entry in an open session, and the answers of the server, show the entered values in the item's row and every other row as before. |
| ControllerFlows.SyncResyncs | src/ui/appcontroller.cpp:678-720 | Asking for a sync and its two answers: the vault reloads the document, and the page stays unlocked exactly when that succeeds. |
| ControllerFlows.SyncRefused | src/ui/appcontroller.cpp:689-701 | A refused refresh forgets the token and asks for a login, but only over a closed vault. |
| ControllerFlows.TwoFactorSession | src/ui/appcontroller.cpp:318-364 | Every account without items reaches an unlocked session through a second factor too. |
| ControllerFlows.WorkEnds | src/ui/appcontroller.cpp:234-812 | Whatever the answers are, outstanding work leads to a bounded number of them: no retry, refresh or follow-up goes on for ever. |

## Left out

- AES, HMAC, Argon2, PBKDF2, HKDF, RSA and the system's random source: replaced by the laws of `CryptoSuite.Lawful`.
- Network and file access: every call is outstanding until it completes once with any outcome; files and settings are
  values whose reading and writing succeed.
- JSON text, QString and UTF-8 decoding: documents arrive as values, None for text that is not a JSON object.
- JSON numbers outside what `toInt` accepts read as 0, as Qt does; other numeric subtleties of doubles are not modelled.
- The revision date is an opaque text; the profile e-mail and collections are not read.
- Item getters for password, notes, TOTP text and detail fields: one decryption each.
- Zeroing, locking and copying of memory.
- 32-bit overflow of `minDigits + minSymbols`, of `seconds * 1000`, and of `atoi` on numbers beyond an int.
- `randomBytes` failures while encrypting a field or wrapping a PIN: iv and salt are parameters.
- Locale collation beyond a total preorder, and case folding beyond one character at a time.
- `refreshAndSync` is always called with `freshLogin` false, so that flag is fixed for it.
- A controller slot or callback is one atomic step; worker threads only show as jobs not yet delivered.
- What happens after the read of missing secrets at src/ui/appcontroller.cpp:323: the model goes on without a pending hash.
- Requests carry no payload in the controller: which item a write is about is checked when it starts, and the reply
  only says whether it was written.
- Settings that no modelled branch reads (clipboard, generator options, server address), clipboard handling, e-mail
  codes, role tables and all QML.
- PasswordGen.Rng.Random32: the supply of draws is finite, so a run that rejects for ever appears as a failing source.
