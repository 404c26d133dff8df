# Gestión de claves — a verified model of the vault logic

Gestión de claves is a single-user desktop password manager written in
Python with customtkinter. Its vault is a dictionary `App.passwords` from a
service name to `{username, password, notes}`, kept encrypted on disk
(Fernet, under a key derived by PBKDF2 from a master password and a salt
stored in `salt.bin`). Around the windows and dialogs sits a small amount of
plain logic, which this project models in Dafny and proves properties of:

- the credential map operations of the main window — add (refuses a
  duplicate service), edit (overwrites), delete (only a confirmed
  selection) — each stating exactly which key changes, that every other
  key keeps its entry, and whether the vault was saved;
- the service list — a case-insensitive substring filter over the keys,
  sorted ascending — proved strictly ascending, duplicate-free, exactly the
  matching keys, and equal to any other such listing;
- the add/edit dialog's check that service, user name and password are
  non-empty before the save callback runs;
- the password generator — the alphabet is the selected classes in the
  fixed order upper, lower, digits, punctuation; no class gives the
  sentinel text; otherwise `length` characters, each drawn from the
  alphabet by a caller-supplied index (the random choice);
- the small state machines of the application object — the window-close
  handler with its re-entry guard, `get_salt` as get-or-create,
  `load_passwords` with its fallback to an empty vault, `save_passwords`,
  and the login flow.

Modules: `Wrappers` (Option), `Text` (ASCII `str.lower`, substring test,
Python's string order), `Listing` (sorting a set of names, the search),
`Generator`, `Entries` (entry and record values, the dialog's check, the
well-formedness invariant), `Gestor` (the classes `App` and `MainAppFrame`
and the close handler) and `Scenarios` (client runs that use only the
contracts of `Gestor`).

How external effects are represented:

- The salt file is the field `App.saltFile: Option<seq<bv8>>`; the store
  file's existence is `App.dataFileExists`; each store write is recorded in
  `App.written`, the sequence of vaults handed to encryption, so "the vault
  was not saved" is `written == old(written)`.
- The key is `Derived(masterPassword, salt)`: it depends on those two
  inputs alone, and nothing more is claimed about PBKDF2 or Fernet. The
  constructor only names the key's inputs; that two different pairs give
  different values of `Key` is a property of the datatype, not a claim
  that PBKDF2 is injective, and no contract relies on it.
- Each decryption's outcome is a parameter: a boolean for the login check,
  an `Option` of the parsed vault for `load_passwords` (None for any
  failure of reading, decrypting or parsing).
- `os.urandom(16)` is a parameter of sixteen bytes; `secrets.choice` is a
  sequence of indices, one per character, each below the alphabet's size.

Places where one might expect stricter behaviour; the model does what
the code does:

- Editing stores under the service name without checking that it exists;
  no not-found error is raised.
- `load_passwords` replaces the vault with an empty one on any failure, so
  a store that fails to decrypt or parse reads like a new vault; the
  failure is only printed.
- A salt file is returned whatever its length; a file that is not 16
  bytes is not rejected.
- Records are not validated beyond the dialog's check, and the store is
  overwritten in place rather than replaced atomically.

Behaviour the contracts make visible:

- With `salt.bin` present and `passwords.json.enc` missing, every
  non-empty master password is rejected as incorrect
  (`Gestor.App.LoginEvent`, `Scenarios.LockedOutWithoutStore`).
- Deriving the key for the login check creates a missing salt file even
  when the check then fails.
- Closing the window of a logged-in session returns to the login screen
  but leaves the decrypted vault and the key in memory; only the flags and
  frames change (`Gestor.HandleAppClosing`).

## Model

| member | source | states |
|---|---|---|
| `Text.Lower` | main.py:219-220 | `str.lower` for ASCII only: same length, A-Z shifted to a-z, every other character kept (non-ASCII letters are not lower-cased; see "## Left out") |
| `Text.Contains` | main.py:220 | Python's `needle in hay`: some position of `hay` starts a copy of `needle`; the empty needle is in every string, a longer one in none |
| `Text.Below` | main.py:221 | Python's `<` on `str` that `sorted` uses: code-point lexicographic order, a proper prefix first; never holds of equal strings |
| `Text.LowerIdempotent` | main.py:219-220 | lower-casing a lower-cased name changes nothing, and a lower-cased name has no letter A-Z |
| `Text.ContainsEmpty` | main.py:220 | the empty query is contained in every name |
| `Text.ContainsSelf` | main.py:220 | every name contains itself |
| `Text.BelowIrreflexive` | main.py:221 | no name sorts before itself |
| `Text.BelowTransitive` | main.py:221 | the sort order is transitive |
| `Text.BelowTotal` | main.py:221 | of two different names one sorts before the other |
| `Text.BelowAsymmetric` | main.py:221 | two names never sort before each other |
| `Listing.LeastExists` | main.py:221 | every non-empty set of names has a smallest element |
| `Listing.LeastUnique` | main.py:221 | that smallest element is unique |
| `Listing.SortSet` | main.py:221 | the result is strictly ascending, holds exactly the elements of the set, and has its size (so no duplicates) |
| `Listing.AscendingUnique` | main.py:221 | two strictly ascending sequences with the same elements are equal, so the listing does not depend on dictionary order |
| `Listing.Matches` | main.py:220 | the comprehension's filter: the lowered query occurs in the lowered name; the empty query matches every name |
| `Listing.Search` | main.py:219-221 | strictly ascending; a name is listed iff it is a key and its lower-cased form contains the lower-cased query; as many names as matching keys |
| `Listing.SearchCharacterized` | main.py:219-221 | any strictly ascending listing of exactly the matching keys equals the search result |
| `Listing.SearchEmptyQuery` | main.py:219-221 | an empty query lists every key, sorted |
| `Listing.SearchIgnoresQueryCase` | main.py:219 | lower-casing the query first gives the same listing |
| `Listing.SearchFindsOwnName` | main.py:220 | a stored service is listed when searched by its own name |
| `Listing.SearchGitFindsGithub` | main.py:219-221 | searching "git" in a vault holding only "github" lists exactly ["github"] |
| `Generator.CharRange` | main.py:406-409 | a character block has the expected size, holds exactly the characters in its range, in code-point order |
| `Generator.Uppercase` | main.py:406 | `string.ascii_uppercase`: the 26 letters A-Z in order |
| `Generator.Lowercase` | main.py:407 | `string.ascii_lowercase`: the 26 letters a-z in order |
| `Generator.Digits` | main.py:408 | `string.digits`: the 10 digits 0-9 in order |
| `Generator.NoClassMessage` | main.py:413 | the exact sentinel text written to the field when no class is ticked (and compared against before copying) |
| `Generator.Punctuation` | main.py:409 | `string.punctuation`: the 32 printable ASCII characters that are neither letters, digits nor space, in code-point order |
| `Generator.DefaultClasses` | main.py:379-382 | the check boxes as the dialog opens: upper, lower and digits ticked, symbols not |
| `Generator.Alphabet` | main.py:405-409 | `characters` after the four `+=` steps: the selected blocks in the order upper, lower, digits, punctuation; its size is the sum of the selected blocks' sizes, and it is empty iff no box is ticked |
| `Generator.AlphabetMembers` | main.py:405-410 | a character is in the alphabet iff it belongs to a selected class; the alphabet is empty iff no class is selected |
| `Generator.AlphabetOrdered` | main.py:405-409 | the alphabet lists upper-case letters, then lower-case letters, then digits, then punctuation |
| `Generator.AlphabetSizes` | main.py:379-382 | classes of 26, 26, 10 and 32 characters; the default selection (symbols off) gives 62 characters, all four 94 |
| `Generator.SentinelIsNotAPassword` | main.py:410-416 | no string made of class characters equals the sentinel text, because the sentinel holds a space |
| `Generator.Shown` | main.py:410-420 | the field shows the sentinel text exactly when no password was produced or the password equals it |
| `Generator.GeneratePassword` | main.py:401-420 | the sentinel iff no class is selected; otherwise exactly `length` characters, character i being alphabet entry `draws[i]`, every one in a selected class; the field shows the sentinel iff no class is selected |
| `Entries.Stored` | main.py:256 | `new_data.pop("service")`: the entry left once the service name is removed; putting the name back gives the record again |
| `Entries.Complete` | main.py:354 | the negation of the dialog's test: service, user name and password non-empty, notes unconstrained |
| `Entries.SaveEntry` | main.py:349-358 | the callback gets a record iff service, user name and password are non-empty (notes may be empty); that record holds exactly the four fields |
| `Entries.PutKeepsWellFormed` | main.py:255-260 | storing a record that passed the check keeps every entry's service, user name and password non-empty |
| `Entries.EditUnchangedRoundTrip` | main.py:264-276 | reopening a stored entry in the edit dialog and saving it unchanged passes the check and leaves the vault as it was |
| `Gestor.App.constructor` | main.py:40-56 | empty vault, not logged in, not closing, login frame shown, files as found on disk |
| `Gestor.SaltLength` | main.py:81 | `os.urandom(16)`: a new salt is 16 bytes |
| `Gestor.App.GetSalt` | main.py:76-84 | an existing salt is returned unchanged and never overwritten; a missing one is created from the random bytes and returned |
| `Gestor.App.DeriveFernetKey` | main.py:86-96 | the key is a function of the master password and the salt now on disk |
| `Gestor.App.LoadPasswords` | main.py:98-109 | the vault is the decrypted one when the store exists and decrypts; otherwise empty |
| `Gestor.App.SavePasswords` | main.py:111-118 | with a key, the current vault is appended to the store writes and the store exists; without one nothing is written |
| `Gestor.App.OnLoginSuccess` | main.py:62-70 | logged in, key derived from the password and the salt, vault loaded, main frame replaces the login frame |
| `Gestor.App.LoginEvent` | main.py:139-158 | empty password: nothing changes; no store and no salt: new empty vault saved; otherwise unlocked iff the store exists and decrypts, and a rejected password leaves vault, session and store writes unchanged; an existing salt is never changed |
| `Gestor.HandleAppClosing` | main.py:13-30 | a close during a close changes nothing; a logged-in session goes back to the login screen with the closing flag cleared; otherwise the program quits with the flag left set |
| `Gestor.MainAppFrame.constructor` | main.py:164-214 | empty search box, no selection, every service listed in order |
| `Gestor.MainAppFrame.RefreshPasswordList` | main.py:216-227 | the list is the search result for the current query and the selection is cleared |
| `Gestor.MainAppFrame.OnSearchKeyRelease` | main.py:200-202 | a new query refreshes the list for that query |
| `Gestor.HasSelection` | main.py:281 | Python truthiness of `current_selected_entry`: not None and not the empty string |
| `Gestor.MainAppFrame.ShowEntryDetails` | main.py:229-245 | the service becomes the selection; its entry is shown, blank fields when absent |
| `Gestor.MainAppFrame.OnAddSave` | main.py:255-262 | a duplicate service leaves vault, store and list unchanged; otherwise exactly that key is added with the record minus its service name, every other key keeps its entry, the vault is saved when a key is held (always after login) and the list refreshed |
| `Gestor.MainAppFrame.OnEditSave` | main.py:273-278 | the record is stored under its service name whether or not it was present, every other key keeps its entry, the vault is saved when a key is held (always after login), the list refreshed and the service selected |
| `Gestor.MainAppFrame.DeleteSelectedEntry` | main.py:280-293 | only a non-empty selection confirmed with "Sí" whose key is present removes exactly that key and saves when a key is held (always after login); no selection, any other answer or a missing key change nothing |
| `Scenarios.FirstRunAdd` | main.py:144-150 | a first run with no files adopts the password, creates the salt, and after adding "github" the last store write is the one-entry vault |
| `Scenarios.ReloadAndSearch` | main.py:151-156 | after a restart the same password derives the same key, and searching "git" lists ["github"] with its fields intact, given that the store decrypts to the vault last written (a supplied outcome, not proved) |
| `Scenarios.CloseTwice` | main.py:18-30 | closing a logged-in session returns to the login screen without quitting; closing again quits |
| `Scenarios.LockedOutWithoutStore` | main.py:144-158 | with a salt file and no store, every non-empty password is rejected |
| `Scenarios.WrongPasswordKeepsStore` | main.py:151-158 | a rejected password writes nothing and does not log in |

## Left out

- Windows, frames, dialogs, icons, message boxes and the clipboard are not modelled; only the decisions they carry are (which frame is shown, which message outcome, the selection).
- PBKDF2 and Fernet are not modelled: a key is named by the password and salt it comes from, and decryptions are caller-supplied outcomes; nothing is claimed about round trips, tampering or wrong keys.
- JSON encoding and decoding are not modelled; a store that parses into records lacking a field cannot be represented, since entries are typed.
- File reads and writes are assumed to succeed; the exception handlers around them are modelled only where they change state (a failed decryption or parse during load, encryption without a key during save, and the login check, where a missing store or a failed decryption gives `WrongPassword`, "Contraseña maestra incorrecta.").
- The first-run branch's error message ("Error al establecer contraseña") is not modelled, since it arises only from I/O failures.
- `os.urandom` and `secrets.choice` are parameters; nothing is claimed about uniformity.
- `Gestor.App.OnLoginSuccess` receives the same random bytes as the check before it; on the unlock path the salt exists by then, so they are unused, while on the first-run path it is the call that creates the salt from them.
- `Generator.GeneratePassword` takes the length as a natural number; the slider, its float value and the `int()` conversion are left out (the slider keeps it between 8 and 32).
- `Text.Lower` maps only the ASCII letters A-Z; Python's `str.lower` also lower-cases other letters, and can change a string's length.
- `Gestor.MainAppFrame.DeleteSelectedEntry` takes the confirmation answer as a string; a box closed without an answer is any string other than "Sí". The printed "Eliminación cancelada." is not modelled.
- Console output (`print`) is not modelled.
