/**
 * The application object and its main window, reduced to the state the
 * vault logic reads and writes: the in-memory vault, the login and closing
 * flags, which screen is shown, the salt file, and what is written to the
 * encrypted store. Key derivation and encryption are not modelled: a key
 * is named by what it is derived from, and the outcome of each decryption
 * is supplied by the caller.
 */
module Gestor {
  import opened Wrappers
  import opened Entries
  import opened Listing

  /** `os.urandom(16)`: the salt is sixteen bytes. */
  const SaltLength: nat := 16

  /**
   * The Fernet key of a session: PBKDF2-HMAC-SHA256 (100000 iterations,
   * 32 bytes) of the master password under the salt, which is a function
   * of these two inputs alone. The constructor only names those inputs;
   * it does not model PBKDF2 as injective, and no contract relies on that.
   */
  datatype Key = Derived(masterPassword: string, salt: seq<bv8>)

  /** What the login screen does with one press of "Iniciar Sesión". */
  datatype LoginOutcome =
    | EmptyPassword  // "La contraseña no puede estar vacía."
    | NewVault       // no store and no salt: the password is adopted and an empty vault saved
    | Unlocked       // the store decrypted under the derived key
    | WrongPassword  // "Contraseña maestra incorrecta."

  class App {
    /** `self.passwords`: service name to entry. */
    var passwords: map<string, Entry>
    var masterPassword: Option<string>
    /** `self.fernet`, named by what it was derived from. */
    var key: Option<Key>
    var isLoggedIn: bool
    var isClosing: bool
    /** `self.main_app_frame` is not None. */
    var mainFrameShown: bool
    /** A login frame is on screen. */
    var loginFrameShown: bool
    /** `self.quit()` has been called. */
    var quitRequested: bool
    /** Contents of `salt.bin`, None when the file does not exist. */
    var saltFile: Option<seq<bv8>>
    /** `passwords.json.enc` exists. */
    var dataFileExists: bool
    /** The vaults handed to encryption and written to the store, oldest first. */
    var written: seq<map<string, Entry>>

    /** `App.__init__`, with the files left on disk by earlier sessions; it ends by showing the login frame. */
    constructor (saltOnDisk: Option<seq<bv8>>, storeOnDisk: bool)
      ensures passwords == map[] && masterPassword == None && key == None
      ensures !isLoggedIn && !isClosing && !mainFrameShown && loginFrameShown && !quitRequested
      ensures saltFile == saltOnDisk && dataFileExists == storeOnDisk && written == []
    {
      passwords := map[];
      masterPassword := None;
      key := None;
      isLoggedIn := false;
      isClosing := false;
      mainFrameShown := false;
      loginFrameShown := true;
      quitRequested := false;
      saltFile := saltOnDisk;
      dataFileExists := storeOnDisk;
      written := [];
    }

    /**
     * `get_salt`: get-or-create. An existing salt file is returned as it is;
     * otherwise the random bytes are written and returned.
     */
    method GetSalt(randomBytes: seq<bv8>) returns (salt: seq<bv8>)
      requires |randomBytes| == SaltLength
      modifies this`saltFile
      ensures saltFile == Some(salt)
      ensures old(saltFile).Some? ==> salt == old(saltFile).value
      ensures old(saltFile).None? ==> salt == randomBytes
    {
      if saltFile.Some? {
        salt := saltFile.value;
      } else {
        salt := randomBytes;
        saltFile := Some(salt);
      }
    }

    /** `derive_fernet_key`: the key of the master password under the (possibly new) salt. */
    method DeriveFernetKey(master: string, randomBytes: seq<bv8>) returns (k: Key)
      requires |randomBytes| == SaltLength
      modifies this`saltFile
      ensures saltFile == Some(if old(saltFile).Some? then old(saltFile).value else randomBytes)
      ensures k == Derived(master, saltFile.value)
    {
      var salt := GetSalt(randomBytes);
      k := Derived(master, salt);
    }

    /**
     * `load_passwords`. `decrypted` is the outcome of reading, decrypting and
     * parsing the store: None for any failure. Every failure, like a missing
     * store, leaves an empty vault.
     */
    method LoadPasswords(decrypted: Option<map<string, Entry>>)
      modifies this`passwords
      ensures dataFileExists && decrypted.Some? ==> passwords == decrypted.value
      ensures !(dataFileExists && decrypted.Some?) ==> passwords == map[]
    {
      if dataFileExists {
        match decrypted
        case Some(m) => passwords := m;
        case None => passwords := map[];
      } else {
        passwords := map[];
      }
    }

    /**
     * `save_passwords`: the whole vault is encrypted and the store rewritten.
     * Without a key the encryption raises, the handler swallows it and nothing is written.
     */
    method SavePasswords()
      modifies this`written, this`dataFileExists
      ensures key.Some? ==> written == old(written) + [passwords] && dataFileExists
      ensures key.None? ==> written == old(written) && dataFileExists == old(dataFileExists)
    {
      if key.Some? {
        written := written + [passwords];
        dataFileExists := true;
      }
    }

    /** `on_login_success`: derive the key, load the vault, swap the login frame for the main frame. */
    method OnLoginSuccess(master: string, randomBytes: seq<bv8>, decrypted: Option<map<string, Entry>>)
      requires |randomBytes| == SaltLength
      modifies this`isLoggedIn, this`masterPassword, this`key, this`saltFile, this`passwords
      modifies this`loginFrameShown, this`mainFrameShown
      ensures isLoggedIn && masterPassword == Some(master)
      ensures saltFile == Some(if old(saltFile).Some? then old(saltFile).value else randomBytes)
      ensures key == Some(Derived(master, saltFile.value))
      ensures passwords == if dataFileExists && decrypted.Some? then decrypted.value else map[]
      ensures !loginFrameShown && mainFrameShown
    {
      isLoggedIn := true;
      masterPassword := Some(master);
      var k := DeriveFernetKey(master, randomBytes);
      key := Some(k);
      LoadPasswords(decrypted);
      loginFrameShown := false;
      mainFrameShown := true;
    }

    /**
     * `LoginFrame.login_event` acting on this application. `testDecrypts`
     * says whether the store decrypts under the key derived for the check;
     * `decrypted` is the outcome of the load that follows a success.
     * With no store and no salt the password is adopted and an empty vault
     * saved; otherwise the store must exist and decrypt.
     */
    method LoginEvent(master: string, randomBytes: seq<bv8>, testDecrypts: bool,
                      decrypted: Option<map<string, Entry>>) returns (outcome: LoginOutcome)
      requires |randomBytes| == SaltLength
      modifies this`isLoggedIn, this`masterPassword, this`key, this`saltFile, this`passwords
      modifies this`loginFrameShown, this`mainFrameShown, this`written, this`dataFileExists
      ensures master == "" ==> outcome == EmptyPassword && saltFile == old(saltFile)
      ensures master != "" && old(saltFile).None? && !old(dataFileExists) ==> outcome == NewVault
      ensures master != "" && (old(saltFile).Some? || old(dataFileExists)) ==>
                outcome == if old(dataFileExists) && testDecrypts then Unlocked else WrongPassword
      // Deriving the key, even for a check that fails, creates a missing salt; an existing one is kept.
      ensures master != "" ==> saltFile == Some(if old(saltFile).Some? then old(saltFile).value else randomBytes)
      ensures outcome.NewVault? || outcome.Unlocked? ==>
                && isLoggedIn && masterPassword == Some(master)
                && key == Some(Derived(master, saltFile.value))
                && !loginFrameShown && mainFrameShown
      ensures outcome.NewVault? ==> passwords == map[] && written == old(written) + [map[]] && dataFileExists
      ensures outcome.Unlocked? ==>
                && passwords == (if decrypted.Some? then decrypted.value else map[])
                && written == old(written) && dataFileExists
      ensures outcome.EmptyPassword? || outcome.WrongPassword? ==>
                && passwords == old(passwords) && isLoggedIn == old(isLoggedIn)
                && masterPassword == old(masterPassword) && key == old(key)
                && loginFrameShown == old(loginFrameShown) && mainFrameShown == old(mainFrameShown)
                && written == old(written) && dataFileExists == old(dataFileExists)
    {
      if master == "" {
        return EmptyPassword;
      }
      if !dataFileExists && saltFile.None? {
        OnLoginSuccess(master, randomBytes, decrypted);
        SavePasswords();
        return NewVault;
      }
      var _ := DeriveFernetKey(master, randomBytes);
      if !dataFileExists || !testDecrypts {
        return WrongPassword;
      }
      OnLoginSuccess(master, randomBytes, decrypted);
      outcome := Unlocked;
    }
  }

  /**
   * `handle_app_closing`, the window-close handler. A call while a close is
   * under way does nothing. A logged-in session is sent back to the login
   * screen with the flag cleared for next time; otherwise the program quits.
   */
  method HandleAppClosing(app: App)
    modifies app`isClosing, app`isLoggedIn, app`mainFrameShown, app`loginFrameShown, app`quitRequested
    ensures old(app.isClosing) ==>
              && app.isClosing && app.isLoggedIn == old(app.isLoggedIn)
              && app.mainFrameShown == old(app.mainFrameShown)
              && app.loginFrameShown == old(app.loginFrameShown)
              && app.quitRequested == old(app.quitRequested)
    ensures !old(app.isClosing) && old(app.isLoggedIn) ==>
              && !app.isClosing && !app.isLoggedIn && !app.mainFrameShown && app.loginFrameShown
              && app.quitRequested == old(app.quitRequested)
    ensures !old(app.isClosing) && !old(app.isLoggedIn) ==>
              && app.isClosing && !app.isLoggedIn && app.quitRequested
              && app.mainFrameShown == old(app.mainFrameShown)
              && app.loginFrameShown == old(app.loginFrameShown)
  {
    if app.isClosing {
      return;
    }
    app.isClosing := true;
    if app.isLoggedIn {
      app.isLoggedIn := false;
      app.mainFrameShown := false;
      app.isClosing := false;
      app.loginFrameShown := true;
    } else {
      app.quitRequested := true;
    }
  }

  /** What the delete button did. */
  datatype DeleteOutcome =
    | NoSelection  // no entry selected: nothing happens
    | Cancelled    // the confirmation was not answered "Sí"
    | Deleted
    | KeyMissing   // `del` of an absent key raises KeyError before anything changes

  /** `current_selected_entry` holds a non-empty service name (Python truthiness). */
  predicate HasSelection(selected: Option<string>)
  {
    selected.Some? && selected.value != ""
  }

  /** The main window: the search box, the listed services and the selected one. */
  class MainAppFrame {
    const app: App
    /** Text of the search box. */
    var query: string
    /** The services shown as buttons, top to bottom. */
    var listed: seq<string>
    /** `current_selected_entry`. */
    var selected: Option<string>

    /** `MainAppFrame.__init__`: an empty search box and the full, sorted list. */
    constructor (app: App)
      ensures this.app == app && query == "" && selected == None
      ensures listed == Search(app.passwords.Keys, "")
    {
      this.app := app;
      query := "";
      listed := Search(app.passwords.Keys, "");
      selected := None;
    }

    /** `refresh_password_list`: rebuild the list for the current query and clear the selection. */
    method RefreshPasswordList()
      modifies this`listed, this`selected
      ensures listed == Search(app.passwords.Keys, query) && selected == None
    {
      listed := Search(app.passwords.Keys, query);
      selected := None;
    }

    /** The `<KeyRelease>` binding of the search box: a new query refreshes the list. */
    method OnSearchKeyRelease(text: string)
      modifies this`query, this`listed, this`selected
      ensures query == text && listed == Search(app.passwords.Keys, text) && selected == None
    {
      query := text;
      RefreshPasswordList();
    }

    /** `show_entry_details`: select the service and return the fields shown, blank when absent. */
    method ShowEntryDetails(service: string) returns (shown: Entry)
      modifies this`selected
      ensures selected == Some(service)
      ensures service in app.passwords ==> shown == app.passwords[service]
      ensures service !in app.passwords ==> shown == Entry("", "", "")
    {
      selected := Some(service);
      shown := if service in app.passwords then app.passwords[service] else Entry("", "", "");
    }

    /**
     * `_on_add_save`: a service already in the vault is refused with a
     * warning and nothing is saved; otherwise exactly that key is added,
     * the vault saved and the list refreshed.
     */
    method OnAddSave(newData: Record) returns (added: bool)
      modifies app`passwords, app`written, app`dataFileExists, this`listed, this`selected
      ensures added <==> newData.service !in old(app.passwords)
      ensures !added ==>
                && app.passwords == old(app.passwords) && app.written == old(app.written)
                && app.dataFileExists == old(app.dataFileExists)
                && listed == old(listed) && selected == old(selected)
      ensures added ==>
                && newData.service in app.passwords && app.passwords[newData.service] == Stored(newData)
                && SameExcept(old(app.passwords), app.passwords, newData.service)
                && app.written == old(app.written) + (if app.key.Some? then [app.passwords] else [])
                && app.dataFileExists == (old(app.dataFileExists) || app.key.Some?)
                && listed == Search(app.passwords.Keys, query) && selected == None
      ensures WellFormed(old(app.passwords)) && Complete(newData) ==> WellFormed(app.passwords)
    {
      var service := newData.service;
      if service in app.passwords {
        return false;
      }
      if WellFormed(app.passwords) && Complete(newData) {
        PutKeepsWellFormed(app.passwords, newData);
      }
      app.passwords := app.passwords[service := Stored(newData)];
      app.SavePasswords();
      RefreshPasswordList();
      added := true;
    }

    /**
     * `_on_edit_save`: the record is stored under its service name whether
     * or not that key was present; then save, refresh, and select it again.
     */
    method OnEditSave(updated: Record)
      modifies app`passwords, app`written, app`dataFileExists, this`listed, this`selected
      ensures updated.service in app.passwords && app.passwords[updated.service] == Stored(updated)
      ensures SameExcept(old(app.passwords), app.passwords, updated.service)
      ensures app.written == old(app.written) + (if app.key.Some? then [app.passwords] else [])
      ensures app.dataFileExists == (old(app.dataFileExists) || app.key.Some?)
      ensures listed == Search(app.passwords.Keys, query) && selected == Some(updated.service)
      ensures WellFormed(old(app.passwords)) && Complete(updated) ==> WellFormed(app.passwords)
    {
      var service := updated.service;
      if WellFormed(app.passwords) && Complete(updated) {
        PutKeepsWellFormed(app.passwords, updated);
      }
      app.passwords := app.passwords[service := Stored(updated)];
      app.SavePasswords();
      RefreshPasswordList();
      var _ := ShowEntryDetails(service);
    }

    /**
     * `delete_selected_entry`, with `response` the button pressed in the
     * confirmation box. Only a selection confirmed with "Sí" removes its key.
     */
    method DeleteSelectedEntry(response: string) returns (outcome: DeleteOutcome)
      modifies app`passwords, app`written, app`dataFileExists, this`listed, this`selected
      ensures outcome.NoSelection? <==> !HasSelection(old(selected))
      ensures outcome.Cancelled? <==> HasSelection(old(selected)) && response != "Sí"
      ensures outcome.KeyMissing? <==>
                HasSelection(old(selected)) && response == "Sí" && old(selected).value !in old(app.passwords)
      ensures !outcome.Deleted? ==>
                && app.passwords == old(app.passwords) && app.written == old(app.written)
                && app.dataFileExists == old(app.dataFileExists)
                && listed == old(listed) && selected == old(selected)
      ensures outcome.Deleted? ==>
                && old(selected).value in old(app.passwords) && app.passwords == old(app.passwords) - {old(selected).value}
                && app.written == old(app.written) + (if app.key.Some? then [app.passwords] else [])
                && app.dataFileExists == (old(app.dataFileExists) || app.key.Some?)
                && listed == Search(app.passwords.Keys, query) && selected == None
      ensures WellFormed(old(app.passwords)) ==> WellFormed(app.passwords)
    {
      if !HasSelection(selected) {
        return NoSelection;
      }
      if response != "Sí" {
        return Cancelled;
      }
      var service := selected.value;
      if service !in app.passwords {
        return KeyMissing;
      }
      app.passwords := app.passwords - {service};
      app.SavePasswords();
      RefreshPasswordList();
      outcome := Deleted;
    }
  }
}
