/**
 * Client runs of the model: what a caller can conclude from the contracts
 * of the application object and its main window alone.
 */
module Scenarios {
  import opened Wrappers
  import opened Entries
  import opened Listing
  import opened Gestor

  /**
   * A first run with no files: the password is adopted and "github" added.
   * Returns the salt file and the vault last written to the store.
   */
  method FirstRunAdd(master: string, salt: seq<bv8>)
      returns (saltFile: Option<seq<bv8>>, store: map<string, Entry>, key: Option<Key>)
    requires |salt| == SaltLength && master != ""
    ensures saltFile == Some(salt) && key == Some(Derived(master, salt))
    ensures store == map["github" := Entry("alice", "p@ss", "")]
  {
    var app := new App(None, false);
    var outcome := app.LoginEvent(master, salt, false, None);
    assert outcome == NewVault;
    var frame := new MainAppFrame(app);
    var record := SaveEntry("github", "alice", "p@ss", "");
    var added := frame.OnAddSave(record.value);
    assert added;
    OnlyKeyAdded(app.passwords, "github");
    saltFile, store, key := app.saltFile, app.written[|app.written| - 1], app.key;
  }

  /**
   * The program restarted on the files of a first run: the same password
   * unlocks the store (its decryption yielding the vault last written), the
   * key is the same because the salt is reused, and searching "git" lists
   * exactly "github" with its fields intact.
   */
  method ReloadAndSearch(master: string, salt: seq<bv8>, randomBytes: seq<bv8>)
      returns (listed: seq<string>, shown: Entry, firstKey: Option<Key>, secondKey: Option<Key>)
    requires |salt| == SaltLength && |randomBytes| == SaltLength && master != ""
    ensures listed == ["github"]
    ensures shown == Entry("alice", "p@ss", "")
    ensures firstKey.Some? && firstKey == secondKey
  {
    var saltFile, store, key := FirstRunAdd(master, salt);
    firstKey := key;
    var app := new App(saltFile, true);
    var outcome := app.LoginEvent(master, randomBytes, true, Some(store));
    assert outcome == Unlocked;
    secondKey := app.key;
    var frame := new MainAppFrame(app);
    assert app.passwords.Keys == {"github"};
    frame.OnSearchKeyRelease("git");
    SearchGitFindsGithub();
    listed := frame.listed;
    shown := frame.ShowEntryDetails("github");
  }

  /**
   * Closing the window of a logged-in session returns to the login screen
   * without quitting; closing it again quits.
   */
  method CloseTwice(salt: seq<bv8>) returns (loginAfterFirst: bool, quitAfterFirst: bool, quitAfterSecond: bool)
    requires |salt| == SaltLength
    ensures loginAfterFirst && !quitAfterFirst && quitAfterSecond
  {
    var app := new App(None, false);
    var outcome := app.LoginEvent("master", salt, false, None);
    assert app.isLoggedIn && !app.isClosing;
    HandleAppClosing(app);
    loginAfterFirst, quitAfterFirst := app.loginFrameShown && !app.isLoggedIn, app.quitRequested;
    HandleAppClosing(app);
    quitAfterSecond := app.quitRequested;
  }

  /** With a salt on disk but no store, no password logs in. */
  method LockedOutWithoutStore(salt: seq<bv8>, master: string, randomBytes: seq<bv8>, testDecrypts: bool)
      returns (outcome: LoginOutcome)
    requires |randomBytes| == SaltLength && master != ""
    ensures outcome == WrongPassword
  {
    var app := new App(Some(salt), false);
    outcome := app.LoginEvent(master, randomBytes, testDecrypts, None);
  }

  /** A wrong password against an existing store changes neither the store nor the session. */
  method WrongPasswordKeepsStore(salt: seq<bv8>, master: string, randomBytes: seq<bv8>)
      returns (outcome: LoginOutcome, writes: nat, loggedIn: bool)
    requires |randomBytes| == SaltLength && master != ""
    ensures outcome == WrongPassword && writes == 0 && !loggedIn
  {
    var app := new App(Some(salt), true);
    outcome := app.LoginEvent(master, randomBytes, false, None);
    writes, loggedIn := |app.written|, app.isLoggedIn;
  }
}
