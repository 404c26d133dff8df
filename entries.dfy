/**
 * The credential records: the value stored under each service name, the
 * record the add/edit dialog hands to its save callback, and the dialog's
 * check that the required fields are filled in.
 */
module Entries {
  import opened Wrappers

  /** The value `App.passwords` maps a service name to. */
  datatype Entry = Entry(username: string, password: string, notes: string)

  /** The dictionary `save_entry` builds: the service name and the three entry fields. */
  datatype Record = Record(service: string, username: string, password: string, notes: string)

  /** `data.pop("service")`: what is left of the record once the service name is taken out. */
  function Stored(r: Record): (e: Entry)
    ensures Record(r.service, e.username, e.password, e.notes) == r
  {
    Entry(r.username, r.password, r.notes)
  }

  /** Service, user name and password are non-empty; the notes may be empty. */
  predicate Complete(r: Record)
  {
    r.service != "" && r.username != "" && r.password != ""
  }

  /** Every stored entry carries a non-empty service name, user name and password. */
  predicate WellFormed(m: map<string, Entry>)
  {
    forall k :: k in m ==> k != "" && m[k].username != "" && m[k].password != ""
  }

  /** `m2` agrees with `m1` on every service name other than `k`: same presence, same entry. */
  ghost predicate SameExcept(m1: map<string, Entry>, m2: map<string, Entry>, k: string)
  {
    forall j :: j != k ==> (j in m1 <==> j in m2) && (j in m1 ==> m1[j] == m2[j])
  }

  /** Adding one key to an empty vault gives the one-entry vault. */
  lemma OnlyKeyAdded(m: map<string, Entry>, k: string)
    requires SameExcept(map[], m, k) && k in m
    ensures m == map[k := m[k]]
  {
    assert m.Keys == {k};
  }

  /**
   * `save_entry`: the record handed to the save callback, or None when the
   * dialog refuses to save and shows its warning instead.
   */
  function SaveEntry(service: string, username: string, password: string, notes: string): (r: Option<Record>)
    ensures r.Some? <==> Complete(Record(service, username, password, notes))
    ensures r.Some? ==> r.value.service == service && Stored(r.value) == Entry(username, password, notes)
  {
    if service == "" || username == "" || password == "" then None
    else Some(Record(service, username, password, notes))
  }

  /** Storing a record that passed the dialog's check keeps a well-formed vault well-formed. */
  lemma PutKeepsWellFormed(m: map<string, Entry>, r: Record)
    requires WellFormed(m) && Complete(r)
    ensures WellFormed(m[r.service := Stored(r)])
  {
    var m' := m[r.service := Stored(r)];
    forall k | k in m'
      ensures k != "" && m'[k].username != "" && m'[k].password != ""
    {
      if k != r.service {
        assert k in m;
      }
    }
  }

  /**
   * Opening the edit dialog on a stored entry (its fields plus the service
   * name) and saving it unchanged passes the check and leaves the vault as it was.
   */
  lemma {:induction false} EditUnchangedRoundTrip(m: map<string, Entry>, service: string)
    requires WellFormed(m) && service in m
    ensures SaveEntry(service, m[service].username, m[service].password, m[service].notes).Some?
    ensures m[service := Stored(SaveEntry(service, m[service].username, m[service].password, m[service].notes).value)] == m
  {
    var r := SaveEntry(service, m[service].username, m[service].password, m[service].notes);
    assert Stored(r.value) == m[service];
  }
}
