/**
 * The service list of the main window: the keys of the vault whose
 * lower-cased name contains the lower-cased query, in ascending order.
 */
module Listing {
  import opened Text

  /** Strictly ascending under Python's string order, hence free of duplicates. */
  predicate Ascending(r: seq<string>)
  {
    forall i, j :: 0 <= i < j < |r| ==> Below(r[i], r[j])
  }

  /** `m` is the smallest element of `s`. */
  predicate IsLeast(m: string, s: set<string>)
  {
    m in s && forall y :: y in s && y != m ==> Below(m, y)
  }

  lemma {:induction false} LeastExists(s: set<string>)
    requires s != {}
    ensures exists m :: IsLeast(m, s)
    decreases |s|
  {
    var x :| x in s;
    if s != {x} {
      LeastExists(s - {x});
      var m :| IsLeast(m, s - {x});
      if Below(x, m) {
        forall y | y in s && y != x
          ensures Below(x, y)
        {
          if y != m {
            BelowTransitive(x, m, y);
          }
        }
        assert IsLeast(x, s);
      } else {
        BelowTotal(x, m);
        assert IsLeast(m, s);
      }
    } else {
      assert IsLeast(x, s);
    }
  }

  lemma LeastUnique(s: set<string>)
    ensures forall m1, m2 :: IsLeast(m1, s) && IsLeast(m2, s) ==> m1 == m2
  {
    forall m1, m2 | IsLeast(m1, s) && IsLeast(m2, s)
      ensures m1 == m2
    {
      if m1 != m2 {
        BelowAsymmetric(m1, m2);
      }
    }
  }

  /** `sorted(s)`: the elements of a set of names in ascending order. */
  function SortSet(s: set<string>): (r: seq<string>)
    ensures Ascending(r)
    ensures forall x :: x in r <==> x in s
    ensures |r| == |s|
    decreases |s|
  {
    if s == {} then []
    else
      LeastExists(s);
      LeastUnique(s);
      var m :| IsLeast(m, s);
      var rest := SortSet(s - {m});
      assert forall j :: 0 <= j < |rest| ==> rest[j] in s - {m};
      [m] + rest
  }

  /** Two ascending sequences with the same elements are equal. */
  lemma {:induction false} AscendingUnique(r1: seq<string>, r2: seq<string>)
    requires Ascending(r1) && Ascending(r2)
    requires forall x :: x in r1 <==> x in r2
    ensures r1 == r2
    decreases |r1|
  {
    assert r1 != [] ==> r1[0] in r2;
    assert r2 != [] ==> r2[0] in r1;
    if r1 != [] && r2 != [] {
      if r1[0] != r2[0] {
        assert r2[0] in r1;
        var i :| 0 <= i < |r1| && r1[i] == r2[0];
        assert r1[0] in r2;
        var j :| 0 <= j < |r2| && r2[j] == r1[0];
        BelowAsymmetric(r1[0], r2[0]);
        assert false;
      }
      forall x
        ensures x in r1[1..] <==> x in r2[1..]
      {
        if x in r1[1..] {
          var i :| 1 <= i < |r1| && r1[i] == x;
          BelowIrreflexive(x);
          assert x != r2[0] && x in r1 && x in r2;
          var j :| 0 <= j < |r2| && r2[j] == x;
          assert r2[1..][j - 1] == x;
        }
        if x in r2[1..] {
          var j :| 1 <= j < |r2| && r2[j] == x;
          BelowIrreflexive(x);
          assert x != r1[0] && x in r2 && x in r1;
          var i :| 0 <= i < |r1| && r1[i] == x;
          assert r1[1..][i - 1] == x;
        }
      }
      AscendingUnique(r1[1..], r2[1..]);
      assert r1 == [r1[0]] + r1[1..] && r2 == [r2[0]] + r2[1..];
    }
  }

  /** The filter of the list comprehension: does service `s` match `query`? */
  predicate Matches(s: string, query: string)
    ensures query == "" ==> Matches(s, query)
    ensures Matches(s, query) ==> |query| <= |s|
  {
    Contains(Lower(s), Lower(query))
  }

  /** The services listed for `query`, given the vault's key set. */
  function Search(keys: set<string>, query: string): (r: seq<string>)
    ensures Ascending(r)
    ensures forall s :: s in r <==> s in keys && Matches(s, query)
    ensures |r| == |set s | s in keys && Matches(s, query)|
  {
    SortSet(set s | s in keys && Matches(s, query))
  }

  /** Any ascending listing of exactly the matching keys is the search result. */
  lemma SearchCharacterized(keys: set<string>, query: string, r: seq<string>)
    requires Ascending(r)
    requires forall s :: s in r <==> s in keys && Matches(s, query)
    ensures r == Search(keys, query)
  {
    AscendingUnique(r, Search(keys, query));
  }

  /** An empty search box lists every service. */
  lemma SearchEmptyQuery(keys: set<string>)
    ensures forall s :: s in Search(keys, "") <==> s in keys
    ensures Search(keys, "") == SortSet(keys)
  {
    forall s ensures Matches(s, "") {
      ContainsEmpty(Lower(s));
    }
    assert (set s | s in keys && Matches(s, "")) == keys;
  }

  /** Lower-casing the query first does not change the listing. */
  lemma SearchIgnoresQueryCase(keys: set<string>, query: string)
    ensures Search(keys, Lower(query)) == Search(keys, query)
  {
    LowerIdempotent(query);
    assert (set s | s in keys && Matches(s, Lower(query))) == (set s | s in keys && Matches(s, query));
  }

  /** Searching for a service by its own name lists it. */
  lemma SearchFindsOwnName(keys: set<string>, service: string)
    requires service in keys
    ensures service in Search(keys, service)
  {
    ContainsSelf(Lower(service));
  }

  /** Searching "git" in a vault holding only "github" lists exactly that service. */
  lemma SearchGitFindsGithub()
    ensures Search({"github"}, "git") == ["github"]
  {
    assert Lower("github") == "github";
    assert Lower("git") == "git";
    assert OccursAt("github", "git", 0);
    SearchCharacterized({"github"}, "git", ["github"]);
  }
}
