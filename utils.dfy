/**
 * `trimObjectKeysValues` of src/lib/utils.ts: rebuilds a row with every key
 * and every value trimmed. The row is given as its `Object.entries`, in order.
 */
module Utils {
  import opened Text

  /** The dictionary the fold over `entries` produces: each entry assigns its trimmed value
      under its trimmed key, so a later entry overwrites an earlier one with the same trimmed key. */
  function TrimmedEntries(entries: seq<(string, string)>): map<string, string>
    decreases |entries|
  {
    if entries == [] then map[]
    else
      var n := |entries| - 1;
      TrimmedEntries(entries[..n])[Trim(entries[n].0) := Trim(entries[n].1)]
  }

  /** The key set is exactly the set of trimmed input keys. */
  lemma {:induction false} TrimmedKeys(entries: seq<(string, string)>)
    ensures TrimmedEntries(entries).Keys == KeySet(entries)
    decreases |entries|
  {
    if entries != [] {
      var n := |entries| - 1;
      TrimmedKeys(entries[..n]);
      KeySetSnoc(entries);
      var prev := TrimmedEntries(entries[..n]);
      assert TrimmedEntries(entries).Keys == prev.Keys + {Trim(entries[n].0)};
    }
  }

  /** The trimmed keys of the entries. */
  ghost function KeySet(entries: seq<(string, string)>): set<string> {
    set i | 0 <= i < |entries| :: Trim(entries[i].0)
  }

  lemma KeySetSnoc(entries: seq<(string, string)>)
    requires |entries| > 0
    ensures KeySet(entries) == KeySet(entries[..|entries| - 1]) + {Trim(entries[|entries| - 1].0)}
  {
    var n := |entries| - 1;
    var before, after := KeySet(entries[..n]), KeySet(entries);
    forall k | k in after ensures k in before + {Trim(entries[n].0)} {
      var i :| 0 <= i < |entries| && k == Trim(entries[i].0);
      if i < n {
        assert entries[..n][i] == entries[i];
      }
    }
    forall k | k in before ensures k in after {
      var i :| 0 <= i < n && k == Trim(entries[..n][i].0);
      assert entries[..n][i] == entries[i];
    }
  }

  /** Every key and every value of the result is trimmed. */
  lemma {:induction false} TrimmedAllTrimmed(entries: seq<(string, string)>)
    ensures forall k :: k in TrimmedEntries(entries) ==> IsTrimmed(k) && IsTrimmed(TrimmedEntries(entries)[k])
    decreases |entries|
  {
    if entries != [] {
      TrimmedAllTrimmed(entries[..|entries| - 1]);
    }
  }

  /** The result has at most as many keys as the row has entries. */
  lemma {:induction false} TrimmedSize(entries: seq<(string, string)>)
    ensures |TrimmedEntries(entries)| <= |entries|
    decreases |entries|
  {
    if entries != [] {
      var n := |entries| - 1;
      TrimmedSize(entries[..n]);
      var prev := TrimmedEntries(entries[..n]);
      var k := Trim(entries[n].0);
      if k in prev {
        assert prev[k := Trim(entries[n].1)].Keys == prev.Keys;
      } else {
        assert prev[k := Trim(entries[n].1)].Keys == prev.Keys + {k};
      }
    }
  }

  /** The last entry whose key trims to a given key decides that key's value. */
  lemma {:induction false} LastEntryWins(entries: seq<(string, string)>, i: nat)
    requires i < |entries|
    requires forall j :: i < j < |entries| ==> Trim(entries[j].0) != Trim(entries[i].0)
    ensures Trim(entries[i].0) in TrimmedEntries(entries) && TrimmedEntries(entries)[Trim(entries[i].0)] == Trim(entries[i].1)
    decreases |entries|
  {
    var n := |entries| - 1;
    var prev := TrimmedEntries(entries[..n]);
    assert TrimmedEntries(entries) == prev[Trim(entries[n].0) := Trim(entries[n].1)];
    if i < n {
      assert entries[..n][i] == entries[i];
      forall j | i < j < n ensures Trim(entries[..n][j].0) != Trim(entries[..n][i].0) {
        assert entries[..n][j] == entries[j];
      }
      LastEntryWins(entries[..n], i);
      assert Trim(entries[n].0) != Trim(entries[i].0);
    }
  }

  /** Entries that are already trimmed and agree with a trimmed dictionary `m`, and that
      name every key of `m`, rebuild `m` itself. */
  lemma {:induction false} TrimmedRebuilds(m: map<string, string>, es: seq<(string, string)>)
    requires forall k :: k in m ==> IsTrimmed(k) && IsTrimmed(m[k])
    requires forall i :: 0 <= i < |es| ==> es[i].0 in m && m[es[i].0] == es[i].1
    ensures forall k :: k in TrimmedEntries(es) ==> k in m && TrimmedEntries(es)[k] == m[k]
    decreases |es|
  {
    if es != [] {
      var n := |es| - 1;
      forall i | 0 <= i < n ensures es[..n][i].0 in m && m[es[..n][i].0] == es[..n][i].1 {
        assert es[..n][i] == es[i];
      }
      TrimmedRebuilds(m, es[..n]);
      TrimFixesTrimmed(es[n].0);
      TrimFixesTrimmed(es[n].1);
    }
  }

  /** Trimming the entries of an already trimmed row gives that row back. */
  lemma TrimmedFixesTrimmed(m: map<string, string>, es: seq<(string, string)>)
    requires forall k :: k in m ==> IsTrimmed(k) && IsTrimmed(m[k])
    requires forall i :: 0 <= i < |es| ==> es[i].0 in m && m[es[i].0] == es[i].1
    requires m.Keys <= set i | 0 <= i < |es| :: es[i].0
    ensures TrimmedEntries(es) == m
  {
    TrimmedRebuilds(m, es);
    TrimmedCovers(m, es);
    SameEntries(TrimmedEntries(es), m);
  }

  lemma TrimmedCovers(m: map<string, string>, es: seq<(string, string)>)
    requires forall k :: k in m ==> IsTrimmed(k)
    requires m.Keys <= set i | 0 <= i < |es| :: es[i].0
    ensures m.Keys <= TrimmedEntries(es).Keys
  {
    forall k | k in m ensures k in TrimmedEntries(es) {
      assert k in set i | 0 <= i < |es| :: es[i].0;
      var i :| 0 <= i < |es| && es[i].0 == k;
      TrimmedHasKey(es, i);
    }
  }

  lemma SameEntries(a: map<string, string>, b: map<string, string>)
    requires a.Keys == b.Keys && forall k :: k in a ==> a[k] == b[k]
    ensures a == b
  {
  }

  lemma TrimmedHasKey(es: seq<(string, string)>, i: nat)
    requires i < |es| && IsTrimmed(es[i].0)
    ensures es[i].0 in TrimmedEntries(es)
  {
    TrimmedKeys(es);
    TrimFixesTrimmed(es[i].0);
  }

  /** Idempotence: the entries of `TrimmedEntries(row)`, in any order, rebuild it unchanged. */
  lemma TrimmedIdempotent(row: seq<(string, string)>, es: seq<(string, string)>)
    requires forall i :: 0 <= i < |es| ==> es[i].0 in TrimmedEntries(row) && TrimmedEntries(row)[es[i].0] == es[i].1
    requires TrimmedEntries(row).Keys <= set i | 0 <= i < |es| :: es[i].0
    ensures TrimmedEntries(es) == TrimmedEntries(row)
  {
    TrimmedAllTrimmed(row);
    TrimmedFixesTrimmed(TrimmedEntries(row), es);
  }

  /** The example of the documentation comment: `{'  Account': ''}` becomes `{'Account': ''}`. */
  lemma DocumentedExample()
    ensures TrimmedEntries([("  Account", "")]) == map["Account" := ""]
  {
    var s := "  Account";
    assert s[1..][1..] == "Account";
    assert Trim(s) == Trim(s[1..]) == Trim("Account") == "Account";
    assert Trim("") == "";
  }

  /** The in-place fold of the source: `acc[key.trim()] = value.trim()` for each entry in turn. */
  method TrimObjectKeysValues(row: seq<(string, string)>) returns (acc: map<string, string>)
    ensures acc == TrimmedEntries(row)
    ensures forall k :: k in acc ==> IsTrimmed(k) && IsTrimmed(acc[k])
    ensures acc.Keys == set i | 0 <= i < |row| :: Trim(row[i].0)
  {
    acc := map[];
    for i := 0 to |row|
      invariant acc == TrimmedEntries(row[..i])
    {
      var (key, value) := row[i];
      assert row[..i + 1][..i] == row[..i];
      acc := acc[Trim(key) := Trim(value)];
    }
    assert row[..|row|] == row;
    TrimmedAllTrimmed(row);
    TrimmedKeys(row);
  }
}
