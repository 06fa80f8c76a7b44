/**
 * The array operations of the JavaScript runtime that the pipeline chains:
 * `filter`, a `map` whose callback may throw, and the first-appearance
 * deduplication that re-setting keys of a `Map` performs.
 */
module Collections {
  import opened Wrappers

  /** `Array.prototype.filter`: keeps, in order, the elements satisfying `p`. */
  function Filter<T>(s: seq<T>, p: T -> bool): (r: seq<T>)
    ensures |r| <= |s|
    ensures forall i :: 0 <= i < |r| ==> r[i] in s && p(r[i])
    ensures forall i :: 0 <= i < |s| && p(s[i]) ==> s[i] in r
    ensures multiset(r) <= multiset(s)
    decreases |s|
  {
    if s == [] then []
    else
      var rest := Filter(s[1..], p);
      assert s == [s[0]] + s[1..];
      if p(s[0]) then [s[0]] + rest else rest
  }

  /** `Array.prototype.map` with a callback that may throw: the first element whose
      callback fails aborts the whole map with that failure. */
  function MapAll<A, B, E>(xs: seq<A>, f: A -> Result<B, E>): (r: Result<seq<B>, E>)
    ensures r.Success? <==> forall i :: 0 <= i < |xs| ==> f(xs[i]).Success?
    ensures r.Success? ==> |r.value| == |xs| && forall i :: 0 <= i < |xs| ==> f(xs[i]) == Success(r.value[i])
    ensures r.Failure? ==> exists i :: 0 <= i < |xs| && f(xs[i]) == Failure(r.error)
    decreases |xs|
  {
    if xs == [] then Success([])
    else
      match f(xs[0])
      case Failure(e) => Failure(e)
      case Success(y) =>
        match MapAll(xs[1..], f)
        case Failure(e) =>
          FailureInTail(xs, f, e);
          Failure(e)
        case Success(ys) =>
          assert forall i :: 1 <= i < |xs| ==> xs[i] == xs[1..][i - 1];
          Success([y] + ys)
  }

  lemma FailureInTail<A, B, E>(xs: seq<A>, f: A -> Result<B, E>, e: E)
    requires |xs| > 0
    requires exists i :: 0 <= i < |xs| - 1 && f(xs[1..][i]) == Failure(e)
    ensures exists i :: 0 <= i < |xs| && f(xs[i]) == Failure(e)
  {
    var i :| 0 <= i < |xs| - 1 && f(xs[1..][i]) == Failure(e);
    assert f(xs[i + 1]) == Failure(e);
  }

  predicate NoDuplicates<T(==)>(s: seq<T>) {
    forall i, j :: 0 <= i < j < |s| ==> s[i] != s[j]
  }

  /** The distinct elements of `s`, each at the place of its first appearance. */
  function Distinct<T(==)>(s: seq<T>): (r: seq<T>)
    ensures forall i :: 0 <= i < |r| ==> r[i] in s
    ensures forall i :: 0 <= i < |s| ==> s[i] in r
    ensures NoDuplicates(r)
    ensures |r| <= |s|
    decreases |s|
  {
    if s == [] then []
    else
      var d := Distinct(s[..|s| - 1]);
      assert s == s[..|s| - 1] + [s[|s| - 1]];
      if s[|s| - 1] in d then d else d + [s[|s| - 1]]
  }

  /** Index of the first occurrence of `x` in `s`. */
  function FirstIndex<T(==)>(s: seq<T>, x: T): (k: nat)
    requires x in s
    ensures k < |s| && s[k] == x && x !in s[..k]
    decreases |s|
  {
    if s[0] == x then 0
    else
      var k := FirstIndex(s[1..], x);
      assert s[..k + 1] == [s[0]] + s[1..][..k];
      k + 1
  }

  /** Deduplicating a prefix gives a prefix of the deduplicated whole. */
  lemma {:induction false} DistinctOfPrefix<T>(s: seq<T>, k: nat)
    requires k <= |s|
    ensures Distinct(s[..k]) <= Distinct(s)
    decreases |s|
  {
    if k < |s| {
      assert s[..|s| - 1][..k] == s[..k];
      DistinctOfPrefix(s[..|s| - 1], k);
    } else {
      assert s[..k] == s;
    }
  }

  lemma FirstIndexBefore<T>(s: seq<T>, x: T, k: nat)
    requires k <= |s| && x in s[..k]
    ensures FirstIndex(s, x) < k
  {
  }

  /** Appending `x` adds it to the deduplicated sequence exactly when it is new. */
  lemma DistinctSnoc<T>(p: seq<T>, x: T)
    ensures x in Distinct(p) <==> x in p
    ensures Distinct(p + [x]) == if x in p then Distinct(p) else Distinct(p) + [x]
  {
    assert (p + [x])[..|p|] == p;
    if x in p {
      var i :| 0 <= i < |p| && p[i] == x;
    }
  }

  /** The elements of `Distinct(s)` stand in the order of their first appearances in `s`. */
  lemma {:induction false} DistinctFirstAppearanceOrder<T>(s: seq<T>, i: nat, j: nat)
    requires i < j < |Distinct(s)|
    ensures FirstIndex(s, Distinct(s)[i]) < FirstIndex(s, Distinct(s)[j])
  {
    var r := Distinct(s);
    var k := FirstIndex(s, r[j]);
    var dk := Distinct(s[..k]);
    DistinctPlace(s, k);
    PrefixPlace(r, dk, r[j], j);
    assert r[i] == dk[i];
    assert dk[i] in s[..k];
    FirstIndexBefore(s, r[i], k);
  }

  /** The first occurrence of an element enters `Distinct` right after the elements before it. */
  lemma {:induction false} DistinctPlace<T>(s: seq<T>, k: nat)
    requires k < |s| && s[k] !in s[..k]
    ensures Distinct(s[..k]) + [s[k]] <= Distinct(s)
  {
    assert s[..k + 1] == s[..k] + [s[k]];
    DistinctSnoc(s[..k], s[k]);
    DistinctOfPrefix(s, k + 1);
  }

  lemma PrefixPlace<T>(r: seq<T>, p: seq<T>, x: T, j: nat)
    requires NoDuplicates(r) && p + [x] <= r && j < |r| && r[j] == x
    ensures |p| == j
  {
    assert r[|p|] == x;
  }

  /** Joining two duplicate-free sequences with no element in common gives none. */
  lemma NoDuplicatesConcat<T>(a: seq<T>, b: seq<T>)
    requires NoDuplicates(a) && NoDuplicates(b)
    requires forall i :: 0 <= i < |a| ==> a[i] !in b
    ensures NoDuplicates(a + b)
  {
    var ab := a + b;
    forall i, j | 0 <= i < j < |ab| ensures ab[i] != ab[j] {
      if i < |a| && |a| <= j {
        assert ab[j] == b[j - |a|];
      }
    }
  }

  lemma DistinctMembers<T>(s: seq<T>, x: T)
    ensures x in Distinct(s) <==> x in s
  {
    if x in s {
      var i :| 0 <= i < |s| && s[i] == x;
    }
    if x in Distinct(s) {
      var i :| 0 <= i < |Distinct(s)| && Distinct(s)[i] == x;
    }
  }
}
