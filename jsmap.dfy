/**
 * The insertion-ordered JavaScript `Map`, as the sequence of its entries.
 * Keys are unique; iteration follows first insertion.
 */
module JsMap {
  import opened Wrappers
  import opened Collections

  function Keys<K, V>(m: seq<(K, V)>): seq<K> {
    seq(|m|, i requires 0 <= i < |m| => m[i].0)
  }

  lemma KeysOfTail<K, V>(m: seq<(K, V)>)
    requires |m| > 0 && NoDuplicates(Keys(m))
    ensures Keys(m) == [m[0].0] + Keys(m[1..])
    ensures NoDuplicates(Keys(m[1..])) && m[0].0 !in Keys(m[1..])
  {
    var ks := Keys(m);
    assert ks == [m[0].0] + Keys(m[1..]);
    assert Keys(m[1..]) == ks[1..];
    forall i | 0 <= i < |ks| - 1 ensures ks[1..][i] != m[0].0 {
      assert ks[1..][i] == ks[i + 1] && ks[0] == m[0].0;
      assert ks[0] != ks[i + 1];
    }
  }

  /** `Map.prototype.set`: a present key keeps its place and takes the new value;
      a new key is appended with its value. */
  function Set<K(==), V>(m: seq<(K, V)>, k: K, v: V): (r: seq<(K, V)>)
    requires NoDuplicates(Keys(m))
    ensures Keys(r) == if k in Keys(m) then Keys(m) else Keys(m) + [k]
    ensures NoDuplicates(Keys(r))
    ensures forall i :: 0 <= i < |m| ==> r[i].1 == if m[i].0 == k then v else m[i].1
    ensures k !in Keys(m) ==> r[|m|] == (k, v)
    decreases |m|
  {
    if m == [] then [(k, v)]
    else if m[0].0 == k then
      SetHere(m, k, v);
      [(k, v)] + m[1..]
    else
      KeysOfTail(m);
      var rest := Set(m[1..], k, v);
      SetAfter(m, k, v, rest);
      [m[0]] + rest
  }

  /** `set` on the first key replaces its value alone. */
  lemma SetHere<K, V>(m: seq<(K, V)>, k: K, v: V)
    requires |m| > 0 && m[0].0 == k && NoDuplicates(Keys(m))
    ensures k in Keys(m) && Keys([(k, v)] + m[1..]) == Keys(m)
    ensures forall i :: 0 <= i < |m| ==> ([(k, v)] + m[1..])[i].1 == if m[i].0 == k then v else m[i].1
  {
    KeysOfTail(m);
    assert Keys([(k, v)] + m[1..]) == [k] + Keys(m[1..]);
    assert forall i :: 0 < i < |m| ==> m[i].0 == Keys(m)[i] != k;
  }

  /** `set` past the first key keeps that entry in front of the tail's result. */
  lemma SetAfter<K, V>(m: seq<(K, V)>, k: K, v: V, rest: seq<(K, V)>)
    requires |m| > 0 && m[0].0 != k && NoDuplicates(Keys(m))
    requires Keys(rest) == if k in Keys(m[1..]) then Keys(m[1..]) else Keys(m[1..]) + [k]
    requires forall i :: 0 <= i < |m| - 1 ==> rest[i].1 == if m[1..][i].0 == k then v else m[1..][i].1
    requires k !in Keys(m[1..]) ==> rest[|m| - 1] == (k, v)
    ensures Keys([m[0]] + rest) == if k in Keys(m) then Keys(m) else Keys(m) + [k]
    ensures NoDuplicates(Keys([m[0]] + rest))
    ensures forall i :: 0 <= i < |m| ==> ([m[0]] + rest)[i].1 == if m[i].0 == k then v else m[i].1
    ensures k !in Keys(m) ==> ([m[0]] + rest)[|m|] == (k, v)
  {
    KeysOfTail(m);
    var r := [m[0]] + rest;
    assert Keys(r) == [m[0].0] + Keys(rest);
    assert k in Keys(m) <==> k in Keys(m[1..]);
    forall i | 0 <= i < |m| ensures r[i].1 == if m[i].0 == k then v else m[i].1 {
      if i > 0 {
        assert r[i] == rest[i - 1] && m[1..][i - 1] == m[i];
      }
    }
  }

  /** `Map.prototype.get`: the value stored under `k`, or `None` for `undefined`. */
  function Get<K(==), V>(m: seq<(K, V)>, k: K): (r: Option<V>)
    requires NoDuplicates(Keys(m))
    ensures r.Some? <==> k in Keys(m)
    ensures forall i :: 0 <= i < |m| && m[i].0 == k ==> r == Some(m[i].1)
    decreases |m|
  {
    if m == [] then None
    else
      KeysOfTail(m);
      if m[0].0 == k then
        assert forall i :: 0 < i < |m| ==> m[i].0 == Keys(m)[i];
        Some(m[0].1)
      else
        Get(m[1..], k)
  }

  /** `set` keeps every entry in its place and appends at most one. */
  lemma SetShape<K, V>(m: seq<(K, V)>, k: K, v: V)
    requires NoDuplicates(Keys(m))
    ensures |Set(m, k, v)| == if k in Keys(m) then |m| else |m| + 1
    ensures forall i :: 0 <= i < |m| ==> Set(m, k, v)[i].0 == m[i].0
  {
    var r := Set(m, k, v);
    assert |Keys(r)| == |r|;
    forall i | 0 <= i < |m| ensures r[i].0 == m[i].0 {
      assert r[i].0 == Keys(r)[i] && Keys(m)[i] == m[i].0;
    }
  }
}
