/**
 * The final `.sort` of `parseCsvToSpensDataItem`: items ordered by ascending
 * parsed date. `Array.prototype.sort` is stable, so items with equal dates keep
 * their relative order; it is modelled as a stable insertion sort.
 */
module DateSort {
  import opened Interfaces

  predicate SortedByDate(s: seq<SpensDataItem>) {
    forall i, j :: 0 <= i < j < |s| ==> s[i].date <= s[j].date
  }

  /** The items of `s` dated `d`, in their order in `s`. */
  function WithDate(s: seq<SpensDataItem>, d: int): seq<SpensDataItem>
    decreases |s|
  {
    if s == [] then []
    else WithDate(s[..|s| - 1], d) + (if s[|s| - 1].date == d then [s[|s| - 1]] else [])
  }

  /** Places `x` after every item of the sorted `s` whose date is not later than its own. */
  function Insert(s: seq<SpensDataItem>, x: SpensDataItem): seq<SpensDataItem>
    decreases |s|
  {
    if s == [] || s[|s| - 1].date <= x.date then s + [x]
    else Insert(s[..|s| - 1], x) + [s[|s| - 1]]
  }

  /** Sorts by inserting each item, left to right, into the sorted prefix. */
  function SortByDate(s: seq<SpensDataItem>): seq<SpensDataItem>
    decreases |s|
  {
    if s == [] then [] else Insert(SortByDate(s[..|s| - 1]), s[|s| - 1])
  }

  lemma {:induction false} WithDateAppend(s: seq<SpensDataItem>, t: seq<SpensDataItem>, d: int)
    ensures WithDate(s + t, d) == WithDate(s, d) + WithDate(t, d)
    decreases |t|
  {
    if t == [] {
      assert s + t == s;
    } else {
      assert (s + t)[..|s + t| - 1] == s + t[..|t| - 1];
      WithDateAppend(s, t[..|t| - 1], d);
    }
  }

  lemma WithDateSingle(x: SpensDataItem, d: int)
    ensures WithDate([x], d) == if x.date == d then [x] else []
  {
    assert [x][..0] == [];
  }

  /** Inserting adds exactly `x`. */
  lemma {:induction false} InsertAddsItem(s: seq<SpensDataItem>, x: SpensDataItem)
    ensures multiset(Insert(s, x)) == multiset(s) + multiset{x}
    decreases |s|
  {
    if s != [] && s[|s| - 1].date > x.date {
      var p, y := s[..|s| - 1], s[|s| - 1];
      assert s == p + [y];
      InsertAddsItem(p, x);
    }
  }

  /** Inserting into a sorted sequence keeps it sorted. */
  lemma {:induction false} InsertSorted(s: seq<SpensDataItem>, x: SpensDataItem)
    requires SortedByDate(s)
    ensures SortedByDate(Insert(s, x))
    decreases |s|
  {
    if s != [] && s[|s| - 1].date > x.date {
      var p, y := s[..|s| - 1], s[|s| - 1];
      assert s == p + [y];
      assert SortedByDate(p);
      InsertSorted(p, x);
      InsertAddsItem(p, x);
      BoundedByLast(p, y, x, Insert(p, x));
      SortedSnoc(Insert(p, x), y);
    }
  }

  /** Every item of `q`, which holds the items of `p` and `x`, is dated no later than `y`. */
  lemma BoundedByLast(p: seq<SpensDataItem>, y: SpensDataItem, x: SpensDataItem, q: seq<SpensDataItem>)
    requires SortedByDate(p + [y]) && x.date < y.date
    requires multiset(q) == multiset(p) + multiset{x}
    ensures forall z :: z in q ==> z.date <= y.date
  {
    forall z | z in q ensures z.date <= y.date {
      assert z in multiset(q);
      if z != x {
        assert z in multiset(p);
        var k :| 0 <= k < |p| && p[k] == z;
        assert (p + [y])[k] == z && (p + [y])[|p|] == y;
      }
    }
  }

  lemma SortedSnoc(q: seq<SpensDataItem>, y: SpensDataItem)
    requires SortedByDate(q)
    requires forall z :: z in q ==> z.date <= y.date
    ensures SortedByDate(q + [y])
  {
    forall i, j | 0 <= i < j < |q + [y]| ensures (q + [y])[i].date <= (q + [y])[j].date {
      if j == |q| {
        assert (q + [y])[i] in q;
      } else {
        assert (q + [y])[i] == q[i] && (q + [y])[j] == q[j];
      }
    }
  }

  /** Inserting puts `x` after the items of its own date and leaves the other dates alone. */
  lemma {:induction false} InsertStable(s: seq<SpensDataItem>, x: SpensDataItem, d: int)
    ensures WithDate(Insert(s, x), d) == WithDate(s, d) + WithDate([x], d)
    decreases |s|
  {
    if s == [] || s[|s| - 1].date <= x.date {
      WithDateAppend(s, [x], d);
    } else {
      var p, y := s[..|s| - 1], s[|s| - 1];
      assert s == p + [y];
      InsertStable(p, x, d);
      var q := Insert(p, x);
      WithDateAppend(q, [y], d);
      WithDateAppend(p, [y], d);
      WithDateSingle(x, d);
      WithDateSingle(y, d);
      SwapTails(WithDate(p, d), WithDate([x], d), WithDate([y], d));
      assert Insert(s, x) == q + [y];
    }
  }

  lemma SwapTails<T>(a: seq<T>, b: seq<T>, c: seq<T>)
    requires b == [] || c == []
    ensures (a + b) + c == (a + c) + b
  {
    if b == [] {
      assert a + b == a;
    } else {
      assert a + c == a;
    }
  }

  /** The sort is stable and sorted: the output is ordered by date, holds exactly the input's
      items, and keeps the input order among items of equal date. */
  lemma {:induction false} SortByDateProperties(s: seq<SpensDataItem>)
    ensures SortedByDate(SortByDate(s))
    ensures multiset(SortByDate(s)) == multiset(s)
    ensures |SortByDate(s)| == |s|
    ensures forall d :: WithDate(SortByDate(s), d) == WithDate(s, d)
    decreases |s|
  {
    if s != [] {
      var p, x := s[..|s| - 1], s[|s| - 1];
      assert s == p + [x];
      SortByDateProperties(p);
      InsertSorted(SortByDate(p), x);
      InsertAddsItem(SortByDate(p), x);
      forall d ensures WithDate(SortByDate(s), d) == WithDate(s, d) {
        InsertStable(SortByDate(p), x, d);
        WithDateAppend(p, [x], d);
      }
      assert |SortByDate(s)| == |multiset(SortByDate(s))|;
    }
  }

  /** Re-sorting an already sorted list changes nothing. */
  lemma {:induction false} SortByDateOfSorted(s: seq<SpensDataItem>)
    requires SortedByDate(s)
    ensures SortByDate(s) == s
    decreases |s|
  {
    if s != [] {
      var p, x := s[..|s| - 1], s[|s| - 1];
      SortedInit(s);
      SortByDateOfSorted(p);
      SortByDateSnoc(s);
      InsertAtEnd(p, x);
      assert s == p + [x];
    }
  }

  lemma SortByDateSnoc(s: seq<SpensDataItem>)
    requires s != []
    ensures SortByDate(s) == Insert(SortByDate(s[..|s| - 1]), s[|s| - 1])
  {
  }

  /** An item dated no earlier than the last one goes at the end. */
  lemma InsertAtEnd(p: seq<SpensDataItem>, x: SpensDataItem)
    requires p == [] || p[|p| - 1].date <= x.date
    ensures Insert(p, x) == p + [x]
  {
  }

  /** Dropping the last item of a sorted list leaves it sorted, and that item is dated no
      earlier than the one before it. */
  lemma SortedInit(s: seq<SpensDataItem>)
    requires s != [] && SortedByDate(s)
    ensures SortedByDate(s[..|s| - 1])
    ensures |s| > 1 ==> s[|s| - 2].date <= s[|s| - 1].date
  {
    var p := s[..|s| - 1];
    forall i, j | 0 <= i < j < |p| ensures p[i].date <= p[j].date {
      assert p[i] == s[i] && p[j] == s[j];
    }
  }

  /** Sorting is idempotent. */
  lemma SortByDateIdempotent(s: seq<SpensDataItem>)
    ensures SortByDate(SortByDate(s)) == SortByDate(s)
  {
    SortByDateProperties(s);
    SortByDateOfSorted(SortByDate(s));
  }
}
