/**
 * What the totals report promises. When every item has both names or neither,
 * every cent of a truthy amount lands in exactly one row. When, in addition, no
 * name contains `#`, each classified (category, subcategory) pair gets a row
 * carrying its own sum, and `Unclassified` collects the rest.
 */
module ReportProperties {
  import opened Collections
  import opened Interfaces
  import opened Aggregator

  /** The cents the items spend in all (`NaN` and zero add nothing). */
  function ItemsSum(items: seq<SpensDataItem>): nat
    decreases |items|
  {
    if items == [] then 0 else ItemsSum(items[..|items| - 1]) + CentsOf(items[|items| - 1].amount)
  }

  /** The cents the report's rows add up to. */
  function RowsSum(rows: seq<SpensExpenseSubcategory>): nat
    decreases |rows|
  {
    if rows == [] then 0 else RowsSum(rows[..|rows| - 1]) + CentsOf(rows[|rows| - 1].amount)
  }

  /** The sum of the totals under the keys `ks`. */
  function TotalsSum(items: seq<SpensDataItem>, seeded: seq<string>, ks: seq<string>): nat
    decreases |ks|
  {
    if ks == [] then 0 else TotalsSum(items, seeded, ks[..|ks| - 1]) + CentsOf(Total(items, seeded, ks[|ks| - 1]))
  }

  /** The cents of the items whose key is one of `ks`. */
  function KeyedSum(items: seq<SpensDataItem>, ks: seq<string>): nat
    decreases |items|
  {
    if items == [] then 0
    else
      var last := items[|items| - 1];
      KeyedSum(items[..|items| - 1], ks) + (if Key(last) in ks then CentsOf(last.amount) else 0)
  }

  /** The cents of the items filed under exactly this pair. */
  function PairTotal(items: seq<SpensDataItem>, category: string, subcategory: string): nat
    decreases |items|
  {
    if items == [] then 0
    else
      var last := items[|items| - 1];
      PairTotal(items[..|items| - 1], category, subcategory)
      + (if last.category == category && last.subcategory == subcategory then CentsOf(last.amount) else 0)
  }

  /** No category or subcategory name holds the `#` the keys are joined with. */
  predicate NoHash(items: seq<SpensDataItem>) {
    forall x :: x in items ==> '#' !in x.category && '#' !in x.subcategory
  }

  // Splitting keys.

  lemma {:induction false} SplitJoined(c: string, s: string)
    requires '#' !in c
    ensures BeforeHash(c + "#" + s) == c && AfterHash(c + "#" + s) == s
    decreases |c|
  {
    if c == [] {
      assert c + "#" + s == ['#'] + s;
    } else {
      assert (c + "#" + s)[1..] == c[1..] + "#" + s;
      SplitJoined(c[1..], s);
    }
  }

  lemma {:induction false} SplitPlain(s: string)
    requires '#' !in s
    ensures BeforeHash(s) == s && AfterHash(s) == []
    decreases |s|
  {
    if s != [] {
      SplitPlain(s[1..]);
    }
  }

  /** Reading a key back with `split('#')` gives the names it was joined from. */
  lemma EntryOfKey(x: SpensDataItem, total: Amount)
    requires '#' !in x.category && '#' !in x.subcategory
    ensures Entry(Key(x), total) == SpensExpenseSubcategory(total, x.category, x.subcategory)
  {
    SplitJoined(x.category, x.subcategory);
    SplitPlain(x.subcategory);
  }

  lemma EntryOfPair(c: string, s: string, total: Amount)
    requires '#' !in c && '#' !in s
    ensures Entry(c + "#" + s, total) == SpensExpenseSubcategory(total, c, s)
  {
    SplitJoined(c, s);
    SplitPlain(s);
  }

  lemma UnclassifiedEntry(total: Amount)
    ensures Entry(UNCLASSIFIED, total) == SpensExpenseSubcategory(total, "Unclassified", "")
  {
    SplitPlain(UNCLASSIFIED);
  }

  /** With no `#` in the names, two items share a key exactly when they share both names. */
  lemma KeyInjective(x: SpensDataItem, y: SpensDataItem)
    requires '#' !in x.category && '#' !in y.category
    ensures Key(x) == Key(y) <==> x.category == y.category && x.subcategory == y.subcategory
  {
    SplitJoined(x.category, x.subcategory);
    SplitJoined(y.category, y.subcategory);
  }

  // Key lists.

  /** A classified item's key is among the seeded keys. */
  lemma {:induction false} ClassifiedKeyIn(items: seq<SpensDataItem>, x: SpensDataItem)
    requires x in items && Classified(x)
    ensures Key(x) in ClassifiedKeys(items)
    decreases |items|
  {
    if x != items[|items| - 1] {
      assert items == items[..|items| - 1] + [items[|items| - 1]];
      ClassifiedKeyIn(items[..|items| - 1], x);
    }
  }

  /** A seeded key is the key of some classified item. */
  lemma {:induction false} ClassifiedKeyFrom(items: seq<SpensDataItem>, k: string) returns (x: SpensDataItem)
    requires k in ClassifiedKeys(items)
    ensures x in items && Classified(x) && Key(x) == k
    decreases |items|
  {
    var last := items[|items| - 1];
    if Classified(last) && Key(last) == k {
      x := last;
    } else {
      x := ClassifiedKeyFrom(items[..|items| - 1], k);
    }
  }

  /** Items filed under both levels or neither never produce a stray key. */
  lemma {:induction false} NoStrayWhenPaired(items: seq<SpensDataItem>, seeded: seq<string>)
    requires WellPaired(items)
    requires forall x :: x in items && Classified(x) ==> Key(x) in seeded
    ensures StrayKeys(items, seeded) == []
    decreases |items|
  {
    if items != [] {
      var last := items[|items| - 1];
      KeyShape(last);
      NoStrayWhenPaired(items[..|items| - 1], seeded);
    }
  }

  lemma PairedReportKeys(items: seq<SpensDataItem>)
    requires WellPaired(items)
    ensures ReportKeys(items) == Distinct(ClassifiedKeys(items)) + [UNCLASSIFIED]
  {
    forall x | x in items && Classified(x) ensures Key(x) in ClassifiedKeys(items) {
      ClassifiedKeyIn(items, x);
    }
    NoStrayWhenPaired(items, ClassifiedKeys(items));
  }

  // Conservation.

  /** The report's rows add up to the totals of its keys. */
  lemma {:induction false} RowsSumOfEntries(items: seq<SpensDataItem>, seeded: seq<string>, ks: seq<string>)
    ensures RowsSum(seq(|ks|, j requires 0 <= j < |ks| => Entry(ks[j], Total(items, seeded, ks[j])))) == TotalsSum(items, seeded, ks)
    decreases |ks|
  {
    if ks != [] {
      var n := |ks| - 1;
      var rows := seq(|ks|, j requires 0 <= j < |ks| => Entry(ks[j], Total(items, seeded, ks[j])));
      var front := seq(n, j requires 0 <= j < n => Entry(ks[..n][j], Total(items, seeded, ks[..n][j])));
      assert rows[..n] == front;
      RowsSumOfEntries(items, seeded, ks[..n]);
    }
  }

  lemma {:induction false} TotalsSumEmpty(seeded: seq<string>, ks: seq<string>)
    requires forall k :: k in ks ==> k in seeded
    ensures TotalsSum([], seeded, ks) == 0
    decreases |ks|
  {
    if ks != [] {
      assert ks[|ks| - 1] in ks;
      TotalsSumEmpty(seeded, ks[..|ks| - 1]);
    }
  }

  /** One more item raises the sum of seeded totals by its cents exactly when its key is
      among them. */
  lemma {:induction false} TotalsSumSnoc(s: seq<SpensDataItem>, x: SpensDataItem, seeded: seq<string>, ks: seq<string>)
    requires NoDuplicates(ks)
    requires forall k :: k in ks ==> k in seeded && k != UNCLASSIFIED
    ensures TotalsSum(s + [x], seeded, ks) == TotalsSum(s, seeded, ks) + (if Key(x) in ks then CentsOf(x.amount) else 0)
    decreases |ks|
  {
    assert (s + [x])[..|s|] == s;
    if ks != [] {
      var n := |ks| - 1;
      assert ks == ks[..n] + [ks[n]];
      assert ks[n] in ks;
      assert ks[n] !in ks[..n];
      assert NoDuplicates(ks[..n]) by {
        forall i, j | 0 <= i < j < n ensures ks[..n][i] != ks[..n][j] {
          assert ks[..n][i] == ks[i] && ks[..n][j] == ks[j];
        }
      }
      assert forall k :: k in ks[..n] ==> k in ks;
      TotalsSumSnoc(s, x, seeded, ks[..n]);
    }
  }

  /** Summing the seeded totals is summing the items under those keys. */
  lemma {:induction false} TotalsSumIsKeyedSum(items: seq<SpensDataItem>, seeded: seq<string>, ks: seq<string>)
    requires NoDuplicates(ks)
    requires forall k :: k in ks ==> k in seeded && k != UNCLASSIFIED
    ensures TotalsSum(items, seeded, ks) == KeyedSum(items, ks)
    decreases |items|
  {
    if items == [] {
      TotalsSumEmpty(seeded, ks);
    } else {
      var s, x := items[..|items| - 1], items[|items| - 1];
      assert items == s + [x];
      TotalsSumSnoc(s, x, seeded, ks);
      TotalsSumIsKeyedSum(s, seeded, ks);
    }
  }

  /** With every item filed under both levels or neither, the keyed items and the
      unclassified items share out all the cents. */
  lemma {:induction false} KeyedAndUnclassified(items: seq<SpensDataItem>, ks: seq<string>)
    requires WellPaired(items)
    requires forall x :: x in items && Classified(x) ==> Key(x) in ks
    requires forall k :: k in ks ==> |k| > 1
    ensures KeyedSum(items, ks) + UnclassifiedSum(items) == ItemsSum(items)
    decreases |items|
  {
    if items != [] {
      var last := items[|items| - 1];
      KeyShape(last);
      KeyedAndUnclassified(items[..|items| - 1], ks);
    }
  }

  /** Nothing is lost and nothing is counted twice: when every item is filed under both
      levels or neither, the report's totals add up to the cents of all items. */
  lemma ReportConserves(items: seq<SpensDataItem>)
    requires WellPaired(items)
    ensures RowsSum(Report(items)) == ItemsSum(items)
  {
    var seeded := ClassifiedKeys(items);
    var d := Distinct(seeded);
    PairedReportKeys(items);
    KeyListsShape(items, seeded);
    RowsSumOfEntries(items, seeded, d + [UNCLASSIFIED]);
    assert (d + [UNCLASSIFIED])[..|d|] == d;
    forall k | k in d ensures k in seeded && k != UNCLASSIFIED {
      DistinctMembers(seeded, k);
    }
    TotalsSumIsKeyedSum(items, seeded, d);
    forall x | x in items && Classified(x) ensures Key(x) in d {
      ClassifiedKeyIn(items, x);
      DistinctMembers(seeded, Key(x));
    }
    KeyedAndUnclassified(items, d);
  }

  // Layout.

  /** The row at place `j` is the entry of the `j`-th key. */
  lemma ReportAt(items: seq<SpensDataItem>, j: nat)
    requires j < |ReportKeys(items)|
    ensures |Report(items)| == |ReportKeys(items)|
    ensures Report(items)[j] == Entry(ReportKeys(items)[j], Total(items, ClassifiedKeys(items), ReportKeys(items)[j]))
  {
  }

  /** The `Unclassified` row follows the seeded rows, whatever the items. */
  lemma UnclassifiedRow(items: seq<SpensDataItem>)
    ensures |Distinct(ClassifiedKeys(items))| < |Report(items)|
    ensures Report(items)[|Distinct(ClassifiedKeys(items))|] == SpensExpenseSubcategory(Cents(UnclassifiedSum(items)), "Unclassified", "")
  {
    var n := |Distinct(ClassifiedKeys(items))|;
    assert ReportKeys(items)[n] == UNCLASSIFIED;
    ReportAt(items, n);
    UnclassifiedEntry(Cents(UnclassifiedSum(items)));
  }

  /** With every item filed under both levels or neither, there is one row per seeded key,
      `Unclassified` comes last, and no total is `NaN`. */
  lemma PairedLayout(items: seq<SpensDataItem>)
    requires WellPaired(items)
    ensures |Report(items)| == |Distinct(ClassifiedKeys(items))| + 1
    ensures Report(items)[|Report(items)| - 1] == SpensExpenseSubcategory(Cents(UnclassifiedSum(items)), "Unclassified", "")
    ensures forall j :: 0 <= j < |Report(items)| ==> Report(items)[j].amount.Cents?
  {
    PairedReportKeys(items);
    UnclassifiedRow(items);
    var seeded := ClassifiedKeys(items);
    var ks := ReportKeys(items);
    ReportAt(items, 0);
    forall j | 0 <= j < |Report(items)| ensures Report(items)[j].amount.Cents? {
      ReportAt(items, j);
      if j < |ks| - 1 {
        assert ks[j] == Distinct(seeded)[j];
        DistinctMembers(seeded, ks[j]);
      }
    }
  }

  /** With no `#` in the names, a key's total is the pair's own total. */
  lemma {:induction false} BucketIsPair(items: seq<SpensDataItem>, x: SpensDataItem)
    requires NoHash(items) && '#' !in x.category
    ensures BucketSum(items, Key(x)) == PairTotal(items, x.category, x.subcategory)
    decreases |items|
  {
    if items != [] {
      KeyInjective(items[|items| - 1], x);
      BucketIsPair(items[..|items| - 1], x);
    }
  }

  /** Every classified pair has a row carrying its names and the sum of its items. */
  lemma PairHasRow(items: seq<SpensDataItem>, x: SpensDataItem) returns (j: nat)
    requires NoHash(items) && x in items && Classified(x)
    ensures j < |Distinct(ClassifiedKeys(items))| && j < |Report(items)|
    ensures Report(items)[j] == SpensExpenseSubcategory(Cents(PairTotal(items, x.category, x.subcategory)), x.category, x.subcategory)
  {
    var seeded := ClassifiedKeys(items);
    ClassifiedKeyIn(items, x);
    DistinctMembers(seeded, Key(x));
    j := FirstIndex(Distinct(seeded), Key(x));
    assert ReportKeys(items)[j] == Key(x);
    ReportAt(items, j);
    KeyShape(x);
    assert Total(items, seeded, Key(x)) == Cents(BucketSum(items, Key(x)));
    BucketIsPair(items, x);
    EntryOfKey(x, Cents(BucketSum(items, Key(x))));
  }

  /** Every row before `Unclassified` is the row of a classified pair. */
  lemma RowHasPair(items: seq<SpensDataItem>, j: nat) returns (x: SpensDataItem)
    requires NoHash(items) && j < |Distinct(ClassifiedKeys(items))|
    ensures x in items && Classified(x) && j < |Report(items)|
    ensures Report(items)[j] == SpensExpenseSubcategory(Cents(PairTotal(items, x.category, x.subcategory)), x.category, x.subcategory)
  {
    var seeded := ClassifiedKeys(items);
    var k := Distinct(seeded)[j];
    assert ReportKeys(items)[j] == k;
    ReportAt(items, j);
    DistinctMembers(seeded, k);
    x := ClassifiedKeyFrom(items, k);
    KeyShape(x);
    assert Total(items, seeded, Key(x)) == Cents(BucketSum(items, Key(x)));
    BucketIsPair(items, x);
    EntryOfKey(x, Cents(BucketSum(items, Key(x))));
  }

  /** Seeded rows stand in the order in which their keys first appear among the classified
      items, and no key has two rows. */
  lemma RowOrder(items: seq<SpensDataItem>, i: nat, j: nat)
    requires i < j < |Distinct(ClassifiedKeys(items))|
    ensures ReportKeys(items)[i] != ReportKeys(items)[j]
    ensures FirstIndex(ClassifiedKeys(items), ReportKeys(items)[i]) < FirstIndex(ClassifiedKeys(items), ReportKeys(items)[j])
  {
    var d := Distinct(ClassifiedKeys(items));
    assert ReportKeys(items)[i] == d[i] && ReportKeys(items)[j] == d[j];
    DistinctFirstAppearanceOrder(ClassifiedKeys(items), i, j);
  }

  /** A key met in the second pass that was not seeded is among the stray keys. */
  lemma {:induction false} StrayKeyIn(items: seq<SpensDataItem>, seeded: seq<string>, x: SpensDataItem)
    requires x in items && Truthy(x.amount) && |Key(x)| > 1 && Key(x) !in seeded
    ensures Key(x) in StrayKeys(items, seeded)
    decreases |items|
  {
    if x != items[|items| - 1] {
      assert items == items[..|items| - 1] + [items[|items| - 1]];
      StrayKeyIn(items[..|items| - 1], seeded, x);
    }
  }

  /** An item filed under only one level with a truthy amount adds to a key nobody seeded:
      `undefined + amount` makes its row's total `NaN`. */
  lemma HalfNamedGivesNaN(items: seq<SpensDataItem>, x: SpensDataItem) returns (j: nat)
    requires NoHash(items) && x in items && Truthy(x.amount)
    requires (x.category == "") != (x.subcategory == "")
    ensures j < |Report(items)| && Report(items)[j] == SpensExpenseSubcategory(NaN, x.category, x.subcategory)
  {
    var seeded := ClassifiedKeys(items);
    KeyShape(x);
    if Key(x) in seeded {
      var y := ClassifiedKeyFrom(items, Key(x));
      KeyInjective(x, y);
      assert false;
    }
    StrayKeyIn(items, seeded, x);
    j := StrayPosition(items, Key(x));
    UnseededRow(items, x, j);
  }

  /** A stray key has its row after the seeded rows and `Unclassified`. */
  lemma StrayPosition(items: seq<SpensDataItem>, k: string) returns (j: nat)
    requires k in StrayKeys(items, ClassifiedKeys(items))
    ensures j < |ReportKeys(items)| && ReportKeys(items)[j] == k
  {
    var seeded := ClassifiedKeys(items);
    var stray := StrayKeys(items, seeded);
    DistinctMembers(stray, k);
    var t := FirstIndex(Distinct(stray), k);
    j := |Distinct(seeded)| + 1 + t;
  }

  /** The row of a key that was never seeded holds `NaN` under the item's own names. */
  lemma UnseededRow(items: seq<SpensDataItem>, x: SpensDataItem, j: nat)
    requires j < |ReportKeys(items)| && ReportKeys(items)[j] == Key(x)
    requires Key(x) != UNCLASSIFIED && Key(x) !in ClassifiedKeys(items)
    requires '#' !in x.category && '#' !in x.subcategory
    ensures j < |Report(items)| && Report(items)[j] == SpensExpenseSubcategory(NaN, x.category, x.subcategory)
  {
    ReportAt(items, j);
    EntryOfKey(x, NaN);
  }

  // Worked cases.

  /** No items: the report is the seeded `Unclassified` row alone. */
  lemma EmptyReport()
    ensures Report([]) == [SpensExpenseSubcategory(Cents(0), "Unclassified", "")]
  {
    assert ClassifiedKeys([]) == [] && StrayKeys([], []) == [];
    assert ReportKeys([]) == [UNCLASSIFIED];
    UnclassifiedEntry(Cents(0));
  }

  /** The normalised items of the bundled sample ledger, in cents; the dates stand for
      their order. */
  const BUNDLED_ITEMS: seq<SpensDataItem> := [
    SpensDataItem(Cents(3530), "Shop", 0, "Amazon"),
    SpensDataItem(Cents(1199), "Entertainment", 1, "Online"),
    SpensDataItem(Cents(1299), "", 2, ""),
    SpensDataItem(Cents(1299), "Entertainment", 3, "Online"),
    SpensDataItem(Cents(10202), "Shop", 4, "Amazon"),
    SpensDataItem(Cents(1299), "Entertainment", 5, "Online")]

  lemma BundledKeys()
    ensures ClassifiedKeys(BUNDLED_ITEMS) == ["Shop#Amazon", "Entertainment#Online", "Entertainment#Online", "Shop#Amazon", "Entertainment#Online"]
  {
    var items := BUNDLED_ITEMS;
    assert Key(items[0]) == "Shop#Amazon" && Key(items[4]) == "Shop#Amazon";
    assert Key(items[1]) == "Entertainment#Online" && Key(items[3]) == "Entertainment#Online" && Key(items[5]) == "Entertainment#Online";
    assert ClassifiedKeys(items[..1]) == ["Shop#Amazon"] by { assert items[..1][..0] == []; }
    assert ClassifiedKeys(items[..2]) == ["Shop#Amazon", "Entertainment#Online"] by { assert items[..2][..1] == items[..1]; }
    assert ClassifiedKeys(items[..3]) == ClassifiedKeys(items[..2]) by { assert items[..3][..2] == items[..2]; }
    assert ClassifiedKeys(items[..4]) == ClassifiedKeys(items[..3]) + ["Entertainment#Online"] by { assert items[..4][..3] == items[..3]; }
    assert ClassifiedKeys(items[..5]) == ClassifiedKeys(items[..4]) + ["Shop#Amazon"] by { assert items[..5][..4] == items[..4]; }
    assert items[..6][..5] == items[..5];
  }

  lemma BundledDistinctKeys()
    ensures Distinct(ClassifiedKeys(BUNDLED_ITEMS)) == ["Shop#Amazon", "Entertainment#Online"]
  {
    BundledKeys();
    assert "Shop#Amazon"[0] != "Entertainment#Online"[0];
    DistinctOfTwo("Shop#Amazon", "Entertainment#Online");
  }

  /** The key sequence of the bundled ledger keeps two keys, in the order first met. */
  lemma DistinctOfTwo<T>(a: T, b: T)
    requires a != b
    ensures Distinct([a, b, b, a, b]) == [a, b]
  {
    assert Distinct([a]) == [a] by {
      assert [] + [a] == [a];
      DistinctSnoc([], a);
    }
    assert Distinct([a, b]) == [a, b] by {
      assert [a] + [b] == [a, b];
      DistinctSnoc([a], b);
    }
    assert Distinct([a, b, b]) == [a, b] by {
      assert [a, b] + [b] == [a, b, b];
      DistinctRepeat([a, b], b, [a, b]);
    }
    assert Distinct([a, b, b, a]) == [a, b] by {
      assert [a, b, b] + [a] == [a, b, b, a];
      DistinctRepeat([a, b, b], a, [a, b]);
    }
    assert [a, b, b, a] + [b] == [a, b, b, a, b];
    DistinctRepeat([a, b, b, a], b, [a, b]);
  }

  lemma DistinctRepeat<T>(p: seq<T>, x: T, d: seq<T>)
    requires Distinct(p) == d && x in d
    ensures Distinct(p + [x]) == d
  {
    DistinctSnoc(p, x);
  }

  lemma BundledSums()
    ensures BucketSum(BUNDLED_ITEMS, "Shop#Amazon") == 13732
    ensures BucketSum(BUNDLED_ITEMS, "Entertainment#Online") == 3797
    ensures UnclassifiedSum(BUNDLED_ITEMS) == 1299
  {
    var items := BUNDLED_ITEMS;
    var shop, fun := "Shop#Amazon", "Entertainment#Online";
    assert shop[0] != fun[0];
    assert Key(items[0]) == shop && Key(items[4]) == shop;
    assert Key(items[1]) == fun && Key(items[3]) == fun && Key(items[5]) == fun;
    assert |Key(items[2])| == 1 && Unnamed(items[2]);
    assert items == [items[0], items[1], items[2], items[3], items[4], items[5]];
    SumsOfLedger(items[0], items[1], items[2], items[3], items[4], items[5], shop, fun);
  }

  /** The sums of a ledger shaped like the bundled one: two keys, met in the order
      `k, k', unnamed, k', k, k'`. */
  lemma SumsOfLedger(x0: SpensDataItem, x1: SpensDataItem, x2: SpensDataItem, x3: SpensDataItem,
                     x4: SpensDataItem, x5: SpensDataItem, k: string, k': string)
    requires k != k' && |k| > 1 && |k'| > 1
    requires Key(x0) == k && Key(x4) == k && Key(x1) == k' && Key(x3) == k' && Key(x5) == k'
    requires |Key(x2)| == 1 && Unnamed(x2) && !Unnamed(x0) && !Unnamed(x1) && !Unnamed(x3) && !Unnamed(x4) && !Unnamed(x5)
    ensures BucketSum([x0, x1, x2, x3, x4, x5], k) == CentsOf(x0.amount) + CentsOf(x4.amount)
    ensures BucketSum([x0, x1, x2, x3, x4, x5], k') == CentsOf(x1.amount) + CentsOf(x3.amount) + CentsOf(x5.amount)
    ensures UnclassifiedSum([x0, x1, x2, x3, x4, x5]) == CentsOf(x2.amount)
  {
    var s1 := [] + [x0];
    SumsSnoc([], x0, k, k');
    var s2 := s1 + [x1];
    SumsSnoc(s1, x1, k, k');
    var s3 := s2 + [x2];
    SumsSnoc(s2, x2, k, k');
    var s4 := s3 + [x3];
    SumsSnoc(s3, x3, k, k');
    var s5 := s4 + [x4];
    SumsSnoc(s4, x4, k, k');
    var s6 := s5 + [x5];
    SumsSnoc(s5, x5, k, k');
    assert s6 == [x0, x1, x2, x3, x4, x5];
  }

  /** One more item adds its cents to the sums of its own key, and to the unclassified sum
      when it has neither name. */
  lemma SumsSnoc(s: seq<SpensDataItem>, x: SpensDataItem, k: string, k': string)
    ensures BucketSum(s + [x], k) == BucketSum(s, k) + (if Key(x) == k then CentsOf(x.amount) else 0)
    ensures BucketSum(s + [x], k') == BucketSum(s, k') + (if Key(x) == k' then CentsOf(x.amount) else 0)
    ensures UnclassifiedSum(s + [x]) == UnclassifiedSum(s) + (if Unnamed(x) then CentsOf(x.amount) else 0)
  {
    assert (s + [x])[..|s|] == s;
  }

  lemma BundledReportKeys()
    ensures ReportKeys(BUNDLED_ITEMS) == ["Shop#Amazon", "Entertainment#Online", UNCLASSIFIED]
  {
    var items := BUNDLED_ITEMS;
    forall x | x in items ensures x.category == "" <==> x.subcategory == "" {
      var i :| 0 <= i < |items| && items[i] == x;
    }
    PairedReportKeys(items);
    BundledDistinctKeys();
  }

  lemma BundledRowTotals()
    ensures Total(BUNDLED_ITEMS, ClassifiedKeys(BUNDLED_ITEMS), "Shop#Amazon") == Cents(13732)
    ensures Total(BUNDLED_ITEMS, ClassifiedKeys(BUNDLED_ITEMS), "Entertainment#Online") == Cents(3797)
    ensures Total(BUNDLED_ITEMS, ClassifiedKeys(BUNDLED_ITEMS), UNCLASSIFIED) == Cents(1299)
  {
    BundledKeys();
    BundledSums();
    assert "Shop#Amazon" != UNCLASSIFIED && "Entertainment#Online" != UNCLASSIFIED;
  }

  lemma BundledEntries()
    ensures Entry("Shop#Amazon", Cents(13732)) == SpensExpenseSubcategory(Cents(13732), "Shop", "Amazon")
    ensures Entry("Entertainment#Online", Cents(3797)) == SpensExpenseSubcategory(Cents(3797), "Entertainment", "Online")
  {
    assert "Shop" + "#" + "Amazon" == "Shop#Amazon";
    assert "Entertainment" + "#" + "Online" == "Entertainment#Online";
    EntryOfPair("Shop", "Amazon", Cents(13732));
    EntryOfPair("Entertainment", "Online", Cents(3797));
  }

  /** The bundled ledger's totals: 137.32 for Shop/Amazon, 37.97 for Entertainment/Online
      and 12.99 unclassified, in that order and nothing else. */
  lemma BundledLedgerTotals()
    ensures |Report(BUNDLED_ITEMS)| == 3
    ensures Report(BUNDLED_ITEMS)[0] == SpensExpenseSubcategory(Cents(13732), "Shop", "Amazon")
    ensures Report(BUNDLED_ITEMS)[1] == SpensExpenseSubcategory(Cents(3797), "Entertainment", "Online")
    ensures Report(BUNDLED_ITEMS)[2] == SpensExpenseSubcategory(Cents(1299), "Unclassified", "")
  {
    BundledReportKeys();
    BundledRowTotals();
    BundledEntries();
    UnclassifiedEntry(Cents(1299));
    ReportAt(BUNDLED_ITEMS, 0);
    ReportAt(BUNDLED_ITEMS, 1);
    ReportAt(BUNDLED_ITEMS, 2);
  }
}
