/**
 * The totals aggregator, `parseCsvToExpensesResults` of src/lib/spens.ts: one
 * total per `category#subcategory` key, seeded with zero for every classified
 * item, then an `Unclassified` total for items filed under neither level.
 *
 * The running totals live in a JavaScript `Map` (module JsMap). A total is an
 * `Amount`: adding to `undefined` gives `NaN`, and `NaN` stays `NaN`.
 */
module Aggregator {
  import opened Collections
  import opened Interfaces
  import JsMap

  /** The name of the bucket for items with neither a category nor a subcategory. */
  const UNCLASSIFIED: string := "Unclassified"

  /** The template-literal key `${category}#${subcategory}`. */
  function Key(item: SpensDataItem): string {
    item.category + "#" + item.subcategory
  }

  /** A JavaScript number is truthy unless it is `0` or `NaN`. */
  predicate Truthy(a: Amount) {
    a.Cents? && a.cents > 0
  }

  /** `undefined + n` and `NaN + n` are `NaN`. */
  function Add(total: Amount, a: Amount): (r: Amount)
    ensures r.Cents? <==> total.Cents? && a.Cents?
    ensures r.Cents? ==> r.cents == total.cents + a.cents
  {
    if total.NaN? || a.NaN? then NaN else Cents(total.cents + a.cents)
  }

  /** The running total does not depend on the order of the additions: `+` on amounts is
      commutative and associative, `NaN` absorbs, and `0` adds nothing. */
  lemma AddLaws(a: Amount, b: Amount, c: Amount)
    ensures Add(a, b) == Add(b, a)
    ensures Add(Add(a, b), c) == Add(a, Add(b, c))
    ensures Add(a, NaN) == NaN
    ensures a.Cents? ==> Add(a, Cents(0)) == a
  {
  }

  /** Filed under both levels: `entry.category && entry.subcategory`. */
  predicate Classified(item: SpensDataItem) {
    item.category != "" && item.subcategory != ""
  }

  /** Filed under neither level: the items the `Unclassified` total collects. */
  predicate Unnamed(item: SpensDataItem) {
    item.category == "" && item.subcategory == ""
  }

  // The reference: what the report holds, stated over the whole item list.

  /** The keys of the classified items, in item order, with repeats. */
  function ClassifiedKeys(items: seq<SpensDataItem>): seq<string>
    decreases |items|
  {
    if items == [] then []
    else
      var last := items[|items| - 1];
      ClassifiedKeys(items[..|items| - 1]) + (if Classified(last) then [Key(last)] else [])
  }

  /** The keys the second pass meets that were not seeded: a truthy item whose key is
      longer than `#` alone, filed under only one level. */
  function StrayKeys(items: seq<SpensDataItem>, seeded: seq<string>): seq<string>
    decreases |items|
  {
    if items == [] then []
    else
      var last := items[|items| - 1];
      StrayKeys(items[..|items| - 1], seeded)
      + (if Truthy(last.amount) && |Key(last)| > 1 && Key(last) !in seeded then [Key(last)] else [])
  }

  /** The sum, in cents, of the items filed under key `k`. */
  function BucketSum(items: seq<SpensDataItem>, k: string): nat
    decreases |items|
  {
    if items == [] then 0
    else
      var last := items[|items| - 1];
      BucketSum(items[..|items| - 1], k) + (if Key(last) == k then CentsOf(last.amount) else 0)
  }

  /** The sum, in cents, of the items filed under neither level. */
  function UnclassifiedSum(items: seq<SpensDataItem>): nat
    decreases |items|
  {
    if items == [] then 0
    else
      var last := items[|items| - 1];
      UnclassifiedSum(items[..|items| - 1]) + (if Unnamed(last) then CentsOf(last.amount) else 0)
  }

  /** The total the map holds under `k` once `items` are summed, `seeded` being the keys
      the first pass put in. */
  function Total(items: seq<SpensDataItem>, seeded: seq<string>, k: string): Amount {
    if k == UNCLASSIFIED then Cents(UnclassifiedSum(items))
    else if k in seeded then Cents(BucketSum(items, k))
    else NaN
  }

  /** The map's keys in insertion order: seeded keys by first appearance, then
      `Unclassified`, then the stray keys by first appearance. */
  function ReportKeys(items: seq<SpensDataItem>): seq<string> {
    Distinct(ClassifiedKeys(items)) + [UNCLASSIFIED] + Distinct(StrayKeys(items, ClassifiedKeys(items)))
  }

  /** The text before the first `#` (all of it when there is none). */
  function BeforeHash(s: string): (r: string)
    ensures r <= s && '#' !in r
    decreases |s|
  {
    if s == [] || s[0] == '#' then []
    else [s[0]] + BeforeHash(s[1..])
  }

  /** The text after the first `#` (empty when there is none). */
  function AfterHash(s: string): string
    decreases |s|
  {
    if s == [] then []
    else if s[0] == '#' then s[1..]
    else AfterHash(s[1..])
  }

  /** Splitting at the first `#`: the name is its first field, then `#`, then the rest;
      a name without `#` has no rest. */
  lemma {:induction false} AfterHashSplits(s: string)
    ensures s == BeforeHash(s) + (if '#' in s then "#" + AfterHash(s) else [])
    ensures '#' !in s ==> AfterHash(s) == []
    decreases |s|
  {
    if s != [] && s[0] != '#' {
      AfterHashSplits(s[1..]);
      assert s == [s[0]] + s[1..];
      assert '#' in s <==> '#' in s[1..];
    }
  }

  /** `const [category, subcategory] = name.split('#')` with `subcategory || ''`. */
  function Entry(name: string, total: Amount): SpensExpenseSubcategory {
    SpensExpenseSubcategory(total, BeforeHash(name), BeforeHash(AfterHash(name)))
  }

  /** The report `parseCsvToExpensesResults` returns, one row per map entry. */
  function Report(items: seq<SpensDataItem>): seq<SpensExpenseSubcategory> {
    var ks := ReportKeys(items);
    seq(|ks|, j requires 0 <= j < |ks| => Entry(ks[j], Total(items, ClassifiedKeys(items), ks[j])))
  }

  // Facts about keys.

  lemma KeyShape(item: SpensDataItem)
    ensures '#' in Key(item) && |Key(item)| == |item.category| + 1 + |item.subcategory|
    ensures Key(item) != UNCLASSIFIED
  {
    assert Key(item)[|item.category|] == '#';
    assert '#' !in UNCLASSIFIED;
  }

  /** Every seeded key has a `#` and more than one character; every stray key too, and it
      was not seeded. */
  lemma {:induction false} KeyListsShape(items: seq<SpensDataItem>, seeded: seq<string>)
    ensures forall k :: k in ClassifiedKeys(items) ==> '#' in k && |k| > 1 && k != UNCLASSIFIED
    ensures forall k :: k in StrayKeys(items, seeded) ==> '#' in k && |k| > 1 && k != UNCLASSIFIED && k !in seeded
    decreases |items|
  {
    if items != [] {
      KeyListsShape(items[..|items| - 1], seeded);
      KeyShape(items[|items| - 1]);
    }
  }

  /** The map's keys are unique. */
  lemma ReportKeysUnique(items: seq<SpensDataItem>)
    ensures NoDuplicates(ReportKeys(items))
  {
    var ck := ClassifiedKeys(items);
    KeyListsShape(items, ck);
    var a, b := Distinct(ck), Distinct(StrayKeys(items, ck));
    NoDuplicatesConcat(a, [UNCLASSIFIED]);
    NoDuplicatesConcat(a + [UNCLASSIFIED], b);
  }

  /** The total an item adds to in the second pass: its own key, or `Unclassified` when
      the key is `#` alone. */
  function BucketOf(item: SpensDataItem): string {
    if |Key(item)| > 1 then Key(item) else UNCLASSIFIED
  }

  /** Summing one more item moves only the total of its bucket, and only when its amount
      is truthy. */
  lemma TotalStep(s: seq<SpensDataItem>, seeded: seq<string>, x: SpensDataItem, k: string)
    requires forall k' :: k' in seeded ==> |k'| > 1 && k' != UNCLASSIFIED
    ensures Total(s + [x], seeded, k) ==
      if Truthy(x.amount) && k == BucketOf(x) then Add(Total(s, seeded, k), x.amount) else Total(s, seeded, k)
  {
    assert (s + [x])[..|s|] == s;
    KeyShape(x);
  }

  lemma StraySnoc(s: seq<SpensDataItem>, seeded: seq<string>, x: SpensDataItem)
    ensures StrayKeys(s + [x], seeded) ==
      StrayKeys(s, seeded) + (if Truthy(x.amount) && |Key(x)| > 1 && Key(x) !in seeded then [Key(x)] else [])
  {
    assert (s + [x])[..|s|] == s;
  }

  lemma ClassifiedSnoc(s: seq<SpensDataItem>, x: SpensDataItem)
    ensures ClassifiedKeys(s + [x]) == ClassifiedKeys(s) + (if Classified(x) then [Key(x)] else [])
  {
    assert (s + [x])[..|s|] == s;
  }


  /** The map after the second pass has summed `s`: its keys in order and the total
      under each. */
  predicate Summed(m: seq<(string, Amount)>, s: seq<SpensDataItem>, seeded: seq<string>) {
    && NoDuplicates(JsMap.Keys(m))
    && KeysAfter(m, s, seeded)
    && Tallied(m, s, seeded)
  }

  /** Each entry holds the total of its key. */
  predicate Tallied(m: seq<(string, Amount)>, s: seq<SpensDataItem>, seeded: seq<string>) {
    forall j :: 0 <= j < |m| ==> m[j].1 == Total(s, seeded, m[j].0)
  }

  predicate KeysAfter(m: seq<(string, Amount)>, s: seq<SpensDataItem>, seeded: seq<string>) {
    JsMap.Keys(m) == Distinct(seeded) + [UNCLASSIFIED] + Distinct(StrayKeys(s, seeded))
  }

  /** `total + expense.amount`, read from the map. */
  function Added(m: seq<(string, Amount)>, k: string, a: Amount): Amount
    requires NoDuplicates(JsMap.Keys(m))
  {
    match JsMap.Get(m, k)
    case None => NaN
    case Some(v) => Add(v, a)
  }

  /** Where the item's bucket stands in a map that has summed `s`. */
  lemma BucketPlace(m: seq<(string, Amount)>, s: seq<SpensDataItem>, seeded: seq<string>, x: SpensDataItem)
    requires KeysAfter(m, s, seeded)
    ensures BucketOf(x) in JsMap.Keys(m) <==>
      BucketOf(x) == UNCLASSIFIED || BucketOf(x) in seeded || BucketOf(x) in StrayKeys(s, seeded)
  {
    DistinctMembers(seeded, BucketOf(x));
    DistinctMembers(StrayKeys(s, seeded), BucketOf(x));
  }

  /** The keys after writing the new total of the item's bucket. */
  lemma SumStepKeys(m: seq<(string, Amount)>, s: seq<SpensDataItem>, seeded: seq<string>, x: SpensDataItem, v: Amount)
    requires NoDuplicates(JsMap.Keys(m)) && KeysAfter(m, s, seeded) && Truthy(x.amount)
    ensures KeysAfter(JsMap.Set(m, BucketOf(x), v), s + [x], seeded)
  {
    KeyShape(x);
    StraySnoc(s, seeded, x);
    BucketPlace(m, s, seeded, x);
    if BucketOf(x) != UNCLASSIFIED && BucketOf(x) !in seeded {
      StrayStepKeys(m, s, seeded, x, v);
    } else {
      assert StrayKeys(s + [x], seeded) == StrayKeys(s, seeded);
    }
  }

  /** A bucket that was not seeded: the key is appended the first time it is met. */
  lemma StrayStepKeys(m: seq<(string, Amount)>, s: seq<SpensDataItem>, seeded: seq<string>, x: SpensDataItem, v: Amount)
    requires NoDuplicates(JsMap.Keys(m)) && KeysAfter(m, s, seeded) && Truthy(x.amount)
    requires BucketOf(x) != UNCLASSIFIED && BucketOf(x) !in seeded
    ensures KeysAfter(JsMap.Set(m, BucketOf(x), v), s + [x], seeded)
  {
    var b := BucketOf(x);
    var stray := StrayKeys(s, seeded);
    StraySnoc(s, seeded, x);
    assert b == Key(x);
    assert StrayKeys(s + [x], seeded) == stray + [b];
    BucketPlace(m, s, seeded, x);
    DistinctSnoc(stray, b);
    if b !in stray {
      SnocAssoc(Distinct(seeded) + [UNCLASSIFIED], Distinct(stray), b);
    }
  }

  lemma SnocAssoc<T>(a: seq<T>, c: seq<T>, x: T)
    ensures (a + c) + [x] == a + (c + [x])
  {
  }

  /** An entry already in the map: only the bucket's own entry changes, by `+`. */
  lemma SumStepOld(m: seq<(string, Amount)>, s: seq<SpensDataItem>, seeded: seq<string>, x: SpensDataItem, j: nat)
    requires NoDuplicates(JsMap.Keys(m)) && j < |m| && m[j].1 == Total(s, seeded, m[j].0)
    requires forall k' :: k' in seeded ==> |k'| > 1 && k' != UNCLASSIFIED
    requires Truthy(x.amount)
    ensures var m' := JsMap.Set(m, BucketOf(x), Added(m, BucketOf(x), x.amount));
      j < |m'| && m'[j].1 == Total(s + [x], seeded, m'[j].0)
  {
    var v := Added(m, BucketOf(x), x.amount);
    JsMap.SetShape(m, BucketOf(x), v);
    TotalStep(s, seeded, x, m[j].0);
    assert JsMap.Keys(m)[j] == m[j].0;
  }

  /** A new entry: its key is the bucket's, and its total is `undefined + amount`. */
  lemma SumStepNew(m: seq<(string, Amount)>, s: seq<SpensDataItem>, seeded: seq<string>, x: SpensDataItem)
    requires NoDuplicates(JsMap.Keys(m)) && Truthy(x.amount)
    requires forall k' :: k' in seeded ==> |k'| > 1 && k' != UNCLASSIFIED
    requires BucketOf(x) !in JsMap.Keys(m) && BucketOf(x) != UNCLASSIFIED && BucketOf(x) !in seeded
    ensures var m' := JsMap.Set(m, BucketOf(x), Added(m, BucketOf(x), x.amount));
      |m| < |m'| && m'[|m|].1 == Total(s + [x], seeded, m'[|m|].0)
  {
    TotalStep(s, seeded, x, BucketOf(x));
  }

  /** Writing the new total of the item's bucket back keeps the map in step. */
  lemma SumStep(m: seq<(string, Amount)>, s: seq<SpensDataItem>, seeded: seq<string>, x: SpensDataItem)
    requires Summed(m, s, seeded) && Truthy(x.amount)
    requires forall k' :: k' in seeded ==> |k'| > 1 && k' != UNCLASSIFIED
    ensures Summed(JsMap.Set(m, BucketOf(x), Added(m, BucketOf(x), x.amount)), s + [x], seeded)
  {
    var b := BucketOf(x);
    var v := Added(m, b, x.amount);
    SumStepKeys(m, s, seeded, x, v);
    BucketPlace(m, s, seeded, x);
    SumStepValues(m, s, seeded, x);
  }

  /** The totals after writing the new total of the item's bucket. */
  lemma SumStepValues(m: seq<(string, Amount)>, s: seq<SpensDataItem>, seeded: seq<string>, x: SpensDataItem)
    requires NoDuplicates(JsMap.Keys(m)) && Tallied(m, s, seeded) && Truthy(x.amount)
    requires forall k' :: k' in seeded ==> |k'| > 1 && k' != UNCLASSIFIED
    requires BucketOf(x) !in JsMap.Keys(m) ==> BucketOf(x) != UNCLASSIFIED && BucketOf(x) !in seeded
    ensures Tallied(JsMap.Set(m, BucketOf(x), Added(m, BucketOf(x), x.amount)), s + [x], seeded)
  {
    var b := BucketOf(x);
    var v := Added(m, b, x.amount);
    var m' := JsMap.Set(m, b, v);
    JsMap.SetShape(m, b, v);
    forall j | 0 <= j < |m| ensures m'[j].1 == Total(s + [x], seeded, m'[j].0) {
      SumStepOld(m, s, seeded, x, j);
    }
    if b !in JsMap.Keys(m) {
      SumStepNew(m, s, seeded, x);
    }
    TalliedJoin(m', |m|, s + [x], seeded);
  }

  /** The totals of the old places and of the one appended place make up the whole map. */
  lemma TalliedJoin(m: seq<(string, Amount)>, n: nat, s: seq<SpensDataItem>, seeded: seq<string>)
    requires n <= |m| <= n + 1
    requires forall j :: 0 <= j < n ==> m[j].1 == Total(s, seeded, m[j].0)
    requires |m| == n + 1 ==> m[n].1 == Total(s, seeded, m[n].0)
    ensures Tallied(m, s, seeded)
  {
  }

  /** An item with a falsy amount changes nothing. */
  lemma SkipStep(m: seq<(string, Amount)>, s: seq<SpensDataItem>, seeded: seq<string>, x: SpensDataItem)
    requires Summed(m, s, seeded) && !Truthy(x.amount)
    requires forall k' :: k' in seeded ==> |k'| > 1 && k' != UNCLASSIFIED
    ensures Summed(m, s + [x], seeded)
  {
    StraySnoc(s, seeded, x);
    assert StrayKeys(s + [x], seeded) == StrayKeys(s, seeded);
    forall j | 0 <= j < |m| ensures m[j].1 == Total(s + [x], seeded, m[j].0) {
      TotalStep(s, seeded, x, m[j].0);
    }
  }

  /** The map after the first pass has seeded the classified keys of `p`. */
  predicate Seeded(m: seq<(string, Amount)>, p: seq<SpensDataItem>) {
    && JsMap.Keys(m) == Distinct(ClassifiedKeys(p))
    && forall j :: 0 <= j < |m| ==> m[j].1 == Cents(0)
  }

  /** Seeding one more key with zero leaves every total zero. */
  lemma SetZero(m: seq<(string, Amount)>, k: string)
    requires NoDuplicates(JsMap.Keys(m))
    requires forall j :: 0 <= j < |m| ==> m[j].1 == Cents(0)
    ensures forall j :: 0 <= j < |JsMap.Set(m, k, Cents(0))| ==> JsMap.Set(m, k, Cents(0))[j].1 == Cents(0)
  {
    var r := JsMap.Set(m, k, Cents(0));
    JsMap.SetShape(m, k, Cents(0));
    forall j | 0 <= j < |r| ensures r[j].1 == Cents(0) {
      if j < |m| {
        assert r[j].1 == if m[j].0 == k then Cents(0) else m[j].1;
      } else {
        assert k !in JsMap.Keys(m) && j == |m|;
      }
    }
  }

  /** `entry.category && entry.subcategory && expensesResults.set(key, 0)` keeps the seeding in step. */
  lemma SeedStep(m: seq<(string, Amount)>, p: seq<SpensDataItem>, x: SpensDataItem)
    requires Seeded(m, p)
    ensures NoDuplicates(JsMap.Keys(m))
    ensures Classified(x) ==> Seeded(JsMap.Set(m, Key(x), Cents(0)), p + [x])
    ensures !Classified(x) ==> Seeded(m, p + [x])
  {
    ClassifiedSnoc(p, x);
    if Classified(x) {
      DistinctSnoc(ClassifiedKeys(p), Key(x));
      SetZero(m, Key(x));
    } else {
      assert ClassifiedKeys(p + [x]) == ClassifiedKeys(p);
    }
  }

  lemma TotalEmpty(seeded: seq<string>, k: string)
    ensures Total([], seeded, k) == if k == UNCLASSIFIED || k in seeded then Cents(0) else NaN
  {
  }

  /** Seeding `Unclassified` after the classified keys starts the second pass. */
  lemma SeedsStartSums(m: seq<(string, Amount)>, seeded: seq<string>)
    requires JsMap.Keys(m) == Distinct(seeded) && UNCLASSIFIED !in seeded
    requires forall j :: 0 <= j < |m| ==> m[j].1 == Cents(0)
    ensures NoDuplicates(JsMap.Keys(m))
    ensures Summed(JsMap.Set(m, UNCLASSIFIED, Cents(0)), [], seeded)
  {
    DistinctMembers(seeded, UNCLASSIFIED);
    assert UNCLASSIFIED !in JsMap.Keys(m);
    var m' := JsMap.Set(m, UNCLASSIFIED, Cents(0));
    assert StrayKeys([], seeded) == [];
    assert JsMap.Keys(m') == Distinct(seeded) + [UNCLASSIFIED] + Distinct(StrayKeys([], seeded));
    SetZero(m, UNCLASSIFIED);
    JsMap.SetShape(m, UNCLASSIFIED, Cents(0));
    forall j | 0 <= j < |m'| ensures m'[j].1 == Total([], seeded, m'[j].0) {
      TotalEmpty(seeded, m'[j].0);
      if j < |m| {
        assert m'[j].0 == m[j].0 == JsMap.Keys(m)[j];
        assert JsMap.Keys(m)[j] in Distinct(seeded);
        DistinctMembers(seeded, m'[j].0);
      } else {
        assert UNCLASSIFIED !in JsMap.Keys(m) && j == |m|;
      }
    }
  }

  /** `Array.from` over the summed map is the report. */
  lemma SumsGiveReport(m: seq<(string, Amount)>, items: seq<SpensDataItem>)
    requires Summed(m, items, ClassifiedKeys(items))
    ensures seq(|m|, j requires 0 <= j < |m| => Entry(m[j].0, m[j].1)) == Report(items)
  {
    assert |JsMap.Keys(m)| == |ReportKeys(items)|;
    forall j | 0 <= j < |m| ensures m[j].0 == ReportKeys(items)[j] {
      assert m[j].0 == JsMap.Keys(m)[j];
    }
  }

  /** One step of the second pass over `items`, stated on the prefixes the loop has read. */
  lemma PassStep(m: seq<(string, Amount)>, items: seq<SpensDataItem>, i: nat)
    requires i < |items| && Summed(m, items[..i], ClassifiedKeys(items))
    ensures NoDuplicates(JsMap.Keys(m))
    ensures Truthy(items[i].amount) ==>
      Summed(JsMap.Set(m, BucketOf(items[i]), Added(m, BucketOf(items[i]), items[i].amount)), items[..i + 1], ClassifiedKeys(items))
    ensures !Truthy(items[i].amount) ==> Summed(m, items[..i + 1], ClassifiedKeys(items))
  {
    var seeded := ClassifiedKeys(items);
    KeyListsShape(items, seeded);
    var p, x := items[..i], items[i];
    if Truthy(x.amount) {
      SumStep(m, p, seeded, x);
      SummedPrefix(JsMap.Set(m, BucketOf(x), Added(m, BucketOf(x), x.amount)), items, i, seeded);
    } else {
      SkipStep(m, p, seeded, x);
      SummedPrefix(m, items, i, seeded);
    }
  }

  lemma SummedPrefix(m: seq<(string, Amount)>, items: seq<SpensDataItem>, i: nat, seeded: seq<string>)
    requires i < |items| && Summed(m, items[..i] + [items[i]], seeded)
    ensures Summed(m, items[..i + 1], seeded)
  {
    assert items[..i + 1] == items[..i] + [items[i]];
  }

  /** The first pass, `expenses.map(entry => entry.category && entry.subcategory &&
      expensesResults.set(key, 0))`: every classified key, in order of first appearance,
      with a zero total. */
  method SeedTotals(expenses: seq<SpensDataItem>) returns (expensesResults: seq<(string, Amount)>)
    ensures Seeded(expensesResults, expenses)
  {
    expensesResults := [];
    for i := 0 to |expenses|
      invariant Seeded(expensesResults, expenses[..i])
    {
      var entry := expenses[i];
      assert expenses[..i + 1] == expenses[..i] + [entry];
      SeedStep(expensesResults, expenses[..i], entry);
      if entry.category != "" && entry.subcategory != "" {
        expensesResults := JsMap.Set(expensesResults, entry.category + "#" + entry.subcategory, Cents(0));
      }
    }
    assert expenses[..|expenses|] == expenses;
  }

  /** The second pass: each truthy amount added to its own key's total, or to
      `Unclassified` when the key is `#` alone. */
  method SumTotals(seeded: seq<(string, Amount)>, expenses: seq<SpensDataItem>) returns (expensesResults: seq<(string, Amount)>)
    requires Summed(seeded, [], ClassifiedKeys(expenses))
    ensures Summed(expensesResults, expenses, ClassifiedKeys(expenses))
  {
    expensesResults := seeded;
    assert expenses[..0] == [];
    for i := 0 to |expenses|
      invariant Summed(expensesResults, expenses[..i], ClassifiedKeys(expenses))
    {
      var expense := expenses[i];
      var key := expense.category + "#" + expense.subcategory;
      PassStep(expensesResults, expenses, i);
      KeyShape(expense);
      if |key| > 1 && Truthy(expense.amount) {
        var total := match JsMap.Get(expensesResults, key)
          case None => NaN
          case Some(v) => Add(v, expense.amount);
        expensesResults := JsMap.Set(expensesResults, key, total);
      } else if Truthy(expense.amount) && |expense.category| == 0 {
        var total := match JsMap.Get(expensesResults, UNCLASSIFIED)
          case None => NaN
          case Some(v) => Add(v, expense.amount);
        expensesResults := JsMap.Set(expensesResults, UNCLASSIFIED, total);
      }
    }
    assert expenses[..|expenses|] == expenses;
  }

  /** `parseCsvToExpensesResults`: the totals report of a list of normalised items. */
  method ParseCsvToExpensesResults(expenses: seq<SpensDataItem>) returns (r: seq<SpensExpenseSubcategory>)
    ensures r == Report(expenses)
  {
    var expensesResults := SeedTotals(expenses);
    KeyListsShape(expenses, ClassifiedKeys(expenses));
    SeedsStartSums(expensesResults, ClassifiedKeys(expenses));
    expensesResults := JsMap.Set(expensesResults, UNCLASSIFIED, Cents(0));
    expensesResults := SumTotals(expensesResults, expenses);
    SumsGiveReport(expensesResults, expenses);
    // `Array.from(expensesResults, ([name, value]) => ...)`.
    r := seq(|expensesResults|, j requires 0 <= j < |expensesResults| => Entry(expensesResults[j].0, expensesResults[j].1));
  }
}
