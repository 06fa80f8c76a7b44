/**
 * The `Spens` object of src/lib/spens.ts: `create` builds the rule table from
 * the expense tree, normalises the ledger into items and totals the items.
 * Reading the files and writing the output CSV are left to the caller: the
 * parsed ledger rows and YAML document come in as values.
 */
module Pipeline {
  import opened Wrappers
  import opened Interfaces
  import opened RuleTable
  import opened DateSort
  import opened Normalizer
  import opened Aggregator
  import opened ReportProperties

  class Spens {
    var items: seq<SpensDataItem>
    var expenses: seq<SpensExpense>
    var expenseSubcategories: seq<SpensExpenseSubcategory>

    /** A new instance holds three empty lists. */
    constructor()
      ensures items == [] && expenses == [] && expenseSubcategories == []
    {
      items := [];
      expenses := [];
      expenseSubcategories := [];
    }

    /** `create`: the rule table is stored first; when normalising throws, the items and
        totals keep their previous values and the error is returned. */
    method Create(csv: seq<Row>, yaml: SpensConfiguration, strip: string -> string,
                  parseAmount: string -> Option<int>, parseDate: Option<string> -> Option<int>)
      returns (status: Result<(), NormalizeError>)
      modifies this
      ensures expenses == BuildRules(strip, yaml.expenses)
      ensures status.Success? <==> ParseCsvToSpensDataItem(csv, yaml.configuration, expenses, strip, parseAmount, parseDate).Success?
      ensures status.Success? ==>
        items == ParseCsvToSpensDataItem(csv, yaml.configuration, expenses, strip, parseAmount, parseDate).value
      ensures status.Success? ==> expenseSubcategories == Report(items)
      ensures status.Failure? ==>
        status.error == ParseCsvToSpensDataItem(csv, yaml.configuration, expenses, strip, parseAmount, parseDate).error
      ensures status.Failure? ==> items == old(items) && expenseSubcategories == old(expenseSubcategories)
    {
      expenses := BuildRules(strip, yaml.expenses);
      var normalized := ParseCsvToSpensDataItem(csv, yaml.configuration, expenses, strip, parseAmount, parseDate);
      if normalized.Failure? {
        return Failure(normalized.error);
      }
      items := normalized.value;
      expenseSubcategories := ParseCsvToExpensesResults(items);
      status := Success(());
    }
  }

  lemma {:induction false} ItemsSumAppend(a: seq<SpensDataItem>, b: seq<SpensDataItem>)
    ensures ItemsSum(a + b) == ItemsSum(a) + ItemsSum(b)
    decreases |b|
  {
    if b == [] {
      assert a + b == a;
    } else {
      assert (a + b)[..|a + b| - 1] == a + b[..|b| - 1];
      ItemsSumAppend(a, b[..|b| - 1]);
    }
  }

  lemma {:induction false} InsertKeepsSum(s: seq<SpensDataItem>, x: SpensDataItem)
    ensures ItemsSum(Insert(s, x)) == ItemsSum(s) + CentsOf(x.amount)
    decreases |s|
  {
    if s == [] || s[|s| - 1].date <= x.date {
      ItemsSumAppend(s, [x]);
      assert [x][..0] == [];
    } else {
      var p, y := s[..|s| - 1], s[|s| - 1];
      InsertKeepsSum(p, x);
      ItemsSumAppend(Insert(p, x), [y]);
      ItemsSumAppend(p, [y]);
      assert [y][..0] == [] && s == p + [y];
    }
  }

  /** Sorting neither adds nor drops a cent. */
  lemma {:induction false} SortKeepsSum(s: seq<SpensDataItem>)
    ensures ItemsSum(SortByDate(s)) == ItemsSum(s)
    decreases |s|
  {
    if s != [] {
      SortKeepsSum(s[..|s| - 1]);
      InsertKeepsSum(SortByDate(s[..|s| - 1]), s[|s| - 1]);
    }
  }

  /** End to end: with every category and subcategory named, a successful run's totals
      add up to the cents of the rows' own items, one per kept debit row. */
  lemma PipelineConserves(csv: seq<Row>, yaml: SpensConfiguration, strip: string -> string,
                          parseAmount: string -> Option<int>, parseDate: Option<string> -> Option<int>)
    requires forall c :: c in yaml.expenses ==>
      strip(c.name) != "" && forall s :: s in c.subcategories ==> strip(s.name) != ""
    ensures var rules := BuildRules(strip, yaml.expenses);
      var normalized := ParseCsvToSpensDataItem(csv, yaml.configuration, rules, strip, parseAmount, parseDate);
      normalized.Success? ==>
        RowsSum(Report(normalized.value)) == ItemsSum(PerRow(yaml.configuration, rules, strip, parseAmount, parseDate, csv))
  {
    var rules := BuildRules(strip, yaml.expenses);
    NamedTreeGivesNamedRules(strip, yaml.expenses);
    NormalizeProperties(csv, yaml.configuration, rules, strip, parseAmount, parseDate);
    var normalized := ParseCsvToSpensDataItem(csv, yaml.configuration, rules, strip, parseAmount, parseDate);
    if normalized.Success? {
      ReportConserves(normalized.value);
      SortKeepsSum(PerRow(yaml.configuration, rules, strip, parseAmount, parseDate, csv));
    }
  }
}
