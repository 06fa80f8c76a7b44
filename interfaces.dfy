/** The record shapes the pipeline passes between its stages. */
module Interfaces {

  /** One raw ledger row (`SpensDataCsvItem`): column name to cell text. */
  type Row = map<string, string>

  /** The `Configuration` block of the YAML document. `currency` is carried but never read. */
  datatype Configuration = Configuration(
    amountField: string,
    currency: string,
    dateField: string,
    ignoredStatements: seq<string>,
    merchantField: string,
    transactionTypeDebit: seq<string>,
    transactionTypeField: string)

  /** A subcategory of the expense tree with its merchant substrings, in document order. */
  datatype Subcategory = Subcategory(name: string, merchants: seq<string>)

  /** A category of the expense tree with its subcategories, in document order. */
  datatype Category = Category(name: string, subcategories: seq<Subcategory>)

  /** The `Expenses` block: category, then subcategory, then merchant substrings. */
  type ExpenseTree = seq<Category>

  /** `SpensConfiguration`: the whole YAML document. */
  datatype SpensConfiguration = SpensConfiguration(configuration: Configuration, expenses: ExpenseTree)

  /** `SpensExpense`: one classification rule. */
  datatype SpensExpense = SpensExpense(category: string, subcategory: string, value: string)

  /** A transaction amount in cents; `NaN` is what `parseFloat` gives for text that is not a number. */
  datatype Amount = Cents(cents: nat) | NaN

  /** `SpensDataItem`: a normalised transaction; `date` is the parsed instant in milliseconds. */
  datatype SpensDataItem = SpensDataItem(amount: Amount, category: string, date: int, subcategory: string)

  /** `SpensExpenseSubcategory`: one total, in cents (`NaN` once `undefined` entered the sum). */
  datatype SpensExpenseSubcategory = SpensExpenseSubcategory(amount: Amount, category: string, subcategory: string)

  /** The number of cents an amount adds to a total: `NaN` and zero are falsy and add nothing. */
  function CentsOf(a: Amount): nat {
    match a
    case Cents(c) => c
    case NaN => 0
  }

  /** Every item is either filed under both a category and a subcategory or under neither. */
  predicate WellPaired(items: seq<SpensDataItem>) {
    forall item :: item in items ==> (item.category == "" <==> item.subcategory == "")
  }
}
