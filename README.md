# spens, modelled in Dafny

spens sorts personal bank transactions into spending categories. It takes a
ledger of rows (date, merchant, amount, transaction type) and a YAML document.
The YAML holds a `Configuration` block (the column names, the debit labels, the
ignored statements) and an `Expenses` tree: category, then subcategory, then a
list of merchant substrings. `Spens.create` then does three things:

1. It builds the rule table `expenses` from the tree: one
   `{category, subcategory, value}` rule per merchant substring, in tree order.
   Category and subcategory names are accent-stripped.
2. It normalises the ledger into `items`:
   - keep the debit rows;
   - take the absolute amount and the accent-stripped merchant;
   - drop the rows an ignored statement marks;
   - classify each row by the first rule whose value occurs in the merchant,
     ignoring case;
   - parse the date;
   - sort by date.
3. It totals the items into `expenseSubcategories`:
   - a JavaScript `Map` is seeded with a zero for every classified pair, then
     an `Unclassified` zero;
   - each truthy amount is added to its pair's key, or to `Unclassified`;
   - the map is emitted in insertion order.

A smaller core, `trimObjectKeysValues`, rebuilds a CSV row with every key and
every value trimmed.

The model has one module per stage:

- `Text`: `trim`, ASCII `toUpperCase`, `includes`.
- `Utils`: `trimObjectKeysValues`.
- `RuleTable`: the rule-table builder.
- `Normalizer`: `parseCsvToSpensDataItem`.
- `DateSort`: the sort.
- `JsMap`: the `Map`, as a sequence of (key, value) pairs with unique keys.
- `Aggregator`: `parseCsvToExpensesResults`.
- `ReportProperties`: what the totals report means.
- `Pipeline`: the `Spens` class.

Shared pieces live in `Wrappers`, `Collections` and `Interfaces`.

How the source's values are represented:

- **Amounts** are integer cents. An item's amount is `Cents(n)` or `NaN`. `NaN`
  is what `parseFloat` gives for a missing or non-numeric cell.
- **Map totals** are amounts too. `undefined + amount` is `NaN`, and a `NaN`
  total stays `NaN`.
- **Rounding.** With whole cents, the `toFixed(2)` rounding after each
  addition is the identity, so the sums are exact.
- **Library calls are parameters:**
  - `remove-accents` is `strip: string -> string`;
  - `parseFloat` read in cents is `parseAmount: string -> Option<int>`;
  - `dayjs(date, dateFormats)` read as a timestamp is
    `parseDate: Option<string> -> Option<int>`. `None` means an invalid date,
    on which `toISOString` throws.
- **Errors.** A debit row without a merchant cell makes `removeAccents` throw.
  An invalid date does too, through `toISOString`. Both become a `Failure` of
  the whole normalisation, and `Create` then leaves `items` and
  `expenseSubcategories` as they were.

Two behaviours of the code differ from what its purpose suggests. The model
follows the code:

- **Unparsable amounts.** The intended behaviour is that a ledger row whose
  amount does not parse is reported as an error. The code keeps the item with
  amount `NaN`, and the aggregator skips it because `NaN` is falsy. The model
  does the same.
- **Half-named items.** The intended aggregation puts an item with an empty
  category under `Unclassified`, even when it has a subcategory. It leaves out
  an item that has a category but no subcategory. The code gives both kinds a
  `NaN` row after `Unclassified`: their keys `#sub` and `cat#` are longer than
  one character, so the first branch adds their amount to an unseeded key.
  `ReportProperties.HalfNamedGivesNaN` states this.

## Model

| member | source | states |
|---|---|---|
| Text.Trim | src/lib/utils.ts:39 | the result of `trim` starts and ends with no whitespace and is no longer than its input |
| Text.TrimCutsWhitespace | src/lib/utils.ts:39 | `trim` removes exactly a whitespace prefix and a whitespace suffix: the result is a slice `s[i..j]` with only whitespace outside it |
| Text.TrimIdempotent | src/lib/utils.ts:39 | trimming twice is trimming once |
| Text.ContainsAt | src/lib/spens.ts:123 | `includes` holds iff some index of the text starts an occurrence of the needle |
| Utils.TrimmedKeys | src/lib/utils.ts:30-44 | the key set of the rebuilt row is exactly the set of trimmed input keys |
| Utils.TrimmedAllTrimmed | src/lib/utils.ts:39 | every key and every value of the rebuilt row is trimmed |
| Utils.TrimmedSize | src/lib/utils.ts:30-44 | the rebuilt row has at most as many keys as the input has entries |
| Utils.LastEntryWins | src/lib/utils.ts:30-43 | when several keys trim to the same key, the value of the last such entry, trimmed, is the one kept |
| Utils.TrimmedIdempotent | src/lib/utils.ts:39 | rebuilding the entries of a rebuilt row, in any order, gives the same row back |
| Utils.DocumentedExample | src/lib/utils.ts:14-21 | `{'  Account': ''}` becomes `{'Account': ''}` |
| Utils.TrimObjectKeysValues | src/lib/utils.ts:25-44 | the in-place fold assigning `acc[key.trim()] = value.trim()` returns the dictionary the entries specify; all its keys and values are trimmed, and its keys are exactly the trimmed input keys |
| RuleTable.SubcategoryRules | src/lib/spens.ts:86-90 | a subcategory gives one rule per merchant substring, in list order, with stripped category and subcategory names and the substring unchanged |
| RuleTable.BuildRulesAppend | src/lib/spens.ts:86-90 | tree order: the rules of earlier categories come before those of later ones |
| RuleTable.BuildRulesCount | src/lib/spens.ts:83-90 | the table has exactly one rule per merchant substring of the tree |
| RuleTable.BuildRulesMembers | src/lib/spens.ts:83-90 | a rule is in the table iff some category, subcategory and substring of the tree produce it |
| RuleTable.NamedTreeGivesNamedRules | src/lib/spens.ts:87-88 | if every name stays non-empty after stripping, every rule has a non-empty category and subcategory |
| RuleTable.TestTreeRules | src/lib/spens.spec.ts:99-115 | the test configuration's tree gives the rules Amazon, Microsoft, YouTube, in that order |
| Normalizer.AmountOf | src/lib/spens.ts:114-116 | the amount is a number iff the cell exists and parses; it is then non-negative and equal to the parsed amount or to its negation |
| Normalizer.DebitRows | src/lib/spens.ts:108-112 | a row survives iff its type cell is exactly one of the debit labels; the output is no longer than the input |
| Normalizer.ExtractAll | src/lib/spens.ts:113-119 | extraction succeeds iff every debit row has a merchant cell, and then row `i` gives record `i` |
| Normalizer.NoStatementFoundIff | src/lib/spens.ts:120-125 | the source's `filter(...).length === 0` test holds iff no ignored statement, upper-cased, occurs in the upper-cased merchant |
| Normalizer.KeptRecordsMembers | src/lib/spens.ts:120-125 | a record is kept iff no ignored statement marks its merchant |
| Normalizer.FirstMatch | src/lib/spens.ts:127-129 | `find` returns the earliest rule whose upper-cased value occurs in the upper-cased merchant; no earlier rule matches, and no rule matches when it finds none |
| Normalizer.Classification | src/lib/spens.ts:127-133 | the item takes the first matching rule's category and subcategory, or `('', '')` when none matches; with named rules, both are empty or both are non-empty |
| Normalizer.ClassifyAll | src/lib/spens.ts:126-137 | classification succeeds iff every kept record's date parses, and then record `i` gives item `i` |
| Normalizer.ClassifiedItemsPerRow | src/lib/spens.ts:107-137 | the chain before the sort, when it succeeds, equals the items taken row by row: a row gives an item iff it is a debit row that no ignored statement marks |
| Normalizer.ClassifiedItemsSucceeds | src/lib/spens.ts:107-137 | the chain succeeds iff every debit row has a merchant cell and, unless an ignored statement marks it, a date that parses |
| Normalizer.PerRowLength | src/lib/spens.ts:107-137 | each row gives at most one item |
| Normalizer.PerRowWellPaired | src/lib/spens.ts:127-133 | with named rules, every item has both names or neither |
| Normalizer.NormalizeProperties | src/lib/spens.ts:101-140 | `parseCsvToSpensDataItem` fails iff some row stops the chain; on success, its items are the row-by-row items sorted by date, non-decreasing by date, a permutation of them, stable for equal dates, never more than the ledger rows, and, with named rules, all with both names or neither |
| DateSort.InsertAddsItem | src/lib/spens.ts:138-140 | one insertion step adds exactly the inserted item to the multiset |
| DateSort.InsertSorted | src/lib/spens.ts:138-140 | inserting into a date-sorted list keeps it sorted |
| DateSort.InsertStable | src/lib/spens.ts:138-140 | an inserted item goes after every item of its date already in the list |
| DateSort.SortByDateProperties | src/lib/spens.ts:138-140 | the sort returns a permutation of its input that is non-decreasing by date and keeps items of equal date in their input order |
| DateSort.SortByDateOfSorted | src/lib/spens.ts:138-140 | sorting a list that is already sorted by date returns it unchanged |
| DateSort.SortByDateIdempotent | src/lib/spens.ts:138-140 | re-sorting the sorted items is a no-op |
| JsMap.Set | src/lib/spens.ts:156 | `set` on a present key updates its value in place; on a new key it appends; keys stay unique |
| JsMap.Get | src/lib/spens.ts:167 | `get` finds the value stored under a key, and gives `undefined` iff the key is absent |
| JsMap.SetShape | src/lib/spens.ts:156 | `set` keeps every existing entry's key and position, and adds an entry only for a new key |
| Aggregator.AddLaws | src/lib/spens.ts:166-178 | the source's `total + amount` is commutative and associative, `NaN` (and `undefined`) absorbs every addition, and adding `0` to a number changes nothing |
| Aggregator.BeforeHash | src/lib/spens.ts:184 | the first field of `split('#')` is a prefix without `#` |
| Aggregator.AfterHashSplits | src/lib/spens.ts:184 | the rest after the first `#`: the name is the first field, then `#`, then this rest; a name without `#` leaves it empty |
| Aggregator.KeyListsShape | src/lib/spens.ts:152-157 | every seeded key contains `#`, is longer than one character and is not `Unclassified`; every key of an unseeded, truthy item lies outside the seeded keys |
| Aggregator.ReportKeysUnique | src/lib/spens.ts:150-181 | the map's keys are unique: the seeded keys, then `Unclassified`, then the unseeded keys |
| Aggregator.TotalStep | src/lib/spens.ts:161-181 | adding one item changes only the total of its own bucket, by the source's `+` |
| Aggregator.SeedsStartSums | src/lib/spens.ts:152-159 | the seeded map plus the `Unclassified` zero holds the totals of no items yet |
| Aggregator.SeedTotals | src/lib/spens.ts:152-157 | the first loop leaves one zero entry per classified key, in order of first appearance |
| Aggregator.SumTotals | src/lib/spens.ts:161-181 | the second loop leaves, under each key, the total of the items filed under that key: the sum of the truthy amounts, or `NaN` for a key nobody seeded |
| Aggregator.ParseCsvToExpensesResults | src/lib/spens.ts:147-192 | the method's output is the totals report of its items |
| ReportProperties.EntryOfKey | src/lib/spens.ts:183-191 | with no `#` in either name, splitting an item's key gives back its category and subcategory |
| ReportProperties.ReportConserves | src/lib/spens.ts:161-191 | when every item has both names or neither, the totals add up to the cents of all items |
| ReportProperties.UnclassifiedRow | src/lib/spens.ts:159-180 | the `Unclassified` row, with subcategory `''`, follows the seeded rows and holds the sum of the items with neither name, whatever the items |
| ReportProperties.PairedLayout | src/lib/spens.ts:152-191 | when every item has both names or neither, there is one row per distinct key `category#subcategory` of the classified items, then `Unclassified` last, and no total is `NaN` |
| ReportProperties.BucketIsPair | src/lib/spens.ts:163-173 | with no `#` in the names, a key's total is the sum over the items of exactly that pair |
| ReportProperties.PairHasRow | src/lib/spens.ts:152-191 | every classified pair has a row with its own names and the sum of its items' amounts |
| ReportProperties.RowHasPair | src/lib/spens.ts:152-191 | every row before `Unclassified` belongs to a classified pair of the items and holds that pair's sum |
| ReportProperties.RowOrder | src/lib/spens.ts:152-157 | the seeded rows are distinct and follow the order in which their keys first appear among the classified items |
| ReportProperties.StrayKeyIn | src/lib/spens.ts:162-173 | the key of a truthy item that was not seeded and is not `#` alone gets an entry of its own |
| ReportProperties.HalfNamedGivesNaN | src/lib/spens.ts:162-173 | an item with a truthy amount and only one name gives a row with a `NaN` total under its own names |
| ReportProperties.EmptyReport | src/lib/spens.ts:150-191 | no items give the single row `Unclassified`, 0 |
| ReportProperties.BundledLedgerTotals | src/lib/spens.spec.ts:125-141 | the test ledger's items total Shop/Amazon 137.32, Entertainment/Online 37.97 and Unclassified 12.99, in that order |
| Pipeline.Spens.constructor | src/lib/spens.ts:21-23 | a new instance has empty `items`, `expenses` and `expenseSubcategories` |
| Pipeline.Spens.Create | src/lib/spens.ts:56-67 | `expenses` becomes the rule table of the tree. If normalising throws, the error is returned and `items` and `expenseSubcategories` keep their old values. Otherwise `items` becomes the normalised ledger and `expenseSubcategories` its totals report |
| Pipeline.SortKeepsSum | src/lib/spens.ts:138-140 | sorting neither adds nor drops a cent |
| Pipeline.PipelineConserves | src/lib/spens.ts:56-67 | with every category and subcategory named, a successful run's totals add up to the cents of the items the ledger rows give |

## Left out

- File and CLI I/O is not modelled. That covers `readCsv`, `readYaml`,
  `Promise.all`, `fs.writeFileSync`, `json2csv` and src/cli.ts. The parsed rows
  and YAML document are inputs, and the output CSV is not written.
- `console.log` of the items is left out (src/lib/spens.ts:151). It has no
  effect on the results.
- Date parsing and formatting are the `parseDate` parameter. That covers
  `dayjs(date, dateFormats)`, `toISOString` and `new Date(...).getTime()`.
  Items carry the timestamp rather than the ISO string, and the sort compares
  timestamps.
- A row without a date cell is not given the current time. `dayjs(undefined)`
  reads the clock (src/lib/spens.ts:135). The model's pure `parseDate(None)`
  gives every such row one fixed instant instead. That includes calls to
  `create` without `dateFormats`, as in the CLI and the totals test.
- A YAML document without `TransactionTypeDebit` or `IgnoredStatements` is
  outside the model. The source then calls `.includes` or `.filter` on
  `undefined` and throws (src/lib/spens.ts:108-125). `Configuration` always
  holds both lists.
- Floating point is not modelled. `parseFloat` is the `parseAmount`
  parameter, read in whole cents, so amounts with more than two decimals,
  `Infinity` and IEEE rounding in `toFixed(2)` are outside the model.
- `remove-accents` is the uninterpreted `strip` parameter. `toUpperCase` folds
  only the ASCII letters.
- `safe-flat`'s `flatten` and `split('.')` are replaced by building rules
  straight from the nested tree. So names containing `.` are not mis-split.
  The insertion order of `Object.entries`, including the hoisting of
  integer-like keys, is taken to be document order.
- The row dictionary of `trimObjectKeysValues` is given as its entries in
  order. Integer-like keys and `__proto__` are not treated specially.
- `currency` is carried in the configuration and never read, as in the source.
- Names that contain `#` are covered only by the key-level lemmas.
  `ReportProperties.PairedLayout`, `ReportProperties.RowOrder`,
  `ReportProperties.UnclassifiedRow` and `ReportProperties.ReportConserves`
  speak of keys and hold for any names. The lemmas that name an item's
  category and subcategory in a row need names without `#`, because
  `split('#')` cuts such a name apart: `ReportProperties.EntryOfKey`,
  `ReportProperties.BucketIsPair`, `ReportProperties.PairHasRow`,
  `ReportProperties.RowHasPair` and `ReportProperties.HalfNamedGivesNaN`.
- ReportProperties.BundledLedgerTotals: states the length and each of the three
  rows separately, rather than one equality of whole lists.
- The normaliser's test scenario (src/lib/spens.spec.ts:44-89) is not stated
  as a lemma. Its expected items depend on what `dayjs` and `parseFloat` return
  for the rows' cells, and both are parameters here. The aggregator's scenario
  starts from that test's expected items.
