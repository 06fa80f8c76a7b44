/**
 * The transaction normaliser, `parseCsvToSpensDataItem` of src/lib/spens.ts:
 * keep the debit rows, extract amount, merchant and date, drop ignored
 * statements, classify by the first matching rule, parse the date, sort by date.
 *
 * Library calls are parameters: `strip` is `remove-accents`, `parseAmount` is
 * `parseFloat` read in cents (`None` for `NaN`), and `parseDate` is the
 * timestamp of `dayjs(date, dateFormats)` (`None` for an invalid date, on which
 * `toISOString` throws). A missing cell is `undefined`, written `None`.
 */
module Normalizer {
  import opened Wrappers
  import opened Text
  import opened Collections
  import opened Interfaces
  import opened RuleTable
  import opened DateSort

  /** What stops the whole chain: `removeAccents(undefined)` throws on a debit row without a
      merchant cell, and `toISOString` throws on an invalid date. */
  datatype NormalizeError = MissingMerchant(field: string) | InvalidDate(raw: Option<string>)

  /** A debit row after the first `map`. */
  datatype Extracted = Extracted(amount: Amount, merchant: string, date: Option<string>)

  /** `record[name]`, `None` standing for `undefined`. */
  function Field(row: Row, name: string): Option<string> {
    if name in row then Some(row[name]) else None
  }

  /** `TransactionTypeDebit.includes(record[TransactionTypeField])`: exact membership. */
  predicate IsDebit(cfg: Configuration, row: Row) {
    cfg.transactionTypeField in row && row[cfg.transactionTypeField] in cfg.transactionTypeDebit
  }

  function Abs(v: int): nat {
    if v < 0 then -v else v
  }

  /** `Math.abs(parseFloat(cell))`; `parseFloat(undefined)` is `NaN`. */
  function AmountOf(cell: Option<string>, parseAmount: string -> Option<int>): (a: Amount)
    ensures a.Cents? <==> cell.Some? && parseAmount(cell.value).Some?
    ensures a.Cents? ==> a.cents as int == parseAmount(cell.value).value || a.cents as int == -parseAmount(cell.value).value
  {
    match cell
    case None => NaN
    case Some(text) =>
      match parseAmount(text)
      case None => NaN
      case Some(v) => Cents(Abs(v))
  }

  /** Stage 1: the rows whose type cell is one of the debit labels, in order. */
  function DebitRows(cfg: Configuration, csv: seq<Row>): (r: seq<Row>)
    ensures |r| <= |csv|
    ensures forall row :: row in r <==> row in csv && IsDebit(cfg, row)
  {
    var r := Filter(csv, row => IsDebit(cfg, row));
    assert forall row :: row in csv && IsDebit(cfg, row) ==> row in r by {
      forall row | row in csv && IsDebit(cfg, row) ensures row in r {
        var i :| 0 <= i < |csv| && csv[i] == row;
      }
    }
    r
  }

  /** Stage 2 for one row: absolute amount, accent-stripped merchant, raw date. */
  function ExtractRow(cfg: Configuration, strip: string -> string, parseAmount: string -> Option<int>, row: Row): (r: Result<Extracted, NormalizeError>)
    ensures r.Success? <==> cfg.merchantField in row
    ensures r.Success? ==> r.value == Extracted(AmountOf(Field(row, cfg.amountField), parseAmount),
                                                strip(row[cfg.merchantField]), Field(row, cfg.dateField))
    ensures r.Failure? ==> r.error == MissingMerchant(cfg.merchantField)
  {
    match Field(row, cfg.merchantField)
    case None => Failure(MissingMerchant(cfg.merchantField))
    case Some(merchant) =>
      Success(Extracted(AmountOf(Field(row, cfg.amountField), parseAmount), strip(merchant), Field(row, cfg.dateField)))
  }

  function ExtractAll(cfg: Configuration, strip: string -> string, parseAmount: string -> Option<int>, rows: seq<Row>): (r: Result<seq<Extracted>, NormalizeError>)
    ensures r.Success? <==> forall i :: 0 <= i < |rows| ==> cfg.merchantField in rows[i]
    ensures r.Success? ==> |r.value| == |rows|
    ensures r.Success? ==> forall i :: 0 <= i < |rows| ==> ExtractRow(cfg, strip, parseAmount, rows[i]) == Success(r.value[i])
  {
    MapAll(rows, row => ExtractRow(cfg, strip, parseAmount, row))
  }

  /** A merchant an ignored statement marks: some statement, upper-cased, occurs in the upper-cased merchant. */
  predicate IsIgnored(statements: seq<string>, merchant: string) {
    exists st :: st in statements && Contains(Upper(merchant), Upper(st))
  }

  /** Stage 3 for one record: `IgnoredStatements.filter(found in merchant).length === 0`. */
  predicate NoStatementFound(statements: seq<string>, merchant: string) {
    |Filter(statements, st => Contains(Upper(merchant), Upper(st)))| == 0
  }

  lemma NoStatementFoundIff(statements: seq<string>, merchant: string)
    ensures NoStatementFound(statements, merchant) <==> !IsIgnored(statements, merchant)
  {
    var f := Filter(statements, st => Contains(Upper(merchant), Upper(st)));
    if IsIgnored(statements, merchant) {
      var st :| st in statements && Contains(Upper(merchant), Upper(st));
      var i :| 0 <= i < |statements| && statements[i] == st;
      assert st in f;
    }
    if |f| > 0 {
      assert f[0] in statements;
    }
  }

  /** Stage 3: the records no ignored statement marks, in order (the source's test
      `NoStatementFound` is `!IsIgnored`, by `NoStatementFoundIff`). */
  function KeptRecords(statements: seq<string>, records: seq<Extracted>): (r: seq<Extracted>)
    ensures |r| <= |records|
    decreases |records|
  {
    if records == [] then []
    else (if !IsIgnored(statements, records[0].merchant) then [records[0]] else []) + KeptRecords(statements, records[1..])
  }

  /** A record is kept iff no ignored statement marks its merchant. */
  lemma {:induction false} KeptRecordsMembers(statements: seq<string>, records: seq<Extracted>, e: Extracted)
    ensures e in KeptRecords(statements, records) <==> e in records && !IsIgnored(statements, e.merchant)
    decreases |records|
  {
    if records != [] {
      KeptRecordsMembers(statements, records[1..], e);
      assert records == [records[0]] + records[1..];
    }
  }

  /** `merchant.toUpperCase().includes(rule.value.toUpperCase())`. */
  predicate RuleMatches(rule: SpensExpense, merchant: string) {
    Contains(Upper(merchant), Upper(rule.value))
  }

  /** `spensExpenses.find(...)`, as the index of the earliest matching rule. */
  function FirstMatch(rules: seq<SpensExpense>, merchant: string): (r: Option<nat>)
    ensures r.Some? ==> r.value < |rules| && RuleMatches(rules[r.value], merchant)
    ensures forall j :: 0 <= j < |rules| && (r.None? || j < r.value) ==> !RuleMatches(rules[j], merchant)
    decreases |rules|
  {
    if rules == [] then None
    else if RuleMatches(rules[0], merchant) then Some(0)
    else
      match FirstMatch(rules[1..], merchant)
      case None => None
      case Some(i) => Some(i + 1)
  }

  /** The (category, subcategory) a merchant is filed under: the earliest matching rule's,
      or `('', '')` when no rule matches. */
  function Classification(rules: seq<SpensExpense>, merchant: string): (r: (string, string))
    ensures FirstMatch(rules, merchant).None? ==> r == ("", "")
    ensures FirstMatch(rules, merchant).Some? ==>
      r == (rules[FirstMatch(rules, merchant).value].category, rules[FirstMatch(rules, merchant).value].subcategory)
    ensures NamedRules(rules) ==> (r.0 == "" <==> r.1 == "")
  {
    match FirstMatch(rules, merchant)
    case None => ("", "")
    case Some(i) => (rules[i].category, rules[i].subcategory)
  }

  /** Stage 4 for one record: classify, then parse the date. */
  function ClassifyRecord(rules: seq<SpensExpense>, parseDate: Option<string> -> Option<int>, e: Extracted): (r: Result<SpensDataItem, NormalizeError>)
    ensures r.Success? <==> parseDate(e.date).Some?
    ensures r.Success? ==> r.value == SpensDataItem(e.amount, Classification(rules, e.merchant).0,
                                                    parseDate(e.date).value, Classification(rules, e.merchant).1)
    ensures r.Failure? ==> r.error == InvalidDate(e.date)
  {
    var (category, subcategory) := Classification(rules, e.merchant);
    match parseDate(e.date)
    case None => Failure(InvalidDate(e.date))
    case Some(t) => Success(SpensDataItem(e.amount, category, t, subcategory))
  }

  function ClassifyAll(rules: seq<SpensExpense>, parseDate: Option<string> -> Option<int>, records: seq<Extracted>): (r: Result<seq<SpensDataItem>, NormalizeError>)
    ensures r.Success? <==> forall i :: 0 <= i < |records| ==> parseDate(records[i].date).Some?
    ensures r.Success? ==> |r.value| == |records|
    ensures r.Success? ==> forall i :: 0 <= i < |records| ==> ClassifyRecord(rules, parseDate, records[i]) == Success(r.value[i])
  {
    MapAll(records, e => ClassifyRecord(rules, parseDate, e))
  }

  /** Stages 1 to 4, before the sort. */
  function ClassifiedItems(csv: seq<Row>, cfg: Configuration, rules: seq<SpensExpense>, strip: string -> string,
                           parseAmount: string -> Option<int>, parseDate: Option<string> -> Option<int>): Result<seq<SpensDataItem>, NormalizeError>
  {
    var extracted :- ExtractAll(cfg, strip, parseAmount, DebitRows(cfg, csv));
    ClassifyAll(rules, parseDate, KeptRecords(cfg.ignoredStatements, extracted))
  }

  /** `parseCsvToSpensDataItem`. */
  function ParseCsvToSpensDataItem(csv: seq<Row>, cfg: Configuration, rules: seq<SpensExpense>, strip: string -> string,
                                   parseAmount: string -> Option<int>, parseDate: Option<string> -> Option<int>): Result<seq<SpensDataItem>, NormalizeError>
  {
    var classified :- ClassifiedItems(csv, cfg, rules, strip, parseAmount, parseDate);
    Success(SortByDate(classified))
  }

  // The per-row reading of the chain: each raw row taken on its own.

  /** The item one raw row yields: none for a row that is not a debit or that an ignored
      statement marks (and, here, for a row whose merchant or date would stop the chain). */
  function RowItem(cfg: Configuration, rules: seq<SpensExpense>, strip: string -> string,
                   parseAmount: string -> Option<int>, parseDate: Option<string> -> Option<int>, row: Row): Option<SpensDataItem>
  {
    if !IsDebit(cfg, row) || cfg.merchantField !in row then None
    else
      var merchant := strip(row[cfg.merchantField]);
      if IsIgnored(cfg.ignoredStatements, merchant) then None
      else
        match parseDate(Field(row, cfg.dateField))
        case None => None
        case Some(t) =>
          Some(SpensDataItem(AmountOf(Field(row, cfg.amountField), parseAmount),
                             Classification(rules, merchant).0, t, Classification(rules, merchant).1))
  }

  /** The items of the rows, one row at a time, in ledger order. */
  function PerRow(cfg: Configuration, rules: seq<SpensExpense>, strip: string -> string,
                  parseAmount: string -> Option<int>, parseDate: Option<string> -> Option<int>, csv: seq<Row>): seq<SpensDataItem>
    decreases |csv|
  {
    if csv == [] then []
    else
      ItemsOf(RowItem(cfg, rules, strip, parseAmount, parseDate, csv[0])) + PerRow(cfg, rules, strip, parseAmount, parseDate, csv[1..])
  }

  /** A row that does not stop the chain: a debit row has a merchant cell and, unless an
      ignored statement marks it, a date that parses. */
  predicate RowAccepted(cfg: Configuration, strip: string -> string, parseDate: Option<string> -> Option<int>, row: Row) {
    IsDebit(cfg, row) ==>
      cfg.merchantField in row &&
      (IsIgnored(cfg.ignoredStatements, strip(row[cfg.merchantField])) || parseDate(Field(row, cfg.dateField)).Some?)
  }

  lemma DebitRowsCons(cfg: Configuration, csv: seq<Row>)
    requires |csv| > 0
    ensures DebitRows(cfg, csv) == (if IsDebit(cfg, csv[0]) then [csv[0]] else []) + DebitRows(cfg, csv[1..])
  {
  }

  lemma KeptRecordsCons(statements: seq<string>, records: seq<Extracted>)
    requires |records| > 0
    ensures KeptRecords(statements, records) ==
      (if IsIgnored(statements, records[0].merchant) then [] else [records[0]]) + KeptRecords(statements, records[1..])
  {
  }

  lemma ExtractAllCons(cfg: Configuration, strip: string -> string, parseAmount: string -> Option<int>, rows: seq<Row>)
    requires |rows| > 0 && ExtractAll(cfg, strip, parseAmount, rows).Success?
    ensures ExtractAll(cfg, strip, parseAmount, rows[1..]).Success?
    ensures ExtractAll(cfg, strip, parseAmount, rows).value ==
      [ExtractRow(cfg, strip, parseAmount, rows[0]).value] + ExtractAll(cfg, strip, parseAmount, rows[1..]).value
  {
    var all := ExtractAll(cfg, strip, parseAmount, rows).value;
    assert forall i :: 0 <= i < |rows| - 1 ==> rows[1..][i] == rows[i + 1];
    var tail := ExtractAll(cfg, strip, parseAmount, rows[1..]).value;
    assert forall i :: 0 <= i < |tail| ==> tail[i] == all[i + 1];
    assert all == [all[0]] + tail;
  }

  lemma ClassifyAllCons(rules: seq<SpensExpense>, parseDate: Option<string> -> Option<int>, records: seq<Extracted>)
    requires |records| > 0 && ClassifyAll(rules, parseDate, records).Success?
    ensures ClassifyAll(rules, parseDate, records[1..]).Success?
    ensures ClassifyAll(rules, parseDate, records).value ==
      [ClassifyRecord(rules, parseDate, records[0]).value] + ClassifyAll(rules, parseDate, records[1..]).value
  {
    var all := ClassifyAll(rules, parseDate, records).value;
    assert forall i :: 0 <= i < |records| - 1 ==> records[1..][i] == records[i + 1];
    var tail := ClassifyAll(rules, parseDate, records[1..]).value;
    assert forall i :: 0 <= i < |tail| ==> tail[i] == all[i + 1];
    assert all == [all[0]] + tail;
  }

  /** The classified items of a run of extracted records, peeled by one record. */
  lemma KeptClassifyCons(statements: seq<string>, rules: seq<SpensExpense>, parseDate: Option<string> -> Option<int>, es: seq<Extracted>)
    requires |es| > 0 && ClassifyAll(rules, parseDate, KeptRecords(statements, es)).Success?
    ensures ClassifyAll(rules, parseDate, KeptRecords(statements, es[1..])).Success?
    ensures ClassifyAll(rules, parseDate, KeptRecords(statements, es)).value ==
      (if IsIgnored(statements, es[0].merchant) then [] else [ClassifyRecord(rules, parseDate, es[0]).value])
      + ClassifyAll(rules, parseDate, KeptRecords(statements, es[1..])).value
  {
    KeptRecordsCons(statements, es);
    var ks, ks' := KeptRecords(statements, es), KeptRecords(statements, es[1..]);
    if IsIgnored(statements, es[0].merchant) {
      assert ks == ks';
    } else {
      assert ks == [es[0]] + ks';
      assert ks[0] == es[0] && ks[1..] == ks';
      ClassifyAllCons(rules, parseDate, ks);
      assert ClassifyAll(rules, parseDate, ks[1..]).Success?;
    }
  }

  /** A row that is not a debit leaves the chain as it is on the following rows. */
  lemma ChainSkipsCredit(csv: seq<Row>, cfg: Configuration, rules: seq<SpensExpense>, strip: string -> string,
                         parseAmount: string -> Option<int>, parseDate: Option<string> -> Option<int>)
    requires |csv| > 0 && !IsDebit(cfg, csv[0])
    ensures ClassifiedItems(csv, cfg, rules, strip, parseAmount, parseDate) == ClassifiedItems(csv[1..], cfg, rules, strip, parseAmount, parseDate)
  {
    DebitRowsCons(cfg, csv);
  }

  /** A debit row contributes its own item ahead of those of the following rows. */
  lemma ChainTakesDebit(csv: seq<Row>, cfg: Configuration, rules: seq<SpensExpense>, strip: string -> string,
                        parseAmount: string -> Option<int>, parseDate: Option<string> -> Option<int>)
    requires |csv| > 0 && IsDebit(cfg, csv[0])
    requires ClassifiedItems(csv, cfg, rules, strip, parseAmount, parseDate).Success?
    ensures ClassifiedItems(csv[1..], cfg, rules, strip, parseAmount, parseDate).Success?
    ensures ClassifiedItems(csv, cfg, rules, strip, parseAmount, parseDate).value ==
      ItemsOf(RowItem(cfg, rules, strip, parseAmount, parseDate, csv[0]))
      + ClassifiedItems(csv[1..], cfg, rules, strip, parseAmount, parseDate).value
  {
    DebitRowsCons(cfg, csv);
    var d, d' := DebitRows(cfg, csv), DebitRows(cfg, csv[1..]);
    assert d[0] == csv[0] && d[1..] == d';
    ExtractAllCons(cfg, strip, parseAmount, d);
    var es, es' := ExtractAll(cfg, strip, parseAmount, d).value, ExtractAll(cfg, strip, parseAmount, d').value;
    assert es[1..] == es';
    KeptClassifyCons(cfg.ignoredStatements, rules, parseDate, es);
  }

  function ItemsOf(o: Option<SpensDataItem>): (r: seq<SpensDataItem>)
    ensures |r| <= 1
  {
    match o
    case None => []
    case Some(item) => [item]
  }

  /** The staged chain (filter, map, filter, map) computes, in order, exactly what the rows
      yield one at a time. */
  lemma {:induction false} ClassifiedItemsPerRow(csv: seq<Row>, cfg: Configuration, rules: seq<SpensExpense>, strip: string -> string,
                                                 parseAmount: string -> Option<int>, parseDate: Option<string> -> Option<int>)
    requires ClassifiedItems(csv, cfg, rules, strip, parseAmount, parseDate).Success?
    ensures ClassifiedItems(csv, cfg, rules, strip, parseAmount, parseDate).value == PerRow(cfg, rules, strip, parseAmount, parseDate, csv)
    decreases |csv|
  {
    if csv != [] {
      if IsDebit(cfg, csv[0]) {
        ChainTakesDebit(csv, cfg, rules, strip, parseAmount, parseDate);
      } else {
        ChainSkipsCredit(csv, cfg, rules, strip, parseAmount, parseDate);
      }
      ClassifiedItemsPerRow(csv[1..], cfg, rules, strip, parseAmount, parseDate);
    }
  }

  lemma ExtractAllSuccessCons(cfg: Configuration, strip: string -> string, parseAmount: string -> Option<int>, rows: seq<Row>)
    requires |rows| > 0
    ensures ExtractAll(cfg, strip, parseAmount, rows).Success? <==>
      cfg.merchantField in rows[0] && ExtractAll(cfg, strip, parseAmount, rows[1..]).Success?
  {
    assert forall i :: 0 <= i < |rows| - 1 ==> rows[1..][i] == rows[i + 1];
  }

  lemma KeptClassifySuccessCons(statements: seq<string>, rules: seq<SpensExpense>, parseDate: Option<string> -> Option<int>, es: seq<Extracted>)
    requires |es| > 0
    ensures ClassifyAll(rules, parseDate, KeptRecords(statements, es)).Success? <==>
      (IsIgnored(statements, es[0].merchant) || parseDate(es[0].date).Some?)
      && ClassifyAll(rules, parseDate, KeptRecords(statements, es[1..])).Success?
  {
    KeptRecordsCons(statements, es);
    var ks, ks' := KeptRecords(statements, es), KeptRecords(statements, es[1..]);
    if IsIgnored(statements, es[0].merchant) {
      assert ks == ks';
    } else {
      assert ks == [es[0]] + ks';
      assert ks[0] == es[0];
      assert forall i :: 0 <= i < |ks'| ==> ks[i + 1] == ks'[i];
    }
  }

  /** Peeling one row off the ledger: the chain succeeds on it exactly when the first row is
      accepted and the chain succeeds on the rest. */
  lemma ChainSucceedsCons(csv: seq<Row>, cfg: Configuration, rules: seq<SpensExpense>, strip: string -> string,
                          parseAmount: string -> Option<int>, parseDate: Option<string> -> Option<int>)
    requires |csv| > 0
    ensures ClassifiedItems(csv, cfg, rules, strip, parseAmount, parseDate).Success? <==>
      RowAccepted(cfg, strip, parseDate, csv[0]) && ClassifiedItems(csv[1..], cfg, rules, strip, parseAmount, parseDate).Success?
  {
    if IsDebit(cfg, csv[0]) {
      DebitRowsCons(cfg, csv);
      var d, d' := DebitRows(cfg, csv), DebitRows(cfg, csv[1..]);
      assert d[0] == csv[0] && d[1..] == d';
      ExtractAllSuccessCons(cfg, strip, parseAmount, d);
      if ExtractAll(cfg, strip, parseAmount, d).Success? {
        ExtractAllCons(cfg, strip, parseAmount, d);
        var es := ExtractAll(cfg, strip, parseAmount, d).value;
        assert es[1..] == ExtractAll(cfg, strip, parseAmount, d').value;
        KeptClassifySuccessCons(cfg.ignoredStatements, rules, parseDate, es);
      }
    } else {
      ChainSkipsCredit(csv, cfg, rules, strip, parseAmount, parseDate);
    }
  }

  /** The chain fails exactly when some row stops it. */
  lemma {:induction false} ClassifiedItemsSucceeds(csv: seq<Row>, cfg: Configuration, rules: seq<SpensExpense>, strip: string -> string,
                                                   parseAmount: string -> Option<int>, parseDate: Option<string> -> Option<int>)
    ensures ClassifiedItems(csv, cfg, rules, strip, parseAmount, parseDate).Success? <==>
      forall i :: 0 <= i < |csv| ==> RowAccepted(cfg, strip, parseDate, csv[i])
    decreases |csv|
  {
    if csv != [] {
      ChainSucceedsCons(csv, cfg, rules, strip, parseAmount, parseDate);
      ClassifiedItemsSucceeds(csv[1..], cfg, rules, strip, parseAmount, parseDate);
      AllAcceptedCons(cfg, strip, parseDate, csv);
    }
  }

  lemma AllAcceptedCons(cfg: Configuration, strip: string -> string, parseDate: Option<string> -> Option<int>, csv: seq<Row>)
    requires |csv| > 0
    ensures (forall i :: 0 <= i < |csv| ==> RowAccepted(cfg, strip, parseDate, csv[i])) <==>
      RowAccepted(cfg, strip, parseDate, csv[0]) && forall i :: 0 <= i < |csv[1..]| ==> RowAccepted(cfg, strip, parseDate, csv[1..][i])
  {
    if RowAccepted(cfg, strip, parseDate, csv[0]) && forall i :: 0 <= i < |csv[1..]| ==> RowAccepted(cfg, strip, parseDate, csv[1..][i]) {
      forall i | 0 < i < |csv| ensures RowAccepted(cfg, strip, parseDate, csv[i]) {
        assert csv[i] == csv[1..][i - 1];
      }
    }
  }

  lemma {:induction false} PerRowLength(cfg: Configuration, rules: seq<SpensExpense>, strip: string -> string,
                                        parseAmount: string -> Option<int>, parseDate: Option<string> -> Option<int>, csv: seq<Row>)
    ensures |PerRow(cfg, rules, strip, parseAmount, parseDate, csv)| <= |csv|
    decreases |csv|
  {
    if csv != [] {
      PerRowLength(cfg, rules, strip, parseAmount, parseDate, csv[1..]);
    }
  }

  /** With rules that all name both levels, no item is filed under only one of them. */
  lemma {:induction false} PerRowWellPaired(cfg: Configuration, rules: seq<SpensExpense>, strip: string -> string,
                                            parseAmount: string -> Option<int>, parseDate: Option<string> -> Option<int>, csv: seq<Row>)
    requires NamedRules(rules)
    ensures WellPaired(PerRow(cfg, rules, strip, parseAmount, parseDate, csv))
    decreases |csv|
  {
    if csv != [] {
      PerRowWellPaired(cfg, rules, strip, parseAmount, parseDate, csv[1..]);
      var head := ItemsOf(RowItem(cfg, rules, strip, parseAmount, parseDate, csv[0]));
      var tail := PerRow(cfg, rules, strip, parseAmount, parseDate, csv[1..]);
      forall item: SpensDataItem | item in head + tail ensures item.category == "" <==> item.subcategory == "" {
        if item in head {
          var merchant := strip(csv[0][cfg.merchantField]);
          assert item.category == Classification(rules, merchant).0 && item.subcategory == Classification(rules, merchant).1;
        }
      }
    }
  }

  /** `parseCsvToSpensDataItem` end to end: it fails exactly when some row stops the chain;
      otherwise its items are the rows' own items sorted by date, with items of equal date in
      ledger order, at most one per row. */
  lemma NormalizeProperties(csv: seq<Row>, cfg: Configuration, rules: seq<SpensExpense>, strip: string -> string,
                            parseAmount: string -> Option<int>, parseDate: Option<string> -> Option<int>)
    ensures ParseCsvToSpensDataItem(csv, cfg, rules, strip, parseAmount, parseDate).Success? <==>
      forall i :: 0 <= i < |csv| ==> RowAccepted(cfg, strip, parseDate, csv[i])
    ensures var r := ParseCsvToSpensDataItem(csv, cfg, rules, strip, parseAmount, parseDate);
      var reference := PerRow(cfg, rules, strip, parseAmount, parseDate, csv);
      r.Success? ==>
        && r.value == SortByDate(reference)
        && SortedByDate(r.value)
        && multiset(r.value) == multiset(reference)
        && (forall d :: WithDate(r.value, d) == WithDate(reference, d))
        && |r.value| <= |csv|
        && (NamedRules(rules) ==> WellPaired(r.value))
  {
    ClassifiedItemsSucceeds(csv, cfg, rules, strip, parseAmount, parseDate);
    var reference := PerRow(cfg, rules, strip, parseAmount, parseDate, csv);
    if ClassifiedItems(csv, cfg, rules, strip, parseAmount, parseDate).Success? {
      ClassifiedItemsPerRow(csv, cfg, rules, strip, parseAmount, parseDate);
      SortByDateProperties(reference);
      PerRowLength(cfg, rules, strip, parseAmount, parseDate, csv);
      var sorted := SortByDate(reference);
      if NamedRules(rules) {
        PerRowWellPaired(cfg, rules, strip, parseAmount, parseDate, csv);
        forall item: SpensDataItem | item in sorted ensures item.category == "" <==> item.subcategory == "" {
          assert item in multiset(sorted);
        }
      }
    }
  }
}
