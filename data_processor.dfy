/**
 * DataProcessor (dataProcessor.js): the dashboard's summary metrics, the three serial-number
 * sets, the processed-file ids, the incremental updates the file handler sends it, and the
 * filter that recomputes everything from the raw rows.
 */
module Processor {
  import opened Wrappers
  import opened Metrics
  import opened DateTable
  import Numbers

  // ---------------------------------------------------------------------------
  // Incremental updates of the summary

  /**
   * A metrics object handed to updateMetrics / subtractMetrics. Numeric fields the object lacks are
   * 0 in `counters` (safeAdd reads a missing or NaN field as 0); a unique count the object lacks is
   * None; the currency flags say whether currencyCounts / currencyAmounts are present at all.
   */
  datatype Incoming = Incoming(
    counters: Counters,
    hocUnique: Option<int>, ibdUnique: Option<int>, totalUnique: Option<int>,
    hasCurrencyCounts: bool, hasCurrencyAmounts: bool)

  /** `v + d` when the field is present, `v` otherwise. */
  function AddOpt(v: int, d: Option<int>): int {
    match d
    case Some(x) => v + x
    case None => v
  }

  /** Overwrite `v` with the field when present (fixTransactionCount). */
  function Override(v: int, d: Option<int>): int {
    match d
    case Some(x) => x
    case None => v
  }

  /** updateMetrics on the counters: the fourteen main fields added, the currency ones only when present. */
  function AddIncoming(a: Counters, x: Incoming): Counters {
    var s := Add(a, x.counters);
    s.(usdCount := if x.hasCurrencyCounts then s.usdCount else a.usdCount,
       mmkCount := if x.hasCurrencyCounts then s.mmkCount else a.mmkCount,
       usdAmount := if x.hasCurrencyAmounts then s.usdAmount else a.usdAmount,
       mmkAmount := if x.hasCurrencyAmounts then s.mmkAmount else a.mmkAmount)
  }

  /** safeSubtract: Math.max(0, a - b). */
  function Floor0(v: int): (r: int)
    ensures r >= 0 && r >= v && (v >= 0 ==> r == v)
  {
    if v < 0 then 0 else v
  }

  /**
   * subtractMetrics on the counters: every main field floored at zero, the currency fields floored
   * when present and left as they are otherwise.
   */
  function SubtractIncoming(a: Counters, x: Incoming): (r: Counters)
    ensures r.totalTransactions >= 0 && r.totalAmount >= 0
    ensures r.hocCount >= 0 && r.hocAmount >= 0 && r.ibdCount >= 0 && r.ibdAmount >= 0
    ensures r.hocCreditCount >= 0 && r.hocCreditAmount >= 0 && r.hocDebitCount >= 0 && r.hocDebitAmount >= 0
    ensures r.ibdCreditCount >= 0 && r.ibdCreditAmount >= 0 && r.ibdDebitCount >= 0 && r.ibdDebitAmount >= 0
    ensures x.hasCurrencyCounts ==> r.usdCount >= 0 && r.mmkCount >= 0
    ensures x.hasCurrencyAmounts ==> r.usdAmount >= 0 && r.mmkAmount >= 0
    ensures !x.hasCurrencyCounts ==> r.usdCount == a.usdCount && r.mmkCount == a.mmkCount
    ensures !x.hasCurrencyAmounts ==> r.usdAmount == a.usdAmount && r.mmkAmount == a.mmkAmount
  {
    var b := x.counters;
    Counters(
      Floor0(a.totalTransactions - b.totalTransactions), Floor0(a.totalAmount - b.totalAmount),
      Floor0(a.hocCount - b.hocCount), Floor0(a.hocAmount - b.hocAmount),
      Floor0(a.hocCreditCount - b.hocCreditCount), Floor0(a.hocCreditAmount - b.hocCreditAmount),
      Floor0(a.hocDebitCount - b.hocDebitCount), Floor0(a.hocDebitAmount - b.hocDebitAmount),
      Floor0(a.ibdCount - b.ibdCount), Floor0(a.ibdAmount - b.ibdAmount),
      Floor0(a.ibdCreditCount - b.ibdCreditCount), Floor0(a.ibdCreditAmount - b.ibdCreditAmount),
      Floor0(a.ibdDebitCount - b.ibdDebitCount), Floor0(a.ibdDebitAmount - b.ibdDebitAmount),
      if x.hasCurrencyCounts then Floor0(a.usdCount - b.usdCount) else a.usdCount,
      if x.hasCurrencyCounts then Floor0(a.mmkCount - b.mmkCount) else a.mmkCount,
      if x.hasCurrencyAmounts then Floor0(a.usdAmount - b.usdAmount) else a.usdAmount,
      if x.hasCurrencyAmounts then Floor0(a.mmkAmount - b.mmkAmount) else a.mmkAmount)
  }

  /** Every field of the counters is non-negative. */
  predicate NonNegative(c: Counters) {
    && c.totalTransactions >= 0 && c.totalAmount >= 0
    && c.hocCount >= 0 && c.hocAmount >= 0
    && c.hocCreditCount >= 0 && c.hocCreditAmount >= 0 && c.hocDebitCount >= 0 && c.hocDebitAmount >= 0
    && c.ibdCount >= 0 && c.ibdAmount >= 0
    && c.ibdCreditCount >= 0 && c.ibdCreditAmount >= 0 && c.ibdDebitCount >= 0 && c.ibdDebitAmount >= 0
    && c.usdCount >= 0 && c.mmkCount >= 0 && c.usdAmount >= 0 && c.mmkAmount >= 0
  }

  /** Subtracting what was added restores counters that had no negative field. */
  lemma SubtractUndoesAdd(a: Counters, x: Incoming)
    requires NonNegative(a)
    ensures SubtractIncoming(AddIncoming(a, x), x) == a
  {
  }

  /** Subtraction keeps non-negative counters non-negative, whatever is subtracted. */
  lemma SubtractKeepsNonNegative(a: Counters, x: Incoming)
    requires NonNegative(a)
    ensures NonNegative(SubtractIncoming(a, x))
  {
  }

  /** The metrics object of a row list as a file hands it over: counters, currency and per-type unique counts. */
  function FoldIncoming(rows: seq<Row>): Incoming {
    var s := FoldSerials(rows);
    Incoming(FoldRows(rows), Some(|s.hoc|), Some(|s.ibd|), None, true, true)
  }

  /**
   * Adding the metrics of `b` to the counters of `a` gives the counters of `a + b`: merging
   * per-file results one file at a time is folding all their rows.
   */
  lemma UpdateIsFold(a: seq<Row>, b: seq<Row>)
    ensures AddIncoming(FoldRows(a), FoldIncoming(b)) == FoldRows(a + b)
  {
    FoldRowsAppend(a, b);
  }

  /**
   * The unique counts updateMetrics builds by adding per-file set sizes never undercount the
   * serials of the two files together, and are exact only when the files share no serial.
   */
  lemma AddedUniquesOvercount(a: seq<Row>, b: seq<Row>)
    ensures var sa := FoldSerials(a); var sb := FoldSerials(b); var u := FoldSerials(a + b);
      && |u.hoc| <= |sa.hoc| + |sb.hoc| && |u.ibd| <= |sa.ibd| + |sb.ibd|
      && (|u.hoc| == |sa.hoc| + |sb.hoc| <==> sa.hoc * sb.hoc == {})
      && (|u.ibd| == |sa.ibd| + |sb.ibd| <==> sa.ibd * sb.ibd == {})
  {
    FoldSerialsAppend(a, b);
    UnionSize(FoldSerials(a).hoc, FoldSerials(b).hoc);
    UnionSize(FoldSerials(a).ibd, FoldSerials(b).ibd);
  }

  /** The optional overrides of fixTransactionCount's second argument. */
  datatype FixUpdate = FixUpdate(
    totalAmount: Option<int>, hocCount: Option<int>, ibdCount: Option<int>,
    hocUnique: Option<int>, ibdUnique: Option<int>, totalUnique: Option<int>)

  // ---------------------------------------------------------------------------
  // Serial removal

  /**
   * Removing the HOC serials `rh` and then the IBD serials `ri`, each from the combined set only
   * when the other set does not (still) hold it, keeps the combined set the union of the two.
   */
  lemma RemovalKeepsUnion(hoc: set<string>, ibd: set<string>, all: set<string>, rh: set<string>, ri: set<string>)
    requires all == hoc + ibd
    ensures all - (rh - ibd) - (ri - (hoc - rh)) == (hoc - rh) + (ibd - ri)
  {
  }

  // ---------------------------------------------------------------------------
  // File ids

  /** generateFileId: the name and the decimal size joined by "_". */
  function FileId(name: string, size: nat): string {
    name + "_" + Numbers.NatToString(size)
  }

  /** The length of the run of decimal digits that ends `s`. */
  function DigitSuffix(s: string): (r: nat)
    ensures r <= |s|
  {
    if s == [] || !Numbers.IsDigit(s[|s| - 1]) then 0 else 1 + DigitSuffix(s[..|s| - 1])
  }

  /** An id ends in exactly the digits of its size, since "_" is not a digit. */
  lemma {:induction false} DigitSuffixOfId(name: string, digits: string)
    requires Numbers.AllDigits(digits)
    ensures DigitSuffix(name + "_" + digits) == |digits|
  {
    var s := name + "_" + digits;
    if digits != [] {
      var init := digits[..|digits| - 1];
      assert s[..|s| - 1] == name + "_" + init;
      assert s[|s| - 1] == digits[|digits| - 1];
      DigitSuffixOfId(name, init);
    } else {
      assert s[|s| - 1] == '_';
    }
  }

  /**
   * After marking (name, size), a file counts as processed exactly when it did before or it is
   * that file: ids of other files are not hit.
   */
  lemma MarkedFiles(ids: set<string>, name: string, size: nat, n: string, s: nat)
    ensures FileId(n, s) in ids + {FileId(name, size)} <==> FileId(n, s) in ids || (n == name && s == size)
  {
    FileIdInjective(n, s, name, size);
  }

  /**
   * Two files get the same id exactly when they have the same name and size: the decimal size
   * holds no "_", so the digits that end an id are exactly the size.
   */
  lemma FileIdInjective(n1: string, s1: nat, n2: string, s2: nat)
    ensures FileId(n1, s1) == FileId(n2, s2) <==> n1 == n2 && s1 == s2
  {
    var d1 := Numbers.NatToString(s1);
    var d2 := Numbers.NatToString(s2);
    var x := FileId(n1, s1);
    var y := FileId(n2, s2);
    if x == y {
      DigitSuffixOfId(n1, d1);
      DigitSuffixOfId(n2, d2);
      assert |n1| == |n2|;
      assert n1 == x[..|n1|] == y[..|n2|] == n2;
      assert d1 == x[|n1| + 1..] == y[|n2| + 1..] == d2;
      Numbers.NatToStringInjective(s1, s2);
    }
  }

  // ---------------------------------------------------------------------------
  // Filters

  /**
   * The row tests of the two filter selects: the currency, the report type ("IBD" also admitting
   * WU), and both one after the other.
   */
  datatype RowTest = CurrencyIs(currency: string) | TypeIs(reportType: string) | Both(first: RowTest, second: RowTest)

  predicate Passes(row: Row, p: RowTest) {
    match p
    case CurrencyIs(c) => row.currency == c
    case TypeIs(t) => if t == "IBD" then row.reportType == "IBD" || row.reportType == "WU" else row.reportType == t
    case Both(a, b) => Passes(row, a) && Passes(row, b)
  }

  /** Array.prototype.filter: the rows that pass `p`, in order. */
  function Filter(rows: seq<Row>, p: RowTest): (r: seq<Row>)
    ensures |r| <= |rows|
  {
    if rows == [] then []
    else Filter(rows[..|rows| - 1], p) + (if Passes(rows[|rows| - 1], p) then [rows[|rows| - 1]] else [])
  }

  /** `a` is `b` with some elements left out, order kept. */
  ghost predicate SubseqOf(a: seq<Row>, b: seq<Row>)
    decreases |b|
  {
    if a == [] then true
    else if b == [] then false
    else (a[|a| - 1] == b[|b| - 1] && SubseqOf(a[..|a| - 1], b[..|b| - 1])) || SubseqOf(a, b[..|b| - 1])
  }

  /** A filter's output is a subsequence of its input. */
  lemma {:induction false} FilterSubseq(rows: seq<Row>, p: RowTest)
    ensures SubseqOf(Filter(rows, p), rows)
  {
    if rows != [] {
      var init := rows[..|rows| - 1];
      FilterSubseq(init, p);
      var f := Filter(rows, p);
      assert rows[..|rows| - 1] == init;
      if Passes(rows[|rows| - 1], p) {
        assert f[..|f| - 1] == Filter(init, p) && f[|f| - 1] == rows[|rows| - 1];
      } else {
        assert f == Filter(init, p);
      }
    }
  }

  /** A filter keeps exactly the rows that pass. */
  lemma {:induction false} FilterMembers(rows: seq<Row>, p: RowTest)
    ensures forall x :: x in Filter(rows, p) <==> x in rows && Passes(x, p)
  {
    if rows != [] {
      var init := rows[..|rows| - 1];
      FilterMembers(init, p);
      assert rows == init + [rows[|rows| - 1]];
    }
  }

  /** Filtering twice is filtering once by both tests. */
  lemma {:induction false} FilterFilter(rows: seq<Row>, p: RowTest, q: RowTest)
    ensures Filter(Filter(rows, p), q) == Filter(rows, Both(p, q))
  {
    if rows != [] {
      var init := rows[..|rows| - 1];
      var last := rows[|rows| - 1];
      FilterFilter(init, p, q);
      var fp := Filter(rows, p);
      if Passes(last, p) {
        assert fp[..|fp| - 1] == Filter(init, p);
        assert fp[|fp| - 1] == last;
      } else {
        assert fp == Filter(init, p);
      }
    }
  }

  /** What the two filter selects let through: the currency, then the report type, IBD also admitting WU. */
  predicate Matches(row: Row, currencyFilter: string, reportTypeFilter: string) {
    && (currencyFilter == "all" || row.currency == currencyFilter)
    && (reportTypeFilter == "all"
        || (if reportTypeFilter == "IBD" then row.reportType == "IBD" || row.reportType == "WU"
            else row.reportType == reportTypeFilter))
  }

  /** applyFilters' selection: a currency filter unless "all", then a report-type filter unless "all". */
  function FilteredRows(raw: seq<Row>, currencyFilter: string, reportTypeFilter: string): seq<Row> {
    var byCurrency := if currencyFilter != "all" then Filter(raw, CurrencyIs(currencyFilter)) else raw;
    if reportTypeFilter == "all" then byCurrency else Filter(byCurrency, TypeIs(reportTypeFilter))
  }

  /**
   * The filtered rows are a subsequence of the raw rows holding exactly the rows that match both
   * selects; with both selects on "all" they are the raw rows.
   */
  lemma FilteredRowsMeaning(raw: seq<Row>, currencyFilter: string, reportTypeFilter: string)
    ensures SubseqOf(FilteredRows(raw, currencyFilter, reportTypeFilter), raw)
    ensures forall x :: x in FilteredRows(raw, currencyFilter, reportTypeFilter) <==>
      x in raw && Matches(x, currencyFilter, reportTypeFilter)
    ensures currencyFilter == "all" && reportTypeFilter == "all" ==> FilteredRows(raw, currencyFilter, reportTypeFilter) == raw
  {
    var pc := CurrencyIs(currencyFilter);
    var pt := TypeIs(reportTypeFilter);
    if currencyFilter != "all" && reportTypeFilter != "all" {
      var both := Both(pc, pt);
      assert forall x :: Passes(x, both) <==> Passes(x, pc) && Passes(x, pt);
      FilterFilter(raw, pc, pt);
      FilterSubseq(raw, both);
      FilterMembers(raw, both);
    } else if currencyFilter != "all" {
      FilterSubseq(raw, pc);
      FilterMembers(raw, pc);
    } else if reportTypeFilter != "all" {
      FilterSubseq(raw, pt);
      FilterMembers(raw, pt);
    } else {
      SubseqRefl(raw);
    }
  }

  lemma {:induction false} SubseqRefl(a: seq<Row>)
    ensures SubseqOf(a, a)
  {
    if a != [] {
      SubseqRefl(a[..|a| - 1]);
    }
  }

  // ---------------------------------------------------------------------------
  // The loops of calculateMetrics and removeSerialNumbers

  /**
   * The forEach of calculateMetrics from a reset: the counters and the HOC / IBD sets are the fold
   * of `data`, and the combined set, which takes each serial the other two take, is their union.
   */
  method TallyRows(data: seq<Row>) returns (c: Counters, sets: Serials, all: set<string>)
    ensures c == FoldRows(data) && sets == FoldSerials(data) && all == sets.hoc + sets.ibd
  {
    c, sets, all := Zero(), Serials({}, {}), {};
    var i := 0;
    while i < |data|
      invariant 0 <= i <= |data|
      invariant c == FoldRows(data[..i]) && sets == FoldSerials(data[..i]) && all == sets.hoc + sets.ibd
    {
      var row := data[i];
      c, sets := TallyRow(c, sets, row);
      if row.serial != "" && (row.reportType == "HOC" || row.reportType == "IBD" || row.reportType == "WU") {
        all := all + {row.serial};
      }
      assert data[..i + 1][..i] == data[..i];
      i := i + 1;
    }
    assert data[..i] == data;
  }

  /**
   * One forEach of removeSerialNumbers: every serial of `remove` is deleted from `own`, and from
   * `all` when `other` does not hold it.
   */
  method RemoveFrom(own: set<string>, all: set<string>, remove: set<string>, other: set<string>)
    returns (own': set<string>, all': set<string>)
    ensures own' == own - remove && all' == all - (remove - other)
  {
    own', all' := own, all;
    var rest := remove;
    while rest != {}
      invariant rest <= remove
      invariant own' == own - (remove - rest) && all' == all - ((remove - rest) - other)
      decreases |rest|
    {
      var s :| s in rest;
      if s in own' {
        own' := own' - {s};
      }
      if s !in other {
        all' := all' - {s};
      }
      rest := rest - {s};
    }
  }

  /**
   * The two forEach loops of removeSerialNumbers in order; the combined set stays the union of the
   * other two when it was before.
   */
  method RemoveSerials(hoc: set<string>, ibd: set<string>, all: set<string>, r: Serials)
    returns (hoc': set<string>, ibd': set<string>, all': set<string>)
    ensures hoc' == hoc - r.hoc && ibd' == ibd - r.ibd
    ensures all' == all - (r.hoc - ibd) - (r.ibd - hoc')
    ensures all == hoc + ibd ==> all' == hoc' + ibd'
  {
    var all1;
    hoc', all1 := RemoveFrom(hoc, all, r.hoc, ibd);
    ibd', all' := RemoveFrom(ibd, all1, r.ibd, hoc');
    if all == hoc + ibd {
      RemovalKeepsUnion(hoc, ibd, all, r.hoc, r.ibd);
    }
  }

  /** window.tableData.finalizeProcessing(), seen from the processor: the buckets stay, the rows are rebuilt. */
  method RefreshTable(table: TableData)
    requires table.Valid()
    modifies table
    ensures table.Valid() && table.isInitialized
    ensures table.dateData == old(table.dateData) && table.rowsPerPage == old(table.rowsPerPage)
  {
    table.FinalizeProcessing();
  }

  // ---------------------------------------------------------------------------
  // The processor

  class DataProcessor {
    var rawData: seq<Row>
    var filteredData: seq<Row>
    /** summaryMetrics: the counters and the three unique-serial counts. */
    var metrics: Counters
    var hocUnique: int
    var ibdUnique: int
    var totalUnique: int
    var hocSerials: set<string>
    var ibdSerials: set<string>
    var allSerials: set<string>
    var processedFiles: set<string>
    /** The values of the currency and report-type select controls. */
    var currencyFilter: string
    var reportTypeFilter: string

    /** The combined serial set is the union of the HOC and IBD sets. */
    ghost predicate Valid()
      reads this
    {
      allSerials == hocSerials + ibdSerials
    }

    /** The summary, the serial sets and the table all describe `rows`. */
    ghost predicate Shows(rows: seq<Row>, table: TableData)
      reads this, table
    {
      && metrics == FoldRows(rows)
      && hocSerials == HocSet(rows) && ibdSerials == IbdSet(rows)
      && Summary(metrics, hocUnique, ibdUnique, totalUnique) == SummaryOf(rows)
      && table.dateData == GroupByDate(rows, table.render)
    }

    /** The state after a rebuild: both objects valid, and everything shown describes `rows`. */
    ghost predicate Displays(rows: seq<Row>, table: TableData)
      reads this, table
    {
      Valid() && table.Valid() && Shows(rows, table)
    }

    constructor()
      ensures Valid()
      ensures rawData == [] && filteredData == [] && metrics == Zero()
      ensures hocUnique == 0 && ibdUnique == 0 && totalUnique == 0
      ensures hocSerials == {} && ibdSerials == {} && allSerials == {} && processedFiles == {}
      ensures currencyFilter == "all" && reportTypeFilter == "all"
    {
      rawData := [];
      filteredData := [];
      metrics := Zero();
      hocUnique, ibdUnique, totalUnique := 0, 0, 0;
      hocSerials, ibdSerials, allSerials := {}, {}, {};
      processedFiles := {};
      currencyFilter, reportTypeFilter := "all", "all";
    }

    /**
     * updateMetrics: a missing object changes nothing; otherwise every counter grows by the
     * incoming one (currency only when present), each unique count present is added to the current
     * one, and an update of more than 100 transactions refreshes the table.
     */
    method UpdateMetrics(incoming: Option<Incoming>, table: TableData)
      requires table.Valid()
      modifies this`metrics, this`hocUnique, this`ibdUnique, this`totalUnique, table
      ensures table.Valid()
      ensures incoming.None? ==>
        && metrics == old(metrics) && hocUnique == old(hocUnique)
        && ibdUnique == old(ibdUnique) && totalUnique == old(totalUnique)
      ensures incoming.Some? ==>
        && metrics == AddIncoming(old(metrics), incoming.value)
        && hocUnique == AddOpt(old(hocUnique), incoming.value.hocUnique)
        && ibdUnique == AddOpt(old(ibdUnique), incoming.value.ibdUnique)
        && totalUnique == AddOpt(old(totalUnique), incoming.value.totalUnique)
      ensures table.dateData == old(table.dateData) && table.rowsPerPage == old(table.rowsPerPage)
      ensures incoming.Some? && incoming.value.counters.totalTransactions > 100 ==> table.isInitialized
      ensures (incoming.None? || incoming.value.counters.totalTransactions <= 100) ==>
        && table.isInitialized == old(table.isInitialized) && table.tableData == old(table.tableData)
        && table.currentPage == old(table.currentPage) && table.totalPages == old(table.totalPages)
    {
      if incoming.None? {
        return;
      }
      var x := incoming.value;
      metrics := AddIncoming(metrics, x);
      hocUnique := AddOpt(hocUnique, x.hocUnique);
      ibdUnique := AddOpt(ibdUnique, x.ibdUnique);
      totalUnique := AddOpt(totalUnique, x.totalUnique);
      if x.counters.totalTransactions > 100 {
        RefreshTable(table);
      }
    }

    /**
     * subtractMetrics: a missing object changes nothing; otherwise every counter is floored at
     * zero after subtracting, the unique counts are re-read from the sets, and the table refreshes.
     */
    method SubtractMetrics(outgoing: Option<Incoming>, table: TableData)
      requires table.Valid()
      modifies this`metrics, this`hocUnique, this`ibdUnique, this`totalUnique, table
      ensures table.Valid()
      ensures outgoing.None? ==>
        && metrics == old(metrics) && hocUnique == old(hocUnique)
        && ibdUnique == old(ibdUnique) && totalUnique == old(totalUnique)
        && table.tableData == old(table.tableData) && table.isInitialized == old(table.isInitialized)
      ensures outgoing.Some? ==>
        && metrics == SubtractIncoming(old(metrics), outgoing.value)
        && hocUnique == |hocSerials| && ibdUnique == |ibdSerials| && totalUnique == |allSerials|
        && table.isInitialized
      ensures table.dateData == old(table.dateData) && table.rowsPerPage == old(table.rowsPerPage)
    {
      if outgoing.None? {
        return;
      }
      metrics := SubtractIncoming(metrics, outgoing.value);
      hocUnique := |hocSerials|;
      ibdUnique := |ibdSerials|;
      totalUnique := |allSerials|;
      RefreshTable(table);
    }

    /** resetMetrics: zero counters and empty sets, whatever the state before (so twice is once). */
    method ResetMetrics()
      modifies this`metrics, this`hocUnique, this`ibdUnique, this`totalUnique
      modifies this`hocSerials, this`ibdSerials, this`allSerials
      ensures Valid()
      ensures metrics == Zero() && hocUnique == 0 && ibdUnique == 0 && totalUnique == 0
      ensures hocSerials == {} && ibdSerials == {} && allSerials == {}
    {
      metrics := Zero();
      hocUnique, ibdUnique, totalUnique := 0, 0, 0;
      hocSerials, ibdSerials, allSerials := {}, {}, {};
    }

    /**
     * calculateMetrics: from a reset, every row folded in; the counters are the fold of `data`, the
     * sets its HOC and IBD-or-WU serials, and the unique counts the sizes of the three sets.
     */
    method CalculateMetrics(data: seq<Row>)
      modifies this`metrics, this`hocUnique, this`ibdUnique, this`totalUnique
      modifies this`hocSerials, this`ibdSerials, this`allSerials
      ensures Valid()
      ensures metrics == FoldRows(data)
      ensures hocSerials == HocSet(data) && ibdSerials == IbdSet(data)
      ensures Summary(metrics, hocUnique, ibdUnique, totalUnique) == SummaryOf(data)
    {
      ResetMetrics();
      var c, sets, all := TallyRows(data);
      FoldSerialsSets(data);
      metrics := c;
      hocSerials, ibdSerials, allSerials := sets.hoc, sets.ibd, all;
      hocUnique, ibdUnique, totalUnique := |hocSerials|, |ibdSerials|, |allSerials|;
    }

    /**
     * removeSerialNumbers: without both sets nothing changes; otherwise each given HOC serial
     * leaves the HOC set, and the combined set unless the IBD set holds it; then each given IBD
     * serial leaves the IBD set, and the combined set unless the reduced HOC set holds it. The
     * unique counts become the new set sizes.
     */
    method RemoveSerialNumbers(serials: Option<Serials>)
      requires Valid()
      modifies this`hocSerials, this`ibdSerials, this`allSerials
      modifies this`hocUnique, this`ibdUnique, this`totalUnique
      ensures Valid()
      ensures serials.None? ==>
        && hocSerials == old(hocSerials) && ibdSerials == old(ibdSerials)
        && allSerials == old(allSerials) && hocUnique == old(hocUnique) && ibdUnique == old(ibdUnique)
        && totalUnique == old(totalUnique)
      ensures serials.Some? ==>
        && hocSerials == old(hocSerials) - serials.value.hoc
        && ibdSerials == old(ibdSerials) - serials.value.ibd
        && allSerials == old(allSerials) - (serials.value.hoc - old(ibdSerials)) - (serials.value.ibd - hocSerials)
        && hocUnique == |hocSerials| && ibdUnique == |ibdSerials| && totalUnique == |allSerials|
      ensures processedFiles == old(processedFiles) && rawData == old(rawData) && filteredData == old(filteredData)
    {
      if serials.None? {
        return;
      }
      var hoc, ibd, all := RemoveSerials(hocSerials, ibdSerials, allSerials, serials.value);
      hocSerials, ibdSerials, allSerials := hoc, ibd, all;
      UpdateSerialCounts(|hoc|, |ibd|, |all|);  // the same three writes as updateSerialCounts
    }

    /** updateSerialCounts: the three unique counts overwritten. */
    method UpdateSerialCounts(hocCount: int, ibdCount: int, totalCount: int)
      modifies this`hocUnique, this`ibdUnique, this`totalUnique
      ensures hocUnique == hocCount && ibdUnique == ibdCount && totalUnique == totalCount
      ensures processedFiles == old(processedFiles) && rawData == old(rawData) && filteredData == old(filteredData)
    {
      hocUnique, ibdUnique, totalUnique := hocCount, ibdCount, totalCount;
    }

    /**
     * fixTransactionCount: the transaction count overwritten, and with an update object also the
     * total amount, the two type counts and the unique counts that the object carries.
     */
    method FixTransactionCount(total: int, update: Option<FixUpdate>)
      modifies this`metrics, this`hocUnique, this`ibdUnique, this`totalUnique
      ensures metrics.totalTransactions == total
      ensures update.None? ==>
        && metrics == old(metrics).(totalTransactions := total)
        && hocUnique == old(hocUnique) && ibdUnique == old(ibdUnique) && totalUnique == old(totalUnique)
      ensures update.Some? ==>
        && metrics == old(metrics).(totalTransactions := total,
             totalAmount := Override(old(metrics).totalAmount, update.value.totalAmount),
             hocCount := Override(old(metrics).hocCount, update.value.hocCount),
             ibdCount := Override(old(metrics).ibdCount, update.value.ibdCount))
        && hocUnique == Override(old(hocUnique), update.value.hocUnique)
        && ibdUnique == Override(old(ibdUnique), update.value.ibdUnique)
        && totalUnique == Override(old(totalUnique), update.value.totalUnique)
    {
      metrics := metrics.(totalTransactions := total);
      if update.Some? {
        var u := update.value;
        metrics := metrics.(totalAmount := Override(metrics.totalAmount, u.totalAmount),
                            hocCount := Override(metrics.hocCount, u.hocCount),
                            ibdCount := Override(metrics.ibdCount, u.ibdCount));
        hocUnique := Override(hocUnique, u.hocUnique);
        ibdUnique := Override(ibdUnique, u.ibdUnique);
        totalUnique := Override(totalUnique, u.totalUnique);
      }
    }

    /** isFileProcessed: whether the file's id has been marked. */
    function IsFileProcessed(name: string, size: nat): (r: bool)
      reads this
      ensures r <==> FileId(name, size) in processedFiles
    {
      FileId(name, size) in processedFiles
    }

    /** markFileAsProcessed: adds and returns the file's id (a second mark changes nothing). */
    method MarkFileAsProcessed(name: string, size: nat) returns (id: string)
      modifies this`processedFiles
      ensures id == FileId(name, size) && processedFiles == old(processedFiles) + {id}
    {
      id := FileId(name, size);
      processedFiles := processedFiles + {id};
    }

    /**
     * applyFilters: the filtered rows are the raw rows through the two selects; the summary, the
     * serial sets and the table are rebuilt from them.
     */
    method ApplyFilters(table: TableData)
      requires table.Valid()
      modifies this`filteredData, this`metrics, this`hocUnique, this`ibdUnique, this`totalUnique
      modifies this`hocSerials, this`ibdSerials, this`allSerials, table
      ensures Displays(filteredData, table) && table.rowsPerPage == old(table.rowsPerPage)
      ensures filteredData == FilteredRows(rawData, currencyFilter, reportTypeFilter)
    {
      filteredData := FilteredRows(rawData, currencyFilter, reportTypeFilter);
      Rebuild(filteredData, table);
    }

    /**
     * The three calls processData, applyFilters and resetFilters each end with: resetMetrics,
     * calculateMetrics over the rows now shown, and window.tableData.processData of those rows.
     */
    method Rebuild(rows: seq<Row>, table: TableData)
      requires table.Valid()
      modifies this`metrics, this`hocUnique, this`ibdUnique, this`totalUnique
      modifies this`hocSerials, this`ibdSerials, this`allSerials, table
      ensures Displays(rows, table) && table.rowsPerPage == old(table.rowsPerPage)
    {
      ResetMetrics();
      CalculateMetrics(rows);
      table.ProcessData(rows);
    }

    /** resetFilters: both selects back to "all", and everything rebuilt from the raw rows. */
    method ResetFilters(table: TableData)
      requires table.Valid()
      modifies this`currencyFilter, this`reportTypeFilter
      modifies this`filteredData, this`metrics, this`hocUnique, this`ibdUnique, this`totalUnique
      modifies this`hocSerials, this`ibdSerials, this`allSerials, table
      ensures Displays(rawData, table) && table.rowsPerPage == old(table.rowsPerPage)
      ensures currencyFilter == "all" && reportTypeFilter == "all" && filteredData == rawData
    {
      currencyFilter, reportTypeFilter := "all", "all";
      filteredData := rawData;
      Rebuild(rawData, table);
    }

    /**
     * processData: `data` becomes the raw rows; the summary, the sets and the table are rebuilt
     * from it, and from its filtered rows when a select is not on "all".
     */
    method ProcessData(data: seq<Row>, table: TableData) returns (shown: seq<Row>)
      requires table.Valid()
      modifies this`rawData, this`filteredData, this`metrics, this`hocUnique, this`ibdUnique
      modifies this`totalUnique, this`hocSerials, this`ibdSerials, this`allSerials, table
      ensures Displays(shown, table) && table.rowsPerPage == old(table.rowsPerPage)
      ensures rawData == data && filteredData == shown
      ensures shown == FilteredRows(data, currencyFilter, reportTypeFilter)
    {
      rawData := data;
      filteredData := data;
      Rebuild(data, table);
      if currencyFilter != "all" || reportTypeFilter != "all" {
        ApplyFilters(table);
      }
      shown := filteredData;
    }
  }
}
