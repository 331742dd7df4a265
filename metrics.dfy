/**
 * The per-row metrics fold shared by FileHandler.updateMetricsWithRow, DataProcessor.calculateMetrics
 * and the worker's calculateMetrics: eighteen counters, the HOC and IBD serial-number sets, and the
 * summary with unique-serial counts.
 */
module Metrics {

  /**
   * A transaction row: the six columns the dashboard reads, "" when a column is absent; the amount
   * is kept as every consumer reads it.
   */
  datatype Row = Row(
    reportType: string,   // REPORTTYPE
    amount: int,          // TRANSACTION_AMOUNT as parseFloat(text) || 0 reads it, in hundredths
    currency: string,     // TRANSACTION_CURRENCY
    role: string,         // ACCOUNT_HOLDER_ACCOUNT_ROLE
    date: string,         // TRANSACTION_DATE
    serial: string)       // SERIAL_NO

  /** The numeric part of a metrics record; amounts are in hundredths. */
  datatype Counters = Counters(
    totalTransactions: int, totalAmount: int,
    hocCount: int, hocAmount: int,
    hocCreditCount: int, hocCreditAmount: int, hocDebitCount: int, hocDebitAmount: int,
    ibdCount: int, ibdAmount: int,
    ibdCreditCount: int, ibdCreditAmount: int, ibdDebitCount: int, ibdDebitAmount: int,
    usdCount: int, mmkCount: int, usdAmount: int, mmkAmount: int)

  function Zero(): Counters {
    Counters(0, 0, 0, 0, 0, 0, 0, 0, 0, 0, 0, 0, 0, 0, 0, 0, 0, 0)
  }

  /** accumulateMetrics on the numbers: every field added pointwise. */
  function Add(a: Counters, b: Counters): Counters {
    Counters(
      a.totalTransactions + b.totalTransactions, a.totalAmount + b.totalAmount,
      a.hocCount + b.hocCount, a.hocAmount + b.hocAmount,
      a.hocCreditCount + b.hocCreditCount, a.hocCreditAmount + b.hocCreditAmount,
      a.hocDebitCount + b.hocDebitCount, a.hocDebitAmount + b.hocDebitAmount,
      a.ibdCount + b.ibdCount, a.ibdAmount + b.ibdAmount,
      a.ibdCreditCount + b.ibdCreditCount, a.ibdCreditAmount + b.ibdCreditAmount,
      a.ibdDebitCount + b.ibdDebitCount, a.ibdDebitAmount + b.ibdDebitAmount,
      a.usdCount + b.usdCount, a.mmkCount + b.mmkCount,
      a.usdAmount + b.usdAmount, a.mmkAmount + b.mmkAmount)
  }

  lemma AddZero(a: Counters)
    ensures Add(a, Zero()) == a && Add(Zero(), a) == a
  {
  }

  lemma AddAssoc(a: Counters, b: Counters, c: Counters)
    ensures Add(Add(a, b), c) == Add(a, Add(b, c))
  {
  }

  lemma AddComm(a: Counters, b: Counters)
    ensures Add(a, b) == Add(b, a)
  {
  }

  function Ind(b: bool): int {
    if b then 1 else 0
  }

  function IfThen(b: bool, x: int): int {
    if b then x else 0
  }

  /**
   * What one row adds: every row counts in the totals; an HOC or IBD row in its type counters and,
   * when its role is C or D, in that sub-counter; a USD or MMK row in its currency bucket.
   */
  function Contribution(row: Row): Counters {
    var amt := row.amount;
    var hoc := row.reportType == "HOC";
    var ibd := row.reportType == "IBD";
    var credit := row.role == "C";
    var debit := row.role == "D";
    var usd := row.currency == "USD";
    var mmk := row.currency == "MMK";
    Counters(
      1, amt,
      Ind(hoc), IfThen(hoc, amt),
      Ind(hoc && credit), IfThen(hoc && credit, amt), Ind(hoc && debit), IfThen(hoc && debit, amt),
      Ind(ibd), IfThen(ibd, amt),
      Ind(ibd && credit), IfThen(ibd && credit, amt), Ind(ibd && debit), IfThen(ibd && debit, amt),
      Ind(usd), Ind(mmk), IfThen(usd, amt), IfThen(mmk, amt))
  }

  /** One row folded into the counters. */
  function Step(c: Counters, row: Row): Counters {
    Add(c, Contribution(row))
  }

  /** The counters of `rows` folded left to right from zero. */
  function FoldRows(rows: seq<Row>): Counters {
    if rows == [] then Zero() else Step(FoldRows(rows[..|rows| - 1]), rows[|rows| - 1])
  }

  /** One more row steps the fold of the rows before it. */
  lemma FoldRowsSnoc(rows: seq<Row>, row: Row)
    ensures FoldRows(rows + [row]) == Step(FoldRows(rows), row)
  {
    assert (rows + [row])[..|rows|] == rows;
  }

  /**
   * Folding `a + b` is adding the folds of `a` and `b`: accumulating chunk results gives the
   * counters of the whole row list.
   */
  lemma {:induction false} FoldRowsAppend(a: seq<Row>, b: seq<Row>)
    ensures FoldRows(a + b) == Add(FoldRows(a), FoldRows(b))
    decreases |b|
  {
    if b == [] {
      assert a + b == a;
      AddZero(FoldRows(a));
    } else {
      var b' := b[..|b| - 1];
      var r := b[|b| - 1];
      assert (a + b)[..|a + b| - 1] == a + b';
      FoldRowsAppend(a, b');
      AddAssoc(FoldRows(a), FoldRows(b'), Contribution(r));
    }
  }

  /** How many rows satisfy a report-type test. */
  function CountWhere(rows: seq<Row>, t: string): nat {
    if rows == [] then 0
    else CountWhere(rows[..|rows| - 1], t) + (if rows[|rows| - 1].reportType == t then 1 else 0)
  }

  function SumAmounts(rows: seq<Row>): int {
    if rows == [] then 0 else SumAmounts(rows[..|rows| - 1]) + rows[|rows| - 1].amount
  }

  /**
   * The fold counts every row, sums every parsed amount, counts HOC and IBD rows by report type,
   * and nests credit/debit under the type counters and the two currencies under the total.
   */
  lemma {:induction false} FoldRowsMeaning(rows: seq<Row>)
    ensures var c := FoldRows(rows);
      && c.totalTransactions == |rows|
      && c.totalAmount == SumAmounts(rows)
      && c.hocCount == CountWhere(rows, "HOC")
      && c.ibdCount == CountWhere(rows, "IBD")
      && 0 <= c.hocCreditCount && 0 <= c.hocDebitCount && c.hocCreditCount + c.hocDebitCount <= c.hocCount
      && 0 <= c.ibdCreditCount && 0 <= c.ibdDebitCount && c.ibdCreditCount + c.ibdDebitCount <= c.ibdCount
      && c.hocCount + c.ibdCount <= c.totalTransactions
      && 0 <= c.usdCount && 0 <= c.mmkCount && c.usdCount + c.mmkCount <= c.totalTransactions
  {
    if rows != [] {
      FoldRowsMeaning(rows[..|rows| - 1]);
    }
  }

  /** A WU row moves only the totals and the currency buckets, never an HOC or IBD counter. */
  lemma WuLeavesTypeCounters(c: Counters, row: Row)
    requires row.reportType == "WU"
    ensures var s := Step(c, row);
      && s.hocCount == c.hocCount && s.hocAmount == c.hocAmount
      && s.hocCreditCount == c.hocCreditCount && s.hocCreditAmount == c.hocCreditAmount
      && s.hocDebitCount == c.hocDebitCount && s.hocDebitAmount == c.hocDebitAmount
      && s.ibdCount == c.ibdCount && s.ibdAmount == c.ibdAmount
      && s.ibdCreditCount == c.ibdCreditCount && s.ibdCreditAmount == c.ibdCreditAmount
      && s.ibdDebitCount == c.ibdDebitCount && s.ibdDebitAmount == c.ibdDebitAmount
      && s.totalTransactions == c.totalTransactions + 1
      && s.totalAmount == c.totalAmount + row.amount
  {
  }

  // ---------------------------------------------------------------------------
  // Serial numbers

  /** The HOC and the IBD serial-number sets of a metrics record. */
  datatype Serials = Serials(hoc: set<string>, ibd: set<string>)

  /** A row's serial goes to the HOC set for HOC rows and to the IBD set for IBD and WU rows. */
  function SerialStep(s: Serials, row: Row): Serials {
    if row.serial == "" then s
    else if row.reportType == "HOC" then s.(hoc := s.hoc + {row.serial})
    else if row.reportType == "IBD" || row.reportType == "WU" then s.(ibd := s.ibd + {row.serial})
    else s
  }

  function FoldSerials(rows: seq<Row>): Serials {
    if rows == [] then Serials({}, {}) else SerialStep(FoldSerials(rows[..|rows| - 1]), rows[|rows| - 1])
  }

  /** One more row steps the serial sets of the rows before it. */
  lemma FoldSerialsSnoc(rows: seq<Row>, row: Row)
    ensures FoldSerials(rows + [row]) == SerialStep(FoldSerials(rows), row)
  {
    assert (rows + [row])[..|rows|] == rows;
  }

  function Union(a: Serials, b: Serials): Serials {
    Serials(a.hoc + b.hoc, a.ibd + b.ibd)
  }

  /** The non-empty serials of the HOC rows. */
  function HocSet(rows: seq<Row>): set<string> {
    set i | 0 <= i < |rows| && rows[i].reportType == "HOC" && rows[i].serial != "" :: rows[i].serial
  }

  /** The non-empty serials of the IBD and WU rows. */
  function IbdSet(rows: seq<Row>): set<string> {
    set i | 0 <= i < |rows| && (rows[i].reportType == "IBD" || rows[i].reportType == "WU") && rows[i].serial != ""
      :: rows[i].serial
  }

  /** The step-by-step serial fold collects exactly the HOC serials and the IBD-or-WU serials. */
  lemma {:induction false} FoldSerialsSets(rows: seq<Row>)
    ensures FoldSerials(rows) == Serials(HocSet(rows), IbdSet(rows))
  {
    if rows != [] {
      var init := rows[..|rows| - 1];
      var r := rows[|rows| - 1];
      FoldSerialsSets(init);
      assert HocSet(rows) == HocSet(init) + (if r.reportType == "HOC" && r.serial != "" then {r.serial} else {}) by {
        forall x | x in HocSet(rows) ensures x in HocSet(init) + (if r.reportType == "HOC" && r.serial != "" then {r.serial} else {}) {
          var i :| 0 <= i < |rows| && rows[i].reportType == "HOC" && rows[i].serial != "" && rows[i].serial == x;
          if i < |init| {
            assert init[i] == rows[i];
          }
        }
        forall x | x in HocSet(init) ensures x in HocSet(rows) {
          var i :| 0 <= i < |init| && init[i].reportType == "HOC" && init[i].serial != "" && init[i].serial == x;
          assert rows[i] == init[i];
        }
      }
      assert IbdSet(rows) == IbdSet(init) + (if (r.reportType == "IBD" || r.reportType == "WU") && r.serial != "" then {r.serial} else {}) by {
        forall x | x in IbdSet(rows) ensures x in IbdSet(init) + (if (r.reportType == "IBD" || r.reportType == "WU") && r.serial != "" then {r.serial} else {}) {
          var i :| 0 <= i < |rows| && (rows[i].reportType == "IBD" || rows[i].reportType == "WU") && rows[i].serial != "" && rows[i].serial == x;
          if i < |init| {
            assert init[i] == rows[i];
          }
        }
        forall x | x in IbdSet(init) ensures x in IbdSet(rows) {
          var i :| 0 <= i < |init| && (init[i].reportType == "IBD" || init[i].reportType == "WU") && init[i].serial != "" && init[i].serial == x;
          assert rows[i] == init[i];
        }
      }
    }
  }

  /** Collecting serials chunk by chunk and uniting the sets gives the sets of the whole row list. */
  lemma {:induction false} FoldSerialsAppend(a: seq<Row>, b: seq<Row>)
    ensures FoldSerials(a + b) == Union(FoldSerials(a), FoldSerials(b))
    decreases |b|
  {
    if b == [] {
      assert a + b == a;
    } else {
      var b' := b[..|b| - 1];
      assert (a + b)[..|a + b| - 1] == a + b';
      FoldSerialsAppend(a, b');
    }
  }

  /**
   * The per-row branch ladder of calculateMetrics (dataProcessor.js and the worker): totals, then
   * HOC or IBD with its credit/debit sub-counter, the serial into its set, then the currency.
   */
  method TallyRow(c: Counters, s: Serials, row: Row) returns (c': Counters, s': Serials)
    ensures c' == Step(c, row) && s' == SerialStep(s, row)
  {
    assert "HOC" != "IBD" && "HOC" != "WU" && "IBD" != "WU" && "C" != "D" && "USD" != "MMK" by {
      assert "HOC"[0] != "IBD"[0] && "HOC"[0] != "WU"[0] && "IBD"[0] != "WU"[0];
      assert "C"[0] != "D"[0] && "USD"[0] != "MMK"[0];
    }
    var amount := row.amount;
    c' := c.(totalTransactions := c.totalTransactions + 1, totalAmount := c.totalAmount + amount);
    s' := s;
    if row.reportType == "HOC" {
      c' := c'.(hocCount := c'.hocCount + 1, hocAmount := c'.hocAmount + amount);
      if row.serial != "" {
        s' := s'.(hoc := s'.hoc + {row.serial});
      }
      if row.role == "C" {
        c' := c'.(hocCreditCount := c'.hocCreditCount + 1, hocCreditAmount := c'.hocCreditAmount + amount);
      } else if row.role == "D" {
        c' := c'.(hocDebitCount := c'.hocDebitCount + 1, hocDebitAmount := c'.hocDebitAmount + amount);
      }
    } else if row.reportType == "IBD" {
      c' := c'.(ibdCount := c'.ibdCount + 1, ibdAmount := c'.ibdAmount + amount);
      if row.serial != "" {
        s' := s'.(ibd := s'.ibd + {row.serial});
      }
      if row.role == "C" {
        c' := c'.(ibdCreditCount := c'.ibdCreditCount + 1, ibdCreditAmount := c'.ibdCreditAmount + amount);
      } else if row.role == "D" {
        c' := c'.(ibdDebitCount := c'.ibdDebitCount + 1, ibdDebitAmount := c'.ibdDebitAmount + amount);
      }
    } else if row.reportType == "WU" {
      if row.serial != "" {
        s' := s'.(ibd := s'.ibd + {row.serial});
      }
    }
    if row.currency == "USD" {
      c' := c'.(usdCount := c'.usdCount + 1, usdAmount := c'.usdAmount + amount);
    } else if row.currency == "MMK" {
      c' := c'.(mmkCount := c'.mmkCount + 1, mmkAmount := c'.mmkAmount + amount);
    }
  }

  // ---------------------------------------------------------------------------
  // Summary with unique-serial counts

  datatype Summary = Summary(counters: Counters, hocUnique: int, ibdUnique: int, totalUnique: int)

  /** calculateMetrics: the fold's counters and the sizes of the HOC, IBD and combined serial sets. */
  function SummaryOf(rows: seq<Row>): Summary {
    var s := FoldSerials(rows);
    Summary(FoldRows(rows), |s.hoc|, |s.ibd|, |s.hoc + s.ibd|)
  }

  /** |A ∪ B| lies between max(|A|, |B|) and |A| + |B|, with the upper bound reached iff A and B are disjoint. */
  lemma UnionSize(a: set<string>, b: set<string>)
    ensures |a| <= |a + b| && |b| <= |a + b| && |a + b| <= |a| + |b|
    ensures |a + b| == |a| + |b| <==> a * b == {}
  {
    assert a + b == a + (b - a);
    assert b == (b - a) + (a * b);
    assert (b - a) * (a * b) == {};
    assert |b| == |b - a| + |a * b|;
    assert a + b == b + (a - b);
  }

  /**
   * The total unique count of a summary is at least each per-type unique count and at most their
   * sum, and equals the sum exactly when no serial is both an HOC and an IBD/WU serial.
   */
  lemma SummaryUniqueBounds(rows: seq<Row>)
    ensures var m := SummaryOf(rows);
      && m.hocUnique <= m.totalUnique && m.ibdUnique <= m.totalUnique
      && m.totalUnique <= m.hocUnique + m.ibdUnique
      && (m.totalUnique == m.hocUnique + m.ibdUnique <==> HocSet(rows) * IbdSet(rows) == {})
  {
    FoldSerialsSets(rows);
    UnionSize(HocSet(rows), IbdSet(rows));
  }
}
