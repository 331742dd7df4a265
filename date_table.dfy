/**
 * The per-date transaction table (tableData.js): date buckets of HOC/IBD credit and debit
 * counts and amounts, their grouping and merging, the sorted table rows and the pagination state.
 */
module DateTable {
  import opened Wrappers
  import opened Metrics
  import opened DateKeys

  /** The eight columns of one date row; amounts are in hundredths. */
  datatype Bucket = Bucket(
    hocCreditCount: int, hocCreditAmount: int, hocDebitCount: int, hocDebitAmount: int,
    ibdCreditCount: int, ibdCreditAmount: int, ibdDebitCount: int, ibdDebitAmount: int)

  /** dateData: date key to bucket. */
  type DateData = map<string, Bucket>

  /** How a row is filed: extractDate of its TRANSACTION_DATE under a date rendering. */
  function DateKey(row: Row, render: DateRender): string {
    ExtractDate(row.date, render)
  }

  function ZeroBucket(): Bucket {
    Bucket(0, 0, 0, 0, 0, 0, 0, 0)
  }

  /** Field-wise addition, as the merge of updateWithDateData does it. */
  function AddBucket(a: Bucket, b: Bucket): Bucket {
    Bucket(
      a.hocCreditCount + b.hocCreditCount, a.hocCreditAmount + b.hocCreditAmount,
      a.hocDebitCount + b.hocDebitCount, a.hocDebitAmount + b.hocDebitAmount,
      a.ibdCreditCount + b.ibdCreditCount, a.ibdCreditAmount + b.ibdCreditAmount,
      a.ibdDebitCount + b.ibdDebitCount, a.ibdDebitAmount + b.ibdDebitAmount)
  }

  /**
   * What one row adds to its date's bucket: only HOC and IBD rows with role C or D count; WU rows
   * and other roles add nothing.
   */
  function BucketContribution(row: Row): Bucket {
    var amt := row.amount;
    var hoc := row.reportType == "HOC";
    var ibd := row.reportType == "IBD";
    var credit := row.role == "C";
    var debit := row.role == "D";
    Bucket(
      Ind(hoc && credit), IfThen(hoc && credit, amt), Ind(hoc && debit), IfThen(hoc && debit, amt),
      Ind(ibd && credit), IfThen(ibd && credit, amt), Ind(ibd && debit), IfThen(ibd && debit, amt))
  }

  function AddRow(b: Bucket, row: Row): Bucket {
    AddBucket(b, BucketContribution(row))
  }

  /** The bucket of `key`, a zero bucket when the key has none yet. */
  function Lookup(m: DateData, key: string): Bucket {
    if key in m then m[key] else ZeroBucket()
  }

  /**
   * One row of groupChunkByDate: the row's date key gets a bucket (a zero one when new, whatever
   * the row's type) and the row's contribution is added to it.
   */
  function BucketStep(m: DateData, key: string, row: Row): DateData {
    m[key := AddRow(Lookup(m, key), row)]
  }

  /** groupChunkByDate over `rows`, left to right, starting from `m`. */
  function GroupInto(m: DateData, rows: seq<Row>, render: DateRender): DateData {
    if rows == [] then m
    else
      var last := rows[|rows| - 1];
      BucketStep(GroupInto(m, rows[..|rows| - 1], render), DateKey(last, render), last)
  }

  /** groupDataByDate: the buckets of `rows` grouped from an empty map. */
  function GroupByDate(rows: seq<Row>, render: DateRender): DateData {
    GroupInto(map[], rows, render)
  }

  /** One more row steps the grouping of the rows before it. */
  lemma GroupByDateSnoc(rows: seq<Row>, row: Row, render: DateRender)
    ensures GroupByDate(rows + [row], render) == BucketStep(GroupByDate(rows, render), DateKey(row, render), row)
  {
    assert (rows + [row])[..|rows|] == rows;
  }

  /** updateWithDateData's merge: keys of both maps, buckets added where both have the key. */
  function MergeDates(m: DateData, g: DateData): DateData {
    map k | k in m.Keys + g.Keys ::
      if k in m && k in g then AddBucket(m[k], g[k]) else if k in m then m[k] else g[k]
  }

  // ---------------------------------------------------------------------------
  // Reference definitions: the date keys of a row list and the rows of one date

  function DateKeysOf(rows: seq<Row>, render: DateRender): set<string> {
    set r | r in rows :: DateKey(r, render)
  }

  /** The rows whose date key is `key`, in order. */
  function OnDate(rows: seq<Row>, date: string, render: DateRender): seq<Row> {
    if rows == [] then []
    else
      var last := rows[|rows| - 1];
      OnDate(rows[..|rows| - 1], date, render) + (if DateKey(last, render) == date then [last] else [])
  }

  function BucketSum(rows: seq<Row>): Bucket {
    if rows == [] then ZeroBucket() else AddRow(BucketSum(rows[..|rows| - 1]), rows[|rows| - 1])
  }

  /** The table columns of a metrics record. */
  function Project(c: Counters): Bucket {
    Bucket(c.hocCreditCount, c.hocCreditAmount, c.hocDebitCount, c.hocDebitAmount,
           c.ibdCreditCount, c.ibdCreditAmount, c.ibdDebitCount, c.ibdDebitAmount)
  }

  // ---------------------------------------------------------------------------
  // Lemmas

  lemma AddBucketLaws(a: Bucket, b: Bucket, c: Bucket)
    ensures AddBucket(a, ZeroBucket()) == a && AddBucket(ZeroBucket(), a) == a
    ensures AddBucket(AddBucket(a, b), c) == AddBucket(a, AddBucket(b, c))
    ensures AddBucket(a, b) == AddBucket(b, a)
  {
  }

  lemma MergeEmpty(m: DateData)
    ensures MergeDates(m, map[]) == m && MergeDates(map[], m) == m
  {
  }

  lemma MergeAssoc(a: DateData, b: DateData, c: DateData)
    ensures MergeDates(MergeDates(a, b), c) == MergeDates(a, MergeDates(b, c))
  {
    var l := MergeDates(MergeDates(a, b), c);
    var r := MergeDates(a, MergeDates(b, c));
    assert l.Keys == r.Keys;
    forall k | k in l.Keys
      ensures l[k] == r[k]
    {
      if k in a && k in b && k in c {
        AddBucketLaws(a[k], b[k], c[k]);
      }
    }
  }

  /** Adding a bucket under one key is merging the single-key map of that bucket. */
  lemma AddAtIsMerge(m: DateData, key: string, c: Bucket)
    ensures m[key := AddBucket(Lookup(m, key), c)] == MergeDates(m, map[key := c])
  {
    var s := map[key := c];
    var l := m[key := AddBucket(Lookup(m, key), c)];
    var r := MergeDates(m, s);
    assert l.Keys == m.Keys + {key} == r.Keys;
    assert r[key] == l[key] by {
      AddBucketLaws(c, ZeroBucket(), ZeroBucket());
    }
    forall k | k in l && k != key
      ensures l[k] == r[k]
    {
      assert k !in s;
    }
  }

  /** One row step is a merge with the single-key map of that row. */
  lemma BucketStepIsMerge(m: DateData, key: string, row: Row)
    ensures BucketStep(m, key, row) == MergeDates(m, map[key := BucketContribution(row)])
  {
    AddAtIsMerge(m, key, BucketContribution(row));
  }

  /**
   * Grouping onto existing buckets is merging the rows' own grouping into them: feeding chunks
   * one by one into dateData gives the merge of the per-chunk groupings.
   */
  lemma {:induction false} GroupIntoMerge(m: DateData, rows: seq<Row>, render: DateRender)
    ensures GroupInto(m, rows, render) == MergeDates(m, GroupByDate(rows, render))
  {
    if rows == [] {
      MergeEmpty(m);
    } else {
      var a := rows[..|rows| - 1];
      var x := rows[|rows| - 1];
      var s := map[DateKey(x, render) := BucketContribution(x)];
      GroupIntoMerge(m, a, render);
      GroupIntoMerge(map[], a, render);
      MergeEmpty(GroupInto(map[], a, render));
      BucketStepIsMerge(GroupInto(m, a, render), DateKey(x, render), x);
      BucketStepIsMerge(GroupByDate(a, render), DateKey(x, render), x);
      MergeAssoc(m, GroupByDate(a, render), s);
    }
  }

  /** Grouping from where the previous rows stopped is grouping their concatenation. */
  lemma {:induction false} GroupIntoAppend(m: DateData, a: seq<Row>, b: seq<Row>, render: DateRender)
    ensures GroupInto(m, a + b, render) == GroupInto(GroupInto(m, a, render), b, render)
    decreases |b|
  {
    if b == [] {
      assert a + b == a;
    } else {
      assert (a + b)[..|a + b| - 1] == a + b[..|b| - 1];
      GroupIntoAppend(m, a, b[..|b| - 1], render);
    }
  }

  /** The grouping of a concatenation is the merge of the groupings. */
  lemma GroupByDateAppend(a: seq<Row>, b: seq<Row>, render: DateRender)
    ensures GroupByDate(a + b, render) == MergeDates(GroupByDate(a, render), GroupByDate(b, render))
  {
    GroupIntoAppend(map[], a, b, render);
    GroupIntoMerge(GroupByDate(a, render), b, render);
  }

  lemma DateKeysOfSnoc(a: seq<Row>, x: Row, render: DateRender)
    ensures DateKeysOf(a + [x], render) == DateKeysOf(a, render) + {DateKey(x, render)}
  {
    var l := DateKeysOf(a + [x], render);
    var r := DateKeysOf(a, render) + {DateKey(x, render)};
    forall k | k in r
      ensures k in l
    {
      if k in DateKeysOf(a, render) {
        var y :| y in a && DateKey(y, render) == k;
        assert y in a + [x];
      } else {
        assert x in a + [x];
      }
    }
  }

  /** groupDataByDate makes one key per distinct date key of the rows, WU rows included. */
  lemma {:induction false} GroupByDateKeys(rows: seq<Row>, render: DateRender)
    ensures GroupByDate(rows, render).Keys == DateKeysOf(rows, render)
  {
    if rows != [] {
      var a := rows[..|rows| - 1];
      var x := rows[|rows| - 1];
      GroupByDateKeys(a, render);
      assert rows == a + [x];
      DateKeysOfSnoc(a, x, render);
    }
  }

  /** The bucket of each date key sums exactly the rows with that key. */
  lemma {:induction false} GroupByDateBuckets(rows: seq<Row>, render: DateRender)
    ensures forall k :: Lookup(GroupByDate(rows, render), k) == BucketSum(OnDate(rows, k, render))
  {
    if rows != [] {
      var a := rows[..|rows| - 1];
      GroupByDateBuckets(a, render);
      forall k
        ensures Lookup(GroupByDate(rows, render), k) == BucketSum(OnDate(rows, k, render))
      {
        GroupByDateBucketStep(rows, k, render);
      }
    }
  }

  lemma GroupByDateBucketStep(rows: seq<Row>, k: string, render: DateRender)
    requires rows != []
    requires Lookup(GroupByDate(rows[..|rows| - 1], render), k) == BucketSum(OnDate(rows[..|rows| - 1], k, render))
    ensures Lookup(GroupByDate(rows, render), k) == BucketSum(OnDate(rows, k, render))
  {
    var a := rows[..|rows| - 1];
    var x := rows[|rows| - 1];
    var o := OnDate(a, k, render);
    if DateKey(x, render) == k {
      assert OnDate(rows, k, render) == o + [x];
      assert (o + [x])[..|o + [x]| - 1] == o;
    } else {
      assert OnDate(rows, k, render) == o;
    }
  }

  /** The table columns of a metrics sum are the sums of the table columns. */
  lemma ProjectAdd(a: Counters, b: Counters)
    ensures Project(Add(a, b)) == AddBucket(Project(a), Project(b))
  {
  }

  /** A row's bucket contribution is its metrics contribution restricted to the table columns. */
  lemma ProjectContribution(row: Row)
    ensures Project(Contribution(row)) == BucketContribution(row)
  {
  }

  /** The table buckets count and sum the same HOC/IBD credit and debit rows as the metrics fold. */
  lemma {:induction false} BucketSumIsProjection(rows: seq<Row>)
    ensures BucketSum(rows) == Project(FoldRows(rows))
  {
    if rows != [] {
      var a := rows[..|rows| - 1];
      var x := rows[|rows| - 1];
      BucketSumIsProjection(a);
      ProjectAdd(FoldRows(a), Contribution(x));
      ProjectContribution(x);
    }
  }

  /** A row that is neither HOC nor IBD with role C or D only creates its date key. */
  lemma NonTableRow(m: DateData, key: string, row: Row)
    requires !((row.reportType == "HOC" || row.reportType == "IBD") && (row.role == "C" || row.role == "D"))
    ensures BucketStep(m, key, row) == m[key := Lookup(m, key)]
  {
    var b := Lookup(m, key);
    assert AddRow(b, row) == b by {
      NonTableContribution(row);
      AddBucketLaws(b, ZeroBucket(), ZeroBucket());
    }
  }

  lemma NonTableContribution(row: Row)
    requires !((row.reportType == "HOC" || row.reportType == "IBD") && (row.role == "C" || row.role == "D"))
    ensures BucketContribution(row) == ZeroBucket()
  {
  }

  // ---------------------------------------------------------------------------
  // formatTableData

  datatype TableRow = TableRow(date: string, bucket: Bucket)

  /** The rows' dates ascend in the formatTableData order. */
  predicate Sorted(rows: seq<TableRow>) {
    forall i, j :: 0 <= i < j < |rows| ==> Before(rows[i].date, rows[j].date)
  }

  predicate Distinct(rows: seq<TableRow>) {
    forall i, j :: 0 <= i < j < |rows| ==> rows[i].date != rows[j].date
  }

  /**
   * `rows` is a table of `m`: one row per key carrying that key's bucket, no key twice, in the
   * formatTableData order.
   */
  predicate IsTableOf(rows: seq<TableRow>, m: DateData) {
    |rows| == |m|
    && (forall i :: 0 <= i < |rows| ==> rows[i].date in m && rows[i].bucket == m[rows[i].date])
    && (forall k :: k in m ==> TableRow(k, m[k]) in rows)
    && Distinct(rows)
    && Sorted(rows)
  }

  // IsTableOf stated row by row: the table's invariant keeps this form, and
  // TabulatesIsTableOf proves the two the same.

  /** No row has the date `x`. */
  predicate Absent(x: string, rows: seq<TableRow>) {
    rows == [] || (rows[0].date != x && Absent(x, rows[1..]))
  }

  lemma {:induction false} AbsentEach(x: string, rows: seq<TableRow>)
    ensures Absent(x, rows) <==> forall i :: 0 <= i < |rows| ==> rows[i].date != x
  {
    if rows != [] {
      AbsentEach(x, rows[1..]);
      assert forall i :: 1 <= i < |rows| ==> rows[i] == rows[1..][i - 1];
    }
  }

  /** Each date comes before the next one and does not recur further on. */
  predicate Chained(rows: seq<TableRow>) {
    rows == [] || (
      (|rows| > 1 ==> Before(rows[0].date, rows[1].date))
      && Absent(rows[0].date, rows[1..])
      && Chained(rows[1..]))
  }

  /** The row-by-row order is the pairwise one. */
  lemma {:induction false} ChainedIsOrdered(rows: seq<TableRow>)
    ensures Chained(rows) <==> Sorted(rows) && Distinct(rows)
  {
    if rows != [] {
      var rest := rows[1..];
      ChainedIsOrdered(rest);
      AbsentEach(rows[0].date, rest);
      if Chained(rows) {
        forall i, j | 0 <= i < j < |rows|
          ensures Before(rows[i].date, rows[j].date) && rows[i].date != rows[j].date
        {
          if i == 0 {
            assert rest[j - 1] == rows[j];
            if j > 1 {
              assert rest[0] == rows[1];
              BeforeTrans(rows[0].date, rows[1].date, rows[j].date);
            }
          } else {
            assert rest[i - 1] == rows[i] && rest[j - 1] == rows[j];
          }
        }
      }
      if Sorted(rows) && Distinct(rows) {
        forall i, j | 0 <= i < j < |rest|
          ensures Before(rest[i].date, rest[j].date) && rest[i].date != rest[j].date
        {
          assert rest[i] == rows[i + 1] && rest[j] == rows[j + 1];
        }
        forall i | 0 <= i < |rest|
          ensures rest[i].date != rows[0].date
        {
          assert rest[i] == rows[i + 1];
        }
      }
    }
  }

  /** Every row carries a key of `m` and that key's bucket. */
  predicate Carries(rows: seq<TableRow>, m: DateData) {
    rows == [] || (rows[0].date in m && rows[0].bucket == m[rows[0].date] && Carries(rows[1..], m))
  }

  lemma {:induction false} CarriesEach(rows: seq<TableRow>, m: DateData)
    ensures Carries(rows, m) <==>
      forall i :: 0 <= i < |rows| ==> rows[i].date in m && rows[i].bucket == m[rows[i].date]
  {
    if rows != [] {
      CarriesEach(rows[1..], m);
      assert forall i :: 1 <= i < |rows| ==> rows[i] == rows[1..][i - 1];
    }
  }

  /** As many rows as keys, each carrying its key's bucket, in order and without repeats. */
  predicate Tabulates(rows: seq<TableRow>, m: DateData) {
    |rows| == |m| && Carries(rows, m) && Chained(rows)
  }

  /** The dates of the rows. */
  function Dates(rows: seq<TableRow>): set<string> {
    if rows == [] then {} else {rows[0].date} + Dates(rows[1..])
  }

  /** Each date of the rows is the date of one of them. */
  lemma {:induction false} DatesAt(rows: seq<TableRow>)
    ensures forall x :: x in Dates(rows) ==> exists i :: 0 <= i < |rows| && rows[i].date == x
  {
    if rows != [] {
      var rest := rows[1..];
      DatesAt(rest);
      assert Dates(rows) == {rows[0].date} + Dates(rest);
      forall x | x in Dates(rows)
        ensures exists i :: 0 <= i < |rows| && rows[i].date == x
      {
        if x != rows[0].date {
          var i :| 0 <= i < |rest| && rest[i].date == x;
          assert rows[i + 1] == rest[i];
        }
      }
    }
  }

  /** Rows that carry keys of `m`, none twice, have as many dates as rows, all keys of `m`. */
  lemma {:induction false} DatesOfChained(rows: seq<TableRow>, m: DateData)
    requires Carries(rows, m) && Chained(rows)
    ensures Dates(rows) <= m.Keys && |Dates(rows)| == |rows|
  {
    if rows != [] {
      var rest := rows[1..];
      DatesOfChained(rest, m);
      DatesAt(rest);
      AbsentEach(rows[0].date, rest);
      forall x | x in Dates(rest)
        ensures x != rows[0].date
      {
        var i :| 0 <= i < |rest| && rest[i].date == x;
      }
    }
  }

  /** A subset as large as its superset is the superset. */
  lemma SubsetOfSameSize(a: set<string>, b: set<string>)
    requires a <= b && |a| == |b|
    ensures a == b
  {
    if x :| x in b && x !in a {
      assert a <= b - {x};
      SubsetSize(a, b - {x});
    }
  }

  lemma {:induction false} SubsetSize(a: set<string>, b: set<string>)
    requires a <= b
    ensures |a| <= |b|
    decreases |b|
  {
    if x :| x in a {
      SubsetSize(a - {x}, b - {x});
    }
  }

  lemma TabulatesIsTableOf(rows: seq<TableRow>, m: DateData)
    ensures Tabulates(rows, m) <==> IsTableOf(rows, m)
  {
    CarriesEach(rows, m);
    ChainedIsOrdered(rows);
    if Tabulates(rows, m) {
      DatesOfChained(rows, m);
      DatesAt(rows);
      SubsetOfSameSize(Dates(rows), m.Keys);
      forall k | k in m
        ensures TableRow(k, m[k]) in rows
      {
        var i :| 0 <= i < |rows| && rows[i].date == k;
        assert rows[i] == TableRow(k, m[k]);
      }
    }
  }

  /** The first position whose date does not come before `x`'s. */
  function InsertPos(rows: seq<TableRow>, x: TableRow): (p: nat)
    ensures p <= |rows|
    ensures forall i :: 0 <= i < p ==> !Before(x.date, rows[i].date)
    ensures p < |rows| ==> Before(x.date, rows[p].date)
  {
    if rows == [] then 0
    else if Before(x.date, rows[0].date) then 0
    else 1 + InsertPos(rows[1..], x)
  }

  function Insert(rows: seq<TableRow>, x: TableRow): seq<TableRow> {
    var p := InsertPos(rows, x);
    rows[..p] + [x] + rows[p..]
  }

  /** Where each row of an insertion comes from. */
  lemma InsertIndex(rows: seq<TableRow>, x: TableRow, i: int)
    requires 0 <= i <= |rows|
    ensures |Insert(rows, x)| == |rows| + 1
    ensures Insert(rows, x)[i] ==
      (var p := InsertPos(rows, x); if i < p then rows[i] else if i == p then x else rows[i - 1])
  {
  }

  /** Insertion adds exactly `x`. */
  lemma InsertMembers(rows: seq<TableRow>, x: TableRow)
    ensures |Insert(rows, x)| == |rows| + 1
    ensures forall r :: r in Insert(rows, x) <==> r in rows || r == x
  {
    var p := InsertPos(rows, x);
    assert rows == rows[..p] + rows[p..];
  }

  /** Insertion keeps the rows sorted, the order being total and transitive. */
  lemma InsertSorted(rows: seq<TableRow>, x: TableRow)
    requires Sorted(rows)
    ensures Sorted(Insert(rows, x))
  {
    var p := InsertPos(rows, x);
    var n := Insert(rows, x);
    forall i, j | 0 <= i < j < |n|
      ensures Before(n[i].date, n[j].date)
    {
      InsertIndex(rows, x, i);
      InsertIndex(rows, x, j);
      if i < p && j == p {
        BeforeTotal(x.date, rows[i].date);
      } else if i == p && j - 1 > p {
        BeforeTrans(x.date, rows[p].date, rows[j - 1].date);
      }
    }
  }

  lemma InsertDistinct(rows: seq<TableRow>, x: TableRow)
    requires Distinct(rows)
    requires forall i :: 0 <= i < |rows| ==> rows[i].date != x.date
    ensures Distinct(Insert(rows, x))
  {
    var n := Insert(rows, x);
    forall i, j | 0 <= i < j < |n|
      ensures n[i].date != n[j].date
    {
      InsertIndex(rows, x, i);
      InsertIndex(rows, x, j);
    }
  }

  /**
   * formatTableData: one row per date key with its bucket, sorted by the date sort key (keys
   * without one last). The keys are taken in an unspecified order and sorted by insertion.
   */
  method FormatTableData(m: DateData) returns (rows: seq<TableRow>)
    ensures IsTableOf(rows, m)
  {
    rows := [];
    var rest := m.Keys;
    while rest != {}
      invariant rest <= m.Keys
      invariant |rows| + |rest| == |m|
      invariant forall i :: 0 <= i < |rows| ==>
        rows[i].date in m && rows[i].date !in rest && rows[i].bucket == m[rows[i].date]
      invariant forall k :: k in m && k !in rest ==> TableRow(k, m[k]) in rows
      invariant Distinct(rows)
      invariant Sorted(rows)
      decreases |rest|
    {
      var k :| k in rest;
      var x := TableRow(k, m[k]);
      InsertMembers(rows, x);
      InsertSorted(rows, x);
      InsertDistinct(rows, x);
      var next := Insert(rows, x);
      forall i | 0 <= i < |next|
        ensures next[i].date in m && next[i].date !in rest - {k} && next[i].bucket == m[next[i].date]
      {
        assert next[i] in rows || next[i] == x;
      }
      rows := next;
      rest := rest - {k};
    }
  }

  // ---------------------------------------------------------------------------
  // Pagination

  /** Math.ceil(n / perPage) for a positive page size. */
  function PageCount(n: nat, perPage: nat): (q: nat)
    requires perPage > 0
    ensures q * perPage >= n
    ensures n > 0 ==> q >= 1 && (q - 1) * perPage < n
  {
    CeilDiv(n, perPage)
  }

  function CeilDiv(n: nat, d: nat): (q: nat)
    requires d > 0
    ensures q * d >= n && (q == 0 || (q - 1) * d < n)
    decreases n
  {
    if n == 0 then 0 else 1 + CeilDiv(if n >= d then n - d else 0, d)
  }

  lemma PageStartBelow(page: nat, q: nat, perPage: nat, n: nat)
    requires 1 <= page <= q && perPage > 0 && (q - 1) * perPage < n
    ensures 0 <= (page - 1) * perPage < n
  {
    assert (page - 1) * perPage <= (q - 1) * perPage;
  }

  function Min(a: int, b: int): int {
    if a < b then a else b
  }

  /**
   * The per-row update of groupChunkByDate (and of its copies in FileHandler.updateDateData and
   * the worker's aggregateByDate), branch by branch.
   */
  method AddRowToBucket(b: Bucket, row: Row) returns (r: Bucket)
    ensures r == AddRow(b, row)
  {
    assert "HOC" != "IBD" && "C" != "D" by {
      assert "HOC"[0] != "IBD"[0] && "C"[0] != "D"[0];
    }
    var amount := row.amount;
    var isCredit := row.role == "C";
    var isDebit := row.role == "D";
    r := b;
    if row.reportType == "HOC" {
      if isCredit {
        r := r.(hocCreditCount := r.hocCreditCount + 1, hocCreditAmount := r.hocCreditAmount + amount);
      } else if isDebit {
        r := r.(hocDebitCount := r.hocDebitCount + 1, hocDebitAmount := r.hocDebitAmount + amount);
      }
    } else if row.reportType == "IBD" {
      if isCredit {
        r := r.(ibdCreditCount := r.ibdCreditCount + 1, ibdCreditAmount := r.ibdCreditAmount + amount);
      } else if isDebit {
        r := r.(ibdDebitCount := r.ibdDebitCount + 1, ibdDebitAmount := r.ibdDebitAmount + amount);
      }
    }
  }

  /** groupDataByDate: a fresh grouping of `data`. */
  method GroupDataByDate(data: seq<Row>, render: DateRender) returns (grouped: DateData)
    ensures grouped == GroupByDate(data, render)
  {
    grouped := map[];
    var i := 0;
    while i < |data|
      invariant 0 <= i <= |data|
      invariant grouped == GroupByDate(data[..i], render)
    {
      var row := data[i];
      var date := ExtractDate(row.date, render);
      var b := AddRowToBucket(Lookup(grouped, date), row);
      grouped := grouped[date := b];
      assert data[..i + 1][..i] == data[..i];
      i := i + 1;
    }
    assert data[..i] == data;
  }

  /** The merge loop of updateWithDateData: a new key is copied in, an existing one added to. */
  method MergeInto(m: DateData, g: DateData) returns (d: DateData)
    ensures d == MergeDates(m, g)
  {
    d := m;
    var rest := g.Keys;
    while rest != {}
      invariant rest <= g.Keys
      invariant d == MergeDates(m, Without(g, rest))
      decreases |rest|
    {
      var date :| date in rest;
      var data := g[date];
      MergeOneMore(m, g, rest, date);
      if date !in d {
        d := d[date := data];
      } else {
        d := d[date := AddBucket(d[date], data)];
      }
      rest := rest - {date};
    }
    assert Without(g, {}) == g;
  }

  /**
   * TableData: the date buckets, the sorted table rows built from them, and the pagination state.
   * The DOM is not modelled: UpdateTable returns the slice of rows it would show.
   */
  class TableData {
    /** The locale date rendering of extractDate. */
    const render: DateRender
    var tableData: seq<TableRow>
    var dateData: DateData
    var isInitialized: bool
    var currentPage: int
    var rowsPerPage: int
    var totalPages: int

    /** A positive page size and a current page within 1..totalPages. */
    ghost predicate Paging()
      reads this
    {
      rowsPerPage > 0 && 1 <= currentPage <= totalPages
    }

    /** A non-empty table has ceil(rows / rowsPerPage) pages. */
    ghost predicate PagesMatch()
      reads this
      requires rowsPerPage > 0
    {
      |tableData| > 0 ==> totalPages == PageCount(|tableData|, rowsPerPage)
    }

    /**
     * The table shows exactly the date buckets, sorted (Tabulates, which TabulatesIsTableOf
     * proves to be IsTableOf); pages are consistent; and before the first finalisation there are no buckets.
     */
    ghost predicate Valid()
      reads this
    {
      Paging() && PagesMatch() && Tabulates(tableData, dateData)
      && (!isInitialized ==> dateData == map[])
    }

    constructor(render: DateRender)
      ensures Valid()
      ensures this.render == render
      ensures tableData == [] && dateData == map[] && !isInitialized
      ensures currentPage == 1 && rowsPerPage == 20 && totalPages == 1
    {
      this.render := render;
      tableData := [];
      dateData := map[];
      isInitialized := false;
      currentPage := 1;
      rowsPerPage := 20;
      totalPages := 1;
    }

    /**
     * updateTable: recomputes the page count, clamps the current page, and returns the bounds of
     * the rows on the current page; an empty table leaves the pages as they are.
     */
    method UpdateTable() returns (start: int, end: int)
      requires Paging()
      modifies this
      ensures Paging() && PagesMatch()
      ensures tableData == old(tableData) && dateData == old(dateData)
      ensures isInitialized == old(isInitialized) && rowsPerPage == old(rowsPerPage)
      ensures |tableData| == 0 ==>
        currentPage == old(currentPage) && totalPages == old(totalPages) && start == 0 && end == 0
      ensures |tableData| > 0 ==>
        currentPage == Min(old(currentPage), totalPages)
        && start == (currentPage - 1) * rowsPerPage
        && end == Min(start + rowsPerPage, |tableData|)
        && 0 <= start < end <= |tableData|
    {
      if |tableData| == 0 {
        return 0, 0;
      }
      totalPages := PageCount(|tableData|, rowsPerPage);
      if currentPage > totalPages {
        currentPage := totalPages;
      }
      start := (currentPage - 1) * rowsPerPage;
      PageStartBelow(currentPage, totalPages, rowsPerPage, |tableData|);
      end := Min(start + rowsPerPage, |tableData|);
    }

    /** finalizeProcessing: rebuilds the sorted rows from the buckets and refreshes the page. */
    method FinalizeProcessing()
      requires Paging()
      modifies this
      ensures Valid() && isInitialized
      ensures dateData == old(dateData) && rowsPerPage == old(rowsPerPage)
      ensures |tableData| == 0 ==> currentPage == old(currentPage) && totalPages == old(totalPages)
      ensures |tableData| > 0 ==> currentPage == Min(old(currentPage), totalPages)
    {
      tableData := FormatTableData(dateData);
      TabulatesIsTableOf(tableData, dateData);
      var _, _ := UpdateTable();
      isInitialized := true;
    }

    /** groupChunkByDate: adds the rows of one chunk into the date buckets. */
    method GroupChunkByDate(chunk: seq<Row>)
      modifies this
      ensures dateData == GroupInto(old(dateData), chunk, render)
      ensures tableData == old(tableData) && isInitialized == old(isInitialized)
      ensures currentPage == old(currentPage) && rowsPerPage == old(rowsPerPage)
      ensures totalPages == old(totalPages)
    {
      var d := dateData;
      var i := 0;
      while i < |chunk|
        invariant 0 <= i <= |chunk|
        invariant d == GroupInto(old(dateData), chunk[..i], render)
        modifies {}
      {
        var row := chunk[i];
        var date := ExtractDate(row.date, render);
        var b := AddRowToBucket(Lookup(d, date), row);
        d := d[date := b];
        assert chunk[..i + 1][..i] == chunk[..i];
        i := i + 1;
      }
      assert chunk[..i] == chunk;
      dateData := d;
    }

    /**
     * processData: an empty list resets the table; otherwise the buckets are rebuilt from `data`
     * in chunks of 10000 rows and the table is finalised.
     */
    method ProcessData(data: seq<Row>)
      requires Valid()
      modifies this
      ensures Valid() && rowsPerPage == old(rowsPerPage)
      ensures data == [] ==>
        tableData == [] && dateData == map[] && !isInitialized && currentPage == 1 && totalPages == 1
      ensures data != [] ==> dateData == GroupByDate(data, render) && isInitialized
    {
      if data == [] {
        ResetTable();
        return;
      }
      dateData := map[];
      var startIndex := 0;
      while startIndex < |data|
        invariant 0 <= startIndex <= |data|
        invariant dateData == GroupByDate(data[..startIndex], render)
        invariant Paging() && rowsPerPage == old(rowsPerPage)
      {
        var endIndex := Min(startIndex + 10000, |data|);
        GroupChunkByDate(data[startIndex..endIndex]);
        ChunkStep(data, startIndex, endIndex, render);
        startIndex := endIndex;
      }
      assert data[..startIndex] == data;
      FinalizeProcessing();
    }

    /**
     * updateWithDateData: an empty map changes nothing; otherwise the new buckets are merged in
     * (taken as they are before the first finalisation) and the table is finalised.
     */
    method UpdateWithDateData(newDateData: DateData)
      requires Valid()
      modifies this
      ensures Valid() && rowsPerPage == old(rowsPerPage)
      ensures newDateData == map[] ==>
        tableData == old(tableData) && dateData == old(dateData) && isInitialized == old(isInitialized)
        && currentPage == old(currentPage) && totalPages == old(totalPages)
      ensures newDateData != map[] ==> dateData == MergeDates(old(dateData), newDateData) && isInitialized
      ensures newDateData != map[] && !old(isInitialized) ==> dateData == newDateData
    {
      if newDateData == map[] {
        return;
      }
      if !isInitialized {
        MergeEmpty(newDateData);
        dateData := newDateData;
        FinalizeProcessing();
        return;
      }
      var merged := MergeInto(dateData, newDateData);
      dateData := merged;
      FinalizeProcessing();
    }

    /** The previous-page button. */
    method PrevPage()
      requires Valid()
      modifies this
      ensures Valid()
      ensures currentPage == if old(currentPage) > 1 then old(currentPage) - 1 else old(currentPage)
      ensures tableData == old(tableData) && dateData == old(dateData) && isInitialized == old(isInitialized)
      ensures rowsPerPage == old(rowsPerPage) && totalPages == old(totalPages)
    {
      if currentPage > 1 {
        currentPage := currentPage - 1;
        var _, _ := UpdateTable();
      }
    }

    /** The next-page button. */
    method NextPage()
      requires Valid()
      modifies this
      ensures Valid()
      ensures currentPage == if old(currentPage) < totalPages then old(currentPage) + 1 else old(currentPage)
      ensures tableData == old(tableData) && dateData == old(dateData) && isInitialized == old(isInitialized)
      ensures rowsPerPage == old(rowsPerPage) && totalPages == old(totalPages)
    {
      if currentPage < totalPages {
        currentPage := currentPage + 1;
        var _, _ := UpdateTable();
      }
    }

    /** The rows-per-page selector: a new page size and back to the first page. */
    method SetRowsPerPage(value: int)
      requires Valid() && value > 0
      modifies this
      ensures Valid()
      ensures rowsPerPage == value && currentPage == 1
      ensures tableData == old(tableData) && dateData == old(dateData) && isInitialized == old(isInitialized)
    {
      rowsPerPage := value;
      currentPage := 1;
      var _, _ := UpdateTable();
    }

    /** resetTable: no rows, no buckets, not initialised, page 1 of 1. */
    method ResetTable()
      requires Valid()
      modifies this
      ensures Valid()
      ensures tableData == [] && dateData == map[] && !isInitialized
      ensures currentPage == 1 && totalPages == 1 && rowsPerPage == old(rowsPerPage)
    {
      tableData := [];
      dateData := map[];
      isInitialized := false;
      currentPage := 1;
      totalPages := 1;
    }
  }

  /** Grouping the next chunk onto the grouping of the rows before it. */
  lemma ChunkStep(data: seq<Row>, s: int, e: int, render: DateRender)
    requires 0 <= s <= e <= |data|
    ensures GroupInto(GroupByDate(data[..s], render), data[s..e], render) == GroupByDate(data[..e], render)
  {
    var before, chunk := data[..s], data[s..e];
    assert before + chunk == data[..e];
    GroupIntoAppend(map[], before, chunk, render);
  }

  /** The entries of `g` whose keys are not in `rest`. */
  function Without(g: DateData, rest: set<string>): DateData {
    map k | k in g && k !in rest :: g[k]
  }

  /** Merging one more key of `g` into the partial merge. */
  lemma MergeOneMore(m: DateData, g: DateData, rest: set<string>, key: string)
    requires key in rest && rest <= g.Keys
    ensures var cur := MergeDates(m, Without(g, rest));
            MergeDates(m, Without(g, rest - {key}))
            == cur[key := if key in cur then AddBucket(cur[key], g[key]) else g[key]]
  {
    var cur := MergeDates(m, Without(g, rest));
    var l := MergeDates(m, Without(g, rest - {key}));
    var r := cur[key := if key in cur then AddBucket(cur[key], g[key]) else g[key]];
    assert l.Keys == r.Keys;
  }

  /** Every page from 1 to the page count shows at least one row and at most rowsPerPage. */
  lemma PagesNonEmpty(n: nat, perPage: nat, page: nat)
    requires perPage > 0 && n > 0 && 1 <= page <= PageCount(n, perPage)
    ensures 0 <= (page - 1) * perPage < Min((page - 1) * perPage + perPage, n) <= n
  {
    PageStartBelow(page, PageCount(n, perPage), perPage, n);
  }
}
