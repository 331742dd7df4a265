/**
 * The CSV worker (csvWorker.js): its own copies of the chunk processor, the line parser, the
 * metrics fold with unique-serial counts, and the per-date aggregation. Each is proved to compute
 * what the main thread's copy computes: the rows of the chunk, their summary, their date buckets.
 */
module Worker {
  import opened Wrappers
  import opened CsvLine
  import opened Metrics
  import opened Rows
  import opened DateKeys
  import opened DateTable

  /** What processChunk returns: the kept row objects, their metrics, their date buckets. */
  datatype ChunkResult = ChunkResult(processedLines: seq<Row>, metrics: Summary, dateData: DateData)

  /**
   * processChunk: the chunk split on line feeds; from line 1 when it is the first chunk, from
   * line 0 otherwise, every trimmed non-blank line with at least as many fields as the header
   * becomes a row object of the six recognised columns, kept when its REPORTTYPE is non-empty.
   */
  method ProcessChunk(chunk: string, header: seq<string>, isFirstChunk: bool, render: DateRender)
    returns (r: ChunkResult)
    ensures r.processedLines == ChunkRows(SplitLines(chunk), header, isFirstChunk)
    ensures r.metrics == SummaryOf(r.processedLines)
    ensures r.dateData == GroupByDate(r.processedLines, render)
  {
    var lines := SplitLines(chunk);
    var startIndex := if isFirstChunk then 1 else 0;
    var processedLines := KeepLines(lines, startIndex, header);
    assert lines[startIndex..] == ChunkBody(lines, isFirstChunk);
    var metrics := CalculateMetrics(processedLines);
    var dateData := AggregateByDate(processedLines, render);
    r := ChunkResult(processedLines, metrics, dateData);
  }

  /** The loop of processChunk: the rows of the lines from `startIndex` on, in order. */
  method KeepLines(lines: seq<string>, startIndex: nat, header: seq<string>) returns (processedLines: seq<Row>)
    requires startIndex <= |lines|
    ensures processedLines == ValidRows(lines[startIndex..], header)
  {
    processedLines := [];
    for i := startIndex to |lines|
      invariant processedLines == ValidRows(lines[startIndex..i], header)
    {
      ValidRowsStep(lines, startIndex, i, header);
      var row := KeepLine(lines[i], header);
      processedLines := processedLines + RowsOf(row);
    }
    assert lines[startIndex..|lines|] == lines[startIndex..];
  }

  /** One more line of a slice adds that line's rows. */
  lemma ValidRowsStep(lines: seq<string>, s: nat, i: nat, header: seq<string>)
    requires s <= i < |lines|
    ensures ValidRows(lines[s..i + 1], header) == ValidRows(lines[s..i], header) + RowsOfLine(lines[i], header)
  {
    var t := lines[s..i + 1];
    assert t[..|t| - 1] == lines[s..i] && t[|t| - 1] == lines[i];
    assert ValidRows(t, header) == ValidRows(t[..|t| - 1], header) + RowsOfLine(t[|t| - 1], header);
  }

  /** A kept line's rows: none, or its one row object. */
  function RowsOf(row: Option<Row>): (r: seq<Row>)
    ensures |r| <= 1
  {
    if row.Some? then [row.value] else []
  }

  /**
   * One pass of processChunk's loop: the trimmed line is skipped when blank, parsed, skipped when
   * it has fewer fields than the header, and kept as a row object when its REPORTTYPE is non-empty.
   */
  method KeepLine(text: string, header: seq<string>) returns (row: Option<Row>)
    ensures RowsOf(row) == RowsOfLine(text, header)
  {
    var line := Trim(text);
    if line == "" {
      return None;
    }
    var rowData := ParseCsvLine(line);
    if |rowData| < |header| {
      return None;
    }
    var rowObject := RowOf(header, rowData);
    if rowObject.reportType == "" {
      return None;
    }
    return Some(rowObject);
  }

  /**
   * calculateMetrics: every row counted and its parsed amount summed, HOC and IBD rows in their
   * type and credit/debit counters, serials into the HOC set, the IBD set (for IBD and WU rows)
   * and the combined set, currencies in their buckets; the unique counts are the three set sizes.
   */
  method CalculateMetrics(lines: seq<Row>) returns (m: Summary)
    ensures m == SummaryOf(lines)
  {
    var counters := Zero();
    var serials := Serials({}, {});
    var allSerialNumbers: set<string> := {};
    for i := 0 to |lines|
      invariant counters == FoldRows(lines[..i]) && serials == FoldSerials(lines[..i])
      invariant allSerialNumbers == serials.hoc + serials.ibd
    {
      var row := lines[i];
      assert lines[..i + 1][..i] == lines[..i];
      counters, serials := TallyRow(counters, serials, row);
      if row.serial != "" && (row.reportType == "HOC" || row.reportType == "IBD" || row.reportType == "WU") {
        allSerialNumbers := allSerialNumbers + {row.serial};
      }
    }
    assert lines[..|lines|] == lines;
    m := Summary(counters, |serials.hoc|, |serials.ibd|, |allSerialNumbers|);
  }

  /**
   * aggregateByDate: each row's date key, by the extraction written out inline in the worker,
   * gets a bucket (a zero one when new) and the row's credit or debit is added to it.
   */
  method AggregateByDate(lines: seq<Row>, render: DateRender) returns (dateData: DateData)
    ensures dateData == GroupByDate(lines, render)
  {
    dateData := map[];
    for i := 0 to |lines|
      invariant dateData == GroupByDate(lines[..i], render)
    {
      var row := lines[i];
      var date := InlineDateKey(row.date, render);
      var bucket := if date in dateData then dateData[date] else ZeroBucket();
      bucket := AddRowToBucket(bucket, row);
      AggregateStep(lines, i, render, dateData);
      dateData := dateData[date := bucket];
    }
    assert lines[..|lines|] == lines;
  }

  /** One more row of aggregateByDate steps the grouping under the row's extractDate key. */
  lemma AggregateStep(lines: seq<Row>, i: nat, render: DateRender, dateData: DateData)
    requires i < |lines| && dateData == GroupByDate(lines[..i], render)
    ensures var row := lines[i]; var date := ExtractDate(row.date, render);
      GroupByDate(lines[..i + 1], render) ==
      dateData[date := AddRow(if date in dateData then dateData[date] else ZeroBucket(), row)]
  {
    assert lines[..i + 1] == lines[..i] + [lines[i]];
    GroupByDateSnoc(lines[..i], lines[i], render);
  }

  /**
   * What a worker summary says about its rows: one transaction per row, the sum of the parsed
   * amounts, per report type a credit and a debit count within the type's count, and a combined
   * unique count between the larger per-type count and their sum.
   */
  lemma SummaryFacts(rows: seq<Row>)
    ensures var m := SummaryOf(rows); var c := m.counters;
      && c.totalTransactions == |rows| && c.totalAmount == SumAmounts(rows)
      && c.hocCreditCount + c.hocDebitCount <= c.hocCount
      && c.ibdCreditCount + c.ibdDebitCount <= c.ibdCount
      && m.hocUnique <= m.totalUnique && m.ibdUnique <= m.totalUnique
      && m.totalUnique <= m.hocUnique + m.ibdUnique
  {
    FoldRowsMeaning(rows);
    SummaryUniqueBounds(rows);
  }
}
