/**
 * FileHandler (fileHandler.js): the per-file metrics record and its row fold, the chunk processor,
 * the window reader that carries a cut line over to the next window, and the file list with its
 * duplicate gate, removal and recompute of the dashboard from the remaining files.
 */
module Files {
  import opened Wrappers
  import opened CsvLine
  import opened Metrics
  import opened Rows
  import opened DateKeys
  import opened DateTable
  import opened Processor

  /** The window size of the reader: 512 KB. */
  const CHUNK_SIZE: nat := 512 * 1024

  // ---------------------------------------------------------------------------
  // The metrics record of a chunk or a file

  /**
   * A chunk's or a file's metrics object: the eighteen counters and its own HOC and IBD serial
   * sets (a file-level record has no combined set).
   */
  class MetricsRecord {
    var counters: Counters
    var serials: Serials

    constructor()
      ensures counters == Zero() && serials == Serials({}, {})
    {
      counters := Zero();
      serials := Serials({}, {});
    }

    /**
     * updateMetricsWithRow with isChunkOrFileSpecific set: the row's counters and its serial go
     * into this record, exactly as the shared fold steps them.
     */
    method UpdateMetricsWithRow(row: Row)
      modifies this
      ensures counters == Step(old(counters), row) && serials == SerialStep(old(serials), row)
    {
      var c := CountRow(counters, row);
      var s := RecordSerial(serials, row);
      counters, serials := c, s;
    }

    /**
     * accumulateMetrics: every counter of `chunk` added to this record's, and each of the chunk's
     * serials added to the matching set of this record.
     */
    method AccumulateMetrics(chunk: MetricsRecord)
      modifies this
      ensures counters == Add(old(counters), old(chunk.counters))
      ensures serials == Union(old(serials), old(chunk.serials))
    {
      var add := chunk.counters;
      var hoc, ibd := chunk.serials.hoc, chunk.serials.ibd;
      counters := Add(counters, add);
      var targetHoc := AddAll(serials.hoc, hoc);
      var targetIbd := AddAll(serials.ibd, ibd);
      serials := Serials(targetHoc, targetIbd);
    }
  }

  /** The distinct literals the row ladders compare against. */
  lemma LiteralsDistinct()
    ensures "HOC" != "IBD" && "HOC" != "WU" && "IBD" != "WU" && "C" != "D" && "USD" != "MMK"
  {
    assert "HOC"[0] != "IBD"[0] && "HOC"[0] != "WU"[0] && "IBD"[0] != "WU"[0];
    assert "C"[0] != "D"[0] && "USD"[0] != "MMK"[0];
  }

  /**
   * The counter ladder of updateMetricsWithRow: totals, then the HOC or IBD counters with their
   * credit or debit sub-counters, then the USD or MMK bucket.
   */
  method CountRow(c0: Counters, row: Row) returns (c: Counters)
    ensures c == Step(c0, row)
  {
    LiteralsDistinct();
    var amount := row.amount;
    c := c0.(totalTransactions := c0.totalTransactions + 1, totalAmount := c0.totalAmount + amount);
    var isCredit := row.role == "C";
    var isDebit := row.role == "D";
    if row.reportType == "HOC" {
      c := c.(hocCount := c.hocCount + 1, hocAmount := c.hocAmount + amount);
      if isCredit {
        c := c.(hocCreditCount := c.hocCreditCount + 1, hocCreditAmount := c.hocCreditAmount + amount);
      } else if isDebit {
        c := c.(hocDebitCount := c.hocDebitCount + 1, hocDebitAmount := c.hocDebitAmount + amount);
      }
    } else if row.reportType == "IBD" {
      c := c.(ibdCount := c.ibdCount + 1, ibdAmount := c.ibdAmount + amount);
      if isCredit {
        c := c.(ibdCreditCount := c.ibdCreditCount + 1, ibdCreditAmount := c.ibdCreditAmount + amount);
      } else if isDebit {
        c := c.(ibdDebitCount := c.ibdDebitCount + 1, ibdDebitAmount := c.ibdDebitAmount + amount);
      }
    }
    if row.currency == "USD" {
      c := c.(usdCount := c.usdCount + 1, usdAmount := c.usdAmount + amount);
    } else if row.currency == "MMK" {
      c := c.(mmkCount := c.mmkCount + 1, mmkAmount := c.mmkAmount + amount);
    }
  }

  /**
   * The serial branch of updateMetricsWithRow's ladder: a non-empty serial of an HOC row joins
   * the HOC set, of an IBD or WU row the IBD set.
   */
  method RecordSerial(s0: Serials, row: Row) returns (s: Serials)
    ensures s == SerialStep(s0, row)
  {
    LiteralsDistinct();
    s := s0;
    var serialNo := row.serial;
    if row.reportType == "HOC" {
      if serialNo != "" {
        s := s.(hoc := s.hoc + {serialNo});
      }
    } else if row.reportType == "IBD" {
      if serialNo != "" {
        s := s.(ibd := s.ibd + {serialNo});
      }
    } else if row.reportType == "WU" {
      if serialNo != "" {
        s := s.(ibd := s.ibd + {serialNo});
      }
    }
  }

  /** `source.forEach(sn => target.add(sn))`. */
  method AddAll(target: set<string>, source: set<string>) returns (r: set<string>)
    ensures r == target + source
  {
    r := target;
    var rest := source;
    while rest != {}
      invariant rest <= source
      invariant r == target + (source - rest)
      decreases |rest|
    {
      var sn :| sn in rest;
      r := r + {sn};
      rest := rest - {sn};
    }
  }

  // ---------------------------------------------------------------------------
  // Chunks

  /**
   * updateDateData: the row's date key, by the extraction written out inline in the file handler,
   * gets a bucket (a zero one when new) and the row's credit or debit is added to it; the result
   * is the table's own grouping step under extractDate.
   */
  method UpdateDateData(row: Row, dateData: DateData, render: DateRender) returns (d: DateData)
    ensures d == BucketStep(dateData, DateKey(row, render), row)
  {
    var date := InlineDateKey(row.date, render);
    assert date == DateKey(row, render);
    var bucket := if date in dateData then dateData[date] else ZeroBucket();
    assert bucket == Lookup(dateData, date);
    bucket := AddRowToBucket(bucket, row);
    d := dateData[date := bucket];
  }

  /**
   * The gate of processChunkForMetrics for one line: the trimmed line is skipped when blank, split
   * into fields, skipped when it has fewer fields than the header, turned into a row object by
   * header position, and skipped when its REPORTTYPE is empty.
   */
  method ParseChunkLine(line: string, header: seq<string>) returns (r: Option<Row>)
    ensures r == LineRow(line, header)
    ensures RowsOfLine(line, header) == RowsOf(r)
  {
    var trimmed := Trim(line);
    if trimmed == "" {
      return None;
    }
    var rowData := ParseCsvLine(trimmed);
    if |rowData| < |header| {
      return None;
    }
    var row := RowOf(header, rowData);
    if row.reportType == "" {
      return None;
    }
    return Some(row);
  }

  /** A parsed line's rows: none, or its one row. */
  function RowsOf(parsed: Option<Row>): seq<Row> {
    if parsed.Some? then [parsed.value] else []
  }

  /**
   * The rest of one pass of the loop of processChunkForMetrics: a line's row, when it has one, is
   * folded into the record and the date buckets, and counted.
   */
  method FoldParsedRow(parsed: Option<Row>, render: DateRender, metrics: MetricsRecord,
                       processedRows: int, dateData: DateData, ghost rows: seq<Row>)
    returns (processedRows': int, dateData': DateData)
    requires metrics.counters == FoldRows(rows) && metrics.serials == FoldSerials(rows)
    requires processedRows == |rows| && dateData == GroupByDate(rows, render)
    modifies metrics
    ensures metrics.counters == FoldRows(rows + RowsOf(parsed))
    ensures metrics.serials == FoldSerials(rows + RowsOf(parsed))
    ensures processedRows' == |rows + RowsOf(parsed)|
    ensures dateData' == GroupByDate(rows + RowsOf(parsed), render)
  {
    processedRows', dateData' := processedRows, dateData;
    if parsed.Some? {
      var row := parsed.value;
      FoldRowsSnoc(rows, row);
      FoldSerialsSnoc(rows, row);
      GroupByDateSnoc(rows, row, render);
      processedRows' := processedRows + 1;
      metrics.UpdateMetricsWithRow(row);
      dateData' := UpdateDateData(row, dateData, render);
    } else {
      assert rows + RowsOf(parsed) == rows;
    }
  }

  /**
   * The loop of processChunkForMetrics over the lines it visits: every accepted row is folded
   * into a fresh record and into the chunk's own date buckets, and counted.
   */
  method ScanLines(body: seq<string>, header: seq<string>, render: DateRender)
    returns (metrics: MetricsRecord, processedRows: int, dateData: DateData)
    ensures fresh(metrics)
    ensures metrics.counters == FoldRows(ValidRows(body, header))
    ensures metrics.serials == FoldSerials(ValidRows(body, header))
    ensures processedRows == |ValidRows(body, header)|
    ensures dateData == GroupByDate(ValidRows(body, header), render)
  {
    metrics := new MetricsRecord();
    dateData := map[];
    processedRows := 0;
    ghost var rows: seq<Row> := [];
    var j := 0;
    while j < |body|
      invariant 0 <= j <= |body|
      invariant rows == ValidRows(body[..j], header)
      invariant metrics.counters == FoldRows(rows) && metrics.serials == FoldSerials(rows)
      invariant processedRows == |rows|
      invariant dateData == GroupByDate(rows, render)
      modifies metrics
    {
      ValidRowsSnoc(body, j, header);
      var parsed := ParseChunkLine(body[j], header);
      processedRows, dateData := FoldParsedRow(parsed, render, metrics, processedRows, dateData, rows);
      rows := rows + RowsOf(parsed);
      j := j + 1;
    }
    assert body[..j] == body;
  }

  /**
   * processChunkForMetrics: from line 1 of the first chunk, or line 0 of any other, every trimmed
   * non-blank line with at least as many fields as the header and a non-empty REPORTTYPE is
   * folded into a fresh record and into the chunk's date buckets, which are then handed to the
   * table. The count of such rows is returned beside the record.
   */
  method ProcessChunkForMetrics(lines: seq<string>, header: seq<string>, isFirstChunk: bool, table: TableData)
    returns (metrics: MetricsRecord, processedRows: int)
    requires table.Valid()
    modifies table
    ensures fresh(metrics)
    ensures metrics.counters == FoldRows(ChunkRows(lines, header, isFirstChunk))
    ensures metrics.serials == FoldSerials(ChunkRows(lines, header, isFirstChunk))
    ensures processedRows == metrics.counters.totalTransactions == |ChunkRows(lines, header, isFirstChunk)|
    ensures table.Valid() && table.rowsPerPage == old(table.rowsPerPage)
    ensures table.dateData ==
      MergeDates(old(table.dateData), GroupByDate(ChunkRows(lines, header, isFirstChunk), table.render))
  {
    var startIndex := if isFirstChunk && lines != [] then 1 else 0;
    var body := lines[startIndex..];
    assert body == (if isFirstChunk && lines != [] then lines[1..] else lines);
    var dateData;
    metrics, processedRows, dateData := ScanLines(body, header, table.render);
    FoldRowsMeaning(ValidRows(body, header));
    table.UpdateWithDateData(dateData);
    MergeEmpty(old(table.dateData));
  }

  // ---------------------------------------------------------------------------
  // The window reader

  /** A text splits into more than one line exactly when it holds a line feed. */
  lemma SplitLinesMany(s: string)
    ensures |SplitLines(s)| > 1 <==> '\n' in s
  {
    SplitLinesJoin(s);
    SplitLinesNoNewline(s);
    var ls := SplitLines(s);
    if |ls| > 1 {
      assert JoinLines(ls) == ls[0] + "\n" + JoinLines(ls[1..]);
      assert s[|ls[0]|] == '\n';
    } else {
      assert s == ls[0];
    }
  }

  /**
   * One window of the reader: the next CHUNK_SIZE characters (fewer at the end) glued to the
   * carried partial line and split on line feeds; while more of the file remains, the last piece
   * is popped and becomes the new carry. The lines handed out so far followed by the new lines and
   * the carry are the split of the text read so far; after the last window, of the whole text.
   */
  method NextWindow(content: string, offset: nat, carry: string, ghost prev: seq<string>)
    returns (chunkLines: seq<string>, carry': string)
    requires offset <= |content|
    requires prev + [carry] == SplitLines(content[..offset])
    ensures offset + CHUNK_SIZE < |content| ==>
      prev + chunkLines + [carry'] == SplitLines(content[..offset + CHUNK_SIZE])
    ensures offset + CHUNK_SIZE >= |content| ==> prev + chunkLines == SplitLines(content) && carry' == ""
    ensures offset == 0 ==>
      (chunkLines == [] <==> CHUNK_SIZE < |content| && '\n' !in content[..CHUNK_SIZE])
  {
    var end := if offset + CHUNK_SIZE < |content| then offset + CHUNK_SIZE else |content|;
    var chunk := content[offset..end];
    var combinedText := carry + chunk;
    chunkLines := SplitLines(combinedText);
    assert SplitLines(content[..end]) == prev + chunkLines by {
      assert content[..end] == content[..offset] + chunk;
      SplitLinesAppend(content[..offset], chunk);
    }
    if offset + CHUNK_SIZE < |content| {
      assert chunkLines == Init(chunkLines) + [Last(chunkLines)];
      carry' := Last(chunkLines);
      chunkLines := Init(chunkLines);
    } else {
      assert content[..end] == content;
      carry' := "";
    }
    if offset == 0 {
      assert prev == [] && carry == "" by {
        assert content[..0] == "";
        SplitLinesNoNewline("");
        assert |prev + [carry]| == 1;
        assert (prev + [carry])[|prev|] == carry;
      }
      assert chunk == combinedText;
      SplitLinesMany(chunk);
    }
  }

  /** The merged date buckets of a longer row list are those of the shorter one merged with the rest's. */
  lemma WindowDates(t0: DateData, rows: seq<Row>, chunkRows: seq<Row>, render: DateRender)
    ensures MergeDates(t0, GroupByDate(rows + chunkRows, render)) ==
      MergeDates(MergeDates(t0, GroupByDate(rows, render)), GroupByDate(chunkRows, render))
  {
    GroupByDateAppend(rows, chunkRows, render);
    MergeAssoc(t0, GroupByDate(rows, render), GroupByDate(chunkRows, render));
  }

  /**
   * The lines after a file's header, window by window: the first window's rows skip its first
   * line, a later window's rows extend those of the lines before it.
   */
  lemma FileLinesStep(lines: seq<string>, chunkLines: seq<string>, header: seq<string>)
    requires lines == [] ==> chunkLines != []
    ensures ValidRows((lines + chunkLines)[1..], header) ==
      (if lines == [] then [] else ValidRows(lines[1..], header)) + ChunkRows(chunkLines, header, lines == [])
  {
    if lines == [] {
      assert lines + chunkLines == chunkLines;
    } else {
      assert (lines + chunkLines)[1..] == lines[1..] + chunkLines;
      ValidRowsAppend(lines[1..], chunkLines, header);
    }
  }

  /**
   * processChunkForMetrics on one window: the table then stands for the rows read so far followed
   * by the window's rows.
   */
  method ProcessWindow(chunkLines: seq<string>, header: seq<string>, isFirstChunk: bool, table: TableData,
                       ghost rows: seq<Row>, ghost t0: DateData)
    returns (chunkMetrics: MetricsRecord, validLines: int)
    requires table.Valid() && table.dateData == MergeDates(t0, GroupByDate(rows, table.render))
    modifies table
    ensures fresh(chunkMetrics)
    ensures chunkMetrics.counters == FoldRows(ChunkRows(chunkLines, header, isFirstChunk))
    ensures chunkMetrics.serials == FoldSerials(ChunkRows(chunkLines, header, isFirstChunk))
    ensures validLines == |ChunkRows(chunkLines, header, isFirstChunk)|
    ensures table.Valid() && table.rowsPerPage == old(table.rowsPerPage)
    ensures table.dateData ==
      MergeDates(t0, GroupByDate(rows + ChunkRows(chunkLines, header, isFirstChunk), table.render))
  {
    ghost var key := table.render;
    WindowDates(t0, rows, ChunkRows(chunkLines, header, isFirstChunk), key);
    chunkMetrics, validLines := ProcessChunkForMetrics(chunkLines, header, isFirstChunk, table);
  }

  /**
   * accumulateMetrics of a window's record into the file's: the file's record then stands for the
   * rows read so far followed by the window's rows.
   */
  method AccumulateWindow(record: MetricsRecord, chunkMetrics: MetricsRecord, ghost rows: seq<Row>,
                          ghost chunkRows: seq<Row>, ghost table: TableData)
    requires record != chunkMetrics
    requires table.Valid()
    requires record.counters == FoldRows(rows) && record.serials == FoldSerials(rows)
    requires chunkMetrics.counters == FoldRows(chunkRows) && chunkMetrics.serials == FoldSerials(chunkRows)
    modifies record
    ensures record.counters == FoldRows(rows + chunkRows) && record.serials == FoldSerials(rows + chunkRows)
    ensures table.Valid()
  {
    FoldRowsAppend(rows, chunkRows);
    FoldSerialsAppend(rows, chunkRows);
    record.AccumulateMetrics(chunkMetrics);
  }

  /**
   * Where the reader stands after the windows before `offset`: while reading, the lines handed
   * out followed by the carried partial line are the split of the text read so far; once done,
   * the lines are the split of the whole text. Lines were handed out exactly when a window was
   * read, and the first window then held a line feed or was the whole file.
   */
  ghost predicate LinesRead(content: string, offset: int, lines: seq<string>, carry: string, reading: bool) {
    && 0 <= offset
    && (reading ==> offset <= |content| && lines + [carry] == SplitLines(content[..offset]))
    && (!reading ==> lines == SplitLines(content))
    && (offset == 0 <==> lines == [])
    && (offset > 0 ==> |content| <= CHUNK_SIZE || '\n' in content[..CHUNK_SIZE])
  }

  /**
   * The rows read from the lines handed out: the first line is the header, the rows are those
   * of the lines after it, and the two counters count those lines and those rows.
   */
  ghost predicate RowsRead(lines: seq<string>, header: seq<string>, rows: seq<Row>, rowCount: int,
                           processedRowCount: int) {
    && (lines != [] ==> header == Fields(lines[0]) && rows == ValidRows(lines[1..], header) && rowCount == |lines| - 1)
    && (lines == [] ==> rows == [] && rowCount == 0)
    && processedRowCount == |rows|
  }

  /**
   * The line half of one pass of the reading loop: the next window, and for the first window its
   * first line parsed as the header, which fails when the first window has no line left after the
   * pop.
   */
  method WindowLines(content: string, offset: int, carry: string, header: seq<string>, ghost lines: seq<string>)
    returns (failed: bool, chunkLines: seq<string>, carry': string, header': seq<string>)
    requires LinesRead(content, offset, lines, carry, true)
    requires lines != [] ==> header == Fields(lines[0])
    ensures failed <==> offset == 0 && CHUNK_SIZE < |content| && '\n' !in content[..CHUNK_SIZE]
    ensures !failed ==> (lines == [] ==> chunkLines != []) && header' == Fields((lines + chunkLines)[0])
    ensures !failed ==>
      LinesRead(content, offset + CHUNK_SIZE, lines + chunkLines, carry', offset + CHUNK_SIZE < |content|)
  {
    header' := header;
    chunkLines, carry' := NextWindow(content, offset, carry, lines);
    if offset == 0 {
      if chunkLines == [] {
        // lines[0] is undefined: parseCSVLine throws and the file's promise is rejected
        return true, chunkLines, carry', header';
      }
      header' := ParseCsvLine(chunkLines[0]);
      assert (lines + chunkLines)[0] == chunkLines[0];
    } else {
      assert (lines + chunkLines)[0] == lines[0];
    }
    failed := false;
  }

  /** A window's lines and rows extend those read before it. */
  lemma RowsStep(lines: seq<string>, chunkLines: seq<string>, header: seq<string>, header': seq<string>,
                 rows: seq<Row>, rowCount: int, processedRowCount: int)
    requires RowsRead(lines, header, rows, rowCount, processedRowCount)
    requires lines == [] ==> chunkLines != []
    requires header' == Fields((lines + chunkLines)[0])
    ensures RowsRead(lines + chunkLines, header', rows + ChunkRows(chunkLines, header', lines == []),
                     rowCount + |chunkLines| - (if lines == [] then 1 else 0),
                     processedRowCount + |ChunkRows(chunkLines, header', lines == [])|)
  {
    FileLinesStep(lines, chunkLines, header');
    if lines != [] {
      assert (lines + chunkLines)[0] == lines[0];
    }
  }

  /** The record holds the fold of the rows read, and the table their dates merged into `t0`. */
  ghost predicate Accumulated(record: MetricsRecord, table: TableData, rows: seq<Row>, t0: DateData)
    reads record, table
  {
    && record.counters == FoldRows(rows) && record.serials == FoldSerials(rows)
    && table.dateData == MergeDates(t0, GroupByDate(rows, table.render))
  }

  /**
   * The row half of one pass of the reading loop: the window's rows folded into the record and
   * their dates merged into the table; it returns how many valid rows the window held.
   */
  method ConsumeWindow(chunkLines: seq<string>, header: seq<string>, isFirstChunk: bool, table: TableData,
                       record: MetricsRecord, ghost rows: seq<Row>, ghost t0: DateData)
    returns (validLines: int)
    requires table.Valid() && Accumulated(record, table, rows, t0)
    modifies record, table
    ensures table.Valid() && table.rowsPerPage == old(table.rowsPerPage)
    ensures validLines == |ChunkRows(chunkLines, header, isFirstChunk)|
    ensures Accumulated(record, table, rows + ChunkRows(chunkLines, header, isFirstChunk), t0)
  {
    ghost var chunkRows := ChunkRows(chunkLines, header, isFirstChunk);
    var chunkMetrics;
    chunkMetrics, validLines := ProcessWindow(chunkLines, header, isFirstChunk, table, rows, t0);
    AccumulateWindow(record, chunkMetrics, rows, chunkRows, table);
  }

  /**
   * The rows of one window after its lines are known: folded into the record and the table, and
   * the line and row counters advanced.
   */
  method ReadStep(chunkLines: seq<string>, isFirstChunk: bool, header: seq<string>, header': seq<string>,
                  table: TableData, record: MetricsRecord, rowCount: int, processedRowCount: int,
                  ghost lines: seq<string>, ghost rows: seq<Row>, ghost t0: DateData)
    returns (rowCount': int, processedRowCount': int, ghost rows': seq<Row>)
    requires RowsRead(lines, header, rows, rowCount, processedRowCount)
    requires isFirstChunk <==> lines == []
    requires lines == [] ==> chunkLines != []
    requires header' == Fields((lines + chunkLines)[0])
    requires table.Valid() && Accumulated(record, table, rows, t0)
    modifies record, table
    ensures table.Valid() && table.rowsPerPage == old(table.rowsPerPage)
    ensures RowsRead(lines + chunkLines, header', rows', rowCount', processedRowCount')
    ensures Accumulated(record, table, rows', t0)
  {
    var validLines := ConsumeWindow(chunkLines, header', isFirstChunk, table, record, rows, t0);
    RowsStep(lines, chunkLines, header, header', rows, rowCount, processedRowCount);
    rowCount' := rowCount + |chunkLines| - (if isFirstChunk then 1 else 0);
    processedRowCount' := processedRowCount + validLines;
    rows' := rows + ChunkRows(chunkLines, header', isFirstChunk);
  }

  /**
   * The reading loop of processFileWithMemoryOptimization. Each window of CHUNK_SIZE characters is
   * glued to the partial line carried from the previous one and split on line feeds; while more
   * of the file remains, the last piece is popped and carried. The first window's first line is
   * the header. When the file fits in one window or its first window holds a line feed, the
   * processed line lists together are the whole text split on line feeds, and the record holds
   * the fold of the file's rows. Otherwise the first window has no line after the pop, reading the
   * header fails and nothing has been processed.
   */
  method ReadFile(content: string, table: TableData)
    returns (ok: bool, record: MetricsRecord, rowCount: int, processedRowCount: int, ghost lines: seq<string>)
    requires table.Valid()
    modifies table
    ensures fresh(record)
    ensures ok <==> |content| <= CHUNK_SIZE || '\n' in content[..CHUNK_SIZE]
    ensures table.Valid() && table.rowsPerPage == old(table.rowsPerPage)
    ensures !ok ==> table.dateData == old(table.dateData)
    ensures ok ==>
      && lines == SplitLines(content)
      && rowCount == |lines| - 1
      && record.counters == FoldRows(FileRows(content))
      && record.serials == FoldSerials(FileRows(content))
      && processedRowCount == |FileRows(content)|
      && table.dateData == MergeDates(old(table.dateData), GroupByDate(FileRows(content), table.render))
  {
    record := new MetricsRecord();
    rowCount, processedRowCount := 0, 0;
    lines := [];
    var offset := 0;
    var header: seq<string> := [];
    var lastPartialLine := "";
    var reading := true;
    ghost var rows: seq<Row> := [];
    ghost var t0 := table.dateData;
    MergeEmpty(t0);
    assert content[..0] == "";
    assert SplitLines("") == [""] by {
      assert Lines("", "") == [""];
    }
    assert LinesRead(content, offset, lines, lastPartialLine, reading);
    while reading
      invariant fresh(record)
      invariant LinesRead(content, offset, lines, lastPartialLine, reading)
      invariant RowsRead(lines, header, rows, rowCount, processedRowCount)
      invariant table.Valid() && table.rowsPerPage == old(table.rowsPerPage)
      invariant Accumulated(record, table, rows, t0)
      decreases if reading then |content| - offset + 1 else 0
    {
      var failed, chunkLines, carry, header' := WindowLines(content, offset, lastPartialLine, header, lines);
      if failed {
        return false, record, rowCount, processedRowCount, lines;
      }
      rowCount, processedRowCount, rows :=
        ReadStep(chunkLines, offset == 0, header, header', table, record, rowCount, processedRowCount, lines, rows, t0);
      lines := lines + chunkLines;
      header, lastPartialLine := header', carry;
      offset := offset + CHUNK_SIZE;
      reading := offset < |content|;
    }
    ok := true;
  }
}
