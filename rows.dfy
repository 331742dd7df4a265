/**
 * From text lines to transaction rows: the header lookup, the validity gate of
 * processChunkForMetrics / the worker's processChunk, and the rows of a whole file.
 */
module Rows {
  import opened Wrappers
  import opened CsvLine
  import opened Metrics
  import Numbers

  /** Column `i` is the last one of the header named `key`. */
  predicate LastColumn(header: seq<string>, key: string, i: int) {
    0 <= i < |header| && header[i] == key && forall j :: i < j < |header| ==> header[j] != key
  }

  /**
   * rowObject[key] after `header.forEach((key, i) => rowObject[key] = rowData[i] || '')`:
   * the field under the last header column named `key`, or "" when no column has that name.
   */
  function Field(header: seq<string>, fields: seq<string>, key: string): (r: string)
    requires |fields| >= |header|
    ensures r == "" || exists i :: 0 <= i < |header| && header[i] == key && fields[i] == r
    ensures (forall i :: 0 <= i < |header| ==> header[i] != key) ==> r == ""
  {
    if header == [] then ""
    else if header[|header| - 1] == key then fields[|header| - 1]
    else Field(header[..|header| - 1], fields, key)
  }

  /** Later columns overwrite earlier ones: the key's field is the one under its last column. */
  lemma {:induction false} FieldOfLastColumn(header: seq<string>, fields: seq<string>, key: string, i: int)
    requires |fields| >= |header| && LastColumn(header, key, i)
    ensures Field(header, fields, key) == fields[i]
  {
    if i < |header| - 1 {
      var init := header[..|header| - 1];
      assert header[|header| - 1] != key;
      assert LastColumn(init, key, i) by {
        forall j | i < j < |init| ensures init[j] != key {
          assert init[j] == header[j];
        }
      }
      FieldOfLastColumn(init, fields, key, i);
    }
  }

  function RowOf(header: seq<string>, fields: seq<string>): Row
    requires |fields| >= |header|
  {
    Row(Field(header, fields, "REPORTTYPE"), Numbers.ParseAmount(Field(header, fields, "TRANSACTION_AMOUNT")),
        Field(header, fields, "TRANSACTION_CURRENCY"), Field(header, fields, "ACCOUNT_HOLDER_ACCOUNT_ROLE"),
        Field(header, fields, "TRANSACTION_DATE"), Field(header, fields, "SERIAL_NO"))
  }

  /**
   * The row one line yields: none for a blank line, for a line with fewer fields than the header,
   * or for a row whose REPORTTYPE is empty.
   */
  function LineRow(line: string, header: seq<string>): (r: Option<Row>)
    ensures r.Some? <==>
      Trim(line) != [] && |Fields(Trim(line))| >= |header| && RowOf(header, Fields(Trim(line))).reportType != ""
    ensures r.Some? ==> r.value == RowOf(header, Fields(Trim(line)))
  {
    var t := Trim(line);
    if t == [] then None
    else
      var f := Fields(t);
      if |f| < |header| then None
      else
        var row := RowOf(header, f);
        if row.reportType == "" then None else Some(row)
  }

  /** The row of one line as a list of zero or one rows. */
  function RowsOfLine(line: string, header: seq<string>): (r: seq<Row>)
    ensures |r| <= 1
  {
    match LineRow(line, header)
    case Some(row) => [row]
    case None => []
  }

  /** The rows of the accepted lines, in order. */
  function ValidRows(lines: seq<string>, header: seq<string>): seq<Row> {
    if lines == [] then []
    else ValidRows(lines[..|lines| - 1], header) + RowsOfLine(lines[|lines| - 1], header)
  }

  /** The rows of a list of lines are the rows of its first part followed by those of the rest. */
  lemma {:induction false} ValidRowsAppend(a: seq<string>, b: seq<string>, header: seq<string>)
    ensures ValidRows(a + b, header) == ValidRows(a, header) + ValidRows(b, header)
    decreases |b|
  {
    if b == [] {
      assert a + b == a;
    } else {
      var b' := b[..|b| - 1];
      assert (a + b)[..|a + b| - 1] == a + b';
      assert (a + b)[|a + b| - 1] == b[|b| - 1];
      ValidRowsAppend(a, b', header);
    }
  }

  /** The rows of one more line of a list. */
  lemma ValidRowsSnoc(lines: seq<string>, j: nat, header: seq<string>)
    requires j < |lines|
    ensures ValidRows(lines[..j + 1], header) == ValidRows(lines[..j], header) + RowsOfLine(lines[j], header)
  {
    assert lines[..j + 1][..j] == lines[..j];
  }

  /**
   * Every kept row has a non-empty REPORTTYPE and comes from a line whose trimmed text has at
   * least as many fields as the header; there are at most as many rows as lines.
   */
  lemma {:induction false} ValidRowsOrigin(lines: seq<string>, header: seq<string>)
    ensures |ValidRows(lines, header)| <= |lines|
    ensures forall k :: 0 <= k < |ValidRows(lines, header)| ==>
      ValidRows(lines, header)[k].reportType != "" &&
      exists i :: 0 <= i < |lines| && LineRow(lines[i], header) == Some(ValidRows(lines, header)[k])
  {
    if lines != [] {
      var init := lines[..|lines| - 1];
      var last := |lines| - 1;
      ValidRowsOrigin(init, header);
      var rows := ValidRows(lines, header);
      var prev := ValidRows(init, header);
      var tail := RowsOfLine(lines[last], header);
      assert rows == prev + tail;
      forall k | 0 <= k < |rows|
        ensures rows[k].reportType != "" && exists i :: 0 <= i < |lines| && LineRow(lines[i], header) == Some(rows[k])
      {
        if k < |prev| {
          assert rows[k] == prev[k];
          var i :| 0 <= i < |init| && LineRow(init[i], header) == Some(prev[k]);
          assert lines[i] == init[i];
        } else {
          assert rows[k] == tail[k - |prev|];
          assert LineRow(lines[last], header) == Some(rows[k]);
        }
      }
    }
  }

  /** Lines that yield no row add nothing. */
  lemma {:induction false} ValidRowsSkip(lines: seq<string>, header: seq<string>)
    requires forall i :: 0 <= i < |lines| ==> LineRow(lines[i], header).None?
    ensures ValidRows(lines, header) == []
  {
    if lines != [] {
      var init := lines[..|lines| - 1];
      assert forall i :: 0 <= i < |init| ==> init[i] == lines[i];
      ValidRowsSkip(init, header);
    }
  }

  /** The rows of one chunk's lines; line 0 is the header and is skipped in the first chunk. */
  function ChunkRows(lines: seq<string>, header: seq<string>, isFirstChunk: bool): seq<Row> {
    ValidRows(ChunkBody(lines, isFirstChunk), header)
  }

  /** The lines of a chunk that processChunkForMetrics visits. */
  function ChunkBody(lines: seq<string>, isFirstChunk: bool): seq<string> {
    if isFirstChunk && lines != [] then lines[1..] else lines
  }

  /** The header of a file: the fields of its first line. */
  function Header(content: string): seq<string> {
    Fields(SplitLines(content)[0])
  }

  /** The rows of a whole file: every line after the first, read against the first line's fields. */
  function FileRows(content: string): seq<Row> {
    ChunkRows(SplitLines(content), Header(content), true)
  }
}
