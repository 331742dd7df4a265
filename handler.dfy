/**
 * The FileHandler object of fileHandler.js: the list of picked files with the session's name gate,
 * the per-file metrics and serial maps, the handler's own serial sets, the removal of a file with
 * the recompute of the dashboard from the files still active, and the sequential processing of the
 * files not yet processed.
 */
module Handler {
  import opened Wrappers
  import opened CsvLine
  import opened Metrics
  import opened Rows
  import opened DateKeys
  import opened DateTable
  import opened Processor
  import opened Files

  // ---------------------------------------------------------------------------
  // Files and the file list

  /** A picked or dropped file: its name and its text, one character per byte (its size is its length). */
  datatype SelectedFile = SelectedFile(name: string, content: string)

  /** An entry of the file list: the file and the two flags the handler sets on it. */
  datatype UploadedFile = UploadedFile(file: SelectedFile, isRemoved: bool, isAlreadyProcessed: bool)

  /** An entry of processedData: the file's name, its lines after the header, and its accepted rows. */
  datatype FileData = FileData(fileName: string, rowCount: int, processedRowCount: int)

  /** ASCII lower-casing of one character. */
  function LowerChar(c: char): char {
    if 'A' <= c <= 'Z' then (c as int + 32) as char else c
  }

  /** `name.toLowerCase()`, on ASCII letters. */
  function LowerAscii(s: string): (r: string)
    ensures |r| == |s|
  {
    seq(|s|, i requires 0 <= i < |s| => LowerChar(s[i]))
  }

  /** `name.toLowerCase().endsWith('.csv')`. */
  predicate IsCsv(name: string) {
    var l := LowerAscii(name);
    |l| >= 4 && l[|l| - 4..] == ".csv"
  }

  /** A name passes the CSV test exactly when its last four characters are a dot and c, s, v in either case. */
  lemma IsCsvSuffix(name: string)
    ensures IsCsv(name) <==>
      && |name| >= 4 && name[|name| - 4] == '.'
      && name[|name| - 3] in "cC" && name[|name| - 2] in "sS" && name[|name| - 1] in "vV"
  {
    var l := LowerAscii(name);
    if |name| >= 4 {
      var n := |name|;
      assert l[n - 4..] == [l[n - 4], l[n - 3], l[n - 2], l[n - 1]];
      assert ".csv" == ['.', 'c', 's', 'v'];
    }
  }

  /** The CSV filter of selectFiles, keeping the order of the picked files. */
  function CsvFiles(fs: seq<SelectedFile>): (r: seq<SelectedFile>)
    ensures |r| <= |fs|
    ensures forall f :: f in r <==> f in fs && IsCsv(f.name)
  {
    if fs == [] then [] else (if IsCsv(fs[0].name) then [fs[0]] else []) + CsvFiles(fs[1..])
  }

  /** The names of a list of files. */
  function NamesOf(fs: seq<SelectedFile>): set<string> {
    set f | f in fs :: f.name
  }

  /** The names of a list with `f` appended. */
  lemma NamesOfSnoc(fs: seq<SelectedFile>, f: SelectedFile)
    ensures NamesOf(fs + [f]) == NamesOf(fs) + {f.name}
  {
    assert forall g :: g in fs + [f] <==> g in fs || g == f;
  }

  /** The state of selectFiles' walk over the CSV files: the entries collected and the session's names. */
  datatype Admission = Admission(entries: seq<UploadedFile>, seen: set<string>)

  /**
   * selectFiles' walk over the CSV files in order: a file whose name the session has seen (before
   * this call or earlier in it) is refused; any other joins the seen names and is listed, not
   * removed, and flagged as already processed when its id is among the processed ones.
   */
  function Admit(seen: set<string>, fs: seq<SelectedFile>, processed: set<string>): (a: Admission)
    ensures |a.entries| <= |fs|
  {
    if fs == [] then Admission([], seen)
    else
      var a := Admit(seen, fs[..|fs| - 1], processed);
      var f := fs[|fs| - 1];
      if f.name in a.seen then a
      else Admission(a.entries + [UploadedFile(f, false, FileId(f.name, |f.content|) in processed)], a.seen + {f.name})
  }

  /** After the walk the session has seen its earlier names and every name of the files. */
  lemma {:induction false} AdmitSeen(seen: set<string>, fs: seq<SelectedFile>, processed: set<string>)
    ensures Admit(seen, fs, processed).seen == seen + NamesOf(fs)
  {
    if fs != [] {
      var init := fs[..|fs| - 1];
      AdmitSeen(seen, init, processed);
      assert fs == init + [fs[|fs| - 1]];
      NamesOfSnoc(init, fs[|fs| - 1]);
    }
  }

  /**
   * Every admitted entry is one of the files, under a name the session had not seen before and
   * has seen after, not removed, and flagged exactly when its id is processed.
   */
  lemma {:induction false} AdmitEntries(seen: set<string>, fs: seq<SelectedFile>, processed: set<string>, a: Admission)
    requires a == Admit(seen, fs, processed)
    ensures seen <= a.seen
    ensures forall k :: 0 <= k < |a.entries| ==>
      && a.entries[k].file in fs && a.entries[k].file.name !in seen && a.entries[k].file.name in a.seen
      && !a.entries[k].isRemoved
      && (a.entries[k].isAlreadyProcessed <==> FileId(a.entries[k].file.name, |a.entries[k].file.content|) in processed)
  {
    if fs != [] {
      var init := fs[..|fs| - 1];
      var f := fs[|fs| - 1];
      var b := Admit(seen, init, processed);
      AdmitEntries(seen, init, processed, b);
      assert forall g :: g in init ==> g in fs;
      if f.name !in b.seen {
        assert forall k :: 0 <= k < |b.entries| ==> a.entries[k] == b.entries[k];
        assert a.entries[|b.entries|].file == f;
      }
    }
  }

  /** Every name the session has seen after the walk was seen before it or is an admitted entry's name. */
  lemma {:induction false} AdmitNamesListed(seen: set<string>, fs: seq<SelectedFile>, processed: set<string>, a: Admission)
    requires a == Admit(seen, fs, processed)
    ensures forall n :: n in a.seen ==> n in seen || exists k :: 0 <= k < |a.entries| && a.entries[k].file.name == n
  {
    if fs != [] {
      var init := fs[..|fs| - 1];
      var f := fs[|fs| - 1];
      var b := Admit(seen, init, processed);
      AdmitNamesListed(seen, init, processed, b);
      if f.name !in b.seen {
        forall n | n in a.seen && n !in seen
          ensures exists k :: 0 <= k < |a.entries| && a.entries[k].file.name == n
        {
          if n == f.name {
            assert a.entries[|b.entries|].file.name == n;
          } else {
            var k :| 0 <= k < |b.entries| && b.entries[k].file.name == n;
            assert a.entries[k] == b.entries[k];
          }
        }
      }
    }
  }

  /** No two admitted entries share a name. */
  lemma {:induction false} AdmitDistinct(seen: set<string>, fs: seq<SelectedFile>, processed: set<string>, a: Admission)
    requires a == Admit(seen, fs, processed)
    ensures forall k, l :: 0 <= k < l < |a.entries| ==> a.entries[k].file.name != a.entries[l].file.name
  {
    if fs != [] {
      var init := fs[..|fs| - 1];
      var f := fs[|fs| - 1];
      var b := Admit(seen, init, processed);
      AdmitDistinct(seen, init, processed, b);
      if f.name !in b.seen {
        AdmitEntries(seen, init, processed, b);
        forall k, l | 0 <= k < l < |a.entries| ensures a.entries[k].file.name != a.entries[l].file.name {
          assert a.entries[k] == b.entries[k];
          if l < |b.entries| {
            assert a.entries[l] == b.entries[l];
          }
        }
      }
    }
  }

  /** Every file whose name the session had not seen is admitted under that name. */
  lemma AdmitComplete(seen: set<string>, fs: seq<SelectedFile>, processed: set<string>, f: SelectedFile)
    requires f in fs && f.name !in seen
    ensures exists k :: 0 <= k < |Admit(seen, fs, processed).entries| && Admit(seen, fs, processed).entries[k].file.name == f.name
  {
    AdmitSeen(seen, fs, processed);
    AdmitNamesListed(seen, fs, processed, Admit(seen, fs, processed));
  }

  /** No two entries of the list carry the same name. */
  ghost predicate DistinctNames(files: seq<UploadedFile>) {
    forall i, j :: 0 <= i < j < |files| ==> files[i].file.name != files[j].file.name
  }

  /**
   * Appending the admitted entries to a list whose names are distinct and all seen keeps the
   * names distinct, and every name on the longer list is seen after the walk.
   */
  lemma AppendAdmitted(files: seq<UploadedFile>, seen: set<string>, fs: seq<SelectedFile>, processed: set<string>)
    requires DistinctNames(files) && forall u | u in files :: u.file.name in seen
    ensures DistinctNames(files + Admit(seen, fs, processed).entries)
    ensures forall u | u in files + Admit(seen, fs, processed).entries :: u.file.name in Admit(seen, fs, processed).seen
  {
    var a := Admit(seen, fs, processed);
    var r := a.entries;
    AdmitEntries(seen, fs, processed, a);
    AdmitDistinct(seen, fs, processed, a);
    var all := files + r;
    forall i, j | 0 <= i < j < |all| ensures all[i].file.name != all[j].file.name {
      if j < |files| {
      } else if i < |files| {
        assert all[i] in files && all[j] == r[j - |files|];
      } else {
        assert all[i] == r[i - |files|] && all[j] == r[j - |files|];
      }
    }
    forall u | u in all ensures u.file.name in a.seen {
      if u !in files {
        var k :| 0 <= k < |r| && r[k] == u;
      }
    }
  }

  /** Splicing one entry out keeps the names distinct. */
  lemma SpliceDistinct(files: seq<UploadedFile>, index: nat)
    requires index < |files| && DistinctNames(files)
    ensures DistinctNames(files[..index] + files[index + 1..])
    ensures forall u :: u in files[..index] + files[index + 1..] ==> u in files
  {
    var s := files[..index] + files[index + 1..];
    forall i, j | 0 <= i < j < |s| ensures s[i].file.name != s[j].file.name {
      var i' := if i < index then i else i + 1;
      var j' := if j < index then j else j + 1;
      assert s[i] == files[i'] && s[j] == files[j'];
    }
    forall u | u in s ensures u in files {
      var i :| 0 <= i < |s| && s[i] == u;
      assert s[i] == files[if i < index then i else i + 1];
    }
  }

  /** Flagging one entry as removed keeps the names, so they stay distinct and seen. */
  lemma FlagDistinct(files: seq<UploadedFile>, index: nat, names: set<string>)
    requires index < |files| && DistinctNames(files) && forall u | u in files :: u.file.name in names
    ensures DistinctNames(files[index := files[index].(isRemoved := true)])
    ensures forall u | u in files[index := files[index].(isRemoved := true)] :: u.file.name in names
  {
    var s := files[index := files[index].(isRemoved := true)];
    assert forall k :: 0 <= k < |s| ==> s[k].file == files[k].file;
    forall u | u in s ensures u.file.name in names {
      var k :| 0 <= k < |s| && s[k] == u;
      assert files[k] in files;
    }
  }

  /** The names of the files not flagged as removed, in list order. */
  function ActiveNames(files: seq<UploadedFile>): (r: seq<string>)
    ensures |r| <= |files|
    ensures forall n :: n in r <==> exists u :: u in files && !u.isRemoved && u.file.name == n
  {
    if files == [] then []
    else
      var rest := ActiveNames(files[..|files| - 1]);
      var u := files[|files| - 1];
      assert forall v :: v in files <==> v in files[..|files| - 1] || v == u;
      if u.isRemoved then rest else rest + [u.file.name]
  }

  /** `processedData.findIndex(item => item.fileName === name)`. */
  function FindIndex(ds: seq<FileData>, name: string): (k: int)
    ensures -1 <= k < |ds|
    ensures k == -1 <==> forall d :: d in ds ==> d.fileName != name
    ensures k >= 0 ==> ds[k].fileName == name && forall j :: 0 <= j < k ==> ds[j].fileName != name
  {
    if ds == [] then -1
    else if ds[0].fileName == name then 0
    else
      var k := FindIndex(ds[1..], name);
      assert forall d :: d in ds <==> d == ds[0] || d in ds[1..];
      if k == -1 then -1 else k + 1
  }

  /** The splice after findIndex: the first entry with the name dropped, when there is one. */
  function RemoveFirst(ds: seq<FileData>, name: string): seq<FileData> {
    var k := FindIndex(ds, name);
    if k == -1 then ds else ds[..k] + ds[k + 1..]
  }

  // ---------------------------------------------------------------------------
  // The recompute after a removal

  /** The replay's `forEach(sn => { own.add(sn); all.add(sn); })` over one stored set. */
  method AddToBoth(own: set<string>, all: set<string>, source: set<string>) returns (own': set<string>, all': set<string>)
    ensures own' == own + source && all' == all + source
  {
    own', all' := own, all;
    var rest := source;
    while rest != {}
      invariant rest <= source
      invariant own' == own + (source - rest) && all' == all + (source - rest)
      decreases |rest|
    {
      var sn :| sn in rest;
      own', all' := own' + {sn}, all' + {sn};
      rest := rest - {sn};
    }
  }

  /** The metrics object a processed file leaves behind: its counters and its two unique-serial counts. */
  function FileIncoming(c: Counters, s: Serials): Incoming {
    Incoming(c, Some(|s.hoc|), Some(|s.ibd|), None, true, true)
  }

  /** The summary counters after updateMetrics replays the stored objects of `names`, from zero. */
  function ReplayCounters(names: seq<string>, fm: map<string, Incoming>): Counters {
    if names == [] then Zero()
    else
      var c := ReplayCounters(names[..|names| - 1], fm);
      var n := names[|names| - 1];
      if n in fm then AddIncoming(c, fm[n]) else c
  }

  /** The handler's HOC and IBD sets after the replay adds the stored serials of `names`. */
  function ReplaySerials(names: seq<string>, fs: map<string, Serials>): Serials {
    if names == [] then Serials({}, {})
    else
      var s := ReplaySerials(names[..|names| - 1], fs);
      var n := names[|names| - 1];
      if n in fs then Union(s, fs[n]) else s
  }

  /**
   * The three unique counts after updateMetrics replays the stored objects of `names` from `u`:
   * each count an object carries is added, a missing one leaves its count as it is.
   */
  function ReplayUniques(names: seq<string>, fm: map<string, Incoming>, u: Uniques): Uniques {
    if names == [] then u
    else
      var v := ReplayUniques(names[..|names| - 1], fm, u);
      var n := names[|names| - 1];
      if n in fm then
        Uniques(AddOpt(v.hoc, fm[n].hocUnique), AddOpt(v.ibd, fm[n].ibdUnique), AddOpt(v.total, fm[n].totalUnique))
      else v
  }

  /** A replayed serial set holds exactly the serials that some replayed file stored. */
  lemma {:induction false} ReplaySerialsMembers(names: seq<string>, fs: map<string, Serials>, x: string)
    ensures x in ReplaySerials(names, fs).hoc <==> exists k :: 0 <= k < |names| && names[k] in fs && x in fs[names[k]].hoc
    ensures x in ReplaySerials(names, fs).ibd <==> exists k :: 0 <= k < |names| && names[k] in fs && x in fs[names[k]].ibd
  {
    if names != [] {
      var init := names[..|names| - 1];
      ReplaySerialsMembers(init, fs, x);
      assert forall k :: 0 <= k < |init| ==> init[k] == names[k];
    }
  }

  /** The rows of several files, one after the other. */
  function Concat(rows: seq<seq<Row>>): seq<Row> {
    if rows == [] then [] else Concat(rows[..|rows| - 1]) + rows[|rows| - 1]
  }

  /** The update of a file's metrics object is adding its counters, currencies included. */
  lemma AddFileIncoming(c: Counters, d: Counters, s: Serials)
    ensures AddIncoming(c, FileIncoming(d, s)) == Add(c, d)
  {
  }

  /**
   * When every replayed file stored the fold of its own rows, the replay gives the counters and the
   * serial sets of all those rows together: recomputing after a removal is calculateMetrics over
   * the rows of the files still active.
   */
  lemma {:induction false} ReplayIsFold(names: seq<string>, fm: map<string, Incoming>, fs: map<string, Serials>,
                                        rows: seq<seq<Row>>)
    requires |rows| == |names|
    requires forall k :: 0 <= k < |names| ==>
      && names[k] in fm && fm[names[k]] == FileIncoming(FoldRows(rows[k]), FoldSerials(rows[k]))
      && names[k] in fs && fs[names[k]] == FoldSerials(rows[k])
    ensures ReplayCounters(names, fm) == FoldRows(Concat(rows))
    ensures ReplaySerials(names, fs) == FoldSerials(Concat(rows))
  {
    if names != [] {
      var n := |names| - 1;
      ReplayIsFold(names[..n], fm, fs, rows[..n]);
      assert rows[..n] == rows[..|rows| - 1];
      AddFileIncoming(FoldRows(Concat(rows[..n])), FoldRows(rows[n]), FoldSerials(rows[n]));
      FoldRowsAppend(Concat(rows[..n]), rows[n]);
      FoldSerialsAppend(Concat(rows[..n]), rows[n]);
    }
  }

  /**
   * With those records, the summary the recompute leaves (replayed counters, unique counts from the
   * sizes of the rebuilt sets) is the summary calculateMetrics gives for the active files' rows.
   */
  lemma ReplaySummary(names: seq<string>, fm: map<string, Incoming>, fs: map<string, Serials>, rows: seq<seq<Row>>)
    requires |rows| == |names|
    requires forall k :: 0 <= k < |names| ==>
      && names[k] in fm && fm[names[k]] == FileIncoming(FoldRows(rows[k]), FoldSerials(rows[k]))
      && names[k] in fs && fs[names[k]] == FoldSerials(rows[k])
    ensures var s := ReplaySerials(names, fs);
      Summary(ReplayCounters(names, fm), |s.hoc|, |s.ibd|, |s.hoc + s.ibd|) == SummaryOf(Concat(rows))
  {
    ReplayIsFold(names, fm, fs, rows);
  }

  // ---------------------------------------------------------------------------
  // Processing files

  /** The first window of the file holds a line feed, or the file fits in one window. */
  predicate Readable(content: string) {
    |content| <= CHUNK_SIZE || '\n' in content[..CHUNK_SIZE]
  }

  /** The stored metrics object of a processed file. */
  function FileRecord(content: string): Incoming {
    FileIncoming(FoldRows(FileRows(content)), FoldSerials(FileRows(content)))
  }

  /** The processedData entry of a processed file. */
  function FileSummary(f: SelectedFile): FileData {
    FileData(f.name, |SplitLines(f.content)| - 1, |FileRows(f.content)|)
  }

  /** processFiles' filter: the listed files whose id is not among the processed ones. */
  function ToProcess(files: seq<UploadedFile>, processed: set<string>): (r: seq<UploadedFile>)
    ensures |r| <= |files|
  {
    if files == [] then []
    else
      (if FileId(files[0].file.name, |files[0].file.content|) !in processed then [files[0]] else [])
        + ToProcess(files[1..], processed)
  }

  /** The files to process are exactly the listed ones whose id has not been processed. */
  lemma {:induction false} ToProcessMembers(files: seq<UploadedFile>, processed: set<string>)
    ensures forall u :: u in ToProcess(files, processed) <==>
      u in files && FileId(u.file.name, |u.file.content|) !in processed
  {
    if files != [] {
      ToProcessMembers(files[1..], processed);
      assert forall u :: u in files <==> u == files[0] || u in files[1..];
    }
  }

  /** How many files are processed before the first whose header cannot be read. */
  function ReadablePrefix(fs: seq<UploadedFile>): (k: nat)
    ensures k <= |fs|
  {
    if fs == [] || !Readable(fs[0].file.content) then 0 else 1 + ReadablePrefix(fs[1..])
  }

  /** The prefix holds only readable files, and the file after it is not readable. */
  lemma {:induction false} ReadablePrefixMeaning(fs: seq<UploadedFile>)
    ensures forall j :: 0 <= j < ReadablePrefix(fs) ==> Readable(fs[j].file.content)
    ensures ReadablePrefix(fs) < |fs| ==> !Readable(fs[ReadablePrefix(fs)].file.content)
  {
    if fs != [] && Readable(fs[0].file.content) {
      ReadablePrefixMeaning(fs[1..]);
      forall j | 0 <= j < ReadablePrefix(fs)
        ensures Readable(fs[j].file.content)
      {
        if j > 0 {
          assert fs[j] == fs[1..][j - 1];
        }
      }
    }
  }

  /** The first k + 1 files are the first k and then file k. */
  lemma PrefixStep(fs: seq<UploadedFile>, k: nat)
    requires k < |fs|
    ensures fs[..k + 1] == fs[..k] + [fs[k]]
  {
  }

  /** Within the prefix, the next file is processed exactly when its header can be read. */
  lemma ReadableAt(fs: seq<UploadedFile>, k: nat)
    requires k <= ReadablePrefix(fs) && k < |fs|
    ensures Readable(fs[k].file.content) <==> k < ReadablePrefix(fs)
  {
    ReadablePrefixMeaning(fs);
  }

  function Summaries(fs: seq<UploadedFile>): seq<FileData> {
    if fs == [] then [] else Summaries(fs[..|fs| - 1]) + [FileSummary(fs[|fs| - 1].file)]
  }

  function FilesRows(fs: seq<UploadedFile>): seq<Row> {
    if fs == [] then [] else FilesRows(fs[..|fs| - 1]) + FileRows(fs[|fs| - 1].file.content)
  }

  /** `processedData.reduce((t, f) => t + (f.processedRowCount || 0), 0)`. */
  function SumProcessed(ds: seq<FileData>): int {
    if ds == [] then 0 else SumProcessed(ds[..|ds| - 1]) + ds[|ds| - 1].processedRowCount
  }

  function IdsOf(fs: seq<UploadedFile>): set<string> {
    if fs == [] then {} else IdsOf(fs[..|fs| - 1]) + {FileId(fs[|fs| - 1].file.name, |fs[|fs| - 1].file.content|)}
  }

  function StoreMetrics(m: map<string, Incoming>, fs: seq<UploadedFile>): map<string, Incoming> {
    if fs == [] then m
    else StoreMetrics(m, fs[..|fs| - 1])[fs[|fs| - 1].file.name := FileRecord(fs[|fs| - 1].file.content)]
  }

  function StoreSerials(m: map<string, Serials>, fs: seq<UploadedFile>): map<string, Serials> {
    if fs == [] then m
    else StoreSerials(m, fs[..|fs| - 1])[fs[|fs| - 1].file.name := FoldSerials(FileRows(fs[|fs| - 1].file.content))]
  }

  function HocAdded(fs: seq<UploadedFile>): int {
    if fs == [] then 0 else HocAdded(fs[..|fs| - 1]) + |FoldSerials(FileRows(fs[|fs| - 1].file.content)).hoc|
  }

  function IbdAdded(fs: seq<UploadedFile>): int {
    if fs == [] then 0 else IbdAdded(fs[..|fs| - 1]) + |FoldSerials(FileRows(fs[|fs| - 1].file.content)).ibd|
  }

  /** fixTransactionCount(total) when the summary's count is below `total`. */
  function FixCount(m: Counters, total: int): Counters {
    if m.totalTransactions < total then m.(totalTransactions := total) else m
  }

  /** The summary counters after the files `fs` are processed one by one, each followed by the count fix. */
  function MetricsAfter(m0: Counters, fs: seq<UploadedFile>): Counters {
    if fs == [] then m0
    else FixCount(AddIncoming(MetricsAfter(m0, fs[..|fs| - 1]), FileRecord(fs[|fs| - 1].file.content)),
                  |FilesRows(fs)|)
  }

  /** The processed-row total of the entries is the number of rows of the files. */
  lemma {:induction false} SumSummaries(fs: seq<UploadedFile>)
    ensures SumProcessed(Summaries(fs)) == |FilesRows(fs)|
  {
    if fs != [] {
      SumSummaries(fs[..|fs| - 1]);
      assert Summaries(fs)[..|Summaries(fs)| - 1] == Summaries(fs[..|fs| - 1]);
    }
  }

  function Max0(v: int): int {
    if v < 0 then 0 else v
  }

  /**
   * Processing files one after the other adds the fold of all their rows to the summary, and the
   * count fix after each file only lifts a negative starting count to zero: the transaction count
   * ends as the starting count (at least zero) plus the rows processed, never below the rows
   * processed.
   */
  lemma {:induction false} MetricsAfterIsFold(m0: Counters, fs: seq<UploadedFile>)
    requires fs != []
    ensures MetricsAfter(m0, fs) ==
      Add(m0, FoldRows(FilesRows(fs))).(totalTransactions := Max0(m0.totalTransactions) + |FilesRows(fs)|)
  {
    var init := fs[..|fs| - 1];
    var rows := FileRows(fs[|fs| - 1].file.content);
    var before := MetricsAfter(m0, init);
    assert FilesRows(fs) == FilesRows(init) + rows;
    FoldRowsMeaning(rows);
    FoldRowsMeaning(FilesRows(init));
    FoldRowsAppend(FilesRows(init), rows);
    AddFileIncoming(before, FoldRows(rows), FoldSerials(rows));
    var added := Add(before, FoldRows(rows));
    assert MetricsAfter(m0, fs) == FixCount(added, |FilesRows(fs)|);
    if init == [] {
      assert FilesRows(init) == [] && before == m0;
      AddZero(FoldRows(rows));
      assert FilesRows(fs) == rows;
      assert added.totalTransactions == m0.totalTransactions + |rows|;
      if m0.totalTransactions < 0 {
        assert FixCount(added, |rows|) == added.(totalTransactions := |rows|);
      } else {
        assert FixCount(added, |rows|) == added;
      }
    } else {
      var t := Max0(m0.totalTransactions) + |FilesRows(init)|;
      MetricsAfterIsFold(m0, init);
      assert before == Add(m0, FoldRows(FilesRows(init))).(totalTransactions := t);
      AddTotalOverride(Add(m0, FoldRows(FilesRows(init))), FoldRows(rows), t);
      assert added == Add(Add(m0, FoldRows(FilesRows(init))), FoldRows(rows)).(totalTransactions := t + |rows|);
      AddAssoc(m0, FoldRows(FilesRows(init)), FoldRows(rows));
      assert added == Add(m0, FoldRows(FilesRows(fs))).(totalTransactions := t + |rows|);
      assert FixCount(added, |FilesRows(fs)|) == added;
    }
  }

  /** Adding to counters whose transaction count was overridden overrides the sum's count. */
  lemma AddTotalOverride(a: Counters, b: Counters, t: int)
    ensures Add(a.(totalTransactions := t), b) == Add(a, b).(totalTransactions := t + b.totalTransactions)
  {
  }

  /** One more processed file adds its id. */
  lemma IdsOfSnoc(done: seq<UploadedFile>, u: UploadedFile)
    ensures IdsOf(done + [u]) == IdsOf(done) + {FileId(u.file.name, |u.file.content|)}
  {
    var n := done + [u];
    assert n[..|n| - 1] == done;
  }

  /** One more processed file adds the sizes of its two serial sets. */
  lemma AddedSnoc(done: seq<UploadedFile>, u: UploadedFile)
    ensures HocAdded(done + [u]) == HocAdded(done) + |FoldSerials(FileRows(u.file.content)).hoc|
    ensures IbdAdded(done + [u]) == IbdAdded(done) + |FoldSerials(FileRows(u.file.content)).ibd|
  {
    var n := done + [u];
    assert n[..|n| - 1] == done;
  }

  /** Before any file is taken, the handler's state is the state the run starts from. */
  lemma ProgressStart(before: Before, render: DateRender)
    ensures Progress([], before.processedFiles, before.fileMetrics, before.fileSerialNumbers, before.metrics,
                     before.dateData, render, [], before)
  {
  }

  /** One more processed file extends the entries and the stored maps by that file's part. */
  lemma RecordsSnoc(done: seq<UploadedFile>, u: UploadedFile, before: Before)
    ensures Summaries(done + [u]) == Summaries(done) + [FileSummary(u.file)]
    ensures StoreMetrics(before.fileMetrics, done + [u]) ==
      StoreMetrics(before.fileMetrics, done)[u.file.name := FileRecord(u.file.content)]
    ensures StoreSerials(before.fileSerialNumbers, done + [u]) ==
      StoreSerials(before.fileSerialNumbers, done)[u.file.name := FoldSerials(FileRows(u.file.content))]
  {
    var n := done + [u];
    assert n[..|n| - 1] == done;
  }

  /**
   * One more processed file moves the counters by one step of MetricsAfter, the count fix using
   * the extended entries' total, and merges the file's buckets into the run's.
   */
  lemma TotalsSnoc(done: seq<UploadedFile>, u: UploadedFile, before: Before, render: DateRender)
    ensures MetricsAfter(before.metrics, done + [u]) ==
      FixCount(AddIncoming(MetricsAfter(before.metrics, done), FileRecord(u.file.content)),
               SumProcessed(Summaries(done) + [FileSummary(u.file)]))
    ensures GroupInto(before.dateData, FilesRows(done + [u]), render) ==
      GroupInto(GroupInto(before.dateData, FilesRows(done), render), FileRows(u.file.content), render)
  {
    var n := done + [u];
    assert n[..|n| - 1] == done;
    assert Summaries(n) == Summaries(done) + [FileSummary(u.file)];
    SumSummaries(n);
    GroupIntoAppend(before.dateData, FilesRows(done), FileRows(u.file.content), render);
  }

  /** What processing the files `done` left behind, from the state `before`. */
  datatype Before = Before(
    metrics: Counters, processedFiles: set<string>,
    fileMetrics: map<string, Incoming>, fileSerialNumbers: map<string, Serials>, dateData: DateData)

  /**
   * The values processing the files `done` one by one from `before` leaves: their entries, ids,
   * stored objects and serials recorded in order, their rows folded into the counters (with the
   * count fix after each), and their dates merged into the table's buckets.
   */
  ghost predicate Progress(entries: seq<FileData>, ids: set<string>, stored: map<string, Incoming>,
                           serials: map<string, Serials>, counters: Counters, dates: DateData,
                           render: DateRender, done: seq<UploadedFile>, before: Before)
  {
    && entries == Summaries(done)
    && ids == before.processedFiles + IdsOf(done)
    && stored == StoreMetrics(before.fileMetrics, done)
    && serials == StoreSerials(before.fileSerialNumbers, done)
    && counters == MetricsAfter(before.metrics, done)
    && dates == GroupInto(before.dateData, FilesRows(done), render)
  }

  /** The three unique counts of the summary, or three set sizes added to them. */
  datatype Uniques = Uniques(hoc: int, ibd: int, total: int)

  /**
   * The state processFiles leaves after its files `todo` were taken in order from `before`, with
   * the unique counts at `start`: the files before the first unreadable one are processed; the
   * unique counts `now` grew by each file's set sizes and, when every file went through, once
   * more by the sizes `sets` of the handler's sets.
   */
  ghost predicate Ran(todo: seq<UploadedFile>, before: Before, start: Uniques, sets: Uniques, render: DateRender,
                      entries: seq<FileData>, ids: set<string>, stored: map<string, Incoming>,
                      serials: map<string, Serials>, counters: Counters, dates: DateData, now: Uniques)
  {
    var done := todo[..ReadablePrefix(todo)];
    && Progress(entries, ids, stored, serials, counters, dates, render, done, before)
    && (if todo != [] && |done| == |todo| then
          && now.hoc == start.hoc + HocAdded(done) + sets.hoc
          && now.ibd == start.ibd + IbdAdded(done) + sets.ibd
          && now.total == start.total + sets.total
        else
          && now.hoc == start.hoc + HocAdded(done) && now.ibd == start.ibd + IbdAdded(done)
          && now.total == start.total)
  }


  /**
   * The end state of a run from the state after its loop: the progress over the processed prefix
   * with the unique counts `mid`, plus the sizes `sets` once every file went through.
   */
  lemma RanOfLoop(todo: seq<UploadedFile>, before: Before, start: Uniques, sets: Uniques, render: DateRender,
                  entries: seq<FileData>, ids: set<string>, stored: map<string, Incoming>,
                  serials: map<string, Serials>, counters: Counters, dates: DateData, mid: Uniques, now: Uniques)
    requires Progress(entries, ids, stored, serials, counters, dates, render, todo[..ReadablePrefix(todo)], before)
    requires mid.hoc == start.hoc + HocAdded(todo[..ReadablePrefix(todo)])
    requires mid.ibd == start.ibd + IbdAdded(todo[..ReadablePrefix(todo)])
    requires mid.total == start.total
    requires todo != [] && ReadablePrefix(todo) == |todo| ==>
      now.hoc == mid.hoc + sets.hoc && now.ibd == mid.ibd + sets.ibd && now.total == mid.total + sets.total
    requires !(todo != [] && ReadablePrefix(todo) == |todo|) ==>
      now.hoc == mid.hoc && now.ibd == mid.ibd && now.total == mid.total
    ensures Ran(todo, before, start, sets, render, entries, ids, stored, serials, counters, dates, now)
  {
  }

  /** Processing one more file, then marking it, carries the progress over to `done + [u]`. */
  lemma ProgressSnoc(entries: seq<FileData>, ids: set<string>, stored: map<string, Incoming>,
                     serials: map<string, Serials>, counters: Counters, dates: DateData,
                     render: DateRender, done: seq<UploadedFile>, before: Before, u: UploadedFile)
    requires Progress(entries, ids, stored, serials, counters, dates, render, done, before)
    ensures Progress(entries + [FileSummary(u.file)], ids + {FileId(u.file.name, |u.file.content|)},
                     stored[u.file.name := FileRecord(u.file.content)],
                     serials[u.file.name := FoldSerials(FileRows(u.file.content))],
                     FixCount(AddIncoming(counters, FileRecord(u.file.content)),
                              SumProcessed(entries + [FileSummary(u.file)])),
                     GroupInto(dates, FileRows(u.file.content), render),
                     render, done + [u], before)
  {
    RecordsSnoc(done, u, before);
    IdsOfSnoc(done, u);
    TotalsSnoc(done, u, before, render);
  }

  /**
   * What resetDashboard leaves in the processor and the table: no processed ids, no rows, a zero
   * summary with empty sets, and the table reset to page 1 of 1.
   */
  ghost predicate ProcessorCleared(dp: DataProcessor, table: TableData)
    reads dp, table
  {
    && dp.processedFiles == {} && dp.rawData == [] && dp.filteredData == []
    && dp.metrics == Zero() && dp.hocUnique == 0 && dp.ibdUnique == 0 && dp.totalUnique == 0
    && dp.hocSerials == {} && dp.ibdSerials == {} && dp.allSerials == {}
    && table.tableData == [] && table.dateData == map[] && !table.isInitialized
    && table.currentPage == 1 && table.totalPages == 1
  }

  /**
   * resetDashboard's calls on the processor and the table: the processed ids cleared, processData
   * of no rows (whatever the filters), and resetTable.
   */
  method ResetProcessor(dp: DataProcessor, table: TableData)
    requires table.Valid()
    modifies dp`metrics, dp`hocUnique, dp`ibdUnique, dp`totalUnique, dp`hocSerials, dp`ibdSerials
    modifies dp`allSerials, dp`processedFiles, dp`rawData, dp`filteredData, table
    ensures dp.Valid() && table.Valid() && table.rowsPerPage == old(table.rowsPerPage)
    ensures ProcessorCleared(dp, table)
  {
    dp.processedFiles := {};
    var shown := dp.ProcessData([], table);
    assert shown == [];
    assert HocSet([]) == {} && IbdSet([]) == {};
    table.ResetTable();
  }

  // ---------------------------------------------------------------------------
  // The handler

  class FileHandler {
    var files: seq<UploadedFile>
    var processedData: seq<FileData>
    var isProcessing: bool
    var hocSerials: set<string>
    var ibdSerials: set<string>
    var allSerials: set<string>
    /** The stored metrics object and serial sets of each processed file, by name. */
    var fileMetrics: map<string, Incoming>
    var fileSerialNumbers: map<string, Serials>
    /** uploadedFileNamesInSession. */
    var uploadedNames: set<string>

    /**
     * The combined set is the union of the HOC and IBD sets; every listed file's name has been
     * seen in the session, and no two listed files share a name.
     */
    ghost predicate Valid()
      reads this
    {
      && allSerials == hocSerials + ibdSerials
      && (forall u | u in files :: u.file.name in uploadedNames)
      && DistinctNames(files)
    }

    constructor()
      ensures Valid()
      ensures files == [] && processedData == [] && !isProcessing
      ensures hocSerials == {} && ibdSerials == {} && allSerials == {}
      ensures fileMetrics == map[] && fileSerialNumbers == map[] && uploadedNames == {}
    {
      files, processedData, isProcessing := [], [], false;
      hocSerials, ibdSerials, allSerials := {}, {}, {};
      fileMetrics, fileSerialNumbers := map[], map[];
      uploadedNames := {};
    }

    /**
     * selectFiles: refused while processing; otherwise the CSV files are walked in order, a name
     * the session has seen is refused, any other joins the session's names and is appended to the
     * list (flagged when the processor already holds its id).
     */
    method SelectFiles(fileList: seq<SelectedFile>, dp: DataProcessor)
      requires Valid()
      modifies this`files, this`uploadedNames
      ensures Valid()
      ensures isProcessing ==> files == old(files) && uploadedNames == old(uploadedNames)
      ensures !isProcessing ==>
        && files == old(files) + Admit(old(uploadedNames), CsvFiles(fileList), dp.processedFiles).entries
        && uploadedNames == old(uploadedNames) + NamesOf(CsvFiles(fileList))
    {
      if isProcessing {
        return;
      }
      var newFiles := CsvFiles(fileList);
      AdmitSeen(uploadedNames, newFiles, dp.processedFiles);
      if newFiles == [] {
        return;
      }
      AppendAdmitted(files, uploadedNames, newFiles, dp.processedFiles);
      var unprocessedFiles := AdmitNew(newFiles, dp);
      if |unprocessedFiles| > 0 {
        files := files + unprocessedFiles;
      }
    }

    /**
     * selectFiles' loop over the CSV files: each name not yet seen in the session joins the
     * session's names and its entry is collected, flagged when the processor holds its id.
     */
    method AdmitNew(newFiles: seq<SelectedFile>, dp: DataProcessor) returns (unprocessedFiles: seq<UploadedFile>)
      modifies this`uploadedNames
      ensures Admission(unprocessedFiles, uploadedNames) == Admit(old(uploadedNames), newFiles, dp.processedFiles)
    {
      unprocessedFiles := [];
      var i := 0;
      while i < |newFiles|
        invariant 0 <= i <= |newFiles|
        invariant Admission(unprocessedFiles, uploadedNames) == Admit(old(uploadedNames), newFiles[..i], dp.processedFiles)
      {
        var file := newFiles[i];
        assert newFiles[..i + 1][..i] == newFiles[..i];
        if file.name !in uploadedNames {
          uploadedNames := uploadedNames + {file.name};
          var already := dp.IsFileProcessed(file.name, |file.content|);
          unprocessedFiles := unprocessedFiles + [UploadedFile(file, false, already)];
        }
        i := i + 1;
      }
      assert newFiles[..i] == newFiles;
    }

    /**
     * removeFile: refused while processing. A file already flagged is spliced out of the list and
     * nothing else changes. Otherwise the file is only flagged, its serials are taken out of the
     * processor's sets, its first processedData entry is dropped, and the dashboard is recomputed
     * from the files still active.
     */
    method RemoveFile(index: nat, dp: DataProcessor, table: TableData)
      requires Valid() && dp.Valid() && table.Valid()
      requires !isProcessing ==> index < |files|
      modifies this`files, this`processedData, this`hocSerials, this`ibdSerials, this`allSerials
      modifies this`fileMetrics, this`fileSerialNumbers
      modifies dp`metrics, dp`hocUnique, dp`ibdUnique, dp`totalUnique, dp`hocSerials, dp`ibdSerials
      modifies dp`allSerials, dp`processedFiles, dp`rawData, dp`filteredData, table
      ensures Valid() && dp.Valid() && table.Valid() && table.rowsPerPage == old(table.rowsPerPage)
      ensures isProcessing ==> unchanged(this, dp, table)
      ensures !isProcessing && old(files[index].isRemoved) ==>
        && files == old(files[..index] + files[index + 1..])
        && unchanged(dp, table)
        && processedData == old(processedData) && fileMetrics == old(fileMetrics)
        && fileSerialNumbers == old(fileSerialNumbers)
        && hocSerials == old(hocSerials) && ibdSerials == old(ibdSerials) && allSerials == old(allSerials)
      ensures !isProcessing && !old(files[index].isRemoved) ==>
        && files == old(files[index := files[index].(isRemoved := true)])
        && AfterRemoval(dp, table, RemoveFirst(old(processedData), old(files[index].file.name)),
                        old(fileMetrics), old(fileSerialNumbers), old(table.dateData),
                        old(dp.processedFiles), old(dp.rawData), old(dp.filteredData))
    {
      if isProcessing {
        return;
      }
      if files[index].isRemoved {
        SpliceDistinct(files, index);
        files := files[..index] + files[index + 1..];
      } else {
        RemoveActive(index, dp, table);
      }
    }

    /**
     * removeFile on an entry not yet flagged: the entry is flagged, the file's serials and entry
     * are dropped, and the dashboard is recomputed from the files still active.
     */
    method RemoveActive(index: nat, dp: DataProcessor, table: TableData)
      requires Valid() && dp.Valid() && table.Valid()
      requires index < |files|
      modifies this`files, this`processedData, this`hocSerials, this`ibdSerials, this`allSerials
      modifies this`fileMetrics, this`fileSerialNumbers
      modifies dp`metrics, dp`hocUnique, dp`ibdUnique, dp`totalUnique, dp`hocSerials, dp`ibdSerials
      modifies dp`allSerials, dp`processedFiles, dp`rawData, dp`filteredData, table
      ensures Valid() && dp.Valid() && table.Valid() && table.rowsPerPage == old(table.rowsPerPage)
      ensures files == old(files[index := files[index].(isRemoved := true)])
      ensures AfterRemoval(dp, table, RemoveFirst(old(processedData), old(files[index].file.name)),
                           old(fileMetrics), old(fileSerialNumbers), old(table.dateData),
                           old(dp.processedFiles), old(dp.rawData), old(dp.filteredData))
    {
      var fileName := files[index].file.name;
      FlagRemoved(index);
      DropAndRecompute(fileName, dp, table);
    }

    /**
     * removeFile after the flag is set: the file's serials and entry are dropped and the
     * dashboard is recomputed from the files still active.
     */
    method DropAndRecompute(fileName: string, dp: DataProcessor, table: TableData)
      requires dp.Valid() && table.Valid()
      modifies this`processedData, this`hocSerials, this`ibdSerials, this`allSerials
      modifies this`fileMetrics, this`fileSerialNumbers
      modifies dp`metrics, dp`hocUnique, dp`ibdUnique, dp`totalUnique, dp`hocSerials, dp`ibdSerials
      modifies dp`allSerials, dp`processedFiles, dp`rawData, dp`filteredData, table
      ensures allSerials == hocSerials + ibdSerials && dp.Valid() && table.Valid()
      ensures table.rowsPerPage == old(table.rowsPerPage)
      ensures AfterRemoval(dp, table, RemoveFirst(old(processedData), fileName),
                           old(fileMetrics), old(fileSerialNumbers), old(table.dateData),
                           old(dp.processedFiles), old(dp.rawData), old(dp.filteredData))
    {
      DropFileData(fileName, dp);
      UpdateDashboardAfterRemoval(dp, table);
    }

    /** The flag removeFile sets on an active entry; the names stay those of the list. */
    method FlagRemoved(index: nat)
      requires Valid() && index < |files|
      modifies this`files
      ensures Valid()
      ensures files == old(files[index := files[index].(isRemoved := true)])
    {
      FlagDistinct(files, index, uploadedNames);
      files := files[index := files[index].(isRemoved := true)];
    }

    /**
     * removeFile's steps before the recompute: the file's stored serials (when it has any) are
     * taken out of the processor's sets, and its first processedData entry is dropped.
     */
    method DropFileData(fileName: string, dp: DataProcessor)
      requires dp.Valid()
      modifies this`processedData, dp`hocSerials, dp`ibdSerials, dp`allSerials
      modifies dp`hocUnique, dp`ibdUnique, dp`totalUnique
      ensures dp.Valid()
      ensures processedData == RemoveFirst(old(processedData), fileName)
      ensures dp.processedFiles == old(dp.processedFiles) && dp.rawData == old(dp.rawData) && dp.filteredData == old(dp.filteredData)
      ensures fileName in fileSerialNumbers ==>
        var r := fileSerialNumbers[fileName];
        && dp.hocSerials == old(dp.hocSerials) - r.hoc && dp.ibdSerials == old(dp.ibdSerials) - r.ibd
        && dp.allSerials == old(dp.allSerials) - (r.hoc - old(dp.ibdSerials)) - (r.ibd - dp.hocSerials)
        && dp.hocUnique == |dp.hocSerials| && dp.ibdUnique == |dp.ibdSerials| && dp.totalUnique == |dp.allSerials|
      ensures fileName !in fileSerialNumbers ==>
        && dp.hocSerials == old(dp.hocSerials) && dp.ibdSerials == old(dp.ibdSerials)
        && dp.allSerials == old(dp.allSerials) && dp.hocUnique == old(dp.hocUnique)
        && dp.ibdUnique == old(dp.ibdUnique) && dp.totalUnique == old(dp.totalUnique)
    {
      if fileName in fileSerialNumbers {
        dp.RemoveSerialNumbers(Some(fileSerialNumbers[fileName]));
      }
      DropEntry(fileName);
    }

    /** The splice of removeFile: the first processedData entry with the name, when there is one. */
    method DropEntry(fileName: string)
      modifies this`processedData
      ensures processedData == RemoveFirst(old(processedData), fileName)
    {
      var fileDataIndex := FindIndex(processedData, fileName);
      if fileDataIndex != -1 {
        processedData := processedData[..fileDataIndex] + processedData[fileDataIndex + 1..];
      }
    }

    /**
     * The state updateDashboardAfterRemoval leaves: with no active file, everything cleared;
     * otherwise the replayed state of the active files, with the entries, the stored maps, the
     * buckets, the processed ids and the processor's raw and filtered rows kept.
     */
    ghost predicate AfterRemoval(dp: DataProcessor, table: TableData, data: seq<FileData>,
                                 fm: map<string, Incoming>, fs: map<string, Serials>, dates: DateData,
                                 ids: set<string>, raw: seq<Row>, filtered: seq<Row>)
      reads this, dp, table
    {
      var active := ActiveNames(files);
      && (active == [] ==> Cleared(dp, table))
      && (active != [] ==> Kept(dp, table, data, fm, fs, dates, ids, raw, filtered) && Replayed(dp, table, active))
    }

    /** The entries, stored maps, buckets, processed ids and the processor's rows are the given ones. */
    ghost predicate Kept(dp: DataProcessor, table: TableData, data: seq<FileData>,
                         fm: map<string, Incoming>, fs: map<string, Serials>, dates: DateData,
                         ids: set<string>, raw: seq<Row>, filtered: seq<Row>)
      reads this, dp, table
    {
      && processedData == data && fileMetrics == fm && fileSerialNumbers == fs && table.dateData == dates
      && dp.processedFiles == ids && dp.rawData == raw && dp.filteredData == filtered
    }

    /**
     * The replayed state of `active`: the processor's counters are the replay of their stored
     * objects, the handler's sets the union of their stored serials, the unique counts the sizes
     * of those sets, the processor's own sets empty, and the table's rows rebuilt.
     */
    ghost predicate Replayed(dp: DataProcessor, table: TableData, active: seq<string>)
      reads this, dp, table
    {
      var s := ReplaySerials(active, fileSerialNumbers);
      && hocSerials == s.hoc && ibdSerials == s.ibd && allSerials == s.hoc + s.ibd
      && dp.metrics == ReplayCounters(active, fileMetrics)
      && dp.hocUnique == |s.hoc| && dp.ibdUnique == |s.ibd| && dp.totalUnique == |s.hoc + s.ibd|
      && dp.hocSerials == {} && dp.ibdSerials == {} && dp.allSerials == {}
      && table.isInitialized
    }

    /**
     * The state resetDashboard leaves: no serials, no stored objects, no entries, no processed ids,
     * the processor rebuilt from no rows, and the table reset.
     */
    ghost predicate Cleared(dp: DataProcessor, table: TableData)
      reads this, dp, table
    {
      && hocSerials == {} && ibdSerials == {} && allSerials == {}
      && fileMetrics == map[] && fileSerialNumbers == map[] && processedData == []
      && ProcessorCleared(dp, table)
    }

    /**
     * updateDashboardAfterRemoval: with no active file the dashboard is reset; otherwise the
     * processor's metrics are reset, the handler's sets cleared, each active file's stored object
     * replayed through updateMetrics and its stored serials added to the sets, the unique counts
     * overwritten with the set sizes, and the table's rows rebuilt from its unchanged buckets.
     */
    method UpdateDashboardAfterRemoval(dp: DataProcessor, table: TableData)
      requires table.Valid()
      modifies this`processedData, this`hocSerials, this`ibdSerials, this`allSerials
      modifies this`fileMetrics, this`fileSerialNumbers
      modifies dp`metrics, dp`hocUnique, dp`ibdUnique, dp`totalUnique, dp`hocSerials, dp`ibdSerials
      modifies dp`allSerials, dp`processedFiles, dp`rawData, dp`filteredData, table
      ensures allSerials == hocSerials + ibdSerials && dp.Valid() && table.Valid()
      ensures table.rowsPerPage == old(table.rowsPerPage)
      ensures ActiveNames(files) == [] ==> Cleared(dp, table)
      ensures ActiveNames(files) != [] ==>
        && Kept(dp, table, old(processedData), old(fileMetrics), old(fileSerialNumbers), old(table.dateData),
                old(dp.processedFiles), old(dp.rawData), old(dp.filteredData))
        && Replayed(dp, table, ActiveNames(files))
    {
      var activeFiles := ActiveNames(files);
      if activeFiles == [] {
        ResetDashboard(dp, table);
        return;
      }
      ReplayDashboard(activeFiles, dp, table);
    }

    /**
     * updateDashboardAfterRemoval with active files: the metrics reset and the sets cleared, the
     * replay, the unique counts overwritten with the set sizes, and the table's rows rebuilt from
     * its unchanged buckets.
     */
    method ReplayDashboard(activeFiles: seq<string>, dp: DataProcessor, table: TableData)
      requires table.Valid()
      modifies this`hocSerials, this`ibdSerials, this`allSerials
      modifies dp`metrics, dp`hocUnique, dp`ibdUnique, dp`totalUnique, dp`hocSerials, dp`ibdSerials
      modifies dp`allSerials, table
      ensures allSerials == hocSerials + ibdSerials && dp.Valid() && table.Valid()
      ensures table.rowsPerPage == old(table.rowsPerPage) && table.dateData == old(table.dateData)
      ensures Replayed(dp, table, activeFiles)
      ensures dp.processedFiles == old(dp.processedFiles) && dp.rawData == old(dp.rawData) && dp.filteredData == old(dp.filteredData)
    {
      ReplayCounts(activeFiles, dp, table);
      dp.UpdateSerialCounts(|hocSerials|, |ibdSerials|, |allSerials|);
      RefreshTable(table);
    }

    /**
     * The replay of updateDashboardAfterRemoval up to updateSerialCounts: the metrics reset and the
     * sets cleared, then each active file's stored object and serials added.
     */
    method ReplayCounts(activeFiles: seq<string>, dp: DataProcessor, table: TableData)
      requires table.Valid()
      modifies this`hocSerials, this`ibdSerials, this`allSerials
      modifies dp`metrics, dp`hocUnique, dp`ibdUnique, dp`totalUnique, dp`hocSerials, dp`ibdSerials
      modifies dp`allSerials, table
      ensures table.Valid() && table.rowsPerPage == old(table.rowsPerPage) && table.dateData == old(table.dateData)
      ensures var s := ReplaySerials(activeFiles, fileSerialNumbers);
        && hocSerials == s.hoc && ibdSerials == s.ibd && allSerials == s.hoc + s.ibd
        && dp.metrics == ReplayCounters(activeFiles, fileMetrics)
        && dp.hocSerials == {} && dp.ibdSerials == {} && dp.allSerials == {}
      ensures dp.processedFiles == old(dp.processedFiles) && dp.rawData == old(dp.rawData) && dp.filteredData == old(dp.filteredData)
    {
      StartReplay(dp);
      ReplayActive(activeFiles, dp, table);
    }

    /** The start of the replay: the processor's metrics reset and the handler's sets cleared. */
    method StartReplay(dp: DataProcessor)
      modifies this`hocSerials, this`ibdSerials, this`allSerials
      modifies dp`metrics, dp`hocUnique, dp`ibdUnique, dp`totalUnique, dp`hocSerials, dp`ibdSerials
      modifies dp`allSerials
      ensures dp.metrics == Zero() && hocSerials == {} && ibdSerials == {} && allSerials == {}
      ensures dp.hocUnique == 0 && dp.ibdUnique == 0 && dp.totalUnique == 0
      ensures dp.hocSerials == {} && dp.ibdSerials == {} && dp.allSerials == {}
    {
      dp.ResetMetrics();
      hocSerials, ibdSerials, allSerials := {}, {}, {};
    }

    /**
     * The replay of updateDashboardAfterRemoval: from reset metrics and cleared sets, each named
     * file's stored object and stored serials added in order.
     */
    method ReplayActive(activeFiles: seq<string>, dp: DataProcessor, table: TableData)
      requires table.Valid()
      requires dp.metrics == Zero() && hocSerials == {} && ibdSerials == {} && allSerials == {}
      modifies this`hocSerials, this`ibdSerials, this`allSerials
      modifies dp`metrics, dp`hocUnique, dp`ibdUnique, dp`totalUnique, table
      ensures table.Valid() && table.dateData == old(table.dateData) && table.rowsPerPage == old(table.rowsPerPage)
      ensures dp.metrics == ReplayCounters(activeFiles, fileMetrics)
      ensures Uniques(dp.hocUnique, dp.ibdUnique, dp.totalUnique)
        == ReplayUniques(activeFiles, fileMetrics, Uniques(old(dp.hocUnique), old(dp.ibdUnique), old(dp.totalUnique)))
      ensures dp.hocSerials == old(dp.hocSerials) && dp.ibdSerials == old(dp.ibdSerials) && dp.allSerials == old(dp.allSerials)
      ensures dp.processedFiles == old(dp.processedFiles) && dp.rawData == old(dp.rawData) && dp.filteredData == old(dp.filteredData)
      ensures hocSerials == ReplaySerials(activeFiles, fileSerialNumbers).hoc
      ensures ibdSerials == ReplaySerials(activeFiles, fileSerialNumbers).ibd
      ensures allSerials == hocSerials + ibdSerials
    {
      var i := 0;
      while i < |activeFiles|
        invariant 0 <= i <= |activeFiles|
        invariant dp.metrics == ReplayCounters(activeFiles[..i], fileMetrics)
        invariant hocSerials == ReplaySerials(activeFiles[..i], fileSerialNumbers).hoc
        invariant ibdSerials == ReplaySerials(activeFiles[..i], fileSerialNumbers).ibd
        invariant allSerials == hocSerials + ibdSerials
        invariant table.Valid() && table.dateData == old(table.dateData) && table.rowsPerPage == old(table.rowsPerPage)
        invariant Uniques(dp.hocUnique, dp.ibdUnique, dp.totalUnique)
          == ReplayUniques(activeFiles[..i], fileMetrics, Uniques(old(dp.hocUnique), old(dp.ibdUnique), old(dp.totalUnique)))
      {
        assert activeFiles[..i + 1] == activeFiles[..i] + [activeFiles[i]];
        ReplayFile(activeFiles[i], dp, table);
        i := i + 1;
      }
      assert activeFiles[..i] == activeFiles;
    }

    /**
     * One turn of updateDashboardAfterRemoval's loop: the file's stored object (when there is one)
     * goes through updateMetrics, and its stored serials (when there are any) join the handler's
     * HOC, IBD and combined sets.
     */
    method ReplayFile(fileName: string, dp: DataProcessor, table: TableData)
      requires table.Valid()
      modifies this`hocSerials, this`ibdSerials, this`allSerials
      modifies dp`metrics, dp`hocUnique, dp`ibdUnique, dp`totalUnique, table
      ensures table.Valid() && table.dateData == old(table.dateData) && table.rowsPerPage == old(table.rowsPerPage)
      ensures dp.metrics == if fileName in fileMetrics then AddIncoming(old(dp.metrics), fileMetrics[fileName]) else old(dp.metrics)
      ensures fileName in fileMetrics ==>
        && dp.hocUnique == AddOpt(old(dp.hocUnique), fileMetrics[fileName].hocUnique)
        && dp.ibdUnique == AddOpt(old(dp.ibdUnique), fileMetrics[fileName].ibdUnique)
        && dp.totalUnique == AddOpt(old(dp.totalUnique), fileMetrics[fileName].totalUnique)
      ensures fileName !in fileMetrics ==>
        dp.hocUnique == old(dp.hocUnique) && dp.ibdUnique == old(dp.ibdUnique) && dp.totalUnique == old(dp.totalUnique)
      ensures fileName in fileSerialNumbers ==>
        && hocSerials == old(hocSerials) + fileSerialNumbers[fileName].hoc
        && ibdSerials == old(ibdSerials) + fileSerialNumbers[fileName].ibd
        && allSerials == old(allSerials) + fileSerialNumbers[fileName].hoc + fileSerialNumbers[fileName].ibd
      ensures fileName !in fileSerialNumbers ==>
        hocSerials == old(hocSerials) && ibdSerials == old(ibdSerials) && allSerials == old(allSerials)
    {
      if fileName in fileMetrics {
        dp.UpdateMetrics(Some(fileMetrics[fileName]), table);
      }
      if fileName in fileSerialNumbers {
        var s := fileSerialNumbers[fileName];
        hocSerials, allSerials := AddToBoth(hocSerials, allSerials, s.hoc);
        ibdSerials, allSerials := AddToBoth(ibdSerials, allSerials, s.ibd);
      }
    }

    /**
     * resetDashboard: the handler's sets, stored maps and entries cleared, the processor's
     * processed ids cleared and its data rebuilt from no rows, and the table reset.
     */
    method ResetDashboard(dp: DataProcessor, table: TableData)
      requires table.Valid()
      modifies this`processedData, this`hocSerials, this`ibdSerials, this`allSerials
      modifies this`fileMetrics, this`fileSerialNumbers
      modifies dp`metrics, dp`hocUnique, dp`ibdUnique, dp`totalUnique, dp`hocSerials, dp`ibdSerials
      modifies dp`allSerials, dp`processedFiles, dp`rawData, dp`filteredData, table
      ensures allSerials == hocSerials + ibdSerials && dp.Valid() && table.Valid()
      ensures table.rowsPerPage == old(table.rowsPerPage)
      ensures Cleared(dp, table)
    {
      hocSerials, ibdSerials, allSerials := {}, {}, {};
      fileMetrics, fileSerialNumbers := map[], map[];
      processedData := [];
      ResetProcessor(dp, table);
    }

    /**
     * The state after the files `done` were processed one by one from `before`: their entries, ids,
     * stored objects and serials recorded in order, their rows folded into the processor's counters
     * (with the count fix after each), and their dates merged into the table.
     */
    ghost predicate Processed(dp: DataProcessor, table: TableData, done: seq<UploadedFile>, before: Before)
      reads this`processedData, this`fileMetrics, this`fileSerialNumbers, dp`processedFiles, dp`metrics, table`dateData
    {
      && Progress(processedData, dp.processedFiles, fileMetrics, fileSerialNumbers, dp.metrics,
                  table.dateData, table.render, done, before)
    }

    /**
     * processFileWithMemoryOptimization: the reading loop over the file's windows; on success the
     * file's entry is pushed, its metrics object and serial sets are stored under its name, the
     * object is added to the processor's summary, and the summary's transaction count is raised to
     * the rows processed in this run when it is below. When the header cannot be read the promise
     * is rejected before anything is stored.
     */
    method ProcessFileWithMemoryOptimization(file: SelectedFile, dp: DataProcessor, table: TableData)
      returns (ok: bool)
      requires table.Valid()
      modifies this`processedData, this`fileMetrics, this`fileSerialNumbers
      modifies dp`metrics, dp`hocUnique, dp`ibdUnique, dp`totalUnique, table
      ensures table.Valid() && table.rowsPerPage == old(table.rowsPerPage)
      ensures ok <==> Readable(file.content)
      ensures !ok ==>
        && processedData == old(processedData) && fileMetrics == old(fileMetrics)
        && fileSerialNumbers == old(fileSerialNumbers) && dp.metrics == old(dp.metrics)
        && dp.hocUnique == old(dp.hocUnique) && dp.ibdUnique == old(dp.ibdUnique)
        && dp.totalUnique == old(dp.totalUnique) && table.dateData == old(table.dateData)
      ensures ok ==>
        var rows := FileRows(file.content);
        && processedData == old(processedData) + [FileSummary(file)]
        && fileMetrics == old(fileMetrics)[file.name := FileRecord(file.content)]
        && fileSerialNumbers == old(fileSerialNumbers)[file.name := FoldSerials(rows)]
        && dp.metrics == FixCount(AddIncoming(old(dp.metrics), FileRecord(file.content)), SumProcessed(processedData))
        && dp.hocUnique == old(dp.hocUnique) + |FoldSerials(rows).hoc|
        && dp.ibdUnique == old(dp.ibdUnique) + |FoldSerials(rows).ibd|
        && dp.totalUnique == old(dp.totalUnique)
        && table.dateData == GroupInto(old(table.dateData), rows, table.render)
    {
      var record, rowCount, processedRowCount;
      ghost var lines;
      ok, record, rowCount, processedRowCount, lines := ReadFile(file.content, table);
      if !ok {
        return;
      }
      GroupIntoMerge(old(table.dateData), FileRows(file.content), table.render);
      StoreFile(FileData(file.name, rowCount, processedRowCount), record.counters, record.serials, dp, table);
    }

    /**
     * The success path of processFileWithMemoryOptimization once the file is read: the entry is
     * pushed, the metrics object and the serial sets are stored under the file's name, the object
     * is added to the summary, and the count is raised to the processed-row total when below it.
     */
    method StoreFile(entry: FileData, counters: Counters, serials: Serials, dp: DataProcessor, table: TableData)
      requires table.Valid()
      modifies this`processedData, this`fileMetrics, this`fileSerialNumbers
      modifies dp`metrics, dp`hocUnique, dp`ibdUnique, dp`totalUnique, table
      ensures table.Valid() && table.rowsPerPage == old(table.rowsPerPage) && table.dateData == old(table.dateData)
      ensures processedData == old(processedData) + [entry]
      ensures fileMetrics == old(fileMetrics)[entry.fileName := FileIncoming(counters, serials)]
      ensures fileSerialNumbers == old(fileSerialNumbers)[entry.fileName := serials]
      ensures dp.metrics == FixCount(AddIncoming(old(dp.metrics), FileIncoming(counters, serials)), SumProcessed(processedData))
      ensures dp.hocUnique == old(dp.hocUnique) + |serials.hoc| && dp.ibdUnique == old(dp.ibdUnique) + |serials.ibd|
      ensures dp.totalUnique == old(dp.totalUnique)
    {
      processedData := processedData + [entry];
      var fileSpecificMetrics := FileIncoming(counters, serials);
      fileMetrics := fileMetrics[entry.fileName := fileSpecificMetrics];
      fileSerialNumbers := fileSerialNumbers[entry.fileName := serials];
      dp.UpdateMetrics(Some(fileSpecificMetrics), table);
      var totalProcessedRows := SumProcessed(processedData);
      if dp.metrics.totalTransactions < totalProcessedRows {
        dp.FixTransactionCount(totalProcessedRows, None);
      }
    }

    /**
     * processFiles: refused with no listed file or while processing; otherwise the entries are
     * cleared and the listed files whose id the processor does not hold are processed in order,
     * each marked once processed. A file whose header cannot be read ends the run there. After a
     * full run the unique counts of the handler's sets are added to the summary.
     */
    method ProcessFiles(dp: DataProcessor, table: TableData)
      requires table.Valid()
      modifies this`isProcessing, this`processedData, this`fileMetrics, this`fileSerialNumbers
      modifies dp`metrics, dp`hocUnique, dp`ibdUnique, dp`totalUnique, dp`processedFiles, table
      ensures table.Valid() && table.rowsPerPage == old(table.rowsPerPage)
      ensures files == [] || old(isProcessing) ==> unchanged(this, dp, table)
      ensures files != [] && !old(isProcessing) ==>
        && !isProcessing
        && Ran(ToProcess(files, old(dp.processedFiles)),
               Before(old(dp.metrics), old(dp.processedFiles), old(fileMetrics), old(fileSerialNumbers),
                      old(table.dateData)),
               Uniques(old(dp.hocUnique), old(dp.ibdUnique), old(dp.totalUnique)),
               Uniques(|hocSerials|, |ibdSerials|, |allSerials|), table.render,
               processedData, dp.processedFiles, fileMetrics, fileSerialNumbers, dp.metrics, table.dateData,
               Uniques(dp.hocUnique, dp.ibdUnique, dp.totalUnique))
    {
      if |files| == 0 || isProcessing {
        return;
      }
      StartRun(dp, table);
    }

    /**
     * processFiles past its guard: processing is flagged, the entries are cleared and the listed
     * files whose id the processor does not hold are run; the flag is lowered at the end.
     */
    method StartRun(dp: DataProcessor, table: TableData)
      requires table.Valid()
      modifies this`isProcessing, this`processedData, this`fileMetrics, this`fileSerialNumbers
      modifies dp`metrics, dp`hocUnique, dp`ibdUnique, dp`totalUnique, dp`processedFiles, table
      ensures table.Valid() && table.rowsPerPage == old(table.rowsPerPage) && !isProcessing
      ensures Ran(ToProcess(files, old(dp.processedFiles)),
                  Before(old(dp.metrics), old(dp.processedFiles), old(fileMetrics), old(fileSerialNumbers),
                         old(table.dateData)),
                  Uniques(old(dp.hocUnique), old(dp.ibdUnique), old(dp.totalUnique)),
                  Uniques(|hocSerials|, |ibdSerials|, |allSerials|), table.render,
                  processedData, dp.processedFiles, fileMetrics, fileSerialNumbers, dp.metrics, table.dateData,
                  Uniques(dp.hocUnique, dp.ibdUnique, dp.totalUnique))
    {
      ghost var before := Before(dp.metrics, dp.processedFiles, fileMetrics, fileSerialNumbers, table.dateData);
      isProcessing := true;
      processedData := [];
      var filesToProcess := ToProcess(files, dp.processedFiles);
      ProgressStart(before, table.render);
      RunFiles(filesToProcess, dp, table, before);
      isProcessing := false;
    }

    /**
     * The body of processFiles' try block once the entries are cleared: nothing to do for no file;
     * otherwise the loop, and the end of a full run when every file went through.
     */
    method RunFiles(todo: seq<UploadedFile>, dp: DataProcessor, table: TableData, ghost before: Before)
      requires table.Valid() && Processed(dp, table, [], before)
      modifies this`processedData, this`fileMetrics, this`fileSerialNumbers
      modifies dp`metrics, dp`hocUnique, dp`ibdUnique, dp`totalUnique, dp`processedFiles, table
      ensures table.Valid() && table.rowsPerPage == old(table.rowsPerPage)
      ensures Ran(todo, before, Uniques(old(dp.hocUnique), old(dp.ibdUnique), old(dp.totalUnique)),
                  Uniques(|hocSerials|, |ibdSerials|, |allSerials|), table.render,
                  processedData, dp.processedFiles, fileMetrics, fileSerialNumbers, dp.metrics, table.dateData,
                  Uniques(dp.hocUnique, dp.ibdUnique, dp.totalUnique))
    {
      ghost var start := Uniques(dp.hocUnique, dp.ibdUnique, dp.totalUnique);
      if |todo| == 0 {
        assert todo[..ReadablePrefix(todo)] == [];
        RanOfLoop(todo, before, start, Uniques(|hocSerials|, |ibdSerials|, |allSerials|), table.render,
                  processedData, dp.processedFiles, fileMetrics, fileSerialNumbers, dp.metrics, table.dateData,
                  start, start);
        return;
      }
      TryRun(todo, dp, table, before);
    }

    /** processFiles' try block over at least one file: the loop, then the end of a full run. */
    method TryRun(todo: seq<UploadedFile>, dp: DataProcessor, table: TableData, ghost before: Before)
      requires todo != [] && table.Valid() && Processed(dp, table, [], before)
      modifies this`processedData, this`fileMetrics, this`fileSerialNumbers
      modifies dp`metrics, dp`hocUnique, dp`ibdUnique, dp`totalUnique, dp`processedFiles, table
      ensures table.Valid() && table.rowsPerPage == old(table.rowsPerPage)
      ensures Ran(todo, before, Uniques(old(dp.hocUnique), old(dp.ibdUnique), old(dp.totalUnique)),
                  Uniques(|hocSerials|, |ibdSerials|, |allSerials|), table.render,
                  processedData, dp.processedFiles, fileMetrics, fileSerialNumbers, dp.metrics, table.dateData,
                  Uniques(dp.hocUnique, dp.ibdUnique, dp.totalUnique))
    {
      ghost var start := Uniques(dp.hocUnique, dp.ibdUnique, dp.totalUnique);
      var k := ProcessAll(todo, dp, table, before);
      ghost var mid := Uniques(dp.hocUnique, dp.ibdUnique, dp.totalUnique);
      EndRun(todo, k, dp, table, before);
      RanOfLoop(todo, before, start, Uniques(|hocSerials|, |ibdSerials|, |allSerials|), table.render,
                processedData, dp.processedFiles, fileMetrics, fileSerialNumbers, dp.metrics, table.dateData,
                mid, Uniques(dp.hocUnique, dp.ibdUnique, dp.totalUnique));
    }

    /** After the loop: the end of a full run when all `k` files went through, otherwise nothing. */
    method EndRun(todo: seq<UploadedFile>, k: nat, dp: DataProcessor, table: TableData, ghost before: Before)
      requires k <= |todo| && table.Valid() && Processed(dp, table, todo[..k], before)
      modifies dp`metrics, dp`hocUnique, dp`ibdUnique, dp`totalUnique, table
      ensures table.Valid() && table.rowsPerPage == old(table.rowsPerPage) && Processed(dp, table, todo[..k], before)
      ensures todo != [] && k == |todo| ==>
        && dp.hocUnique == old(dp.hocUnique) + |hocSerials| && dp.ibdUnique == old(dp.ibdUnique) + |ibdSerials|
        && dp.totalUnique == old(dp.totalUnique) + |allSerials|
      ensures !(todo != [] && k == |todo|) ==>
        dp.hocUnique == old(dp.hocUnique) && dp.ibdUnique == old(dp.ibdUnique) && dp.totalUnique == old(dp.totalUnique)
    {
      if todo != [] && k == |todo| {
        assert todo[..k] == todo;
        FinishRun(dp, table, todo, before);
      }
    }

    /**
     * processFiles' loop: each file processed and then marked, until the first one whose header
     * cannot be read; `k` files went through.
     */
    method ProcessAll(todo: seq<UploadedFile>, dp: DataProcessor, table: TableData, ghost before: Before)
      returns (k: nat)
      requires table.Valid() && Processed(dp, table, [], before)
      modifies this`processedData, this`fileMetrics, this`fileSerialNumbers
      modifies dp`metrics, dp`hocUnique, dp`ibdUnique, dp`totalUnique, dp`processedFiles, table
      ensures table.Valid() && table.rowsPerPage == old(table.rowsPerPage)
      ensures k == ReadablePrefix(todo)
      ensures Processed(dp, table, todo[..k], before)
      ensures dp.hocUnique == old(dp.hocUnique) + HocAdded(todo[..k])
      ensures dp.ibdUnique == old(dp.ibdUnique) + IbdAdded(todo[..k])
      ensures dp.totalUnique == old(dp.totalUnique)
    {
      k := 0;
      assert todo[..0] == [];
      while k < |todo|
        invariant k <= ReadablePrefix(todo)
        invariant table.Valid() && table.rowsPerPage == old(table.rowsPerPage)
        invariant Processed(dp, table, todo[..k], before)
        invariant dp.hocUnique == old(dp.hocUnique) + HocAdded(todo[..k])
        invariant dp.ibdUnique == old(dp.ibdUnique) + IbdAdded(todo[..k])
        invariant dp.totalUnique == old(dp.totalUnique)
      {
        PrefixStep(todo, k);
        ReadableAt(todo, k);
        AddedSnoc(todo[..k], todo[k]);
        var ok := ProcessNext(todo[k], dp, table, todo[..k], before);
        if !ok {
          return;
        }
        k := k + 1;
      }
    }

    /** One turn of processFiles' loop: the file processed and, when that succeeds, marked. */
    method ProcessNext(u: UploadedFile, dp: DataProcessor, table: TableData,
                       ghost done: seq<UploadedFile>, ghost before: Before) returns (ok: bool)
      requires Processed(dp, table, done, before) && table.Valid()
      modifies this`processedData, this`fileMetrics, this`fileSerialNumbers
      modifies dp`metrics, dp`hocUnique, dp`ibdUnique, dp`totalUnique, dp`processedFiles, table
      ensures table.Valid() && table.rowsPerPage == old(table.rowsPerPage)
      ensures ok <==> Readable(u.file.content)
      ensures ok ==> Processed(dp, table, done + [u], before)
      ensures !ok ==> Processed(dp, table, done, before)
      ensures var serials := FoldSerials(FileRows(u.file.content));
        dp.hocUnique == old(dp.hocUnique) + (if ok then |serials.hoc| else 0)
      ensures var serials := FoldSerials(FileRows(u.file.content));
        dp.ibdUnique == old(dp.ibdUnique) + (if ok then |serials.ibd| else 0)
      ensures dp.totalUnique == old(dp.totalUnique)
    {
      ghost var entries, stored, serials, counters, dates :=
        processedData, fileMetrics, fileSerialNumbers, dp.metrics, table.dateData;
      ok := ProcessFileWithMemoryOptimization(u.file, dp, table);
      MarkNext(ok, u, dp, table, done, before, entries, stored, serials, counters, dates);
    }

    /**
     * What follows processFileWithMemoryOptimization in processFiles' loop, given the values the
     * step started from (`entries` … `dates`) one file behind: a file read and stored is marked,
     * which completes the step to `done + [u]`; after a failure the state is the one before.
     */
    method MarkNext(ok: bool, u: UploadedFile, dp: DataProcessor, table: TableData,
                    ghost done: seq<UploadedFile>, ghost before: Before,
                    ghost entries: seq<FileData>, ghost stored: map<string, Incoming>,
                    ghost serials: map<string, Serials>, ghost counters: Counters, ghost dates: DateData)
      requires Progress(entries, dp.processedFiles, stored, serials, counters, dates, table.render, done, before)
      requires !ok ==>
        && processedData == entries && fileMetrics == stored && fileSerialNumbers == serials
        && dp.metrics == counters && table.dateData == dates
      requires ok ==>
        && processedData == entries + [FileSummary(u.file)]
        && fileMetrics == stored[u.file.name := FileRecord(u.file.content)]
        && fileSerialNumbers == serials[u.file.name := FoldSerials(FileRows(u.file.content))]
        && dp.metrics == FixCount(AddIncoming(counters, FileRecord(u.file.content)), SumProcessed(processedData))
        && table.dateData == GroupInto(dates, FileRows(u.file.content), table.render)
      modifies dp`processedFiles
      ensures ok ==> Processed(dp, table, done + [u], before)
      ensures !ok ==> Processed(dp, table, done, before)
    {
      if ok {
        ProgressSnoc(entries, dp.processedFiles, stored, serials, counters, dates, table.render, done, before, u);
        var _ := dp.MarkFileAsProcessed(u.file.name, |u.file.content|);
      }
    }

    /**
     * The end of a full run of processFiles. updateDashboard's count fix and the final
     * fixTransactionCount both wait for a summary count below the processed-row total, which the
     * run never leaves (MetricsAfterIsFold); what remains is updateMetrics with the sizes of the
     * handler's sets as the three unique counts, which adds them.
     */
    method FinishRun(dp: DataProcessor, table: TableData, done: seq<UploadedFile>, ghost before: Before)
      requires table.Valid() && done != [] && Processed(dp, table, done, before)
      modifies dp`metrics, dp`hocUnique, dp`ibdUnique, dp`totalUnique, table
      ensures table.Valid() && table.rowsPerPage == old(table.rowsPerPage) && Processed(dp, table, done, before)
      ensures dp.hocUnique == old(dp.hocUnique) + |hocSerials| && dp.ibdUnique == old(dp.ibdUnique) + |ibdSerials|
      ensures dp.totalUnique == old(dp.totalUnique) + |allSerials|
    {
      var totalProcessedRows := SumProcessed(processedData);
      MetricsAfterIsFold(before.metrics, done);
      SumSummaries(done);
      if dp.metrics.totalTransactions < totalProcessedRows {
        assert false;
      }
      AddZero(dp.metrics);
      dp.UpdateMetrics(Some(Incoming(Zero(), Some(|hocSerials|), Some(|ibdSerials|), Some(|allSerials|), false, false)), table);
    }
  }
}
