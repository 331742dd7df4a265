/**
 * Line-level text handling of the CSV dashboard: JavaScript's String.prototype.trim,
 * String.prototype.split('\n') and the dashboard's own toggle-quote field splitter
 * (parseCSVLine in fileHandler.js; csvWorker.js holds a copy).
 */
module CsvLine {

  /** The characters String.prototype.trim removes: WhiteSpace and LineTerminator of ECMA-262. */
  predicate IsSpace(c: char) {
    || c == ' ' || c == '\t' || c == '\n' || c == '\r'
    || c == '\U{000B}' || c == '\U{000C}' || c == '\U{00A0}' || c == '\U{1680}'
    || ('\U{2000}' <= c <= '\U{200A}')
    || c == '\U{2028}' || c == '\U{2029}' || c == '\U{202F}' || c == '\U{205F}'
    || c == '\U{3000}' || c == '\U{FEFF}'
  }

  predicate AllSpace(s: string) {
    forall i :: 0 <= i < |s| ==> IsSpace(s[i])
  }

  /** A string that trim leaves alone. */
  predicate IsTrimmed(s: string) {
    s == [] || (!IsSpace(s[0]) && !IsSpace(s[|s| - 1]))
  }

  function TrimStart(s: string): (r: string)
    ensures |r| <= |s|
    ensures r == [] || !IsSpace(r[0])
  {
    if s != [] && IsSpace(s[0]) then TrimStart(s[1..]) else s
  }

  /** TrimStart drops a run of white space from the front and keeps the rest. */
  lemma {:induction false} TrimStartSlice(s: string)
    ensures TrimStart(s) == s[|s| - |TrimStart(s)|..]
    ensures AllSpace(s[..|s| - |TrimStart(s)|])
  {
    if s != [] && IsSpace(s[0]) {
      TrimStartSlice(s[1..]);
      var k := |s| - 1 - |TrimStart(s)|;
      assert s[1..][k..] == s[k + 1..];
      assert s[..k + 1] == [s[0]] + s[1..][..k];
    }
  }

  function TrimEnd(s: string): (r: string)
    ensures |r| <= |s|
    ensures r == [] || !IsSpace(r[|r| - 1])
  {
    if s != [] && IsSpace(s[|s| - 1]) then TrimEnd(s[..|s| - 1]) else s
  }

  /** TrimEnd drops a run of white space from the back and keeps the rest. */
  lemma {:induction false} TrimEndSlice(s: string)
    ensures TrimEnd(s) == s[..|TrimEnd(s)|]
    ensures AllSpace(s[|TrimEnd(s)|..])
  {
    if s != [] && IsSpace(s[|s| - 1]) {
      var p := s[..|s| - 1];
      TrimEndSlice(p);
      var n := |TrimEnd(s)|;
      assert p[..n] == s[..n];
      assert s[n..] == p[n..] + [s[|s| - 1]];
    }
  }

  /** String.prototype.trim: the longest infix without leading or trailing white space. */
  function Trim(s: string): (r: string)
    ensures |r| <= |s|
    ensures IsTrimmed(r)
  {
    var t := TrimStart(s);
    var r := TrimEnd(t);
    TrimEndSlice(t);
    assert r != [] ==> r[0] == t[0];
    r
  }

  /** What trim removed is white space on both sides of what it kept. */
  lemma TrimInfix(s: string)
    ensures exists i ::
      (0 <= i <= |s| - |Trim(s)| && Trim(s) == s[i..i + |Trim(s)|] && AllSpace(s[..i]) && AllSpace(s[i + |Trim(s)|..]))
  {
    var t := TrimStart(s);
    var r := TrimEnd(t);
    TrimStartSlice(s);
    TrimEndSlice(t);
    var i := |s| - |t|;
    assert r == s[i..i + |r|];
    assert s[i + |r|..] == t[|r|..];
  }

  lemma TrimKeepsCharsOf(s: string, c: char)
    requires c !in s
    ensures c !in Trim(s)
  {
    TrimInfix(s);
    var r := Trim(s);
    var i :| 0 <= i <= |s| - |r| && r == s[i..i + |r|] && AllSpace(s[..i]) && AllSpace(s[i + |r|..]);
  }

  // ---------------------------------------------------------------------------
  // The field splitter

  /**
   * The raw (untrimmed) fields of `current + s` when the scan is in quote mode `inQuotes`:
   * a '"' toggles the mode and is dropped, a ',' outside quotes ends a field, every other
   * character is kept. This is a toggle scheme: a doubled quote is not an escape.
   */
  function Split(s: string, inQuotes: bool, current: string): (r: seq<string>)
    ensures r != []
    decreases |s|
  {
    if s == [] then [current]
    else if s[0] == '"' then Split(s[1..], !inQuotes, current)
    else if s[0] == ',' && !inQuotes then [current] + Split(s[1..], inQuotes, "")
    else Split(s[1..], inQuotes, current + [s[0]])
  }

  function RawFields(line: string): seq<string> {
    Split(line, false, "")
  }

  function MapTrim(fs: seq<string>): (r: seq<string>)
    ensures |r| == |fs|
    ensures forall i :: 0 <= i < |fs| ==> r[i] == Trim(fs[i])
  {
    if fs == [] then [] else [Trim(fs[0])] + MapTrim(fs[1..])
  }

  /** What parseCSVLine returns for `line`. */
  function Fields(line: string): seq<string> {
    MapTrim(RawFields(line))
  }

  /** The number of commas of `s` that the scan, starting in mode `inQuotes`, meets outside quotes. */
  function CommasOutside(s: string, inQuotes: bool): nat
    decreases |s|
  {
    if s == [] then 0
    else if s[0] == '"' then CommasOutside(s[1..], !inQuotes)
    else if s[0] == ',' && !inQuotes then 1 + CommasOutside(s[1..], inQuotes)
    else CommasOutside(s[1..], inQuotes)
  }

  /** `s` with every double quote deleted. */
  function Unquote(s: string): (r: string)
    ensures '"' !in r
  {
    if s == [] then [] else (if s[0] == '"' then [] else [s[0]]) + Unquote(s[1..])
  }

  /** Joins fields with commas, as Array.prototype.join(','). */
  function JoinComma(fs: seq<string>): string
    requires fs != []
  {
    if |fs| == 1 then fs[0] else fs[0] + "," + JoinComma(fs[1..])
  }

  lemma {:induction false} SplitCount(s: string, q: bool, cur: string)
    ensures |Split(s, q, cur)| == 1 + CommasOutside(s, q)
    decreases |s|
  {
    if s == [] {
    } else if s[0] == '"' {
      SplitCount(s[1..], !q, cur);
    } else if s[0] == ',' && !q {
      SplitCount(s[1..], q, "");
    } else {
      SplitCount(s[1..], q, cur + [s[0]]);
    }
  }

  /** Re-joining the raw fields with commas gives back the line without its quotes. */
  lemma JoinCommaCons(x: string, rest: seq<string>)
    requires rest != []
    ensures JoinComma([x] + rest) == x + "," + JoinComma(rest)
  {
    assert ([x] + rest)[1..] == rest;
  }

  /** The comma step of SplitJoin: the field closed at a comma is followed by the comma. */
  lemma SplitJoinComma(s: string, q: bool, cur: string)
    requires s != [] && s[0] == ',' && !q
    requires JoinComma(Split(s[1..], q, "")) == Unquote(s[1..])
    ensures JoinComma(Split(s, q, cur)) == cur + Unquote(s)
  {
    var rest := Split(s[1..], q, "");
    var u := Unquote(s[1..]);
    assert Split(s, q, cur) == [cur] + rest;
    JoinCommaCons(cur, rest);
    assert Unquote(s) == [','] + u;
    assert cur + "," + u == cur + ([','] + u);
  }

  /** Re-joining the raw fields with commas gives back the line without its quotes. */
  lemma {:induction false} SplitJoin(s: string, q: bool, cur: string)
    ensures JoinComma(Split(s, q, cur)) == cur + Unquote(s)
    decreases |s|
  {
    if s == [] {
      assert cur + Unquote(s) == cur;
    } else if s[0] == '"' {
      assert Split(s, q, cur) == Split(s[1..], !q, cur);
      assert Unquote(s) == Unquote(s[1..]);
      SplitJoin(s[1..], !q, cur);
    } else if s[0] == ',' && !q {
      SplitJoin(s[1..], q, "");
      assert "" + Unquote(s[1..]) == Unquote(s[1..]);
      SplitJoinComma(s, q, cur);
    } else {
      SplitJoin(s[1..], q, cur + [s[0]]);
      assert (cur + [s[0]]) + Unquote(s[1..]) == cur + ([s[0]] + Unquote(s[1..]));
    }
  }

  lemma {:induction false} SplitNoQuote(s: string, q: bool, cur: string)
    requires '"' !in cur
    ensures forall f :: f in Split(s, q, cur) ==> '"' !in f
    decreases |s|
  {
    if s == [] {
    } else if s[0] == '"' {
      SplitNoQuote(s[1..], !q, cur);
    } else if s[0] == ',' && !q {
      SplitNoQuote(s[1..], q, "");
    } else {
      SplitNoQuote(s[1..], q, cur + [s[0]]);
    }
  }

  /**
   * parseCSVLine returns one field more than there are commas outside quotes, no field holds a
   * double quote, every field is trimmed, and the untrimmed fields re-joined with commas are the
   * line with its quotes deleted.
   */
  lemma FieldsFacts(line: string)
    ensures |Fields(line)| == 1 + CommasOutside(line, false)
    ensures forall i :: 0 <= i < |Fields(line)| ==> '"' !in Fields(line)[i] && IsTrimmed(Fields(line)[i])
    ensures JoinComma(RawFields(line)) == Unquote(line)
  {
    SplitCount(line, false, "");
    SplitJoin(line, false, "");
    SplitNoQuote(line, false, "");
    var raw := RawFields(line);
    forall i | 0 <= i < |Fields(line)|
      ensures '"' !in Fields(line)[i]
    {
      assert raw[i] in raw;
      TrimKeepsCharsOf(raw[i], '"');
    }
  }

  /**
   * parseCSVLine (fileHandler.js): one pass over the characters with the current field and the
   * quote mode as the loop state.
   */
  method ParseCsvLine(line: string) returns (result: seq<string>)
    ensures result == Fields(line)
  {
    result := [];
    var current := "";
    var inQuotes := false;
    for i := 0 to |line|
      invariant result + MapTrim(Split(line[i..], inQuotes, current)) == Fields(line)
    {
      var ch := line[i];
      assert line[i..][1..] == line[i + 1..];
      if ch == '"' {
        inQuotes := !inQuotes;
      } else if ch == ',' && !inQuotes {
        assert MapTrim([current] + Split(line[i + 1..], inQuotes, "")) == [Trim(current)] + MapTrim(Split(line[i + 1..], inQuotes, ""));
        result := result + [Trim(current)];
        current := "";
      } else {
        current := current + [ch];
      }
    }
    assert line[|line|..] == [];
    result := result + [Trim(current)];
  }

  // ---------------------------------------------------------------------------
  // String.prototype.split('\n')

  /** The pieces of `current + s` between line feeds. */
  function Lines(s: string, current: string): (r: seq<string>)
    ensures r != []
    decreases |s|
  {
    if s == [] then [current]
    else if s[0] == '\n' then [current] + Lines(s[1..], "")
    else Lines(s[1..], current + [s[0]])
  }

  /** `s.split('\n')`: the pieces between line feeds; never empty. */
  function SplitLines(s: string): (r: seq<string>)
    ensures r != []
  {
    Lines(s, "")
  }

  /** All pieces of a split but the last, and its last piece. */
  function Init(ls: seq<string>): seq<string>
    requires ls != []
  {
    ls[..|ls| - 1]
  }

  function Last(ls: seq<string>): string
    requires ls != []
  {
    ls[|ls| - 1]
  }

  lemma {:induction false} LinesNoNewline(s: string, current: string)
    requires '\n' !in current
    ensures forall i :: 0 <= i < |Lines(s, current)| ==> '\n' !in Lines(s, current)[i]
    decreases |s|
  {
    if s == [] {
    } else if s[0] == '\n' {
      LinesNoNewline(s[1..], "");
    } else {
      LinesNoNewline(s[1..], current + [s[0]]);
    }
  }

  /** No piece of a split holds a line feed. */
  lemma SplitLinesNoNewline(s: string)
    ensures forall i :: 0 <= i < |SplitLines(s)| ==> '\n' !in SplitLines(s)[i]
  {
    LinesNoNewline(s, "");
  }

  /** Array.prototype.join('\n'). */
  function JoinLines(ls: seq<string>): string
    requires ls != []
  {
    if |ls| == 1 then ls[0] else ls[0] + "\n" + JoinLines(ls[1..])
  }

  lemma JoinLinesCons(x: string, rest: seq<string>)
    requires rest != []
    ensures JoinLines([x] + rest) == x + "\n" + JoinLines(rest)
  {
    assert ([x] + rest)[1..] == rest;
  }

  lemma {:induction false} LinesJoin(s: string, current: string)
    ensures JoinLines(Lines(s, current)) == current + s
    decreases |s|
  {
    if s == [] {
      assert current + s == current;
    } else if s[0] == '\n' {
      LinesJoin(s[1..], "");
      assert "" + s[1..] == s[1..];
      JoinLinesCons(current, Lines(s[1..], ""));
      assert current + "\n" + s[1..] == current + s;
    } else {
      LinesJoin(s[1..], current + [s[0]]);
      assert (current + [s[0]]) + s[1..] == current + s;
    }
  }

  /** Splitting on line feeds and re-joining gives the text back. */
  lemma SplitLinesJoin(s: string)
    ensures JoinLines(SplitLines(s)) == s
  {
    LinesJoin(s, "");
    assert "" + s == s;
  }

  lemma {:induction false} LinesAppend(a: string, b: string, current: string)
    ensures Lines(a + b, current) == Init(Lines(a, current)) + Lines(b, Last(Lines(a, current)))
    decreases |a|
  {
    if a == [] {
      assert a + b == b;
    } else {
      assert (a + b)[0] == a[0] && (a + b)[1..] == a[1..] + b;
      if a[0] == '\n' {
        LinesAppend(a[1..], b, "");
        var rest := Lines(a[1..], "");
        assert Init([current] + rest) == [current] + Init(rest);
      } else {
        LinesAppend(a[1..], b, current + [a[0]]);
      }
    }
  }

  /** A prefix without line feeds can be moved from the text into the current piece. */
  lemma {:induction false} LinesShift(c: string, s: string, current: string)
    requires '\n' !in c
    ensures Lines(c + s, current) == Lines(s, current + c)
    decreases |c|
  {
    if c == [] {
      assert c + s == s && current + c == current;
    } else {
      assert (c + s)[0] == c[0] && (c + s)[1..] == c[1..] + s;
      assert c[1..] + [] == c[1..];
      assert '\n' !in c[1..];
      LinesShift(c[1..], s, current + [c[0]]);
      assert (current + [c[0]]) + c[1..] == current + c;
    }
  }

  /**
   * Splitting `a + b` is splitting `a`, keeping all pieces but its last, and splitting the last
   * piece of `a` glued to `b`: the law behind the reader's carried-over partial line.
   */
  lemma SplitLinesAppend(a: string, b: string)
    ensures SplitLines(a + b) == Init(SplitLines(a)) + SplitLines(Last(SplitLines(a)) + b)
  {
    LinesAppend(a, b, "");
    var last := Last(SplitLines(a));
    SplitLinesNoNewline(a);
    LinesShift(last, b, "");
    assert "" + last == last;
  }
}
