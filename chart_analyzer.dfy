/**
  The text side of `extract_table_from_chart` and the prompt builder of
  `ask_local_llm` in backend/chart_analyzer.py.

  The DePlot decoder's output is taken as an input: the parser turns it into
  a title, a header row and data rows, padded to a rectangle.  `Extract` and
  its helpers are the specification; `ExtractTable` is the step-by-step
  procedure of the source, proved equal to it.
*/
module ChartAnalyzer {

  import opened Wrappers
  import opened PyStr

  type Row = seq<string>

  /** The token DePlot emits where the table has a line break. */
  const LineBreak: string := "<0x0A>"

  const DefaultTitle: string := "Chart"

  /** The title, header row and data rows the parser carries from line to line. */
  datatype Parse = Parse(title: string, headers: Row, data: seq<Row>)

  /** What the extraction hands back: the parsed table and the decoder's raw text. */
  datatype ExtractedChart = ExtractedChart(title: string, headers: Row, data: seq<Row>, rawText: string)

  datatype Table = Table(headers: Row, data: seq<Row>)

  // ---------------------------------------------------------------------
  // First pass: pipe-delimited lines
  // ---------------------------------------------------------------------

  /** A cell as the first pass keeps it: non-empty, without whitespace at either end. */
  predicate CleanCell(c: string) {
    c != [] && !IsSpace(c[0]) && !IsSpace(c[|c| - 1])
  }

  /** The stripped, non-blank segments of a line split on `|`. */
  function PipeCells(line: string): (cells: Row)
    ensures forall k :: 0 <= k < |cells| ==> CleanCell(cells[k])
  {
    StrippedNonBlank(Split(line, "|"))
  }

  /** The stripped, non-blank segments of a split line, in order (the list comprehension at :76). */
  function StrippedNonBlank(parts: seq<string>): (cells: Row)
    ensures |cells| <= |parts|
    ensures forall k :: 0 <= k < |cells| ==> CleanCell(cells[k])
  {
    if parts == [] then []
    else
      var rest := StrippedNonBlank(parts[1..]);
      var c := Strip(parts[0]);
      if c == [] then rest
      else
        CleanCons(c, rest);
        [c] + rest
  }

  /** Prepending a clean cell to clean cells keeps every cell clean. */
  lemma {:induction false} CleanCons(c: string, rest: Row)
    requires CleanCell(c)
    requires forall k :: 0 <= k < |rest| ==> CleanCell(rest[k])
    ensures forall k :: 0 <= k < |[c] + rest| ==> CleanCell(([c] + rest)[k])
  {
    assert forall k :: 1 <= k < |[c] + rest| ==> ([c] + rest)[k] == rest[k - 1];
  }

  /** Segments that are already clean are all kept, unchanged. */
  lemma {:induction false} StrippedClean(cells: Row)
    requires forall k :: 0 <= k < |cells| ==> CleanCell(cells[k])
    ensures StrippedNonBlank(cells) == cells
    decreases |cells|
  {
    if cells != [] {
      StripUnchanged(cells[0]);
      StrippedClean(cells[1..]);
      assert cells == [cells[0]] + cells[1..];
    }
  }

  /** Cells read back from a line are the cells the line was written from:
      clean cells without a bar, joined by bars, split into themselves. */
  lemma {:induction false} PipeCellsJoin(cells: Row)
    requires cells != []
    requires forall k :: 0 <= k < |cells| ==> CleanCell(cells[k]) && '|' !in cells[k]
    ensures PipeCells(Join(cells, "|")) == cells
  {
    JoinSplitChar(cells, '|');
    StrippedClean(cells);
  }

  /** Which segments are kept, and in what order: each segment on its own
      gives its stripped text when that is not blank and nothing otherwise,
      and the cells of consecutive runs of segments are concatenated. */
  lemma {:induction false} StrippedNonBlankOne(p: string)
    ensures StrippedNonBlank([p]) == if Strip(p) == [] then [] else [Strip(p)]
  {
    assert [p][1..] == [];
  }

  /** Segment selection distributes over concatenation. */
  lemma {:induction false} StrippedNonBlankAppend(a: seq<string>, b: seq<string>)
    ensures StrippedNonBlank(a + b) == StrippedNonBlank(a) + StrippedNonBlank(b)
    decreases |a|
  {
    if a == [] {
      assert a + b == b;
    } else {
      StrippedNonBlankHeadAppend(a, b);
      StrippedNonBlankHead(a);
      StrippedNonBlankAppend(a[1..], b);
      AppendAssoc(StrippedNonBlank([a[0]]), StrippedNonBlank(a[1..]), StrippedNonBlank(b));
    }
  }

  /** Helper: the head segment of a + b is decided on its own. */
  lemma {:induction false} StrippedNonBlankHeadAppend(a: seq<string>, b: seq<string>)
    requires a != []
    ensures StrippedNonBlank(a + b) == StrippedNonBlank([a[0]]) + StrippedNonBlank(a[1..] + b)
  {
    var s := a + b;
    assert s[0] == a[0];
    assert s[1..] == a[1..] + b;
    StrippedNonBlankHead(s);
  }

  /** Helper: the head segment is decided on its own. */
  lemma {:induction false} StrippedNonBlankHead(s: seq<string>)
    requires s != []
    ensures StrippedNonBlank(s) == StrippedNonBlank([s[0]]) + StrippedNonBlank(s[1..])
  {
    var c := Strip(s[0]);
    assert StrippedNonBlank(s) == (if c == [] then [] else [c]) + StrippedNonBlank(s[1..]);
    StrippedNonBlankOne(s[0]);
  }

  /** A line whose upper-cased text holds TITLE, or the very first line, names the title. */
  predicate IsTitleLine(i: nat, line: string) {
    Contains(Upper(line), "TITLE") || i == 0
  }

  /** What the first pass sees in a line: no bar at all, a title line, or a
      line whose cells may become the header row or a data row. */
  datatype PipeLine = NoPipe | TitleLine(cells: Row) | CellLine(cells: Row)

  /** How the first pass sees line i: no bar, a title line, or a line with cells. */
  function ClassifyPipe(i: nat, line: string): PipeLine {
    if '|' !in line then NoPipe
    else if IsTitleLine(i, line) then TitleLine(PipeCells(line))
    else CellLine(PipeCells(line))
  }

  /** Line i of the input as the first pass sees it. */
  function Classified(lines: seq<string>): (kinds: seq<PipeLine>)
    ensures |kinds| == |lines|
  {
    seq(|lines|, i requires 0 <= i < |lines| => ClassifyPipe(i, lines[i]))
  }

  /** The title a title line gives: its last cell, or the default when it has none. */
  function TitleCell(cells: Row): string {
    if cells == [] then DefaultTitle else Strip(cells[|cells| - 1])
  }

  /** What one line of the first pass does to the parse so far. */
  function FirstPassStep(p: Parse, kind: PipeLine): Parse {
    match kind
    case NoPipe => p
    case TitleLine(cells) => p.(title := TitleCell(cells))
    case CellLine(cells) =>
      if p.headers == [] then p.(headers := cells)
      else if cells != [] then p.(data := p.data + [cells])
      else p
  }

  /** The parse after the first pass has seen kinds[..n]. */
  function FirstPassOver(kinds: seq<PipeLine>, n: nat): Parse
    requires n <= |kinds|
  {
    if n == 0 then Parse(DefaultTitle, [], [])
    else FirstPassStep(FirstPassOver(kinds, n - 1), kinds[n - 1])
  }

  /** The first pass over all lines (the loop at :73-85). */
  function FirstPass(lines: seq<string>): Parse {
    FirstPassOver(Classified(lines), |lines|)
  }

  /** A line that can enter the table: a non-title pipe line with at least one cell. */
  predicate IsTableRow(kind: PipeLine) {
    kind.CellLine? && kind.cells != []
  }

  /** The cells of the table rows among kinds[..n], in input order. */
  function TableRowsOver(kinds: seq<PipeLine>, n: nat): (rows: seq<Row>)
    requires n <= |kinds|
    ensures forall k :: 0 <= k < |rows| ==> rows[k] != []
  {
    if n == 0 then []
    else TableRowsOver(kinds, n - 1) + (if IsTableRow(kinds[n - 1]) then [kinds[n - 1].cells] else [])
  }

  /** The cells of the lines the first pass can take into the table, in input order. */
  function TableRows(lines: seq<string>): seq<Row> {
    TableRowsOver(Classified(lines), |lines|)
  }

  /** The first pass makes the first table row the header row and every later
      table row a data row, in order; title lines and lines without cells
      contribute nothing. */
  lemma {:induction false} FirstPassRows(kinds: seq<PipeLine>, n: nat)
    requires n <= |kinds|
    ensures var p, rows := FirstPassOver(kinds, n), TableRowsOver(kinds, n);
      (rows == [] ==> p.headers == [] && p.data == []) &&
      (rows != [] ==> p.headers == rows[0] && p.data == rows[1..])
  {
    if n > 0 {
      FirstPassRows(kinds, n - 1);
      var rows := TableRowsOver(kinds, n - 1);
      var kind := kinds[n - 1];
      if IsTableRow(kind) {
        assert TableRowsOver(kinds, n) == rows + [kind.cells];
        if rows != [] {
          assert (rows + [kind.cells])[0] == rows[0];
          assert (rows + [kind.cells])[1..] == rows[1..] + [kind.cells];
        } else {
          assert (rows + [kind.cells])[1..] == [];
        }
      } else {
        assert TableRowsOver(kinds, n) == rows;
      }
    }
  }

  /** Without a title line the title stays "Chart". */
  lemma {:induction false} FirstPassDefaultTitle(kinds: seq<PipeLine>, n: nat)
    requires n <= |kinds|
    requires forall k :: 0 <= k < n ==> !kinds[k].TitleLine?
    ensures FirstPassOver(kinds, n).title == DefaultTitle
  {
    if n > 0 {
      FirstPassDefaultTitle(kinds, n - 1);
    }
  }

  /** The last title line decides the title. */
  lemma {:induction false} FirstPassLastTitle(kinds: seq<PipeLine>, n: nat, j: nat)
    requires j < n <= |kinds| && kinds[j].TitleLine?
    requires forall k :: j < k < n ==> !kinds[k].TitleLine?
    ensures FirstPassOver(kinds, n).title == TitleCell(kinds[j].cells)
  {
    if j < n - 1 {
      FirstPassLastTitle(kinds, n - 1, j);
    }
  }

  // ---------------------------------------------------------------------
  // Fallback pass: whitespace-separated lines
  // ---------------------------------------------------------------------

  /** A line the fallback keeps: not blank, no TITLE, at least two words. */
  predicate IsCandidate(line: string) {
    Strip(line) != [] && !Contains(Upper(line), "TITLE") && |Words(line)| >= 2
  }

  /** The words of the candidate lines, in input order. */
  function Candidates(lines: seq<string>): (rows: seq<Row>)
    ensures |rows| <= |lines|
    ensures forall k :: 0 <= k < |rows| ==> |rows[k]| >= 2
    ensures forall k, m :: 0 <= k < |rows| && 0 <= m < |rows[k]| ==> rows[k][m] != [] && NoSpace(rows[k][m])
  {
    if lines == [] then []
    else
      var last := lines[|lines| - 1];
      var rows := Candidates(lines[..|lines| - 1]);
      var tail := LineCandidates(last);
      TokenRowsAppend(rows, tail);
      rows + tail
  }

  /** What one line adds to `potential_data`: its tokens when it is a candidate. */
  function LineCandidates(line: string): (tail: seq<Row>)
    ensures |tail| <= 1
    ensures forall k :: 0 <= k < |tail| ==> |tail[k]| >= 2
    ensures forall k, m :: 0 <= k < |tail| && 0 <= m < |tail[k]| ==> tail[k][m] != [] && NoSpace(tail[k][m])
  {
    if IsCandidate(line) then [Words(line)] else []
  }

  /** Rows of two or more non-empty, space-free tokens stay so when appended. */
  lemma {:induction false} TokenRowsAppend(rows: seq<Row>, tail: seq<Row>)
    requires forall k :: 0 <= k < |rows| ==> |rows[k]| >= 2
    requires forall k, m :: 0 <= k < |rows| && 0 <= m < |rows[k]| ==> rows[k][m] != [] && NoSpace(rows[k][m])
    requires forall k :: 0 <= k < |tail| ==> |tail[k]| >= 2
    requires forall k, m :: 0 <= k < |tail| && 0 <= m < |tail[k]| ==> tail[k][m] != [] && NoSpace(tail[k][m])
    ensures forall k :: 0 <= k < |rows + tail| ==> |(rows + tail)[k]| >= 2
    ensures forall k, m :: 0 <= k < |rows + tail| && 0 <= m < |(rows + tail)[k]| ==>
      (rows + tail)[k][m] != [] && NoSpace((rows + tail)[k][m])
  {
    assert forall k :: |rows| <= k < |rows + tail| ==> (rows + tail)[k] == tail[k - |rows|];
  }

  /** A token counts as a number when what is left after deleting `.` and `%` is all digits. */
  predicate LooksNumeric(token: string) {
    IsDigit(Remove(Remove(token, '.'), '%'))
  }

  /** Which lines the fallback keeps, and in what order: a line on its own
      gives its words when it is a candidate and nothing otherwise, and the
      rows of consecutive runs of lines are concatenated. */
  lemma {:induction false} CandidatesOne(line: string)
    ensures Candidates([line]) == if IsCandidate(line) then [Words(line)] else []
  {
    assert [line][..0] == [];
  }

  /** Candidate selection distributes over concatenation. */
  lemma {:induction false} CandidatesAppend(a: seq<string>, b: seq<string>)
    ensures Candidates(a + b) == Candidates(a) + Candidates(b)
    decreases |b|
  {
    if b == [] {
      assert a + b == a;
    } else {
      var init, last := b[..|b| - 1], b[|b| - 1];
      CandidatesLastAppend(a, b);
      CandidatesAppend(a, init);
      CandidatesLast(b);
      AppendAssoc(Candidates(a), Candidates(init), Candidates([last]));
    }
  }

  /** Helper: the last line is decided on its own. */
  lemma {:induction false} CandidatesLast(s: seq<string>)
    requires s != []
    ensures Candidates(s) == Candidates(s[..|s| - 1]) + Candidates([s[|s| - 1]])
  {
    CandidatesOne(s[|s| - 1]);
  }

  /** Helper: the last line of a + b is decided on its own. */
  lemma {:induction false} CandidatesLastAppend(a: seq<string>, b: seq<string>)
    requires b != []
    ensures Candidates(a + b) == Candidates(a + b[..|b| - 1]) + Candidates([b[|b| - 1]])
  {
    var s := a + b;
    assert s[..|s| - 1] == a + b[..|b| - 1];
    assert s[|s| - 1] == b[|b| - 1];
    CandidatesLast(s);
  }

  /** The digit test after deleting `.` and `%` accepts exactly the tokens
      made of digits, dots and percent signs with at least one digit: "12.5%"
      counts as a number, while "-3" (isdigit rejects the sign) and "." do not. */
  lemma {:induction false} LooksNumericIff(token: string)
    ensures LooksNumeric(token) <==>
      (exists i :: 0 <= i < |token| && IsAsciiDigit(token[i])) &&
      (forall i :: 0 <= i < |token| ==> IsAsciiDigit(token[i]) || token[i] == '.' || token[i] == '%')
  {
    var t := Remove(token, '.');
    var r := Remove(t, '%');
    RemoveMembers(token, '.');
    RemoveMembers(t, '%');
    assert forall x :: x in r <==> x in token && x != '.' && x != '%';
    if LooksNumeric(token) {
      assert r[0] in r;
      forall i | 0 <= i < |token| && token[i] != '.' && token[i] != '%'
        ensures IsAsciiDigit(token[i])
      {
        assert token[i] in r;
        var j :| 0 <= j < |r| && r[j] == token[i];
      }
    }
    if (exists i :: 0 <= i < |token| && IsAsciiDigit(token[i])) &&
      (forall i :: 0 <= i < |token| ==> IsAsciiDigit(token[i]) || token[i] == '.' || token[i] == '%')
    {
      var i :| 0 <= i < |token| && IsAsciiDigit(token[i]);
      assert token[i] in r;
      forall j | 0 <= j < |r|
        ensures IsAsciiDigit(r[j])
      {
        assert r[j] in r;
      }
    }
  }

  /** A signed number is not numeric, so a row of negative values counts as a header row. */
  lemma {:induction false} NegativeNumbersHeaderLike()
    ensures HeaderLike(["-3", "-5"])
  {
    LooksNumericIff("-3");
    LooksNumericIff("-5");
    assert "-3"[0] == '-' && "-5"[0] == '-';
  }

  /** No token of the row looks like a number. */
  predicate HeaderLike(row: Row) {
    forall k :: 0 <= k < |row| ==> !LooksNumeric(row[k])
  }

  /** `f"Column {k}"` */
  function ColumnName(k: nat): string {
    "Column " + NatToString(k)
  }

  /** `[f"Column {i+1}" for i in range(n)]` */
  function GenericHeaders(n: nat): (headers: Row)
    ensures |headers| == n
  {
    seq(n, k requires 0 <= k < n => ColumnName(k + 1))
  }

  /** The generic headers are pairwise distinct. */
  lemma {:induction false} GenericHeadersDistinct(n: nat, i: nat, j: nat)
    requires i < n && j < n && i != j
    ensures GenericHeaders(n)[i] != GenericHeaders(n)[j]
  {
    var a, b := GenericHeaders(n)[i], GenericHeaders(n)[j];
    if a == b {
      assert a[7..] == NatToString(i + 1) && b[7..] == NatToString(j + 1);
      NatToStringInjective(i + 1, j + 1);
    }
  }

  /** `s.split(c, 1)[1]` when c occurs in s: the text after its first occurrence. */
  function AfterFirst(s: string, c: char): (r: string)
    ensures c in s ==> exists i :: 0 <= i < |s| && s[i] == c && c !in s[..i] && r == s[i + 1..]
  {
    if s == [] then []
    else if s[0] == c then
      assert c !in s[..0];
      s[1..]
    else
      var r := AfterFirst(s[1..], c);
      assert c in s ==> c in s[1..];
      assert forall i :: 0 <= i < |s| - 1 ==> s[1..][..i] == s[1..i + 1] && s[1..][i + 1..] == s[i + 2..];
      assert forall i :: 0 <= i < |s| - 1 && c !in s[1..][..i] ==> c !in s[..i + 1];
      r
  }

  /** The fallback's title: the stripped text after the first `:` of line 0, if it has one. */
  function FallbackTitle(lines: seq<string>, title: string): string {
    if lines != [] && ':' in lines[0] then Strip(AfterFirst(lines[0], ':')) else title
  }

  /** The fallback pass, run on the result of the first pass. */
  function Fallback(lines: seq<string>, p: Parse): Parse {
    var title := FallbackTitle(lines, p.title);
    var rows := Candidates(lines);
    if rows == [] then p.(title := title)
    else if HeaderLike(rows[0]) then Parse(title, rows[0], rows[1..])
    else Parse(title, GenericHeaders(|rows[0]|), rows)
  }

  /** Both passes: the fallback runs only when the first pass left headers or data empty. */
  function ParseLines(lines: seq<string>): Parse {
    var first := FirstPass(lines);
    if first.headers == [] || first.data == [] then Fallback(lines, first) else first
  }

  // ---------------------------------------------------------------------
  // Padding to a rectangle
  // ---------------------------------------------------------------------

  function Max(a: nat, b: nat): nat {
    if a >= b then a else b
  }

  /** `max(len(row) for row in rows)`, zero for no rows. */
  function MaxWidth(rows: seq<Row>): (w: nat)
    ensures forall k :: 0 <= k < |rows| ==> |rows[k]| <= w
    ensures rows == [] ==> w == 0
    ensures rows != [] ==> exists k :: 0 <= k < |rows| && |rows[k]| == w
  {
    if rows == [] then 0
    else
      var w := Max(|rows[0]|, MaxWidth(rows[1..]));
      assert forall k :: 1 <= k < |rows| ==> rows[k] == rows[1..][k - 1];
      w
  }

  /** The common width: the largest of 1, the header count and the longest row. */
  function Width(headers: Row, data: seq<Row>): (w: nat)
    ensures w >= 1 && w >= |headers| && forall k :: 0 <= k < |data| ==> |data[k]| <= w
    ensures w == 1 || w == |headers| || exists k :: 0 <= k < |data| && |data[k]| == w
  {
    Max(Max(|headers|, 1), MaxWidth(data))
  }

  /** `orig` extended with empty cells only. */
  predicate PaddedFrom(orig: Row, padded: Row) {
    |orig| <= |padded| && padded[..|orig|] == orig && forall k :: |orig| <= k < |padded| ==> padded[k] == ""
  }

  /** `row` extended with empty cells to `width`. */
  function PadRow(row: Row, width: nat): (r: Row)
    requires |row| <= width
    ensures |r| == width && PaddedFrom(row, r)
  {
    row + seq(width - |row|, _ => "")
  }

  /** Pad headers and rows to the common width, or give the fixed one-cell
      table when there are no data rows. */
  function Pad(headers: Row, data: seq<Row>): (t: Table)
    ensures |t.headers| >= 1 && |t.data| >= 1
    ensures forall k :: 0 <= k < |t.data| ==> |t.data[k]| == |t.headers|
    ensures data == [] ==> t == Table(["Column 1"], [["No data extracted"]])
    ensures data != [] ==> |t.headers| == Width(headers, data) && |t.data| == |data|
    ensures data != [] ==> forall k :: 0 <= k < |data| ==> PaddedFrom(data[k], t.data[k])
    ensures data != [] && headers != [] ==> PaddedFrom(headers, t.headers)
    ensures data != [] && headers == [] ==> t.headers == GenericHeaders(Width(headers, data))
  {
    if data == [] then Table(["Column 1"], [["No data extracted"]])
    else
      var w := Width(headers, data);
      Table(if headers == [] then GenericHeaders(w) else PadRow(headers, w),
            seq(|data|, k requires 0 <= k < |data| => PadRow(data[k], w)))
  }

  // ---------------------------------------------------------------------
  // The whole extraction
  // ---------------------------------------------------------------------

  /** The table `extract_table_from_chart` builds from the decoder's text. */
  function Extract(rawOutput: string): (chart: ExtractedChart)
    ensures |chart.headers| >= 1 && |chart.data| >= 1
    ensures forall k :: 0 <= k < |chart.data| ==> |chart.data[k]| == |chart.headers|
    ensures chart.rawText == rawOutput
  {
    var p := ParseLines(Split(rawOutput, LineBreak));
    var t := Pad(p.headers, p.data);
    ExtractedChart(p.title, t.headers, t.data, rawOutput)
  }

  /** When the pipe lines hold a header row and at least one data row, the
      fallback does not run: the header row and the data rows are the table
      rows, in order, padded with empty cells, and the title is the first
      pass's. */
  lemma {:induction false} PipeTableExtract(rawOutput: string)
    requires |TableRows(Split(rawOutput, LineBreak))| >= 2
    ensures var lines := Split(rawOutput, LineBreak);
      var rows, chart := TableRows(lines), Extract(rawOutput);
      && chart.title == FirstPass(lines).title
      && PaddedFrom(rows[0], chart.headers)
      && |chart.data| == |rows| - 1
      && forall k :: 0 <= k < |chart.data| ==> PaddedFrom(rows[k + 1], chart.data[k])
  {
    var lines := Split(rawOutput, LineBreak);
    FirstPassRows(Classified(lines), |lines|);
    var rows := TableRows(lines);
    var p := FirstPass(lines);
    assert p.headers != [] && p.data != [];
    assert ParseLines(lines) == p;
    var t := Pad(p.headers, p.data);
    assert Extract(rawOutput) == ExtractedChart(p.title, t.headers, t.data, rawOutput);
    assert forall k :: 0 <= k < |rows| - 1 ==> rows[1..][k] == rows[k + 1];
  }

  /** Without a header row and a data row among the pipe lines, and without
      candidate lines, the result is the fixed one-cell table; the title is still
      the one the fallback takes from the first line. */
  lemma {:induction false} NoRowsExtract(rawOutput: string)
    requires var lines := Split(rawOutput, LineBreak);
      |TableRows(lines)| < 2 && Candidates(lines) == []
    ensures var chart := Extract(rawOutput);
      chart.headers == ["Column 1"] && chart.data == [["No data extracted"]]
    ensures var lines := Split(rawOutput, LineBreak);
      Extract(rawOutput).title == FallbackTitle(lines, FirstPass(lines).title)
  {
    var lines := Split(rawOutput, LineBreak);
    FirstPassRows(Classified(lines), |lines|);
  }

  /** When the fallback runs and the first candidate line has a numeric-looking
      token, every candidate line is a data row and the header row is
      "Column 1".."Column n" for the first candidate's n words, padded with
      empty cells when a later candidate is longer. */
  lemma {:induction false} NumericFallbackExtract(rawOutput: string)
    requires var lines := Split(rawOutput, LineBreak); var rows := Candidates(lines);
      |TableRows(lines)| < 2 && rows != [] && !HeaderLike(rows[0])
    ensures var lines := Split(rawOutput, LineBreak); var rows := Candidates(lines);
      var chart := Extract(rawOutput);
      && chart.title == FallbackTitle(lines, FirstPass(lines).title)
      && PaddedFrom(GenericHeaders(|rows[0]|), chart.headers)
      && |chart.data| == |rows|
      && forall k :: 0 <= k < |rows| ==> PaddedFrom(rows[k], chart.data[k])
  {
    var lines := Split(rawOutput, LineBreak);
    FirstPassRows(Classified(lines), |lines|);
    var first := FirstPass(lines);
    assert first.data == [];
    var rows := Candidates(lines);
    var p := Fallback(lines, first);
    assert p.headers == GenericHeaders(|rows[0]|) && p.data == rows;
    assert ParseLines(lines) == p;
    var t := Pad(p.headers, p.data);
    assert Extract(rawOutput) == ExtractedChart(p.title, t.headers, t.data, rawOutput);
  }

  /** When the fallback runs and no token of the first candidate line looks
      numeric, that line is the header row and the later candidates are the
      data rows; a lone header-like candidate leaves no data rows, so the
      result is the fixed one-cell table. The title is the fallback's. */
  lemma {:induction false} HeaderFallbackExtract(rawOutput: string)
    requires var lines := Split(rawOutput, LineBreak); var rows := Candidates(lines);
      |TableRows(lines)| < 2 && rows != [] && HeaderLike(rows[0])
    ensures var lines := Split(rawOutput, LineBreak); var rows := Candidates(lines);
      var chart := Extract(rawOutput);
      && chart.title == FallbackTitle(lines, FirstPass(lines).title)
      && (|rows| == 1 ==> chart.headers == ["Column 1"] && chart.data == [["No data extracted"]])
      && (|rows| >= 2 ==> PaddedFrom(rows[0], chart.headers) && |chart.data| == |rows| - 1)
      && (|rows| >= 2 ==> forall k :: 0 <= k < |rows| - 1 ==> PaddedFrom(rows[k + 1], chart.data[k]))
  {
    var lines := Split(rawOutput, LineBreak);
    var rows := Candidates(lines);
    HeaderFallbackParse(lines);
    var p := ParseLines(lines);
    var t := Pad(p.headers, p.data);
    assert Extract(rawOutput) == ExtractedChart(p.title, t.headers, t.data, rawOutput);
    assert forall k :: 0 <= k < |rows| - 1 ==> rows[1..][k] == rows[k + 1];
  }

  /** A header-like first candidate becomes the header row and the other candidates the data, under the fallback title. */
  lemma {:induction false} HeaderFallbackParse(lines: seq<string>)
    requires var rows := Candidates(lines);
      |TableRows(lines)| < 2 && rows != [] && HeaderLike(rows[0])
    ensures var rows := Candidates(lines);
      ParseLines(lines) == Parse(FallbackTitle(lines, FirstPass(lines).title), rows[0], rows[1..])
  {
    FirstPassRows(Classified(lines), |lines|);
  }

  /** The fallback's scan for `potential_data`: every line that is not blank,
      holds no TITLE and splits into at least two words, as its words. */
  method CandidateRows(lines: seq<string>) returns (potential: seq<Row>)
    ensures potential == Candidates(lines)
  {
    potential := [];
    for i := 0 to |lines|
      invariant potential == Candidates(lines[..i])
    {
      var line := lines[i];
      assert lines[..i + 1][..i] == lines[..i];
      if Strip(line) == [] || Contains(Upper(line), "TITLE") {
        continue;
      }
      var parts := Words(line);
      if |parts| >= 2 {
        potential := potential + [parts];
      }
    }
    assert lines[..|lines|] == lines;
  }

  /** One iteration of the first pass: line i, read against the parse so far. */
  method ScanLine(i: nat, line: string, title: string, headers: Row, data: seq<Row>, tableStarted: bool)
    returns (title': string, headers': Row, data': seq<Row>, tableStarted': bool)
    ensures Parse(title', headers', data') == FirstPassStep(Parse(title, headers, data), ClassifyPipe(i, line))
    ensures tableStarted' == (tableStarted || '|' in line)
  {
    title', headers', data', tableStarted' := title, headers, data, tableStarted;
    if '|' in line {
      tableStarted' := true;
      var parts := PipeCells(line);
      if Contains(Upper(line), "TITLE") || i == 0 {
        assert ClassifyPipe(i, line) == TitleLine(parts);
        title' := TitleCell(parts);
      } else {
        assert ClassifyPipe(i, line) == CellLine(parts);
        if headers == [] && tableStarted' {
          headers' := parts;
        } else if parts != [] {
          data' := data + [parts];
        }
      }
    } else {
      assert ClassifyPipe(i, line) == NoPipe;
    }
  }

  /** The first pass of `extract_table_from_chart`: one sweep over the lines
      that picks out the title, the header row and the data rows. */
  method FirstPassScan(lines: seq<string>) returns (title: string, headers: Row, data: seq<Row>)
    ensures Parse(title, headers, data) == FirstPass(lines)
  {
    ghost var kinds := Classified(lines);
    headers, data, title := [], [], DefaultTitle;
    var tableStarted := false;
    for i := 0 to |lines|
      invariant Parse(title, headers, data) == FirstPassOver(kinds, i)
    {
      title, headers, data, tableStarted := ScanLine(i, lines[i], title, headers, data, tableStarted);
      assert kinds[i] == ClassifyPipe(i, lines[i]);
    }
  }

  /** `extract_table_from_chart` once the decoder has run: the first pass,
      the fallback pass when the first left headers or data empty, then the
      padding. The fifth value the source returns is the raw text. */
  method ExtractTable(rawOutput: string) returns (chart: ExtractedChart)
    ensures chart == Extract(rawOutput)
    ensures |chart.headers| >= 1 && |chart.data| >= 1
    ensures forall k :: 0 <= k < |chart.data| ==> |chart.data[k]| == |chart.headers|
  {
    var lines := Split(rawOutput, LineBreak);
    var title, headers, data := FirstPassScan(lines);
    if headers == [] || data == [] {
      ghost var first := Parse(title, headers, data);
      if |lines| > 0 && ':' in lines[0] {
        title := Strip(AfterFirst(lines[0], ':'));
      }
      var potential := CandidateRows(lines);
      if potential != [] {
        if HeaderLike(potential[0]) {
          headers := potential[0];
          data := potential[1..];
        } else {
          headers := GenericHeaders(|potential[0]|);
          data := potential;
        }
      }
      assert Parse(title, headers, data) == Fallback(lines, first);
    }
    assert Parse(title, headers, data) == ParseLines(lines);
    var table := Pad(headers, data);
    chart := ExtractedChart(title, table.headers, table.data, rawOutput);
  }

  // ---------------------------------------------------------------------
  // Prompt construction in ask_local_llm
  // ---------------------------------------------------------------------

  /** The words that make a question a question about the chart's looks. */
  const VisualTerms: seq<string> := ["color", "colours", "visual", "appearance", "style", "design", "scheme"]

  /** One of the colour-related terms occurs in the lower-cased question. */
  predicate IsColorQuestion(question: string) {
    exists k :: 0 <= k < |VisualTerms| && Contains(Lower(question), VisualTerms[k])
  }

  /** The opening lines of the prompt, shared by both kinds of question. */
  function BasePrompt(question: string, tableData: string, title: string): string {
    "Title: " + title + "\nData: " + tableData + "\nQuestion: " + question + "\n"
  }

  /** The visual-analysis instructions, line by line (the first line is empty,
      so the text starts with a line break). */
  const VisualLines: seq<string> := [
    "",
    "IMPORTANT: Your task is to analyze the visual elements of this chart, with special attention to colors. Please provide:",
    "1. A detailed description of all colors used in the chart",
    "2. What each color represents in the context of the data",
    "3. How colors are used to distinguish between different data points, categories, or values",
    "4. Any color patterns, gradients, or visual indicators of importance",
    "5. How effectively the color scheme communicates the data",
    "",
    "Focus primarily on the VISUAL APPEARANCE rather than just the numeric data."]

  const VisualSuffix: string := Join(VisualLines, "\n")

  /** The general instructions, after a line break. */
  const GenericSuffix: string := "\n" + "Please provide a detailed answer based on the data and question above. When relevant, include observations about the visual elements of the chart, including colors and design."

  /** The model `ask_local_llm` and the routes fall back on. */
  const DefaultModel: string := "llama3"

  /** The arguments of one `ask_local_llm(question, table_data, title, model)` call. */
  datatype LlmRequest = LlmRequest(question: string, tableData: string, title: string, model: string)

  /** The prompt `ask_local_llm` sends: the title, data and question block,
      then one of the two instruction blocks. */
  function BuildPrompt(question: string, tableData: string, title: string): (prompt: string)
    ensures StartsWith(prompt, "Title: " + title + "\nData: " + tableData + "\nQuestion: " + question + "\n")
  {
    var base := BasePrompt(question, tableData, title);
    if IsColorQuestion(question) then base + VisualSuffix else base + GenericSuffix
  }

  /** Equal texts after the same prefix are equal. */
  lemma {:induction false} AppendCancel(a: string, b: string, c: string)
    requires a + b == a + c
    ensures b == c
  {
    assert b == (a + b)[|a|..];
    assert c == (a + c)[|a|..];
  }

  /** The two instruction blocks differ: the visual one is the longer. */
  lemma {:induction false} SuffixesDiffer()
    ensures |GenericSuffix| < |VisualSuffix|
  {
  }

  /** The visual-analysis instructions follow exactly a colour question, the
      general instructions exactly any other question. */
  lemma {:induction false} PromptSuffix(question: string, tableData: string, title: string)
    ensures BuildPrompt(question, tableData, title) == BasePrompt(question, tableData, title) + VisualSuffix
      <==> IsColorQuestion(question)
    ensures BuildPrompt(question, tableData, title) == BasePrompt(question, tableData, title) + GenericSuffix
      <==> !IsColorQuestion(question)
  {
    var base := BasePrompt(question, tableData, title);
    SuffixesDiffer();
    if base + VisualSuffix == base + GenericSuffix {
      AppendCancel(base, VisualSuffix, GenericSuffix);
    }
  }

  /** The keyword test is a substring test on the lower-cased question, so
      "Color" counts as a colour question. */
  lemma {:induction false} CapitalisedColor()
    ensures IsColorQuestion("Color")
  {
    assert Lower("Color") == "color";
    ContainsAt("color", "color");
    assert StartsWith("color"[0..], VisualTerms[0]);
  }

  /** The British singular "colour" matches none of the terms ("colours" is
      listed, "colour" is not), so it gets the general instructions. */
  lemma {:induction false} BritishColourNotVisual()
    ensures !IsColorQuestion("colour")
  {
    var q := "colour";
    LowerAt(q);
    assert Lower(q) == q;
    forall k | 0 <= k < |VisualTerms|
      ensures !Contains(q, VisualTerms[k])
    {
      if k == 0 {
        ColorNotInColour();
      } else {
        var c := if k == 2 then 'v' else if k == 3 then 'a' else if k == 5 then 'd' else 's';
        assert c in VisualTerms[k];
        MissingChar(q, VisualTerms[k], c);
      }
    }
  }

  /** "color" occurs nowhere in "colour": it differs at the fifth letter. */
  lemma {:induction false} ColorNotInColour()
    ensures !Contains("colour", "color")
  {
    var q := "colour";
    ContainsAt(q, "color");
    assert q[0..][..5][4] == 'u';
    assert q[1..][..5][0] == 'o';
  }

}
