/** Streaming export: rows read in chunks, separators and a header that may come late, and unique column names. */
module Export {
  import opened Text

  type Cell = string
  type Row = seq<Cell>
  type Columns = seq<string>

  datatype Status = Idle | Exporting | Paused | Aborted | Completed

  /** What a format brings along. `formatRow` stands for mutating and formatting a row. */
  datatype Format = Format(
    rowSeparator: string,
    needsFinalSeparator: bool,
    getHeader: Columns -> string,
    footer: string,
    formatRow: (Row, Option<Columns>) -> string)

  /** One read of the cursor: the rows, the columns the cursor knows then, and the status when the chunk is done. */
  datatype Chunk = Chunk(rows: seq<Row>, columns: Option<Columns>, status: Status)

  // ---- What is written.

  /** The column list in force from the k-th read on. */
  function ColumnsAt(start: Option<Columns>, chunks: seq<Chunk>, k: nat): Option<Columns>
    requires k <= |chunks|
  {
    if k == 0 then start
    else
      var before := ColumnsAt(start, chunks, k - 1);
      if before.Some? then before else chunks[k - 1].columns
  }

  function Formatted(f: Format, rows: seq<Row>, columns: Option<Columns>): (r: seq<string>)
    ensures |r| == |rows|
  {
    seq(|rows|, i requires 0 <= i < |rows| => f.formatRow(rows[i], columns))
  }

  /** Every line with a separator behind it. */
  function Terminated(f: Format, lines: seq<string>): string {
    if lines == [] then ""
    else Terminated(f, lines[..|lines| - 1]) + (lines[|lines| - 1] + f.rowSeparator)
  }

  /** Lines with separators between them, and one after the last exactly when the format wants it. */
  function Body(f: Format, lines: seq<string>): string {
    if f.needsFinalSeparator then Terminated(f, lines)
    else if lines == [] then ""
    else Terminated(f, lines[..|lines| - 1]) + lines[|lines| - 1]
  }

  function Header(f: Format, columns: Option<Columns>): string {
    match columns
    case None => ""
    case Some(c) => f.getHeader(c)
  }

  lemma HeaderOf(f: Format, columns: Option<Columns>)
    ensures Header(f, columns) == if columns.Some? then f.getHeader(columns.value) else ""
  {
  }

  function RowCount(chunks: seq<Chunk>): nat {
    if chunks == [] then 0 else RowCount(chunks[..|chunks| - 1]) + |chunks[|chunks| - 1].rows|
  }

  /** A chunk's rows, after a separator when the row before them still lacks one. */
  function RowsText(f: Format, lines: seq<string>, needsSeparator: bool): string {
    (if lines != [] && needsSeparator then f.rowSeparator else "") + Body(f, lines)
  }

  /** What the n-th row adds to the rows before it. */
  lemma LineAt(f: Format, rows: seq<Row>, columns: Option<Columns>, n: nat, lead: string)
    requires n < |rows|
    ensures var lines, line := Formatted(f, rows, columns), f.formatRow(rows[n], columns);
      && |lines| == |rows|
      && lead == lead + Terminated(f, lines[..0])
      && lead + Terminated(f, lines[..n + 1]) == lead + Terminated(f, lines[..n]) + line + f.rowSeparator
      && (n == |rows| - 1 && !f.needsFinalSeparator ==> lead + Body(f, lines) == lead + Terminated(f, lines[..n]) + line)
  {
    var lines, line := Formatted(f, rows, columns), f.formatRow(rows[n], columns);
    assert lines[..n + 1][..n] == lines[..n] && lines[..n + 1][n] == line;
    var before := Terminated(f, lines[..n]);
    assert lead + (before + (line + f.rowSeparator)) == lead + before + line + f.rowSeparator;
    assert lead + (before + line) == lead + before + line;
  }

  /** After its last row a chunk's text is complete, whether or not the row had a separator written. */
  lemma RowsDone(f: Format, rows: seq<Row>, columns: Option<Columns>, needsSeparator: bool, stillNeeded: bool, out: string)
    requires stillNeeded == (if rows == [] then needsSeparator else !f.needsFinalSeparator)
    requires var lines, lead := Formatted(f, rows, columns), if rows != [] && needsSeparator then f.rowSeparator else "";
      if rows == [] then out == ""
      else if stillNeeded then out == lead + Body(f, lines)
      else out == lead + Terminated(f, lines[..|rows|])
    ensures out == RowsText(f, Formatted(f, rows, columns), needsSeparator)
  {
    var lines := Formatted(f, rows, columns);
    assert lines[..|rows|] == lines;
  }

  /** The text of one chunk: a header if the columns have only now become known, then its rows. */
  function ChunkText(f: Format, start: Option<Columns>, chunks: seq<Chunk>, k: nat): string
    requires k < |chunks|
  {
    var known, columns := ColumnsAt(start, chunks, k), ColumnsAt(start, chunks, k + 1);
    (if known.None? then Header(f, columns) else "")
    + RowsText(f, Formatted(f, chunks[k].rows, columns), !f.needsFinalSeparator && RowCount(chunks[..k]) > 0)
  }

  function Written(f: Format, start: Option<Columns>, chunks: seq<Chunk>, k: nat): string
    requires k <= |chunks|
  {
    if k == 0 then "" else Written(f, start, chunks, k - 1) + ChunkText(f, start, chunks, k - 1)
  }

  lemma NothingYet(f: Format, start: Option<Columns>, chunks: seq<Chunk>)
    ensures Written(f, start, chunks, 0) == "" && ColumnsAt(start, chunks, 0) == start && RowCount(chunks[..0]) == 0
  {
  }

  /** What one more chunk adds. */
  lemma OneMoreChunk(f: Format, start: Option<Columns>, chunks: seq<Chunk>, k: nat)
    requires k < |chunks|
    ensures Written(f, start, chunks, k + 1) == Written(f, start, chunks, k) + ChunkText(f, start, chunks, k)
    ensures ColumnsAt(start, chunks, k + 1) == if ColumnsAt(start, chunks, k).Some? then ColumnsAt(start, chunks, k) else chunks[k].columns
    ensures RowCount(chunks[..k + 1]) == RowCount(chunks[..k]) + |chunks[k].rows|
  {
    hide ChunkText;
    assert chunks[..k + 1][..k] == chunks[..k];
  }

  predicate EndsLoop(chunk: Chunk) {
    chunk.rows == [] || chunk.status != Exporting
  }

  /** How many chunks the loop makes: up to the first empty chunk or the first one that ends with another status. */
  function Taken(chunks: seq<Chunk>): (n: nat)
    ensures n <= |chunks|
    ensures forall k :: 0 <= k < n - 1 ==> chunks[k].rows != [] && chunks[k].status == Exporting
    ensures n < |chunks| ==> n > 0 && (chunks[n - 1].rows == [] || chunks[n - 1].status != Exporting)
  {
    if chunks == [] then 0
    else if EndsLoop(chunks[0]) then 1
    else 1 + Taken(chunks[1..])
  }

  /** The cursor's answers, down to one that ends the loop: after the last row it answers with empty chunks. */
  predicate Ends(chunks: seq<Chunk>) {
    exists k :: 0 <= k < |chunks| && EndsLoop(chunks[k])
  }

  lemma Assoc(a: string, b: string, c: string)
    ensures (a + b) + c == a + (b + c)
  {
  }

  class Exporter {
    const format: Format
    var columns: Option<Columns>
    var headerWritten: bool
    var countExported: nat
    var status: Status
    var file: string
    var deleted: bool

    constructor (format: Format)
      ensures this.format == format && file == "" && status == Idle && !headerWritten && columns == None && !deleted
    {
      this.format := format;
      columns, headerWritten, countExported, status, file, deleted := None, false, 0, Idle, "", false;
    }

    method WriteHeader()
      requires columns.Some?
      modifies `file, `headerWritten
      ensures headerWritten
      ensures file == old(file) + if old(headerWritten) then "" else format.getHeader(columns.value)
    {
      if headerWritten {
        return;
      }
      var header := format.getHeader(columns.value);
      if header != "" {
        file := file + header;
      }
      headerWritten := true;
    }

    method Write(text: string, ghost base: string, ghost soFar: string)
      requires file == base + soFar
      modifies `file
      ensures file == base + (soFar + text)
    {
      Assoc(base, soFar, text);
      file := file + text;
    }

    /** Writes one chunk's rows; `needsSeparator` says whether the row before still lacks its separator. */
    method WriteRows(rows: seq<Row>, needsSeparator: bool) returns (stillNeeded: bool)
      requires needsSeparator ==> !format.needsFinalSeparator
      modifies `file
      ensures file == old(file) + RowsText(format, Formatted(format, rows, columns), needsSeparator)
      ensures stillNeeded == if rows == [] then needsSeparator else !format.needsFinalSeparator
    {
      hide Formatted, Terminated, Body, RowsText;
      ghost var lines := Formatted(format, rows, columns);
      ghost var out := "";
      ghost var lead := if rows != [] && needsSeparator then format.rowSeparator else "";
      stillNeeded := needsSeparator;
      for rI := 0 to |rows|
        invariant file == old(file) + out
        invariant rI == 0 ==> stillNeeded == needsSeparator && out == ""
        invariant rI > 0 ==> stillNeeded == (rI == |rows| && !format.needsFinalSeparator)
        invariant rI > 0 && !stillNeeded ==> out == lead + Terminated(format, lines[..rI])
        invariant stillNeeded && rI > 0 ==> out == lead + Body(format, lines)
      {
        var formatted := format.formatRow(rows[rI], columns);
        LineAt(format, rows, columns, rI, lead);
        if stillNeeded {
          Write(format.rowSeparator, old(file), out);
          out := out + format.rowSeparator;
        }
        assert out == lead + Terminated(format, lines[..rI]);
        Write(formatted, old(file), out);
        out := out + formatted;
        if rI == |rows| - 1 && !format.needsFinalSeparator {
          stillNeeded := true;
        } else {
          Write(format.rowSeparator, old(file), out);
          out := out + format.rowSeparator;
          stillNeeded := false;
        }
      }
      RowsDone(format, rows, columns, needsSeparator, stillNeeded, out);
    }

    /** One turn of the loop: the header once the columns are known, then the rows. */
    method ExportChunk(chunk: Chunk, needsSeparator: bool) returns (stillNeeded: bool)
      requires needsSeparator ==> !format.needsFinalSeparator
      requires columns.Some? <==> headerWritten
      modifies this
      ensures columns == if old(columns).Some? then old(columns) else chunk.columns
      ensures (columns.Some? <==> headerWritten) && deleted == old(deleted)
      ensures file == old(file) + ((if old(columns).None? then Header(format, chunk.columns) else "")
                                   + RowsText(format, Formatted(format, chunk.rows, columns), needsSeparator))
      ensures countExported == old(countExported) + |chunk.rows| && status == chunk.status
      ensures stillNeeded == if chunk.rows == [] then needsSeparator else !format.needsFinalSeparator
    {
      hide RowsText, Formatted;
      ghost var header := if columns.None? then Header(format, chunk.columns) else "";
      if columns.None? {
        columns := chunk.columns;
        if columns.Some? {
          WriteHeader();
        }
      }
      assert file == old(file) + header;
      stillNeeded := WriteRows(chunk.rows, needsSeparator);
      Assoc(old(file), header, RowsText(format, Formatted(format, chunk.rows, columns), needsSeparator));
      countExported := countExported + |chunk.rows|;
      status := chunk.status;
    }

    method ExportData(chunks: seq<Chunk>)
      requires (columns.Some? <==> headerWritten) && Ends(chunks)
      modifies this
      ensures file == old(file) + Written(format, old(columns), chunks, Taken(chunks))
      ensures columns == ColumnsAt(old(columns), chunks, Taken(chunks))
      ensures countExported == old(countExported) + RowCount(chunks[..Taken(chunks)])
      ensures Taken(chunks) > 0 && status == chunks[Taken(chunks) - 1].status && deleted == old(deleted)
    {
      hide Formatted, Body, Header, RowsText, Taken, Written, ColumnsAt, RowCount;
      NothingYet(format, columns, chunks);
      var needsSeparator := false;
      var k := 0;
      var going := true;
      while going
        invariant 0 <= k <= Taken(chunks) && (going <==> k < Taken(chunks))
        invariant file == old(file) + Written(format, old(columns), chunks, k)
        invariant columns == ColumnsAt(old(columns), chunks, k) && (columns.Some? <==> headerWritten)
        invariant countExported == old(countExported) + RowCount(chunks[..k])
        invariant needsSeparator == (!format.needsFinalSeparator && RowCount(chunks[..k]) > 0)
        invariant k > 0 ==> status == chunks[k - 1].status
        invariant deleted == old(deleted)
        decreases Taken(chunks) - k
      {
        OneMoreChunk(format, old(columns), chunks, k);
        needsSeparator := ExportChunk(chunks[k], needsSeparator);
        Assoc(old(file), Written(format, old(columns), chunks, k), ChunkText(format, old(columns), chunks, k));
        k := k + 1;
        going := chunks[k - 1].rows != [] && status == Exporting;
      }
    }

    method FinalizeExport()
      modifies `file, `status
      ensures old(status) == Aborted ==> file == old(file) && status == Aborted
      ensures old(status) != Aborted ==> file == old(file) + format.footer && status == Completed
    {
      if status == Aborted {
        return;
      }
      file := file + format.footer;
      status := Completed;
    }

    /** A run in which nothing throws: `start` are the columns known when the query has been opened. */
    method ExportToFile(start: Option<Columns>, chunks: seq<Chunk>, deleteOnAbort: bool)
      requires Ends(chunks) && !headerWritten && !deleted
      modifies this
      ensures file == ExportedFile(format, start, chunks)
      ensures countExported == RowCount(chunks[..Taken(chunks)])
      ensures Taken(chunks) > 0
      ensures status == if chunks[Taken(chunks) - 1].status == Aborted then Aborted else Completed
      ensures deleted <==> status == Aborted && deleteOnAbort
    {
      hide Written, ColumnsAt, RowCount, Taken, Header;
      status, countExported, file := Exporting, 0, "";
      columns := start;
      if columns.Some? {
        WriteHeader();
      }
      HeaderOf(format, start);
      assert file == Header(format, start);
      ExportData(chunks);
      FinalizeExport();
      deleted := status == Aborted && deleteOnAbort;
    }
  }

  ghost function ExportedFile(f: Format, start: Option<Columns>, chunks: seq<Chunk>): string {
    Header(f, start) + Written(f, start, chunks, Taken(chunks))
    + if Taken(chunks) > 0 && chunks[Taken(chunks) - 1].status == Aborted then "" else f.footer
  }
}

/** What the exported file is, however the rows were cut into chunks. */
module ExportedText {
  import opened Text
  import opened Export

  function AllRows(chunks: seq<Chunk>): seq<Row> {
    if chunks == [] then [] else AllRows(chunks[..|chunks| - 1]) + chunks[|chunks| - 1].rows
  }

  /** The columns are settled by the first of n reads: known when the query was opened, known then, or never known. */
  ghost predicate ColumnsInTime(start: Option<Columns>, chunks: seq<Chunk>, n: nat)
    requires n <= |chunks|
  {
    start.Some? || (n > 0 && chunks[0].columns.Some?) || forall k :: 0 <= k < n ==> chunks[k].columns.None?
  }

  function SettledColumns(start: Option<Columns>, chunks: seq<Chunk>): Option<Columns> {
    if start.Some? || chunks == [] then start else chunks[0].columns
  }

  lemma {:induction false} ColumnsSettle(start: Option<Columns>, chunks: seq<Chunk>, n: nat, k: nat)
    requires n <= |chunks| && ColumnsInTime(start, chunks, n) && 1 <= k <= n
    ensures ColumnsAt(start, chunks, k) == SettledColumns(start, chunks)
    decreases k
  {
    if k > 1 {
      ColumnsSettle(start, chunks, n, k - 1);
    }
  }

  lemma {:induction false} TerminatedConcat(f: Format, a: seq<string>, b: seq<string>)
    ensures Terminated(f, a + b) == Terminated(f, a) + Terminated(f, b)
  {
    if b == [] {
      assert a + b == a;
    } else {
      var n := |b| - 1;
      TerminatedConcat(f, a, b[..n]);
      assert (a + b)[..|a + b| - 1] == a + b[..n];
      assert (a + b)[|a + b| - 1] == b[n];
    }
  }

  /** Cutting rows into two chunks changes nothing in their text. */
  lemma BodyConcat(f: Format, a: seq<string>, b: seq<string>)
    ensures Body(f, a + b) == Body(f, a) + RowsText(f, b, !f.needsFinalSeparator && a != [])
  {
    TerminatedConcat(f, a, b);
    if b == [] {
      assert a + b == a;
    } else if !f.needsFinalSeparator && a != [] {
      var n := |b| - 1;
      TerminatedConcat(f, a, b[..n]);
      assert (a + b)[..|a + b| - 1] == a + b[..n] && (a + b)[|a + b| - 1] == b[n];
      var m := |a| - 1;
      assert a == a[..m] + [a[m]];
      Split4(Terminated(f, a[..m]), a[m], f.rowSeparator, Terminated(f, b[..n]), b[n]);
    } else if a == [] {
      assert a + b == b;
    }
  }

  lemma Split4(a: string, b: string, c: string, d: string, e: string)
    ensures (a + (b + c)) + d + e == (a + b) + (c + (d + e))
  {
  }

  lemma FormattedConcat(f: Format, a: seq<Row>, b: seq<Row>, columns: Option<Columns>)
    ensures Formatted(f, a + b, columns) == Formatted(f, a, columns) + Formatted(f, b, columns)
  {
  }

  lemma {:induction false} RowsCounted(chunks: seq<Chunk>)
    ensures RowCount(chunks) == |AllRows(chunks)|
  {
    if chunks != [] {
      RowsCounted(chunks[..|chunks| - 1]);
    }
  }

  /** After n reads the file holds the header once, before all rows read so far. */
  lemma {:induction false} WrittenIsHeaderAndBody(f: Format, start: Option<Columns>, chunks: seq<Chunk>, m: nat, n: nat)
    requires m <= |chunks| && ColumnsInTime(start, chunks, m) && 1 <= n <= m
    ensures var columns := SettledColumns(start, chunks);
      Header(f, start) + Written(f, start, chunks, n)
      == Header(f, columns) + Body(f, Formatted(f, AllRows(chunks[..n]), columns))
    decreases n
  {
    hide Body, Formatted, RowsText, Header;
    var columns, rows := SettledColumns(start, chunks), chunks[n - 1].rows;
    ColumnsSettle(start, chunks, m, n);
    assert chunks[..n][..n - 1] == chunks[..n - 1];
    var before := Formatted(f, AllRows(chunks[..n - 1]), columns);
    var here := RowsText(f, Formatted(f, rows, columns), !f.needsFinalSeparator && RowCount(chunks[..n - 1]) > 0);
    RowsCounted(chunks[..n - 1]);
    FormattedLength(f, AllRows(chunks[..n - 1]), columns);
    FormattedConcat(f, AllRows(chunks[..n - 1]), rows, columns);
    BodyConcat(f, before, Formatted(f, rows, columns));
    assert Body(f, before + Formatted(f, rows, columns)) == Body(f, before) + here;
    if n == 1 {
      FirstChunk(f, start, columns, Body(f, before), here, before);
      assert Written(f, start, chunks, 1) == "" + ChunkText(f, start, chunks, 0);
    } else {
      ColumnsSettle(start, chunks, m, n - 1);
      WrittenIsHeaderAndBody(f, start, chunks, m, n - 1);
      LaterChunk(f, start, chunks, n, columns, here);
      Assoc(Header(f, start), Written(f, start, chunks, n - 1), here);
      Assoc(Header(f, columns), Body(f, before), here);
    }
  }

  lemma FormattedLength(f: Format, rows: seq<Row>, columns: Option<Columns>)
    ensures |Formatted(f, rows, columns)| == |rows|
  {
  }

  lemma FirstChunk(f: Format, start: Option<Columns>, columns: Option<Columns>, none: string, here: string, before: seq<string>)
    requires (start.Some? ==> columns == start) && before == [] && none == Body(f, before)
    ensures Header(f, start) + ("" + ((if start.None? then Header(f, columns) else "") + here)) == Header(f, columns) + (none + here)
  {
  }

  lemma LaterChunk(f: Format, start: Option<Columns>, chunks: seq<Chunk>, n: nat, columns: Option<Columns>, here: string)
    requires 2 <= n <= |chunks|
    requires columns == ColumnsAt(start, chunks, n - 1) == ColumnsAt(start, chunks, n)
    requires here == RowsText(f, Formatted(f, chunks[n - 1].rows, columns), !f.needsFinalSeparator && RowCount(chunks[..n - 1]) > 0)
    ensures Written(f, start, chunks, n) == Written(f, start, chunks, n - 1) + here
  {
    assert "" + here == here;
  }

  /** The loop ends other than by an abort. */
  ghost predicate NotAborted(chunks: seq<Chunk>) {
    Ends(chunks) && (Taken(chunks) > 0 ==> chunks[Taken(chunks) - 1].status != Aborted)
  }

  /** The header once before all rows, the rows, the footer, all for one column list. */
  ghost predicate WellFormed(f: Format, start: Option<Columns>, chunks: seq<Chunk>) {
    var n := Taken(chunks);
    var columns := ColumnsAt(start, chunks, n);
    ExportedFile(f, start, chunks) == Header(f, columns) + Body(f, Formatted(f, AllRows(chunks[..n]), columns)) + f.footer
  }

  /** A run that is not aborted writes header, rows and footer, whatever the chunks. */
  lemma ExportedFileText(f: Format, start: Option<Columns>, chunks: seq<Chunk>)
    requires NotAborted(chunks) && ColumnsInTime(start, chunks, Taken(chunks))
    ensures ColumnsAt(start, chunks, Taken(chunks)) == SettledColumns(start, chunks) && WellFormed(f, start, chunks)
  {
    hide Body, Formatted, Header, Written, AllRows;
    var n := Taken(chunks);
    assert n > 0;
    ColumnsSettle(start, chunks, n, n);
    WrittenIsHeaderAndBody(f, start, chunks, n, n);
  }

  /** A format that shows where the header stands. */
  function HeaderAndRows(): Format {
    Format("", false, _ => "H", "", (_, _) => "r")
  }

  /** Columns that come late leave a row above the header. */
  lemma LateHeader(start: Option<Columns>, chunks: seq<Chunk>)
    requires NotAborted(chunks) && !ColumnsInTime(start, chunks, Taken(chunks))
    ensures !WellFormed(HeaderAndRows(), start, chunks)
  {
    var f, n := HeaderAndRows(), Taken(chunks);
    var k :| 0 <= k < n && chunks[k].columns.Some?;
    ColumnsKnown(start, chunks, k + 1, n);
    assert !EndsLoop(chunks[0]);
    assert Written(f, start, chunks, 1)[0] == 'r' by {
      FirstRowText(f, start, chunks);
    }
    WrittenGrows(f, start, chunks, 1, n);
    assert ExportedFile(f, start, chunks)[0] == 'r';
  }

  lemma FirstRowText(f: Format, start: Option<Columns>, chunks: seq<Chunk>)
    requires chunks != [] && chunks[0].rows != [] && start.None? && chunks[0].columns.None? && f == HeaderAndRows()
    ensures Written(f, start, chunks, 1) != "" && Written(f, start, chunks, 1)[0] == 'r'
  {
    var lines := Formatted(f, chunks[0].rows, None);
    assert Written(f, start, chunks, 1) == "" + ChunkText(f, start, chunks, 0);
    assert RowCount(chunks[..0]) == 0;
    assert lines[0] == "r";
    BodyIsJoin(f, lines);
    assert Join(lines, "")[0] == 'r';
  }

  lemma {:induction false} ColumnsKnown(start: Option<Columns>, chunks: seq<Chunk>, k: nat, n: nat)
    requires 0 < k <= n <= |chunks| && chunks[k - 1].columns.Some?
    ensures ColumnsAt(start, chunks, n).Some?
    decreases n
  {
    if k < n {
      ColumnsKnown(start, chunks, k, n - 1);
    }
  }

  /** The file has that form in every format if and only if the columns are settled by the first read. */
  lemma WellFormedIffColumnsInTime(start: Option<Columns>, chunks: seq<Chunk>)
    requires NotAborted(chunks)
    ensures (forall f: Format :: WellFormed(f, start, chunks)) <==> ColumnsInTime(start, chunks, Taken(chunks))
  {
    hide WellFormed;
    if ColumnsInTime(start, chunks, Taken(chunks)) {
      forall f: Format
        ensures WellFormed(f, start, chunks)
      {
        ExportedFileText(f, start, chunks);
      }
    } else {
      LateHeader(start, chunks);
    }
  }

  /** A row is read before the cursor knows its columns. */
  const LATE_COLUMNS: seq<Chunk> := [Chunk([["1"]], None, Exporting), Chunk([], Some(["c"]), Exporting)]

  lemma LateColumnsBreakForm()
    ensures NotAborted(LATE_COLUMNS) && !ColumnsInTime(None, LATE_COLUMNS, Taken(LATE_COLUMNS))
    ensures !WellFormed(HeaderAndRows(), None, LATE_COLUMNS)
  {
    assert LATE_COLUMNS[1..] == [Chunk([], Some(["c"]), Exporting)];
    assert EndsLoop(LATE_COLUMNS[1]) && Taken(LATE_COLUMNS) == 2;
    assert LATE_COLUMNS[1].columns.Some?;
    LateHeader(None, LATE_COLUMNS);
  }

  /** Any two ways of cutting the same rows give the same file. */
  lemma ChunkingIrrelevant(f: Format, start: Option<Columns>, chunks: seq<Chunk>, start': Option<Columns>, chunks': seq<Chunk>)
    requires NotAborted(chunks) && ColumnsInTime(start, chunks, Taken(chunks))
    requires NotAborted(chunks') && ColumnsInTime(start', chunks', Taken(chunks'))
    requires AllRows(chunks[..Taken(chunks)]) == AllRows(chunks'[..Taken(chunks')])
    requires SettledColumns(start, chunks) == SettledColumns(start', chunks')
    ensures ExportedFile(f, start, chunks) == ExportedFile(f, start', chunks')
    ensures RowCount(chunks[..Taken(chunks)]) == RowCount(chunks'[..Taken(chunks')])
  {
    hide Body, Formatted, Header, ExportedFile;
    ExportedFileText(f, start, chunks);
    ExportedFileText(f, start', chunks');
    RowsCounted(chunks[..Taken(chunks)]);
    RowsCounted(chunks'[..Taken(chunks')]);
  }

  /** Without a final separator the rows are simply joined. */
  lemma {:induction false} BodyIsJoin(f: Format, lines: seq<string>)
    requires !f.needsFinalSeparator
    ensures Body(f, lines) == Join(lines, f.rowSeparator)
  {
    if |lines| > 1 {
      var n := |lines| - 1;
      BodyIsJoin(f, lines[..n]);
      JoinConcat(lines[..n], [lines[n]], f.rowSeparator);
      assert lines[..n] + [lines[n]] == lines;
      Assoc(Terminated(f, lines[..n - 1]), lines[n - 1], f.rowSeparator);
      assert lines[..n][..n - 1] == lines[..n - 1];
    }
  }

  lemma {:induction false} TerminatedIsJoin(f: Format, lines: seq<string>)
    requires lines != []
    ensures Terminated(f, lines) == Join(lines, f.rowSeparator) + f.rowSeparator
  {
    var n := |lines| - 1;
    if n > 0 {
      TerminatedIsJoin(f, lines[..n]);
      JoinConcat(lines[..n], [lines[n]], f.rowSeparator);
      assert lines[..n] + [lines[n]] == lines;
      Assoc(Join(lines[..n], f.rowSeparator) + f.rowSeparator, lines[n], f.rowSeparator);
    } else {
      assert lines[..0] == [] && "" + (lines[0] + f.rowSeparator) == lines[0] + f.rowSeparator;
    }
  }

  /** The rows are joined by the separator; with a final separator there is one more at the end, if there are rows. */
  lemma RowsJoined(f: Format, lines: seq<string>)
    ensures Body(f, lines) == Join(lines, f.rowSeparator) + if f.needsFinalSeparator && lines != [] then f.rowSeparator else ""
  {
    hide Terminated, Join;
    if !f.needsFinalSeparator {
      BodyIsJoin(f, lines);
    } else if lines != [] {
      TerminatedIsJoin(f, lines);
    } else {
      NoLines(f);
    }
  }

  lemma NoLines(f: Format)
    ensures Terminated(f, []) == "" == Join([], f.rowSeparator)
  {
  }

  // ---- Columns that come late.

  /** What one chunk adds to rows that all have the same columns. */
  lemma RowsTextConcat(f: Format, a: seq<string>, b: seq<string>, more: bool)
    ensures RowsText(f, a + b, !f.needsFinalSeparator && more)
         == RowsText(f, a, !f.needsFinalSeparator && more) + RowsText(f, b, !f.needsFinalSeparator && (more || a != []))
  {
    BodyConcat(f, a, b);
    hide Body;
    if a == [] {
      assert a + b == b;
      NoRows(f);
    } else {
      var lead := if !f.needsFinalSeparator && more then f.rowSeparator else "";
      Assoc(lead, Body(f, a), RowsText(f, b, !f.needsFinalSeparator && a != []));
    }
  }

  lemma NoRows(f: Format)
    ensures Body(f, []) == ""
  {
  }

  /** The rows read in chunks m up to n. */
  function RowsBetween(chunks: seq<Chunk>, m: nat, n: nat): seq<Row>
    requires m <= n <= |chunks|
  {
    AllRows(chunks[m..n])
  }

  lemma RowsBetweenMore(chunks: seq<Chunk>, m: nat, n: nat)
    requires m < n <= |chunks|
    ensures RowsBetween(chunks, m, n) == RowsBetween(chunks, m, n - 1) + chunks[n - 1].rows
  {
    assert chunks[m..n][..n - 1 - m] == chunks[m..n - 1];
  }

  lemma {:induction false} RowsAddUp(chunks: seq<Chunk>, m: nat, n: nat)
    requires m <= n <= |chunks|
    ensures RowCount(chunks[..n]) == |AllRows(chunks[..m])| + |RowsBetween(chunks, m, n)|
    decreases n
  {
    if m == n {
      RowsCounted(chunks[..m]);
      assert chunks[m..n] == [];
    } else {
      RowsAddUp(chunks, m, n - 1);
      RowsBetweenMore(chunks, m, n);
      assert chunks[..n][..n - 1] == chunks[..n - 1];
    }
  }

  /** The m-th chunk is the first after which the columns are known. */
  ghost predicate FirstKnown(chunks: seq<Chunk>, m: nat, columns: Columns) {
    && m < |chunks| && chunks[m].columns == Some(columns)
    && forall k :: 0 <= k < m ==> chunks[k].columns.None?
  }

  lemma {:induction false} KnownFrom(chunks: seq<Chunk>, m: nat, columns: Columns, k: nat)
    requires FirstKnown(chunks, m, columns) && k <= |chunks|
    ensures ColumnsAt(None, chunks, k) == if k <= m then None else Some(columns)
  {
    if k > 0 {
      KnownFrom(chunks, m, columns, k - 1);
    }
  }

  lemma RowsBeforeColumns(f: Format, chunks: seq<Chunk>, m: nat, columns: Columns)
    requires FirstKnown(chunks, m, columns)
    ensures Written(f, None, chunks, m) == Body(f, Formatted(f, AllRows(chunks[..m]), None))
  {
    if m > 0 {
      hide Body, Formatted, Written, AllRows;
      WrittenIsHeaderAndBody(f, None, chunks, m, m);
      assert "" + Written(f, None, chunks, m) == Written(f, None, chunks, m);
    } else {
      NoRows(f);
    }
  }

  /** Rows read before the columns, the header, and the rows from there on. */
  function LateText(f: Format, columns: Columns, before: seq<Row>, after: seq<Row>): string {
    Body(f, Formatted(f, before, None)) + f.getHeader(columns)
    + RowsText(f, Formatted(f, after, Some(columns)), !f.needsFinalSeparator && before != [])
  }

  lemma LateTextMore(f: Format, columns: Columns, before: seq<Row>, after: seq<Row>, rows: seq<Row>)
    ensures LateText(f, columns, before, after + rows)
         == LateText(f, columns, before, after)
            + RowsText(f, Formatted(f, rows, Some(columns)), !f.needsFinalSeparator && |before| + |after| > 0)
  {
    FormattedConcat(f, after, rows, Some(columns));
    RowsTextConcat(f, Formatted(f, after, Some(columns)), Formatted(f, rows, Some(columns)), before != []);
    hide Body, RowsText;
  }

  lemma LateTextStarts(f: Format, columns: Columns, before: seq<Row>, rows: seq<Row>)
    ensures LateText(f, columns, before, rows)
         == Body(f, Formatted(f, before, None))
            + (f.getHeader(columns) + RowsText(f, Formatted(f, rows, Some(columns)), !f.needsFinalSeparator && before != []))
  {
    hide Body, RowsText;
  }

  lemma WrittenMore(f: Format, start: Option<Columns>, chunks: seq<Chunk>, n: nat)
    requires 0 < n <= |chunks|
    ensures Written(f, start, chunks, n) == Written(f, start, chunks, n - 1) + ChunkText(f, start, chunks, n - 1)
  {
    hide ChunkText;
  }

  lemma ChunkTextOf(f: Format, chunks: seq<Chunk>, k: nat, known: bool, columns: Columns, more: bool)
    requires k < |chunks| && ColumnsAt(None, chunks, k + 1) == Some(columns)
    requires known == ColumnsAt(None, chunks, k).Some? && more == (RowCount(chunks[..k]) > 0)
    ensures var here := RowsText(f, Formatted(f, chunks[k].rows, Some(columns)), !f.needsFinalSeparator && more);
      ChunkText(f, None, chunks, k) == if known then here else f.getHeader(columns) + here
  {
    hide RowsText, Formatted, ColumnsAt, RowCount;
  }

  lemma ChunkLate(f: Format, chunks: seq<Chunk>, m: nat, columns: Columns, n: nat)
    requires FirstKnown(chunks, m, columns) && m < n <= |chunks|
    ensures var here := RowsText(f, Formatted(f, chunks[n - 1].rows, Some(columns)),
                                 !f.needsFinalSeparator && |AllRows(chunks[..m])| + |RowsBetween(chunks, m, n - 1)| > 0);
      Written(f, None, chunks, n) == Written(f, None, chunks, n - 1) + if n == m + 1 then f.getHeader(columns) + here else here
  {
    hide *;
    KnownFrom(chunks, m, columns, n - 1);
    KnownFrom(chunks, m, columns, n);
    RowsAddUp(chunks, m, n - 1);
    WrittenMore(f, None, chunks, n);
    ChunkTextOf(f, chunks, n - 1, n - 1 > m, columns, RowCount(chunks[..n - 1]) > 0);
  }

  lemma {:induction false} WrittenLate(f: Format, chunks: seq<Chunk>, m: nat, columns: Columns, n: nat)
    requires FirstKnown(chunks, m, columns) && m < n <= |chunks|
    ensures Written(f, None, chunks, n) == LateText(f, columns, AllRows(chunks[..m]), RowsBetween(chunks, m, n))
    decreases n
  {
    hide *;
    var before, rows := AllRows(chunks[..m]), chunks[n - 1].rows;
    ChunkLate(f, chunks, m, columns, n);
    RowsBetweenMore(chunks, m, n);
    if n == m + 1 {
      RowsBeforeColumns(f, chunks, m, columns);
      NothingBetween(chunks, m);
      assert [] + rows == rows;
      LateTextStarts(f, columns, before, rows);
    } else {
      WrittenLate(f, chunks, m, columns, n - 1);
      LateTextMore(f, columns, before, RowsBetween(chunks, m, n - 1), rows);
    }
  }

  lemma NothingBetween(chunks: seq<Chunk>, m: nat)
    requires m <= |chunks|
    ensures RowsBetween(chunks, m, m) == []
  {
    assert chunks[m..m] == [];
  }

  /**
   * Columns that become known with some read put the header there: after the rows read before, which are formatted
   * without columns, and before those of that read.
   */
  lemma LateColumnsText(f: Format, chunks: seq<Chunk>, m: nat, columns: Columns)
    requires NotAborted(chunks) && FirstKnown(chunks, m, columns) && m < Taken(chunks)
    ensures ExportedFile(f, None, chunks)
         == LateText(f, columns, AllRows(chunks[..m]), RowsBetween(chunks, m, Taken(chunks))) + f.footer
  {
    hide Written, LateText;
    WrittenLate(f, chunks, m, columns, Taken(chunks));
    assert "" + Written(f, None, chunks, Taken(chunks)) == Written(f, None, chunks, Taken(chunks));
  }

  /** The loop reads up to the first empty chunk or change of status, and no further. */
  lemma ReadsUntilEnd(chunks: seq<Chunk>)
    requires Ends(chunks)
    ensures var n := Taken(chunks);
      && 0 < n <= |chunks| && (chunks[n - 1].rows == [] || chunks[n - 1].status != Exporting)
      && forall k :: 0 <= k < n - 1 ==> chunks[k].rows != [] && chunks[k].status == Exporting
  {
    var k :| 0 <= k < |chunks| && EndsLoop(chunks[k]);
    if Taken(chunks) == |chunks| {
      TakenToTheEnd(chunks, k);
    }
  }

  lemma {:induction false} TakenToTheEnd(chunks: seq<Chunk>, k: nat)
    requires k < |chunks| && EndsLoop(chunks[k])
    ensures 0 < Taken(chunks) <= k + 1 && EndsLoop(chunks[Taken(chunks) - 1])
  {
    if !EndsLoop(chunks[0]) {
      TakenToTheEnd(chunks[1..], k - 1);
    }
  }

  ghost predicate SameAnswers(a: seq<Chunk>, b: seq<Chunk>, n: nat)
    requires n <= |a| && n <= |b|
  {
    forall k :: 0 <= k < n ==> a[k].rows == b[k].rows && a[k].columns == b[k].columns
  }

  lemma {:induction false} SameCount(a: seq<Chunk>, b: seq<Chunk>, n: nat)
    requires n <= |a| && n <= |b| && SameAnswers(a, b, n)
    ensures RowCount(a[..n]) == RowCount(b[..n])
  {
    if n > 0 {
      SameCount(a, b, n - 1);
      assert a[..n][..n - 1] == a[..n - 1] && b[..n][..n - 1] == b[..n - 1];
    }
  }

  lemma {:induction false} SameWritten(f: Format, start: Option<Columns>, a: seq<Chunk>, b: seq<Chunk>, n: nat)
    requires n <= |a| && n <= |b| && SameAnswers(a, b, n)
    ensures Written(f, start, a, n) == Written(f, start, b, n)
    ensures ColumnsAt(start, a, n) == ColumnsAt(start, b, n)
    ensures RowCount(a[..n]) == RowCount(b[..n])
  {
    hide RowCount, ChunkText;
    SameCount(a, b, n);
    if n > 0 {
      SameWritten(f, start, a, b, n - 1);
      SameChunkText(f, start, a, b, n - 1);
    }
  }

  lemma SameChunkText(f: Format, start: Option<Columns>, a: seq<Chunk>, b: seq<Chunk>, k: nat)
    requires k < |a| && k < |b| && a[k].rows == b[k].rows && a[k].columns == b[k].columns
    requires ColumnsAt(start, a, k) == ColumnsAt(start, b, k) && RowCount(a[..k]) == RowCount(b[..k])
    ensures ChunkText(f, start, a, k) == ChunkText(f, start, b, k)
  {
  }

  lemma {:induction false} WrittenGrows(f: Format, start: Option<Columns>, chunks: seq<Chunk>, m: nat, n: nat)
    requires m <= n <= |chunks|
    ensures Written(f, start, chunks, m) <= Written(f, start, chunks, n)
    decreases n
  {
    hide ChunkText;
    if m < n {
      WrittenGrows(f, start, chunks, m, n - 1);
    }
  }

  /** A run aborted after n chunks leaves a prefix of the file the whole run would have written. */
  lemma AbortedFileIsPrefix(f: Format, start: Option<Columns>, whole: seq<Chunk>, cut: seq<Chunk>)
    requires Ends(whole) && Ends(cut) && Taken(cut) <= Taken(whole) && SameAnswers(cut, whole, Taken(cut))
    requires Taken(cut) > 0 && cut[Taken(cut) - 1].status == Aborted
    ensures ExportedFile(f, start, cut) <= ExportedFile(f, start, whole)
  {
    hide Written, Header;
    SameWritten(f, start, cut, whole, Taken(cut));
    WrittenGrows(f, start, whole, Taken(cut), Taken(whole));
    var a, b := Written(f, start, whole, Taken(cut)), Written(f, start, whole, Taken(whole));
    assert Header(f, start) + a + "" == Header(f, start) + a;
    assert b == a + b[|a|..];
    assert Header(f, start) + a <= Header(f, start) + b;
  }
}

/** Column names made unique by numbering, and rows turned into objects by them. */
module ExportColumns {
  import opened Text

  function Count(names: seq<string>, name: string): nat {
    if names == [] then 0
    else Count(names[..|names| - 1], name) + if names[|names| - 1] == name then 1 else 0
  }

  function Numbered(name: string, k: nat): string {
    name + "_" + Dec(k)
  }

  /** The i-th name, with the number of its occurrence from the second one on. */
  function Deduped(names: seq<string>, i: nat): string
    requires i < |names|
  {
    var counter := Count(names[..i + 1], names[i]);
    if counter > 1 then Numbered(names[i], counter) else names[i]
  }

  /** The positions before n at which a name stands. */
  function Places(names: seq<string>, n: nat, name: string): set<nat>
    requires n <= |names|
  {
    set k | 0 <= k < n && names[k] == name
  }

  lemma PlacesMore(names: seq<string>, n: nat, name: string)
    requires n < |names|
    ensures |Places(names, n + 1, name)| == |Places(names, n, name)| + if names[n] == name then 1 else 0
  {
    assert Places(names, n + 1, name) == Places(names, n, name) + if names[n] == name then {n} else {};
  }

  lemma {:induction false} CountIsCardinality(names: seq<string>, n: nat, name: string)
    requires n <= |names|
    ensures Count(names[..n], name) == |Places(names, n, name)|
    decreases n
  {
    if n > 0 {
      CountIsCardinality(names, n - 1, name);
      PlacesMore(names, n - 1, name);
      assert names[..n][..n - 1] == names[..n - 1];
      hide Places;
    }
  }

  /** A name is left alone where it stands first, and numbered by how often it has come before, plus one, elsewhere. */
  lemma NumberedByOccurrence(names: seq<string>, i: nat)
    requires i < |names|
    ensures var earlier := |Places(names, i, names[i])|;
      Deduped(names, i) == if earlier == 0 then names[i] else names[i] + "_" + Dec(earlier + 1)
  {
    CountIsCardinality(names, i, names[i]);
    assert names[..i + 1][..i] == names[..i];
    hide Dec;
  }

  predicate Repeated(names: seq<string>, i: nat)
    requires i < |names|
  {
    Count(names[..i + 1], names[i]) > 1
  }

  method DedupedColumns(columns: seq<string>) returns (result: seq<string>)
    ensures |result| == |columns| && forall i :: 0 <= i < |columns| ==> result[i] == Deduped(columns, i)
  {
    hide Numbered;
    var found: map<string, nat> := map[];
    result := [];
    for i := 0 to |columns|
      invariant |result| == i && forall k :: 0 <= k < i ==> result[k] == Deduped(columns, k)
      invariant forall name :: name in found ==> found[name] == Count(columns[..i], name)
      invariant forall name :: name !in found ==> Count(columns[..i], name) == 0
    {
      var c := columns[i];
      assert columns[..i + 1][..i] == columns[..i];
      found := found[c := (if c in found then found[c] else 0) + 1];
      var counter := found[c];
      result := result + [if counter > 1 then Numbered(c, counter) else c];
    }
  }

  lemma {:induction false} CountGrows(names: seq<string>, name: string, i: nat, k: nat)
    requires i <= k <= |names|
    ensures Count(names[..i], name) <= Count(names[..k], name)
    decreases k
  {
    if i < k {
      assert names[..k][..k - 1] == names[..k - 1];
      CountGrows(names, name, i, k - 1);
    }
  }

  lemma LaterCountsMore(names: seq<string>, i: nat, k: nat)
    requires i < k < |names| && names[i] == names[k]
    ensures 1 <= Count(names[..i + 1], names[i]) < Count(names[..k + 1], names[k])
  {
    assert names[..k + 1][..k] == names[..k] && names[..i + 1][..i] == names[..i];
    CountGrows(names, names[i], i + 1, k);
  }

  lemma {:induction false} FirstOccurrence(names: seq<string>, name: string) returns (k: nat)
    requires name in names
    ensures k < |names| && names[k] == name && !Repeated(names, k)
  {
    k := 0;
    while names[k] != name
      invariant k < |names| && name !in names[..k] && name in names[k..]
      decreases |names| - k
    {
      assert names[k..] == [names[k]] + names[k + 1..];
      k := k + 1;
    }
    CountAbsent(names[..k], name);
    assert names[..k + 1][..k] == names[..k];
  }

  lemma {:induction false} CountAbsent(names: seq<string>, name: string)
    requires name !in names
    ensures Count(names, name) == 0
  {
    if names != [] {
      CountAbsent(names[..|names| - 1], name);
    }
  }

  /** Numerals hold no underscore, so the last one of a numbered name is where its name ends. */
  lemma LastUnderscore(a: string, j: nat, b: string, k: nat)
    requires Numbered(a, j) == Numbered(b, k)
    ensures |a| <= |b|
  {
    var s := Numbered(a, j);
    assert s[|a|] == '_';
    forall i | |b| < i < |s|
      ensures s[i] != '_'
    {
      assert s[i] == Dec(k)[i - |b| - 1];
    }
  }

  lemma NumberedInjective(a: string, j: nat, b: string, k: nat)
    requires Numbered(a, j) == Numbered(b, k)
    ensures a == b && j == k
  {
    LastUnderscore(a, j, b, k);
    LastUnderscore(b, k, a, j);
    var s := Numbered(a, j);
    assert s[..|a|] == a && s[..|b|] == b;
    assert s[|a| + 1..] == Dec(j) && s[|b| + 1..] == Dec(k);
    DecInjective(j, k);
  }

  ghost predicate Distinct(names: seq<string>) {
    forall i, k :: 0 <= i < k < |names| ==> Deduped(names, i) != Deduped(names, k)
  }

  /** No generated name is also the name of a column. */
  ghost predicate NoClash(names: seq<string>) {
    forall i :: 0 <= i < |names| && Repeated(names, i) ==> Deduped(names, i) !in names
  }

  /** The names come out pairwise distinct if and only if no generated one equals an original one. */
  lemma DistinctIffNoClash(names: seq<string>)
    ensures Distinct(names) <==> NoClash(names)
  {
    if NoClash(names) {
      forall i, k | 0 <= i < k < |names|
        ensures Deduped(names, i) != Deduped(names, k)
      {
        if names[i] == names[k] {
          LaterCountsMore(names, i, k);
        }
        if Repeated(names, i) && Repeated(names, k) && Deduped(names, i) == Deduped(names, k) {
          NumberedInjective(names[i], Count(names[..i + 1], names[i]), names[k], Count(names[..k + 1], names[k]));
        }
      }
    }
    forall i | 0 <= i < |names| && Repeated(names, i) && Deduped(names, i) in names
      ensures !Distinct(names)
    {
      var k := FirstOccurrence(names, Deduped(names, i));
      assert Deduped(names, k) == Deduped(names, i) && i != k;
      assert if i < k then Deduped(names, i) == Deduped(names, k) else k < i && Deduped(names, k) == Deduped(names, i);
    }
  }

  /** Three columns two of which come out with the same name. */
  lemma ClashingNames()
    ensures var names := ["a", "a", "a_2"]; !NoClash(names) && Deduped(names, 1) == Deduped(names, 2) == "a_2"
  {
    var names := ["a", "a", "a_2"];
    assert names[..1] == ["a"] && names[..2] == ["a", "a"] && names[..3] == names;
    assert ["a"][..0] == [] && ["a", "a"][..1] == ["a"] && names[..3][..2] == ["a", "a"];
    assert Count(["a"], "a") == 1 && Count(["a", "a"], "a") == 2;
    assert Count(["a"], "a_2") == 0 && Count(["a", "a"], "a_2") == 0 && Count(names, "a_2") == 1;
    assert Dec(2) == "2";
    assert Deduped(names, 1) == "a_2" == names[2];
    assert Repeated(names, 1);
  }

  /** `_.zipObject`: later cells overwrite earlier ones of the same name; a missing cell is undefined. */
  function ZipObject(names: seq<string>, row: seq<string>, n: nat): map<string, Option<string>>
    requires n <= |names|
  {
    if n == 0 then map[]
    else ZipObject(names, row, n - 1)[names[n - 1] := if n - 1 < |row| then Some(row[n - 1]) else None]
  }

  function DedupedNames(columns: seq<string>): (r: seq<string>)
    ensures |r| == |columns| && forall i :: 0 <= i < |r| ==> r[i] == Deduped(columns, i)
  {
    seq(|columns|, i requires 0 <= i < |columns| => Deduped(columns, i))
  }

  /** The names a row is keyed by: the deduplicated columns, or col_1, col_2 and so on when there are none. */
  function RowNames(columns: seq<string>, row: seq<string>): seq<string> {
    if columns != [] then DedupedNames(columns) else seq(|row|, i requires 0 <= i < |row| => Numbered("col", i + 1))
  }

  function RowToObject(columns: seq<string>, row: seq<string>): map<string, Option<string>> {
    ZipObject(RowNames(columns, row), row, |RowNames(columns, row)|)
  }

  lemma {:induction false} ZipKeeps(names: seq<string>, row: seq<string>, n: nat, i: nat)
    requires i < n <= |names| && i < |row|
    requires forall k :: i < k < n ==> names[k] != names[i]
    ensures names[i] in ZipObject(names, row, n) && ZipObject(names, row, n)[names[i]] == Some(row[i])
  {
    if i < n - 1 {
      ZipKeeps(names, row, n - 1, i);
    }
  }

  /** Every cell of a row stands under its own name. */
  ghost predicate KeepsCells(columns: seq<string>, row: seq<string>) {
    var obj, names := RowToObject(columns, row), RowNames(columns, row);
    |names| == |row| && forall i :: 0 <= i < |row| ==> names[i] in obj && obj[names[i]] == Some(row[i])
  }

  lemma DistinctNames(columns: seq<string>, row: seq<string>, i: nat, k: nat)
    requires Distinct(columns) && i < k < |RowNames(columns, row)|
    ensures RowNames(columns, row)[i] != RowNames(columns, row)[k]
  {
    if columns == [] && Numbered("col", i + 1) == Numbered("col", k + 1) {
      NumberedInjective("col", i + 1, "col", k + 1);
    }
  }

  lemma DistinctKeepsCells(columns: seq<string>, row: seq<string>)
    requires Distinct(columns) && (columns == [] || |row| == |columns|)
    ensures KeepsCells(columns, row)
  {
    hide Distinct, ZipObject;
    var names := RowNames(columns, row);
    forall i | 0 <= i < |row|
      ensures names[i] in RowToObject(columns, row) && RowToObject(columns, row)[names[i]] == Some(row[i])
    {
      forall k | i < k < |names|
        ensures names[k] != names[i]
      {
        DistinctNames(columns, row, i, k);
      }
      ZipKeeps(names, row, |names|, i);
    }
  }

  lemma ClashLosesCell(columns: seq<string>, i: nat, k: nat) returns (row: seq<string>)
    requires i < k < |columns| && Deduped(columns, i) == Deduped(columns, k)
    ensures |row| == |columns| && !KeepsCells(columns, row)
  {
    hide ZipObject;
    row := seq(|columns|, n => if n == i then "x" else "");
    var names := RowNames(columns, row);
    assert names[i] == names[k] && row[i] != row[k];
  }

  /** No full-width row loses a cell, whatever its cells, exactly when no generated name clashes with a column. */
  lemma KeepsEveryCellIffNoClash(columns: seq<string>)
    ensures NoClash(columns) <==> forall row: seq<string> :: (columns == [] || |row| == |columns|) ==> KeepsCells(columns, row)
  {
    hide KeepsCells;
    DistinctIffNoClash(columns);
    if NoClash(columns) {
      forall row: seq<string> | columns == [] || |row| == |columns|
        ensures KeepsCells(columns, row)
      {
        DistinctKeepsCells(columns, row);
      }
    } else {
      var i, k :| 0 <= i < k < |columns| && Deduped(columns, i) == Deduped(columns, k);
      var row := ClashLosesCell(columns, i, k);
    }
  }

  lemma {:induction false} ZipKeys(names: seq<string>, row: seq<string>, n: nat)
    requires n <= |names|
    ensures forall name :: name in ZipObject(names, row, n) <==> name in names[..n]
    ensures forall name :: name in ZipObject(names, row, n) && ZipObject(names, row, n)[name].Some? ==>
              exists i :: 0 <= i < n && i < |row| && names[i] == name && ZipObject(names, row, n)[name] == Some(row[i])
  {
    if n > 0 {
      ZipKeys(names, row, n - 1);
      assert names[..n] == names[..n - 1] + [names[n - 1]];
    }
  }

  /** A row's object has the column names for keys, each with one of the cells under that name; cells beyond them are dropped. */
  lemma ObjectHoldsCells(columns: seq<string>, row: seq<string>)
    ensures forall name :: name in RowToObject(columns, row) <==> name in RowNames(columns, row)
    ensures forall name :: name in RowToObject(columns, row) && RowToObject(columns, row)[name].Some? ==>
              exists i :: 0 <= i < |RowNames(columns, row)| && i < |row| && RowNames(columns, row)[i] == name
                          && RowToObject(columns, row)[name] == Some(row[i])
  {
    var names := RowNames(columns, row);
    ZipKeys(names, row, |names|);
    assert names[..|names|] == names;
  }

  /** Without columns the cells are numbered from one. */
  lemma UnnamedCells(row: seq<string>, i: nat)
    requires i < |row|
    ensures var key := "col_" + Dec(i + 1); key in RowToObject([], row) && RowToObject([], row)[key] == Some(row[i])
  {
    DistinctKeepsCells([], row);
    assert RowNames([], row)[i] == Numbered("col", i + 1);
    assert "col" + "_" == "col_";
    hide Dec, RowToObject;
  }
}
