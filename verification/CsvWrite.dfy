/**
 * The CSV writer of apps/api/src/lib/csv.ts, and the round trip through the reader.
 *
 * A cell value is `None` for null and undefined, else the string `String(value)` makes of it.
 */
module CsvWrite {
  import opened Prelude
  import opened CsvParse

  // ----- the writer

  predicate IsFormulaPrefix(ch: char) {
    ch in ['=', '+', '-', '@', '\t', '\r']
  }

  /** The text of a cell once a leading apostrophe has disarmed it. */
  function Neutralised(value: Option<string>): string {
    match value
    case None => ""
    case Some(str) => if str != "" && IsFormulaPrefix(str[0]) then ['\''] + str else str
  }

  predicate IsSpecial(ch: char) {
    ch in [QUOTE, DELIMITER, LF, CR]
  }

  predicate NeedsQuoting(str: string) {
    exists i :: 0 <= i < |str| && IsSpecial(str[i])
  }

  function Doubled(ch: char): string {
    if ch == QUOTE then [QUOTE, QUOTE] else [ch]
  }

  function DoubleQuotes(str: string): string {
    if str == "" then "" else Doubled(str[0]) + DoubleQuotes(str[1..])
  }

  function EscapeCsvValue(value: Option<string>): string {
    var str := Neutralised(value);
    if NeedsQuoting(str) then [QUOTE] + DoubleQuotes(str) + [QUOTE] else str
  }

  function Join(parts: seq<string>, separator: string): string {
    if parts == [] then "" else if |parts| == 1 then parts[0] else parts[0] + separator + Join(parts[1..], separator)
  }

  function Map<A, B>(f: A -> B, s: seq<A>): seq<B> {
    seq(|s|, i requires 0 <= i < |s| => f(s[i]))
  }

  function CsvRow(values: seq<Option<string>>): string {
    Join(Map(EscapeCsvValue, values), ",") + "\r\n"
  }

  function CsvText(rows: seq<seq<Option<string>>>): string {
    Concat(Map(CsvRow, rows))
  }

  /** One chunk for the header and one for each page that has rows. */
  method StreamCsv(header: seq<Option<string>>, pages: seq<seq<seq<Option<string>>>>) returns (chunks: seq<string>)
    ensures chunks == [CsvRow(header)] + Map(CsvText, Filter(HasRows, pages))
    ensures Concat(chunks) == CsvText([header] + Concat(pages))
    ensures forall i :: 0 <= i < |chunks| ==> chunks[i] != ""
  {
    chunks := [CsvRow(header)];
    ConcatOne(CsvRow(header));
    CsvTextAppend([], [header]);
    assert [header] + Concat(pages[..0]) == [header];
    for p := 0 to |pages|
      invariant chunks == [CsvRow(header)] + Map(CsvText, Filter(HasRows, pages[..p]))
      invariant Concat(chunks) == CsvText([header] + Concat(pages[..p]))
      invariant forall i :: 0 <= i < |chunks| ==> chunks[i] != ""
    {
      var chunk := "";
      var page := pages[p];
      for r := 0 to |page|
        invariant chunk == CsvText(page[..r])
      {
        chunk := chunk + CsvRow(page[r]);
        CsvTextAppend(page[..r], [page[r]]);
        assert page[..r + 1] == page[..r] + [page[r]];
      }
      assert page[..|page|] == page;
      ghost var before := chunks;
      if chunk != "" { chunks := chunks + [chunk]; }
      OnePageMore(pages, p);
      ConcatAppend(before, [chunk]);
      ConcatOne(chunk);
      PagesAppend([header], pages, p);
    }
    assert pages[..|pages|] == pages;
  }

  predicate HasRows(page: seq<seq<Option<string>>>) {
    page != []
  }

  lemma OnePageMore(pages: seq<seq<seq<Option<string>>>>, p: nat)
    requires p < |pages|
    ensures CsvText(pages[p]) == "" <==> pages[p] == []
    ensures Map(CsvText, Filter(HasRows, pages[..p + 1])) ==
            Map(CsvText, Filter(HasRows, pages[..p])) + if pages[p] == [] then [] else [CsvText(pages[p])]
  {
    var page := pages[p];
    assert pages[..p + 1] == pages[..p] + [page];
    FilterConcat(HasRows, pages[..p], [page]);
    assert [page][1..] == [];
    if page != [] {
      assert page == [page[0]] + page[1..];
      CsvTextAppend([], [page[0]]);
      CsvTextAppend([page[0]], page[1..]);
    } else {
      assert Map(CsvRow, page) == [];
    }
  }

  lemma PagesAppend(header: seq<seq<Option<string>>>, pages: seq<seq<seq<Option<string>>>>, p: nat)
    requires p < |pages|
    ensures CsvText(header + Concat(pages[..p + 1])) == CsvText(header + Concat(pages[..p])) + CsvText(pages[p])
  {
    assert pages[..p + 1] == pages[..p] + [pages[p]];
    ConcatAppend(pages[..p], [pages[p]]);
    ConcatOne(pages[p]);
    CsvTextAppend(header + Concat(pages[..p]), pages[p]);
    assert header + Concat(pages[..p + 1]) == header + Concat(pages[..p]) + pages[p];
  }

  lemma CsvTextAppend(a: seq<seq<Option<string>>>, b: seq<seq<Option<string>>>)
    ensures CsvText(a + b) == CsvText(a) + CsvText(b)
    ensures |b| == 1 ==> CsvText(b) == CsvRow(b[0])
  {
    assert Map(CsvRow, a + b) == Map(CsvRow, a) + Map(CsvRow, b);
    ConcatAppend(Map(CsvRow, a), Map(CsvRow, b));
    if |b| == 1 { assert Map(CsvRow, b)[1..] == []; }
  }

  // ----- every RFC 4180 rendering of a table (section 2, rules 1, 2, 4 to 7)

  /** How one field is written: as it is, or between quotes. */
  datatype Cell = Bare(text: string) | Quoted(text: string)

  predicate Allowed(cell: Cell) {
    cell.Bare? ==> !NeedsQuoting(cell.text)
  }

  function Written(cell: Cell): string {
    match cell
    case Bare(text) => text
    case Quoted(text) => [QUOTE] + DoubleQuotes(text) + [QUOTE]
  }

  /** A line: its cells and whether it ends in CRLF rather than LF. */
  datatype Row = Row(cells: seq<Cell>, crlf: bool)

  function Eol(row: Row): string {
    if row.crlf then "\r\n" else "\n"
  }

  function Cells(cells: seq<Cell>): string {
    if cells == [] then "" else if |cells| == 1 then Written(cells[0])
    else Written(cells[0]) + [DELIMITER] + Cells(cells[1..])
  }

  function Rendered(rows: seq<Row>): string {
    if rows == [] then "" else Cells(rows[0].cells) + Eol(rows[0]) + Rendered(rows[1..])
  }

  /** A row with no cells, or one empty unquoted cell, is written as a blank line. */
  predicate IsBlank(row: Row) {
    row.cells == [] || (|row.cells| == 1 && row.cells[0] == Bare(""))
  }

  function Texts(cells: seq<Cell>): seq<string> {
    if cells == [] then [] else [cells[0].text] + Texts(cells[1..])
  }

  /** The values of the rows that are not blank. */
  function Shown(rows: seq<Row>): seq<seq<string>> {
    if rows == [] then []
    else (if IsBlank(rows[0]) then [] else [Texts(rows[0].cells)]) + Shown(rows[1..])
  }

  function Values(records: seq<CsvRecord>): seq<seq<string>> {
    if records == [] then [] else [records[0].values] + Values(records[1..])
  }

  predicate AllAllowed(rows: seq<Row>) {
    forall r, c :: 0 <= r < |rows| && 0 <= c < |rows[r].cells| ==> Allowed(rows[r].cells[c])
  }

  // ----- reading one field

  predicate AtFieldStart(s: Scan) {
    !s.inQuotes && !s.pendingQuote && s.field == "" && (!s.started ==> s.fields == [])
  }

  /** Outside quotes, ordinary characters pile up in the field. */
  lemma {:induction false} ReadBare(s: Scan, text: string)
    requires !s.inQuotes && !s.pendingQuote && (s.field != "" ==> s.started)
    requires !NeedsQuoting(text)
    ensures Feed(s, text).0 == (if text == "" then s else Begin(s)).(field := s.field + text)
    ensures Feed(s, text).1 == []
    decreases |text|
  {
    if text == "" {
      assert s.field + text == s.field;
    } else {
      assert IsSpecial(text[0]) ==> NeedsQuoting(text);
      assert NeedsQuoting(text[1..]) ==> NeedsQuoting(text) by {
        if i :| 0 <= i < |text[1..]| && IsSpecial(text[1..][i]) { assert IsSpecial(text[i + 1]); }
      }
      ReadBare(Step(s, text[0]).0, text[1..]);
      assert s.field + [text[0]] + text[1..] == s.field + text;
    }
  }

  lemma ReadOneDoubled(s: Scan, ch: char)
    requires s.inQuotes && !s.pendingQuote
    ensures Feed(s, Doubled(ch)).0 ==
            s.(field := s.field + [ch], physicalLine := s.physicalLine + (if ch == LF then 1 else 0))
    ensures Feed(s, Doubled(ch)).1 == []
  {
    if ch == QUOTE {
      assert [QUOTE, QUOTE] == [QUOTE] + [QUOTE];
      FeedConcat(s, [QUOTE], [QUOTE]);
      FeedOne(s, QUOTE);
      FeedOne(Step(s, QUOTE).0, QUOTE);
    } else {
      FeedOne(s, ch);
    }
  }

  /** The field has grown by `text`. */
  function Grown(s: Scan, text: string): Scan {
    s.(field := s.field + text, physicalLine := s.physicalLine + Newlines(text))
  }

  lemma GrownTwice(s: Scan, text: string)
    requires text != ""
    ensures Grown(Grown(s, [text[0]]), text[1..]) == Grown(s, text)
  {
    assert [text[0]] + text[1..] == text;
    Associates(s.field, [text[0]], text[1..]);
    NewlinesConcat([text[0]], text[1..]);
  }

  /** Inside quotes everything is data, doubled quotes included. */
  lemma {:induction false} ReadDoubled(s: Scan, text: string)
    requires s.inQuotes && !s.pendingQuote
    ensures Feed(s, DoubleQuotes(text)).0 == Grown(s, text)
    ensures Feed(s, DoubleQuotes(text)).1 == []
    decreases |text|
  {
    if text == "" {
      assert s.field + text == s.field;
    } else {
      ReadOneDoubled(s, text[0]);
      assert Newlines([text[0]]) == if text[0] == LF then 1 else 0 by { assert [text[0]][1..] == ""; }
      FeedConcat(s, Doubled(text[0]), DoubleQuotes(text[1..]));
      ReadDoubled(Grown(s, [text[0]]), text[1..]);
      GrownTwice(s, text);
    }
  }

  /** Where the parser stands once a field has been read, before its delimiter. */
  predicate HasRead(s: Scan, cell: Cell, t: Scan) {
    && t.field == cell.text
    && t.fields == s.fields
    && t.inQuotes == t.pendingQuote == cell.Quoted?
    && t.started == (s.started || cell != Bare(""))
  }

  lemma ReadCell(s: Scan, cell: Cell)
    requires AtFieldStart(s) && Allowed(cell)
    ensures Feed(s, Written(cell)).1 == []
    ensures HasRead(s, cell, Feed(s, Written(cell)).0)
  {
    match cell
    case Bare(text) =>
      ReadBare(s, text);
      assert s.field + text == text;
    case Quoted(text) =>
      var inside := Step(s, QUOTE).0;
      FeedConcat(s, [QUOTE], DoubleQuotes(text));
      FeedConcat(s, [QUOTE] + DoubleQuotes(text), [QUOTE]);
      FeedOne(s, QUOTE);
      ReadDoubled(inside, text);
      assert s.field + text == text;
      FeedOne(Feed(inside, DoubleQuotes(text)).0, QUOTE);
  }

  // ----- reading a row, then a table

  lemma ReadEol(s: Scan, cell: Cell, t: Scan, row: Row)
    requires AtFieldStart(s) && HasRead(s, cell, t)
    ensures AtFieldStart(Feed(t, Eol(row)).0) && !Feed(t, Eol(row)).0.started
    ensures Values(Feed(t, Eol(row)).1) == if t.started then [s.fields + [cell.text]] else []
  {
    FeedOne(t, LF);
    FeedOne(t, CR);
    FeedConcat(t, [CR], [LF]);
    FeedOne(Step(t, CR).0, LF);
    assert "\r\n" == [CR] + [LF];
  }

  /** A field and the comma after it. */
  lemma ReadDelimited(s: Scan, cell: Cell)
    requires AtFieldStart(s) && Allowed(cell)
    ensures Feed(s, Written(cell) + [DELIMITER]).1 == []
    ensures var t := Feed(s, Written(cell) + [DELIMITER]).0;
            AtFieldStart(t) && t.started && t.fields == s.fields + [cell.text]
  {
    ReadCell(s, cell);
    FeedConcat(s, Written(cell), [DELIMITER]);
    FeedOne(Feed(s, Written(cell)).0, DELIMITER);
  }

  /** After `text` the row is complete and has been given out, unless it was blank. */
  predicate RowIsRead(s: Scan, row: Row, text: string) {
    && AtFieldStart(Feed(s, text).0) && !Feed(s, text).0.started
    && Values(Feed(s, text).1) == if s.started || !IsBlank(row) then [s.fields + Texts(row.cells)] else []
  }

  /** The last field of a row and the line end. */
  lemma ReadLast(s: Scan, row: Row)
    requires AtFieldStart(s) && |row.cells| == 1 && Allowed(row.cells[0])
    ensures RowIsRead(s, row, Written(row.cells[0]) + Eol(row))
  {
    var cell := row.cells[0];
    ReadCell(s, cell);
    FeedConcat(s, Written(cell), Eol(row));
    ReadEol(s, cell, Feed(s, Written(cell)).0, row);
    assert row.cells == [cell] && Texts(row.cells) == [cell.text];
  }

  /** One more field in front of a row. */
  lemma FieldBeforeRow(s: Scan, row: Row, first: string, rest: Row, text: string)
    requires |row.cells| > 1 && rest == row.(cells := row.cells[1..])
    requires Feed(s, first).1 == [] && Feed(s, first).0.started
    requires Feed(s, first).0.fields == s.fields + [row.cells[0].text]
    requires RowIsRead(Feed(s, first).0, rest, text)
    ensures RowIsRead(s, row, first + text)
  {
    var next, records := Feed(s, first).0, Feed(Feed(s, first).0, text).1;
    FeedConcat(s, first, text);
    assert Feed(s, first + text).1 == records;
    Associates(s.fields, [row.cells[0].text], Texts(rest.cells));
    assert Values(records) == [s.fields + Texts(row.cells)];
  }

  lemma {:induction false} ReadRow(s: Scan, row: Row)
    requires AtFieldStart(s) && row.cells != []
    requires forall c :: 0 <= c < |row.cells| ==> Allowed(row.cells[c])
    ensures RowIsRead(s, row, Cells(row.cells) + Eol(row))
    decreases |row.cells|
  {
    if |row.cells| == 1 {
      ReadLast(s, row);
    } else {
      var first, rest := Written(row.cells[0]) + [DELIMITER], row.(cells := row.cells[1..]);
      ReadDelimited(s, row.cells[0]);
      ReadRow(Feed(s, first).0, rest);
      FieldBeforeRow(s, row, first, rest, Cells(rest.cells) + Eol(row));
      Associates(first, Cells(rest.cells), Eol(row));
    }
  }

  lemma {:induction false} ValuesConcat(a: seq<CsvRecord>, b: seq<CsvRecord>)
    ensures Values(a + b) == Values(a) + Values(b)
  {
    if a == [] {
      assert a + b == b;
    } else {
      ValuesConcat(a[1..], b);
      assert (a + b)[1..] == a[1..] + b;
    }
  }

  lemma {:induction false} ReadRows(s: Scan, rows: seq<Row>)
    requires AtFieldStart(s) && !s.started && AllAllowed(rows)
    ensures AtFieldStart(Feed(s, Rendered(rows)).0) && !Feed(s, Rendered(rows)).0.started
    ensures Values(Feed(s, Rendered(rows)).1) == Shown(rows)
    decreases |rows|
  {
    if rows != [] {
      var row := rows[0];
      var line := Cells(row.cells) + Eol(row);
      if row.cells == [] {
        assert line == Eol(row);
        ReadEol(s, Bare(""), s, row);
      } else {
        ReadRow(s, row);
        assert s.fields + Texts(row.cells) == Texts(row.cells);
      }
      FeedConcat(s, line, Rendered(rows[1..]));
      ReadRows(Feed(s, line).0, rows[1..]);
      ValuesConcat(Feed(s, line).1, Feed(Feed(s, line).0, Rendered(rows[1..])).1);
    }
  }

  /** However a table is quoted, and whichever line ends it uses, it reads back as its values. */
  lemma RenderingsReadBack(rows: seq<Row>, chunks: seq<string>)
    requires AllAllowed(rows)
    requires Concat(chunks) == Rendered(rows) && (chunks != [] ==> chunks[0] != "")
    requires Rendered(rows) != "" ==> Rendered(rows)[0] != BOM
    ensures Values(ReadChunks(chunks).records) == Shown(rows)
    ensures ReadChunks(chunks).ending == Ok(None)
  {
    ChunkingIsInvisible(chunks);
    ReadRows(FRESH, rows);
  }

  lemma {:induction false} RenderedAppend(rows: seq<Row>, last: Row)
    ensures Rendered(rows + [last]) == Rendered(rows) + (Cells(last.cells) + Eol(last))
  {
    if rows == [] {
      assert [last][1..] == [];
    } else {
      RenderedAppend(rows[1..], last);
      assert (rows + [last])[1..] == rows[1..] + [last];
      Associates(Cells(rows[0].cells) + Eol(rows[0]), Rendered(rows[1..]), Cells(last.cells) + Eol(last));
    }
  }

  /** The last line of a file may do without its line end, as that of most files does. */
  lemma LastLineMayBeOpen(rows: seq<Row>, cells: seq<Cell>, chunks: seq<string>)
    requires AllAllowed(rows + [Row(cells, false)])
    requires Concat(chunks) == Rendered(rows) + Cells(cells) && (chunks != [] ==> chunks[0] != "")
    requires Concat(chunks) != "" ==> Concat(chunks)[0] != BOM
    ensures ReadChunks(chunks).ending.Ok?
    ensures Values(ReadChunks(chunks).All()) == Shown(rows + [Row(cells, false)])
  {
    var text, all := Concat(chunks), rows + [Row(cells, false)];
    ChunkingIsInvisible(chunks);
    RenderedAppend(rows, Row(cells, false));
    Associates(Rendered(rows), Cells(cells), [LF]);
    assert Rendered(all) == text + [LF];
    ReadRows(FRESH, all);
    FeedConcat(FRESH, text, [LF]);
    FeedOne(Feed(FRESH, text).0, LF);
    EndIsANewline(text);
  }

  // ----- what the writer writes reads back, exactly when

  function CellOf(value: Option<string>): Cell {
    var str := Neutralised(value);
    if NeedsQuoting(str) then Quoted(str) else Bare(str)
  }

  function RowOf(values: seq<Option<string>>): Row {
    Row(Map(CellOf, values), true)
  }

  function NeutralisedRows(rows: seq<seq<Option<string>>>): seq<seq<string>> {
    Map(values => Map(Neutralised, values), rows)
  }

  /** A row that is written as a blank line. */
  predicate IsBlankRow(values: seq<Option<string>>) {
    values == [] || (|values| == 1 && Neutralised(values[0]) == "")
  }

  /** An unquoted first value beginning with U+FEFF makes the file begin with a byte-order mark. */
  predicate BeginsWithMark(rows: seq<seq<Option<string>>>) {
    && rows != [] && rows[0] != []
    && var str := Neutralised(rows[0][0]);
    && str != "" && str[0] == BOM && !NeedsQuoting(str)
  }

  predicate IsReadable(rows: seq<seq<Option<string>>>) {
    && (forall r :: 0 <= r < |rows| ==> !IsBlankRow(rows[r]))
    && !BeginsWithMark(rows)
  }

  lemma {:induction false} CellTexts(values: seq<Option<string>>)
    ensures Texts(Map(CellOf, values)) == Map(Neutralised, values)
  {
    if values != [] {
      CellTexts(values[1..]);
      assert Map(CellOf, values)[1..] == Map(CellOf, values[1..]);
      assert Map(Neutralised, values) == [Neutralised(values[0])] + Map(Neutralised, values[1..]);
    }
  }

  lemma {:induction false} JoinIsCells(values: seq<Option<string>>)
    ensures Join(Map(EscapeCsvValue, values), ",") == Cells(Map(CellOf, values))
  {
    if values != [] {
      JoinIsCells(values[1..]);
      assert Map(EscapeCsvValue, values)[1..] == Map(EscapeCsvValue, values[1..]);
      assert Map(CellOf, values)[1..] == Map(CellOf, values[1..]);
      assert Map(EscapeCsvValue, values)[0] == Written(Map(CellOf, values)[0]);
    }
  }

  lemma {:induction false} CsvTextIsRendered(rows: seq<seq<Option<string>>>)
    ensures CsvText(rows) == Rendered(Map(RowOf, rows))
  {
    if rows != [] {
      CsvTextIsRendered(rows[1..]);
      JoinIsCells(rows[0]);
      assert Map(CsvRow, rows)[1..] == Map(CsvRow, rows[1..]);
      assert Map(RowOf, rows)[1..] == Map(RowOf, rows[1..]);
    }
  }

  lemma {:induction false} ShownAll(rows: seq<Row>)
    ensures |Shown(rows)| == |rows| <==> forall r :: 0 <= r < |rows| ==> !IsBlank(rows[r])
    ensures |Shown(rows)| <= |rows|
    ensures |Shown(rows)| == |rows| ==> forall r :: 0 <= r < |rows| ==> Shown(rows)[r] == Texts(rows[r].cells)
  {
    if rows != [] {
      ShownAll(rows[1..]);
      assert forall r :: 1 <= r < |rows| ==> rows[r] == rows[1..][r - 1];
      if !IsBlank(rows[0]) {
        assert Shown(rows) == [Texts(rows[0].cells)] + Shown(rows[1..]);
      }
    }
  }

  lemma BlankRowIsBlank(values: seq<Option<string>>)
    ensures IsBlank(RowOf(values)) <==> IsBlankRow(values)
  {
    var cells := Map(CellOf, values);
    if |values| == 1 { assert cells == [CellOf(values[0])]; }
  }

  lemma {:induction false} NoneIsLost(rows: seq<seq<Option<string>>>)
    ensures |Without(IsBlankRow, rows)| <= |rows|
    ensures |Without(IsBlankRow, rows)| == |rows| <==> forall r :: 0 <= r < |rows| ==> !IsBlankRow(rows[r])
    ensures |Without(IsBlankRow, rows)| == |rows| ==> Without(IsBlankRow, rows) == rows
  {
    if rows != [] {
      NoneIsLost(rows[1..]);
      assert forall r :: 1 <= r < |rows| ==> rows[r] == rows[1..][r - 1];
    }
  }

  lemma FirstRowShown(rows: seq<seq<Option<string>>>)
    requires rows != []
    ensures Shown(Map(RowOf, rows)) ==
            (if IsBlankRow(rows[0]) then [] else [Map(Neutralised, rows[0])]) + Shown(Map(RowOf, rows[1..]))
  {
    var all := Map(RowOf, rows);
    assert all[0] == RowOf(rows[0]) && all[1..] == Map(RowOf, rows[1..]);
    BlankRowIsBlank(rows[0]);
    CellTexts(rows[0]);
  }

  lemma FirstRowNeutralised(row: seq<Option<string>>, rest: seq<seq<Option<string>>>)
    ensures NeutralisedRows([row] + rest) == [Map(Neutralised, row)] + NeutralisedRows(rest)
  {
  }

  lemma {:induction false} BlankRowsAreLost(rows: seq<seq<Option<string>>>)
    ensures Shown(Map(RowOf, rows)) == NeutralisedRows(Without(IsBlankRow, rows))
  {
    if rows == [] {
      assert Map(RowOf, rows) == [];
    } else {
      BlankRowsAreLost(rows[1..]);
      FirstRowShown(rows);
      FirstRowNeutralised(rows[0], Without(IsBlankRow, rows[1..]));
    }
  }

  /** Of the rows written, exactly those that are not blank come back, neutralised and in order. */
  lemma ShownIsNeutralised(rows: seq<seq<Option<string>>>)
    ensures Shown(Map(RowOf, rows)) == NeutralisedRows(Without(IsBlankRow, rows))
    ensures Shown(Map(RowOf, rows)) == NeutralisedRows(rows) <==> forall r :: 0 <= r < |rows| ==> !IsBlankRow(rows[r])
  {
    BlankRowsAreLost(rows);
    NoneIsLost(rows);
  }

  lemma RenderedFirst(rows: seq<seq<Option<string>>>)
    requires rows != []
    ensures var cells := Map(CellOf, rows[0]);
            CsvText(rows) == Cells(cells) + "\r\n" + Rendered(Map(RowOf, rows)[1..])
  {
    CsvTextIsRendered(rows);
    assert Map(RowOf, rows)[0] == RowOf(rows[0]);
  }

  /** Only a bare first cell can put a byte-order mark at the start. */
  lemma FirstCharacter(rows: seq<seq<Option<string>>>)
    ensures CsvText(rows) != "" && CsvText(rows)[0] == BOM <==> BeginsWithMark(rows)
  {
    if rows == [] {
      assert Map(CsvRow, rows) == [];
    } else {
      RenderedFirst(rows);
      var cells := Map(CellOf, rows[0]);
      if cells == [] {
        assert CsvText(rows)[0] == CR;
      } else {
        assert cells[0] == CellOf(rows[0][0]);
        var w := Written(cells[0]);
        assert |cells| == 1 ==> Cells(cells) == w;
        assert |cells| > 1 ==> Cells(cells) == w + [DELIMITER] + Cells(cells[1..]);
        assert CsvText(rows)[0] == if w != "" then w[0] else if |cells| == 1 then CR else DELIMITER;
      }
    }
  }

  /** A character that makes a spreadsheet take a cell for a formula. */
  predicate StartsAFormula(text: string) {
    text != "" && text[0] in "=+-@\t\r"
  }

  /** A written value never starts a formula: one that would gets an apostrophe, any other is kept, none is empty. */
  lemma NeutralisedIsHarmless(value: Option<string>)
    ensures !StartsAFormula(Neutralised(value))
    ensures value == None ==> Neutralised(value) == ""
    ensures value.Some? ==>
              Neutralised(value) == if StartsAFormula(value.value) then ['\''] + value.value else value.value
  {
    if value.Some? && value.value != "" {
      var ch := value.value[0];
      assert ch in "=+-@\t\r" <==> ch in ['=', '+', '-', '@', '\t', '\r'];
    }
  }

  lemma TailNeedsLess(str: string)
    requires str != "" && !NeedsQuoting(str)
    ensures !NeedsQuoting(str[1..])
  {
    if i :| 0 <= i < |str[1..]| && IsSpecial(str[1..][i]) { assert IsSpecial(str[i + 1]); }
  }

  lemma RowsAllowed(rows: seq<seq<Option<string>>>)
    ensures AllAllowed(Map(RowOf, rows))
  {
    var all := Map(RowOf, rows);
    forall r, c | 0 <= r < |all| && 0 <= c < |all[r].cells| ensures Allowed(all[r].cells[c]) {
      assert all[r] == RowOf(rows[r]);
      assert all[r].cells[c] == CellOf(rows[r][c]);
    }
  }

  function AfterFirst(cells: seq<Cell>): string {
    if |cells| <= 1 then "" else [DELIMITER] + Cells(cells[1..])
  }

  lemma CellsFromFirst(first: Cell, others: seq<Cell>)
    ensures Cells([first] + others) == Written(first) + AfterFirst([first] + others)
    ensures AfterFirst([first] + others) == if others == [] then "" else [DELIMITER] + Cells(others)
  {
    var cells := [first] + others;
    assert cells[1..] == others;
    if others != [] {
      assert Written(first) + [DELIMITER] + Cells(others) == Written(first) + ([DELIMITER] + Cells(others));
    }
  }

  lemma ShortenFirst(str: string, cells: seq<Cell>)
    requires cells != [] && cells[0] == Bare(str) && str != ""
    ensures Cells(cells) != ""
    ensures Cells(cells)[1..] == Cells([Bare(str[1..])] + cells[1..])
  {
    assert cells == [Bare(str)] + cells[1..];
    var after := if cells[1..] == [] then "" else [DELIMITER] + Cells(cells[1..]);
    CellsFromFirst(Bare(str), cells[1..]);
    CellsFromFirst(Bare(str[1..]), cells[1..]);
    FirstDropped(str, after);
  }

  /** The rows with another text in the first cell. */
  function Altered(all: seq<Row>, text: string): seq<Row>
    requires all != [] && all[0].cells != []
  {
    [Row([Bare(text)] + all[0].cells[1..], all[0].crlf)] + all[1..]
  }

  lemma AlteredAllowed(all: seq<Row>, text: string)
    requires AllAllowed(all) && all != [] && all[0].cells != [] && !NeedsQuoting(text)
    ensures AllAllowed(Altered(all, text))
  {
    var altered := Altered(all, text);
    forall r, c | 0 <= r < |altered| && 0 <= c < |altered[r].cells| ensures Allowed(altered[r].cells[c]) {
      if r > 0 {
        assert altered[r] == all[r];
      } else if c > 0 {
        assert altered[0].cells[c] == all[0].cells[c];
      }
    }
  }

  lemma AlteredIsRendered(all: seq<Row>, str: string)
    requires all != [] && all[0].cells != [] && all[0].cells[0] == Bare(str) && str != ""
    ensures Rendered(all) != "" && Rendered(all)[1..] == Rendered(Altered(all, str[1..]))
  {
    ShortenFirst(str, all[0].cells);
    RenderedCons(all);
    RenderedCons(Altered(all, str[1..]));
    assert Altered(all, str[1..])[1..] == all[1..];
    FirstDropped(Cells(all[0].cells), Eol(all[0]) + Rendered(all[1..]));
  }

  lemma RenderedCons(all: seq<Row>)
    requires all != []
    ensures Rendered(all) == Cells(all[0].cells) + (Eol(all[0]) + Rendered(all[1..]))
  {
    Associates(Cells(all[0].cells), Eol(all[0]), Rendered(all[1..]));
  }

  lemma FirstDropped(head: string, tail: string)
    requires head != ""
    ensures (head + tail)[1..] == head[1..] + tail
  {
  }

  /** What is left of a marked table once its first character is dropped. */
  lemma DropTheMark(rows: seq<seq<Option<string>>>) returns (altered: seq<Row>)
    requires BeginsWithMark(rows)
    ensures CsvText(rows) != "" && CsvText(rows)[1..] == Rendered(altered)
    ensures AllAllowed(altered) && |altered| == |rows| && altered[0].cells != []
    ensures altered[0].cells[0].text == Neutralised(rows[0][0])[1..]
  {
    var str, all := Neutralised(rows[0][0]), Map(RowOf, rows);
    assert all[0] == RowOf(rows[0]) && all[0].cells[0] == CellOf(rows[0][0]);
    CsvTextIsRendered(rows);
    RowsAllowed(rows);
    TailNeedsLess(str);
    AlteredAllowed(all, str[1..]);
    AlteredIsRendered(all, str);
    altered := Altered(all, str[1..]);
  }

  /** With the mark dropped, the first value has lost its first character. */
  lemma MarkedTableIsAltered(rows: seq<seq<Option<string>>>)
    requires BeginsWithMark(rows)
    ensures CsvText(rows) != ""
    ensures Values(ReadRaw(CsvText(rows)[1..]).records) != NeutralisedRows(rows)
  {
    var altered := DropTheMark(rows);
    ReadRows(FRESH, altered);
    ShownAll(altered);
    if |Shown(altered)| == |rows| {
      assert Shown(altered)[0][0] == altered[0].cells[0].text;
      assert NeutralisedRows(rows)[0][0] == Neutralised(rows[0][0]);
    }
  }

  lemma UnmarkedRoundTrip(rows: seq<seq<Option<string>>>, chunks: seq<string>)
    requires Concat(chunks) == CsvText(rows) && (chunks != [] ==> chunks[0] != "") && !BeginsWithMark(rows)
    ensures Values(ReadChunks(chunks).records) == Shown(Map(RowOf, rows))
    ensures ReadChunks(chunks).ending == Ok(None)
  {
    FirstCharacter(rows);
    CsvTextIsRendered(rows);
    RowsAllowed(rows);
    RenderingsReadBack(Map(RowOf, rows), chunks);
  }

  /** No cell of a file that has been written, read back in any chunks, starts a formula. */
  lemma NothingReadsAsAFormula(rows: seq<seq<Option<string>>>, chunks: seq<string>, r: nat, c: nat)
    requires Concat(chunks) == CsvText(rows) && (chunks != [] ==> chunks[0] != "") && !BeginsWithMark(rows)
    requires r < |Values(ReadChunks(chunks).records)| && c < |Values(ReadChunks(chunks).records)[r]|
    ensures !StartsAFormula(Values(ReadChunks(chunks).records)[r][c])
  {
    UnmarkedRoundTrip(rows, chunks);
    ShownIsNeutralised(rows);
    var left := Without(IsBlankRow, rows);
    assert Values(ReadChunks(chunks).records)[r][c] == Neutralised(left[r][c]);
    NeutralisedIsHarmless(left[r][c]);
  }

  /**
   * Writing rows and reading them back, in any chunks, returns exactly the neutralised values if
   * and only if no row is written as a blank line and the text does not begin with a mark. Without a
   * mark, what is lost is the blank rows and nothing else.
   */
  lemma RoundTrip(rows: seq<seq<Option<string>>>, chunks: seq<string>)
    requires Concat(chunks) == CsvText(rows) && (chunks != [] ==> chunks[0] != "")
    ensures Values(ReadChunks(chunks).records) == NeutralisedRows(rows) <==> IsReadable(rows)
    ensures IsReadable(rows) ==> ReadChunks(chunks).ending == Ok(None)
    ensures !BeginsWithMark(rows) ==> Values(ReadChunks(chunks).records) == NeutralisedRows(Without(IsBlankRow, rows))
  {
    if BeginsWithMark(rows) {
      FirstCharacter(rows);
      ChunkingIsInvisible(chunks);
      MarkedTableIsAltered(rows);
    } else {
      UnmarkedRoundTrip(rows, chunks);
      ShownIsNeutralised(rows);
    }
  }
}
