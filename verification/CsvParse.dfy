/**
 * The incremental CSV reader: `CsvStreamParser` in packages/analytics/src/csv-parse.ts.
 *
 * A `char` stands for one code unit of the decoded file.
 */
module CsvParse {
  import opened Prelude

  const QUOTE := '\"'
  const DELIMITER := ','
  const BOM := '\U{FEFF}'
  const CR := '\r'
  const LF := '\n'

  /** A parsed record and the 1-based line it starts on. */
  datatype CsvRecord = CsvRecord(line: nat, values: seq<string>)

  /** What the parser remembers between two characters. */
  datatype Scan = Scan(inQuotes: bool, pendingQuote: bool, field: string, fields: seq<string>,
                       started: bool, physicalLine: nat, recordLine: nat)

  /** What a whole file reads as: the records pushed out, then what `end()` returned or threw. */
  datatype Reading = Reading(records: seq<CsvRecord>, ending: Result<Option<CsvRecord>, nat>) {
    /** Every record the caller sees. */
    function All(): seq<CsvRecord> {
      records + (if ending.Ok? && ending.value.Some? then [ending.value.value] else [])
    }
  }

  // ----- one character at a time

  function FreshAt(line: nat): Scan {
    Scan(false, false, "", [], false, line, line)
  }

  const FRESH := FreshAt(1)

  function Begin(s: Scan): Scan {
    if s.started then s else s.(started := true, recordLine := s.physicalLine)
  }

  function Finish(s: Scan): (Scan, seq<CsvRecord>) {
    if !s.started then (s.(fields := [], field := ""), [])
    else (s.(fields := [], field := "", started := false), [CsvRecord(s.recordLine, s.fields + [s.field])])
  }

  /** A character that arrives outside quotes. */
  function StepUnquoted(s: Scan, ch: char): (Scan, seq<CsvRecord>) {
    if ch == QUOTE && s.field == "" then (Begin(s).(inQuotes := true), [])
    else if ch == DELIMITER then (Begin(s).(fields := s.fields + [s.field], field := ""), [])
    else if ch == LF then
      var (next, records) := Finish(s);
      (next.(physicalLine := s.physicalLine + 1), records)
    else if ch == CR then (s, [])
    else (Begin(s).(field := s.field + [ch]), [])
  }

  function Step(s: Scan, ch: char): (Scan, seq<CsvRecord>) {
    if s.pendingQuote then
      if ch == QUOTE then (s.(pendingQuote := false, field := s.field + [QUOTE]), [])
      else StepUnquoted(s.(pendingQuote := false, inQuotes := false), ch)
    else if s.inQuotes then
      if ch == QUOTE then (s.(pendingQuote := true), [])
      else (s.(physicalLine := s.physicalLine + (if ch == LF then 1 else 0), field := s.field + [ch]), [])
    else StepUnquoted(s, ch)
  }

  function Feed(s: Scan, text: string): (Scan, seq<CsvRecord>)
    decreases |text|
  {
    if text == "" then (s, [])
    else
      var (s1, r1) := Step(s, text[0]);
      var (s2, r2) := Feed(s1, text[1..]);
      (s2, r1 + r2)
  }

  /** What `end()` returns, or the line of the unterminated field it throws about. */
  function EndOf(s: Scan): Result<Option<CsvRecord>, nat> {
    if s.inQuotes && !s.pendingQuote then Err(s.recordLine)
    else
      var records := Finish(s).1;
      Ok(if records == [] then None else Some(records[0]))
  }

  function StripBom(text: string): string {
    if text != "" && text[0] == BOM then text[1..] else text
  }

  /** Reads a whole text, taking every character of it as data. */
  function ReadRaw(text: string): Reading {
    var (s, records) := Feed(FRESH, text);
    Reading(records, EndOf(s))
  }

  // ----- the parser as it is used: chunk by chunk

  /** The parser's whole state. */
  datatype Parser = Parser(scan: Scan, atFileStart: bool)

  const NEW_PARSER := Parser(FRESH, true)

  function Pushed(p: Parser, chunk: string): (Parser, seq<CsvRecord>) {
    var (s, records) := Feed(p.scan, if p.atFileStart then StripBom(chunk) else chunk);
    (Parser(s, false), records)
  }

  function PushAll(p: Parser, chunks: seq<string>): (Parser, seq<CsvRecord>)
    decreases |chunks|
  {
    if chunks == [] then (p, [])
    else
      var (p1, r1) := Pushed(p, chunks[0]);
      var (p2, r2) := PushAll(p1, chunks[1..]);
      (p2, r1 + r2)
  }

  /** What reading a file in these chunks gives. */
  function ReadChunks(chunks: seq<string>): Reading {
    var (p, records) := PushAll(NEW_PARSER, chunks);
    Reading(records, EndOf(p.scan))
  }

  /** Reading on from place `i` reads one character and then on from the next place. */
  lemma FeedStep(s: Scan, text: string, i: nat)
    requires i < |text|
    ensures Feed(s, text[i..]).0 == Feed(Step(s, text[i]).0, text[i + 1..]).0
    ensures Feed(s, text[i..]).1 == Step(s, text[i]).1 + Feed(Step(s, text[i]).0, text[i + 1..]).1
  {
    assert text[i..][1..] == text[i + 1..];
  }

  class CsvStreamParser {
    var inQuotes: bool
    var pendingQuote: bool
    var field: string
    var fields: seq<string>
    var started: bool
    var physicalLine: nat
    var recordLine: nat
    var atFileStart: bool

    ghost function View(): Parser
      reads this
    {
      Parser(Scan(inQuotes, pendingQuote, field, fields, started, physicalLine, recordLine), atFileStart)
    }

    constructor ()
      ensures View() == NEW_PARSER
    {
      inQuotes, pendingQuote, field, fields := false, false, "", [];
      started, physicalLine, recordLine, atFileStart := false, 1, 1, true;
    }

    method BeginRecord()
      modifies this
      ensures View() == old(View()).(scan := Begin(old(View()).scan))
    {
      if !started {
        started := true;
        recordLine := physicalLine;
      }
    }

    method FinishRecord() returns (record: Option<CsvRecord>)
      modifies this
      ensures View() == old(View()).(scan := Finish(old(View()).scan).0)
      ensures Finish(old(View()).scan).1 == if record.Some? then [record.value] else []
    {
      if !started {
        fields := [];
        field := "";
        return None;
      }
      fields := fields + [field];
      record := Some(CsvRecord(recordLine, fields));
      fields := [];
      field := "";
      started := false;
    }

    /** One turn of the loop in `push`. */
    method Take(ch: char) returns (records: seq<CsvRecord>)
      modifies this
      ensures View().atFileStart == old(View()).atFileStart
      ensures View().scan == Step(old(View()).scan, ch).0
      ensures records == Step(old(View()).scan, ch).1
    {
      records := [];
      if pendingQuote {
        pendingQuote := false;
        if ch == QUOTE {
          field := field + [QUOTE];
          return;
        }
        inQuotes := false;
      }
      if inQuotes {
        if ch == QUOTE {
          pendingQuote := true;
          return;
        }
        if ch == LF { physicalLine := physicalLine + 1; }
        field := field + [ch];
      } else if ch == QUOTE && field == "" {
        BeginRecord();
        inQuotes := true;
      } else if ch == DELIMITER {
        BeginRecord();
        fields := fields + [field];
        field := "";
      } else if ch == LF {
        var record := FinishRecord();
        physicalLine := physicalLine + 1;
        if record.Some? { records := [record.value]; }
      } else if ch != CR {
        BeginRecord();
        field := field + [ch];
      }
    }

    method Push(chunk: string) returns (records: seq<CsvRecord>)
      modifies this
      ensures View() == Pushed(old(View()), chunk).0
      ensures records == Pushed(old(View()), chunk).1
    {
      var text := chunk;
      if atFileStart {
        if text != "" && text[0] == BOM { text := text[1..]; }
        atFileStart := false;
      }
      records := [];
      ghost var from := View().scan;
      for i := 0 to |text|
        invariant !atFileStart
        invariant Feed(from, text).0 == Feed(View().scan, text[i..]).0
        invariant Feed(from, text).1 == records + Feed(View().scan, text[i..]).1
      {
        FeedStep(View().scan, text, i);
        ghost var later := Feed(Step(View().scan, text[i]).0, text[i + 1..]).1;
        var completed := Take(text[i]);
        Associates(records, completed, later);
        records := records + completed;
      }
    }

    /** `Err` is the exception, carrying the line of the field that never closed. */
    method End() returns (last: Result<Option<CsvRecord>, nat>)
      modifies this
      ensures last == EndOf(old(View()).scan)
    {
      if pendingQuote {
        pendingQuote := false;
        inQuotes := false;
      }
      if inQuotes { return Err(recordLine); }
      var record := FinishRecord();
      last := Ok(record);
    }
  }

  // ----- the chunks do not matter

  lemma FeedOne(s: Scan, ch: char)
    ensures Feed(s, [ch]).0 == Step(s, ch).0
    ensures Feed(s, [ch]).1 == Step(s, ch).1
  {
    assert [ch][1..] == "";
  }

  lemma {:induction false} FeedConcat(s: Scan, a: string, b: string)
    ensures Feed(s, a + b).0 == Feed(Feed(s, a).0, b).0
    ensures Feed(s, a + b).1 == Feed(s, a).1 + Feed(Feed(s, a).0, b).1
    decreases |a|
  {
    if a == "" {
      assert a + b == b;
    } else {
      var next := Step(s, a[0]).0;
      FeedConcat(next, a[1..], b);
      FeedStep(s, a, 0);
      FeedStep(s, a + b, 0);
      assert a[0..] == a && (a + b)[0..] == a + b && (a + b)[1..] == a[1..] + b;
      Associates(Step(s, a[0]).1, Feed(next, a[1..]).1, Feed(Feed(next, a[1..]).0, b).1);
    }
  }

  lemma {:induction false} LaterPushesFeed(p: Parser, chunks: seq<string>)
    requires !p.atFileStart
    ensures PushAll(p, chunks).0 == Parser(Feed(p.scan, Concat(chunks)).0, false)
    ensures PushAll(p, chunks).1 == Feed(p.scan, Concat(chunks)).1
    decreases |chunks|
  {
    if chunks != [] {
      LaterPushesFeed(Pushed(p, chunks[0]).0, chunks[1..]);
      FeedConcat(p.scan, chunks[0], Concat(chunks[1..]));
    }
  }

  /**
   * Any chunking reads as the whole text does. The one thing a chunking can change is whether a
   * leading byte-order mark is dropped: an empty first chunk uses up the only look at the start.
   */
  lemma ChunkingIsInvisible(chunks: seq<string>)
    ensures ReadChunks(chunks) ==
            ReadRaw(if chunks != [] && chunks[0] == "" then Concat(chunks) else StripBom(Concat(chunks)))
  {
    if chunks != [] {
      PushAllFeeds(chunks);
      if chunks[0] != "" {
        assert StripBom(chunks[0]) + Concat(chunks[1..]) == StripBom(Concat(chunks));
      } else {
        assert StripBom(chunks[0]) + Concat(chunks[1..]) == Concat(chunks);
      }
    }
  }

  lemma PushAllFeeds(chunks: seq<string>)
    requires chunks != []
    ensures var text := StripBom(chunks[0]) + Concat(chunks[1..]);
            && PushAll(NEW_PARSER, chunks).0.scan == Feed(FRESH, text).0
            && PushAll(NEW_PARSER, chunks).1 == Feed(FRESH, text).1
  {
    LaterPushesFeed(Pushed(NEW_PARSER, chunks[0]).0, chunks[1..]);
    FeedConcat(FRESH, StripBom(chunks[0]), Concat(chunks[1..]));
  }

  lemma SameTextSameReading(a: seq<string>, b: seq<string>)
    requires Concat(a) == Concat(b)
    requires (a != [] ==> a[0] != "") && (b != [] ==> b[0] != "")
    ensures ReadChunks(a) == ReadChunks(b)
  {
    ChunkingIsInvisible(a);
    ChunkingIsInvisible(b);
  }

  /** Why the first chunk has to be non-empty: an empty one leaves the mark in the first header. */
  lemma EmptyFirstChunkKeepsTheMark()
    ensures var text := [BOM, 'a'];
            && ReadChunks([text]).ending == Ok(Some(CsvRecord(1, ["a"])))
            && ReadChunks(["", text]).ending == Ok(Some(CsvRecord(1, [text])))
  {
    var text := [BOM, 'a'];
    var none: seq<string> := [];
    assert ["", text][1..] == [text] && [text][1..] == none;
    ChunkingIsInvisible(["", text]);
    ChunkingIsInvisible([text]);
    assert StripBom(text) == text[1..] == "a";
    FeedOne(FRESH, 'a');
    assert Feed(FRESH, "a").0.field == "a";
    var marked := Step(FRESH, BOM).0;
    FeedOne(marked, 'a');
    assert Step(marked, 'a').0.field == text;
    assert Concat(["", text]) == text == Concat([text]);
    assert FRESH.fields + ["a"] == ["a"] && FRESH.fields + [text] == [text];
  }

  // ----- every record is a stretch of the file, under the line it starts on

  predicate IsBreak(ch: char) {
    ch == CR || ch == LF
  }

  predicate AllBreaks(text: string) {
    forall i :: 0 <= i < |text| ==> IsBreak(text[i])
  }

  function Newlines(text: string): nat {
    if text == "" then 0 else (if text[0] == LF then 1 else 0) + Newlines(text[1..])
  }

  lemma {:induction false} NewlinesConcat(a: string, b: string)
    ensures Newlines(a + b) == Newlines(a) + Newlines(b)
  {
    if a == "" {
      assert a + b == b;
    } else {
      NewlinesConcat(a[1..], b);
      assert (a + b)[1..] == a[1..] + b;
    }
  }

  /** Where a record starts, and the newline that ends it. */
  datatype Span = Span(start: nat, stop: nat)

  /**
   * The records are exactly the text from `from` on, cut into stretches: nothing but line breaks
   * lies between them or (when the text is `closed`) after them, each carries the line its first
   * character is on, and each reads the same when its stretch is the whole file.
   */
  ghost predicate Tiles(text: string, from: nat, spans: seq<Span>, records: seq<CsvRecord>, closed: bool)
    decreases |spans|
  {
    && |spans| == |records|
    && if spans == [] then closed ==> from <= |text| && AllBreaks(text[from..])
       else
         && Tile(text, from, spans[0], records[0])
         && Tiles(text, spans[0].stop + 1, spans[1..], records[1..], closed)
  }

  ghost predicate Tile(text: string, from: nat, sp: Span, record: CsvRecord) {
    && from <= sp.start < sp.stop < |text|
    && AllBreaks(text[from..sp.start])
    && !IsBreak(text[sp.start])
    && text[sp.stop] == LF
    && record.line == 1 + Newlines(text[..sp.start])
    && Feed(FRESH, text[sp.start..sp.stop + 1]).1 == [CsvRecord(1, record.values)]
  }

  predicate WellFormed(s: Scan) {
    && (s.pendingQuote ==> s.inQuotes)
    && (!s.started ==> s.field == "" && s.fields == [] && !s.inQuotes)
  }

  /** Equal but for line numbers. */
  predicate SameShape(s: Scan, t: Scan) {
    s.(physicalLine := 0, recordLine := 0) == t.(physicalLine := 0, recordLine := 0)
  }

  lemma StepKeepsShape(s: Scan, t: Scan, ch: char)
    requires SameShape(s, t)
    ensures SameShape(Step(s, ch).0, Step(t, ch).0)
    ensures |Step(s, ch).1| == |Step(t, ch).1| <= 1
    ensures Step(s, ch).1 != [] ==> Step(s, ch).1[0].values == Step(t, ch).1[0].values
    ensures Step(t, ch).1 != [] ==> Step(t, ch).1[0].line == t.recordLine
    ensures t.started && Step(t, ch).0.started ==> Step(t, ch).0.recordLine == t.recordLine
  {
  }

  /**
   * What is known after `done` has been read, the current record (if any) having started at
   * `start`: reading its stretch alone arrives at the same place.
   */
  ghost predicate Following(done: string, from: nat, start: nat, s: Scan) {
    && WellFormed(s)
    && s.physicalLine == 1 + Newlines(done)
    && from <= start <= |done|
    && AllBreaks(done[from..start])
    && (!s.started ==> start == |done|)
    && (s.started ==>
          && start < |done|
          && !IsBreak(done[start])
          && s.recordLine == 1 + Newlines(done[..start])
          && var alone := Feed(FRESH, done[start..]);
          && alone.1 == [] && alone.0.recordLine == 1 && SameShape(alone.0, s))
  }

  /** What holds after one more character: the record goes on, or ends here, or none has begun. */
  ghost predicate FollowedBy(done: string, from: nat, start: nat, s: Scan, ch: char)
    requires start <= |done|
  {
    var s', r, done' := Step(s, ch).0, Step(s, ch).1, done + [ch];
    if r == [] then Following(done', from, if s'.started then start else |done'|, s')
    else
      && ch == LF && s.started && |r| == 1
      && r[0].line == s.recordLine
      && Following(done', |done'|, |done'|, s')
      && Feed(FRESH, done'[start..]).1 == [CsvRecord(1, r[0].values)]
  }

  lemma NewlinesOneMore(done: string, ch: char)
    ensures Newlines(done + [ch]) == Newlines(done) + if ch == LF then 1 else 0
  {
    NewlinesConcat(done, [ch]);
    assert [ch][1..] == "";
  }

  lemma FollowStarted(done: string, from: nat, start: nat, s: Scan, ch: char)
    requires Following(done, from, start, s) && s.started
    ensures FollowedBy(done, from, start, s, ch)
  {
    var done' := done + [ch];
    NewlinesOneMore(done, ch);
    assert done'[start..] == done[start..] + [ch];
    assert done'[..start] == done[..start];
    assert done'[from..start] == done[from..start];
    var alone := Feed(FRESH, done[start..]).0;
    FeedConcat(FRESH, done[start..], [ch]);
    FeedOne(alone, ch);
    StepKeepsShape(s, alone, ch);
  }

  lemma FollowUnstarted(done: string, from: nat, start: nat, s: Scan, ch: char)
    requires Following(done, from, start, s) && !s.started
    ensures FollowedBy(done, from, start, s, ch)
  {
    var done' := done + [ch];
    NewlinesOneMore(done, ch);
    assert done[..|done|] == done;
    assert done'[..start] == done;
    assert done'[start..] == [ch];
    FeedOne(FRESH, ch);
    StepKeepsShape(s, FRESH, ch);
    if Step(s, ch).0.started {
      assert done'[from..start] == done[from..start];
    } else {
      assert done'[from..|done'|] == done[from..start] + [ch];
    }
  }

  lemma FollowOneMore(done: string, from: nat, start: nat, s: Scan, ch: char)
    requires Following(done, from, start, s)
    ensures FollowedBy(done, from, start, s, ch)
  {
    if s.started { FollowStarted(done, from, start, s, ch); } else { FollowUnstarted(done, from, start, s, ch); }
  }

  lemma TileDone(done: string, from: nat, start: nat, s: Scan, rest: string)
    requires Following(done, from, start, s) && rest != "" && Step(s, rest[0]).1 != []
    ensures Tile(done + rest, from, Span(start, |done|), Step(s, rest[0]).1[0])
  {
    FollowOneMore(done, from, start, s, rest[0]);
    var text := done + rest;
    assert text[from..start] == done[from..start];
    assert text[..start] == done[..start];
    assert text[start..|done| + 1] == (done + [rest[0]])[start..];
  }

  lemma TilesOneMore(text: string, from: nat, sp: Span, later: seq<Span>, record: CsvRecord, others: seq<CsvRecord>,
                     closed: bool)
    requires Tile(text, from, sp, record) && Tiles(text, sp.stop + 1, later, others, closed)
    ensures Tiles(text, from, [sp] + later, [record] + others, closed)
  {
    assert ([sp] + later)[1..] == later && ([record] + others)[1..] == others;
  }

  lemma TilesStep(done: string, from: nat, start: nat, s: Scan, rest: string, later: seq<Span>)
    returns (spans: seq<Span>)
    requires Following(done, from, start, s) && rest != ""
    requires var s', r := Step(s, rest[0]).0, Step(s, rest[0]).1;
             Tiles(done + rest, if r == [] then from else |done| + 1, later, Feed(s', rest[1..]).1,
                   !Feed(s', rest[1..]).0.started)
    ensures Tiles(done + rest, from, spans, Feed(s, rest).1, !Feed(s, rest).0.started)
  {
    FeedStep(s, rest, 0);
    assert rest[0..] == rest;
    var r, others := Step(s, rest[0]).1, Feed(Step(s, rest[0]).0, rest[1..]).1;
    if r == [] {
      spans := later;
      assert r + others == others;
    } else {
      FollowOneMore(done, from, start, s, rest[0]);
      TileDone(done, from, start, s, rest);
      spans := [Span(start, |done|)] + later;
      TilesOneMore(done + rest, from, Span(start, |done|), later, r[0], others, !Feed(s, rest).0.started);
      assert r + others == [r[0]] + others;
    }
  }

  lemma {:induction false} TilesFrom(done: string, from: nat, start: nat, s: Scan, rest: string)
    returns (spans: seq<Span>)
    requires Following(done, from, start, s)
    ensures Tiles(done + rest, from, spans, Feed(s, rest).1, !Feed(s, rest).0.started)
    decreases |rest|
  {
    if rest == "" {
      assert done + rest == done;
      if !s.started { assert done[from..start] == done[from..]; }
      return [];
    }
    var s', r, done' := Step(s, rest[0]).0, Step(s, rest[0]).1, done + [rest[0]];
    FollowOneMore(done, from, start, s, rest[0]);
    assert done + rest == done' + rest[1..];
    var from' := if r == [] then from else |done'|;
    var later := TilesFrom(done', from', if r == [] && s'.started then start else |done'|, s', rest[1..]);
    spans := TilesStep(done, from, start, s, rest, later);
  }

  lemma {:induction false} FollowAll(done: string, from: nat, start: nat, s: Scan, rest: string)
    returns (from': nat, start': nat)
    requires Following(done, from, start, s)
    ensures Following(done + rest, from', start', Feed(s, rest).0)
    decreases |rest|
  {
    if rest == "" {
      assert done + rest == done;
      return from, start;
    }
    var s', r, done' := Step(s, rest[0]).0, Step(s, rest[0]).1, done + [rest[0]];
    FollowOneMore(done, from, start, s, rest[0]);
    assert done + rest == done' + rest[1..];
    from', start' := FollowAll(done', if r == [] then from else |done'|,
                               if r == [] && s'.started then start else |done'|,
                               s', rest[1..]);
  }

  /** The text from `start` on is a record that a quote has been opened in and not closed. */
  predicate IsOpen(text: string, start: nat)
    requires start <= |text|
  {
    var alone := Feed(FRESH, text[start..]);
    alone.1 == [] && alone.0.inQuotes && !alone.0.pendingQuote
  }

  /** The line a file that stops inside quotes is reported for is that of the record it stops in. */
  lemma UnterminatedLine(text: string, line: nat) returns (start: nat)
    requires ReadRaw(text).ending == Err(line)
    ensures start < |text| && line == 1 + Newlines(text[..start]) && !IsBreak(text[start]) && IsOpen(text, start)
  {
    assert "" + text == text;
    var from: nat;
    from, start := FollowAll("", 0, 0, FRESH, text);
  }

  /** A file ends badly exactly when it stops inside quotes. */
  lemma EndsInsideQuotes(text: string)
    ensures ReadRaw(text).ending.Err? <==> Feed(FRESH, text).0.inQuotes && !Feed(FRESH, text).0.pendingQuote
  {
  }

  /** Ending a file is the same as one more newline. */
  lemma EndIsANewline(text: string)
    requires ReadRaw(text).ending.Ok?
    ensures ReadRaw(text + [LF]).records == ReadRaw(text).All()
    ensures !Feed(FRESH, text + [LF]).0.started
  {
    FeedConcat(FRESH, text, [LF]);
    FeedOne(Feed(FRESH, text).0, LF);
  }

  /** Every text is tiled by the records pushed out of it, and one that ends properly leaves nothing over. */
  lemma RecordsTileTheText(text: string)
    ensures exists spans :: Tiles(text, 0, spans, ReadRaw(text).records, false)
    ensures ReadRaw(text).ending.Ok? ==> exists spans :: Tiles(text + [LF], 0, spans, ReadRaw(text).All(), true)
  {
    var spans := TilesFrom("", 0, 0, FRESH, text);
    assert "" + text == text;
    ClosedOrNot(text, 0, spans, ReadRaw(text).records, !Feed(FRESH, text).0.started);
    assert Tiles(text, 0, spans, ReadRaw(text).records, false);
    if ReadRaw(text).ending.Ok? {
      EndIsANewline(text);
      var closed := TilesFrom("", 0, 0, FRESH, text + [LF]);
      assert "" + (text + [LF]) == text + [LF];
      assert Tiles(text + [LF], 0, closed, ReadRaw(text).All(), true);
    }
  }

  lemma {:induction false} ClosedOrNot(text: string, from: nat, spans: seq<Span>, records: seq<CsvRecord>, closed: bool)
    requires Tiles(text, from, spans, records, closed)
    ensures Tiles(text, from, spans, records, false)
    decreases |spans|
  {
    if spans != [] {
      ClosedOrNot(text, spans[0].stop + 1, spans[1..], records[1..], closed);
    }
  }
}
