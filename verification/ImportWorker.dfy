/** The bulk import of apps/api/src/workers/import.worker.ts: `importFile` and the functions inside it. */
module ImportWorker {
  import opened Prelude
  import opened CsvParse
  import opened CsvColumns
  import opened Bisect
  import opened ImportTable
  import opened ImportBatch

  const BATCH_SIZE := 500
  const PROGRESS_EVERY_ROWS := 5000
  const MAX_ROW_ERRORS := 1000

  datatype Counts = Counts(totalRows: int, importedRows: int, skippedRows: int, failedRows: int)

  /** What makes the job FAILED. */
  datatype ImportError = MissingRequired(names: seq<string>) | Unterminated(line: nat) | NoHeader

  /** How the job's row ends; the text of the message is not modelled. */
  datatype JobStatus = Processing | Completed | Stopped(error: ImportError)

  /** The variables of `importFile`, and what it has written: conversions, stored errors, saved counts. */
  datatype Job = Job(table: Table, errorRows: seq<RowError>, savedCounts: Counts,
                     counts: Counts, header: Option<CsvHeader>, batch: seq<Line>,
                     pendingErrors: seq<RowError>, storedErrors: nat, progressAt: nat)

  const ZERO := Counts(0, 0, 0, 0)

  function NewJob(table: Table): Job {
    Job(table, [], ZERO, ZERO, None, [], [], 0, 0)
  }

  function Record(job: Job, error: RowError): Job {
    var counted := job.(counts := job.counts.(failedRows := job.counts.failedRows + 1));
    if job.storedErrors + |job.pendingErrors| >= MAX_ROW_ERRORS then counted
    else counted.(pendingErrors := job.pendingErrors + [error])
  }

  function RecordAll(job: Job, errors: seq<RowError>): Job
    decreases |errors|
  {
    if errors == [] then job else RecordAll(Record(job, errors[0]), errors[1..])
  }

  function Persist(job: Job): Job {
    job.(errorRows := job.errorRows + job.pendingErrors, storedErrors := job.storedErrors + |job.pendingErrors|,
         pendingErrors := [])
  }

  /** The conversions a batch inserts and the tallies that follow from it. */
  function Inserted(job: Job, o: Outcome<Db, Prepared, string>): Job {
    job.(table := o.state.table,
         counts := job.counts.(importedRows := job.counts.importedRows + o.state.inserted,
                               skippedRows := job.counts.skippedRows + (|o.succeeded| - o.state.inserted)))
  }

  function BatchOutcome(env: Env, job: Job, lines: seq<Line>): Outcome<Db, Prepared, string> {
    Bisected(Inserting(env), Db(job.table, 0), Oks(Linking(env), lines))
  }

  function Committed(env: Env, job: Job, lines: seq<Line>): Job {
    var o := BatchOutcome(env, job, lines);
    Inserted(RecordAll(job, Errs(Linking(env), lines) + FailureErrors(o.failed)), o)
  }

  function Flushed(env: Env, job: Job): Job {
    if job.batch == [] then Persist(job)
    else
      var committed := Committed(env, job.(batch := []), job.batch);
      Persist(committed.(savedCounts := committed.counts))
  }

  function Taken(env: Env, header: CsvHeader, job: Job, record: CsvRecord): Job {
    var counted := job.(counts := job.counts.(totalRows := job.counts.totalRows + 1));
    match Parsed(env, header, record)
    case Ok(line) => counted.(batch := job.batch + [line])
    case Err(error) => Record(counted, error)
  }

  function FlushedIfFull(env: Env, job: Job): Job {
    if |job.batch| >= BATCH_SIZE then Flushed(env, job) else job
  }

  function Progressed(job: Job): Job {
    if job.counts.totalRows - job.progressAt >= PROGRESS_EVERY_ROWS then
      Persist(job.(progressAt := job.counts.totalRows, savedCounts := job.counts))
    else job
  }

  /** `handle`: the first record is the header, every other one is data. */
  function Handled(env: Env, job: Job, record: CsvRecord): Job {
    match job.header
    case None => job.(header := Some(HeaderOf(env.rules, record.values)))
    case Some(header) => Progressed(FlushedIfFull(env, Taken(env, header, job, record)))
  }

  function Handling(env: Env): (Job, CsvRecord) -> Job {
    (job, record) => Handled(env, job, record)
  }

  function AfterRecords(env: Env, table: Table, records: seq<CsvRecord>): Job {
    Fold(Handling(env), NewJob(table), records)
  }

  function Missing(env: Env, first: CsvRecord): seq<string> {
    MissingColumns(env.rules, HeaderOf(env.rules, first.values), env.required)
  }

  /** A header that lacks required columns stops the import at the first record. */
  function Refused(env: Env, records: seq<CsvRecord>): Option<ImportError> {
    if records == [] || Missing(env, records[0]) == [] then None else Some(MissingRequired(Missing(env, records[0])))
  }

  /** Where importing a file ends, and whether it throws. */
  function ImportedFile(env: Env, table: Table, reading: Reading): (Job, Option<ImportError>) {
    var all := reading.All();
    if Refused(env, reading.records).Some?
    then (AfterRecords(env, table, [reading.records[0]]), Refused(env, reading.records))
    else if reading.ending.Err?
    then (AfterRecords(env, table, reading.records), Some(Unterminated(reading.ending.error)))
    else if Refused(env, all).Some? then (AfterRecords(env, table, all), Refused(env, all))
    else if all == [] then (NewJob(table), Some(NoHeader))
    else (Persist(Flushed(env, AfterRecords(env, table, all))), None)
  }

  // ----- the worker

  class ImportRun {
    const env: Env
    var table: Table
    var errorRows: seq<RowError>
    var savedCounts: Counts
    var counts: Counts
    var header: Option<CsvHeader>
    var batch: seq<Line>
    var pendingErrors: seq<RowError>
    var storedErrors: nat
    var progressAt: nat
    var status: JobStatus

    ghost function View(): Job
      reads this
    {
      Job(table, errorRows, savedCounts, counts, header, batch, pendingErrors, storedErrors, progressAt)
    }

    constructor (env: Env, table: Table)
      ensures this.env == env && View() == NewJob(table) && status == Processing
    {
      this.env, this.table := env, table;
      errorRows, savedCounts, counts, header, batch := [], ZERO, ZERO, None, [];
      pendingErrors, storedErrors, progressAt, status := [], 0, 0, Processing;
    }

    method RecordError(line: nat, column: Option<string>, message: string)
      modifies this
      ensures View() == Record(old(View()), Reported(line, column, message))
    {
      counts := counts.(failedRows := counts.failedRows + 1);
      if storedErrors + |pendingErrors| >= MAX_ROW_ERRORS { return; }
      pendingErrors := pendingErrors + [Reported(line, column, message)];
    }

    method PersistErrors()
      modifies this
      ensures View() == Persist(old(View()))
    {
      if pendingErrors == [] {
        assert errorRows + pendingErrors == errorRows;
        return;
      }
      var writing := pendingErrors;
      pendingErrors := [];
      errorRows := errorRows + writing;
      storedErrors := storedErrors + |writing|;
    }

    /** Resolves a batch against lookups made once for the whole batch. */
    method Prepare(lines: seq<Line>) returns (prepared: seq<Prepared>)
      modifies this
      ensures View() == RecordAll(old(View()), Errs(Linking(env), lines))
      ensures prepared == Oks(Linking(env), lines)
    {
      var codes := set line | line in lines :: line.input.trackingCode;
      var linkByCode := map code | code in codes && code in env.links :: env.links[code];
      var affiliateIds := set code | code in linkByCode :: linkByCode[code].affiliateId;
      var relationshipByAffiliate := map a | a in affiliateIds && a in env.relationships :: env.relationships[a];
      var priorByAffiliate := map a | a in affiliateIds && a in env.priorSales :: env.priorSales[a];

      prepared := [];
      for i := 0 to |lines|
        invariant prepared == Oks(Linking(env), lines[..i])
        invariant View() == RecordAll(old(View()), Errs(Linking(env), lines[..i]))
      {
        var line := lines[i];
        var code := line.input.trackingCode;
        assert lines[..i + 1] == lines[..i] + [line];
        OneMore(Linking(env), lines[..i], line);
        assert line in lines && code in codes;
        if code !in linkByCode {
          RecordOneMore(old(View()), Errs(Linking(env), lines[..i]), Linked(env, line).error);
          RecordError(line.line, Some("trackingCode"), env.linkMessage(code));
          continue;
        }
        assert Errs(Linking(env), lines[..i + 1]) == Errs(Linking(env), lines[..i]);
        var link := linkByCode[code];
        assert link.affiliateId in affiliateIds;
        var commission := env.price(Lookup(relationshipByAffiliate, link.affiliateId), line.input.conversionValue,
                                    LookupCount(priorByAffiliate, link.affiliateId));
        prepared := prepared + [Prepared(line.line,
          ConversionRow(env.campaignId, line.input.externalOrderId, link.id, link.affiliateId,
                        line.input.conversionValue, commission, line.input.details))];
      }
      assert lines[..|lines|] == lines;
    }

    method RecordFailures(failed: seq<Failure<Prepared, string>>)
      modifies this
      ensures View() == RecordAll(old(View()), FailureErrors(failed))
    {
      for i := 0 to |failed|
        invariant RecordAll(View(), FailureErrors(failed[i..])) == RecordAll(old(View()), FailureErrors(failed))
      {
        assert failed[i..][1..] == failed[i + 1..];
        assert FailureErrors(failed[i..])[1..] == FailureErrors(failed[i + 1..]);
        RecordError(failed[i].item.line, None, failed[i].error);
      }
    }

    method Flush()
      modifies this
      ensures View() == Flushed(env, old(View()))
    {
      if batch == [] {
        PersistErrors();
        return;
      }
      var lines := batch;
      batch := [];
      CommitLines(lines);
      savedCounts := counts;
      PersistErrors();
    }

    /** Commits a batch that has just been taken out of `batch`. */
    method CommitLines(lines: seq<Line>)
      modifies this
      ensures View() == Committed(env, old(View()), lines)
    {
      ghost var before := View();
      var prepared := Prepare(lines);
      RecordAllTwice(before, Errs(Linking(env), lines), []);
      var outcome := BisectCommit(Inserting(env), Db(table, 0), prepared);
      RecordFailures(outcome.failed);
      RecordAllTwice(before, Errs(Linking(env), lines), FailureErrors(outcome.failed));
      table := outcome.state.table;
      counts := counts.(importedRows := counts.importedRows + outcome.state.inserted,
                        skippedRows := counts.skippedRows + (|outcome.succeeded| - outcome.state.inserted));
    }

    method Handle(record: CsvRecord) returns (thrown: Option<ImportError>)
      modifies this
      ensures View() == Handled(env, old(View()), record)
      ensures thrown == if old(header).Some? then None else Refused(env, [record])
    {
      if header == None {
        var first := ReadHeader(env.rules, record.values);
        header := Some(first);
        var missing := MissingColumns(env.rules, first, env.required);
        return if missing != [] then Some(MissingRequired(missing)) else None;
      }
      thrown := None;
      Take(record);
      if |batch| >= BATCH_SIZE { Flush(); }
      if counts.totalRows - progressAt >= PROGRESS_EVERY_ROWS {
        progressAt := counts.totalRows;
        savedCounts := counts;
        PersistErrors();
      }
    }

    /** Handles the records of one chunk, stopping at the first that throws. */
    method HandleChunk(records: seq<CsvRecord>, ghost before: seq<CsvRecord>, ghost table0: Table)
      returns (thrown: Option<ImportError>)
      requires View() == AfterRecords(env, table0, before) && Refused(env, before) == None
      modifies this
      ensures thrown == Refused(env, before + records)
      ensures View() == AfterRecords(env, table0, if thrown.None? then before + records else [(before + records)[0]])
    {
      thrown := None;
      assert before + records[..0] == before;
      for i := 0 to |records|
        invariant View() == AfterRecords(env, table0, before + records[..i])
        invariant thrown == Refused(env, before + records[..i]) == None
      {
        ghost var soFar := before + records[..i];
        assert before + records[..i + 1] == soFar + [records[i]];
        FoldOneMore(Handling(env), NewJob(table0), soFar, records[i]);
        HeaderIsTaken(env, table0, soFar);
        thrown := Handle(records[i]);
        if thrown.Some? {
          assert soFar == [] && before + records == records;
          assert soFar + [records[i]] == [records[0]];
          return;
        }
      }
      assert before + records[..|records|] == before + records;
    }

    /** Reads the spooled file chunk by chunk. */
    method HandleChunks(parser: CsvStreamParser, chunks: seq<string>, ghost table0: Table,
                        ghost whole: (Parser, seq<CsvRecord>))
      returns (thrown: Option<ImportError>)
      requires View() == NewJob(table0) && parser.View() == NEW_PARSER && whole == PushAll(NEW_PARSER, chunks)
      modifies this, parser
      ensures thrown == Refused(env, whole.1)
      ensures thrown.Some? ==> View() == AfterRecords(env, table0, [whole.1[0]])
      ensures thrown.None? ==> View() == AfterRecords(env, table0, whole.1) && parser.View() == whole.0
    {
      ghost var seen: seq<CsvRecord> := [];
      for i := 0 to |chunks|
        invariant View() == AfterRecords(env, table0, seen) && Refused(env, seen) == None
        invariant Remaining(chunks[i..], parser.View(), seen, whole)
      {
        PushOneMore(parser.View(), chunks, i, seen, whole);
        var records := parser.Push(chunks[i]);
        thrown := HandleChunk(records, seen, table0);
        seen := seen + records;
        if thrown.Some? {
          SameRefusal(env, seen, whole.1);
          return;
        }
      }
      return None;
    }

    method ImportFile(chunks: seq<string>) returns (thrown: Option<ImportError>)
      requires View() == NewJob(table)
      modifies this
      ensures (View(), thrown) == ImportedFile(env, old(table), ReadChunks(chunks))
    {
      ghost var table0 := table;
      ghost var reading := ReadChunks(chunks);
      var parser := new CsvStreamParser();
      thrown := HandleChunks(parser, chunks, table0, PushAll(NEW_PARSER, chunks));
      if thrown.Some? { return; }
      var last := parser.End();
      if last.Err? { return Some(Unterminated(last.error)); }
      if last.value.Some? {
        thrown := HandleChunk([last.value.value], reading.records, table0);
        if thrown.Some? {
          assert reading.records == [] && reading.All() == [reading.All()[0]];
          return;
        }
      }
      if last.value.None? { assert reading.All() == reading.records; }
      assert View() == AfterRecords(env, table0, reading.All());
      HeaderIsTaken(env, table0, reading.All());
      if header == None {
        assert reading.All() == [] && reading.records == [];
        return Some(NoHeader);
      }
      Flush();
      PersistErrors();
      assert View().errorRows + [] == View().errorRows;
      thrown := None;
    }

    /** Runs a claimed job: whatever happens, the counts reached are saved with it. */
    method ProcessClaimedJob(chunks: seq<string>) returns (outcome: JobStatus)
      requires View() == NewJob(table)
      modifies this
      ensures var (job, error) := ImportedFile(env, old(table), ReadChunks(chunks));
              && View() == job.(savedCounts := job.counts)
              && outcome == status == match error case None => Completed case Some(e) => Stopped(e)
    {
      var thrown := ImportFile(chunks);
      savedCounts := counts;
      status := match thrown case None => Completed case Some(e) => Stopped(e);
      outcome := status;
    }

    /** Puts one data record in the batch, or records why not. */
    method Take(record: CsvRecord)
      requires header.Some?
      modifies this
      ensures View() == Taken(env, old(header).value, old(View()), record)
    {
      counts := counts.(totalRows := counts.totalRows + 1);
      var cells := SelectColumns(env.rules, header.value, record, env.columns);
      match cells
      case None =>
        RecordError(record.line, None, env.widthMessage(header.value.width, |record.values|));
      case Some(selected) =>
        match env.judge(selected)
        case Ok(input) => batch := batch + [Line(record.line, input)];
        case Err(issue) => RecordError(record.line, issue.0, issue.1);
    }
  }

  lemma {:induction false} RecordAllTwice(job: Job, a: seq<RowError>, b: seq<RowError>)
    ensures RecordAll(job, a + b) == RecordAll(RecordAll(job, a), b)
    ensures RecordAll(job, a).table == job.table
    decreases |a|
  {
    if a == [] {
      assert a + b == b;
    } else {
      RecordAllTwice(Record(job, a[0]), a[1..], b);
      assert (a + b)[1..] == a[1..] + b;
    }
  }

  lemma RecordOneMore(job: Job, errors: seq<RowError>, error: RowError)
    ensures RecordAll(job, errors + [error]) == Record(RecordAll(job, errors), error)
  {
    RecordAllTwice(job, errors, [error]);
    assert [error][1..] == [];
  }

  lemma HandleKeepsHeader(env: Env, job: Job, record: CsvRecord)
    ensures job.header.Some? ==> Handled(env, job, record).header == job.header
  {
    if job.header.Some? {
      var taken := Taken(env, job.header.value, job, record);
      if |taken.batch| >= BATCH_SIZE {
        RecordKeepsOthers(taken.(batch := []), Errs(Linking(env), taken.batch) +
          FailureErrors(BatchOutcome(env, taken.(batch := []), taken.batch).failed));
      }
    }
  }

  lemma {:induction false} RecordKeepsOthers(job: Job, errors: seq<RowError>)
    ensures var after := RecordAll(job, errors);
            job.(counts := after.counts, pendingErrors := after.pendingErrors) == after
            && after.counts == job.counts.(failedRows := job.counts.failedRows + |errors|)
    decreases |errors|
  {
    if errors != [] { RecordKeepsOthers(Record(job, errors[0]), errors[1..]); }
  }

  /** With `seen` pushed out so far, pushing the chunks that remain arrives at `whole`. */
  ghost predicate Remaining(chunks: seq<string>, p: Parser, seen: seq<CsvRecord>, whole: (Parser, seq<CsvRecord>)) {
    && whole.0 == PushAll(p, chunks).0
    && whole.1 == seen + PushAll(p, chunks).1
    && (chunks == [] ==> whole == (p, seen))
  }

  /** Only the first record can be refused. */
  lemma SameRefusal(env: Env, a: seq<CsvRecord>, b: seq<CsvRecord>)
    requires a != [] && b != [] && a[0] == b[0]
    ensures Refused(env, a) == Refused(env, b)
  {
  }

  lemma PushOneMore(p: Parser, chunks: seq<string>, i: nat, seen: seq<CsvRecord>, whole: (Parser, seq<CsvRecord>))
    requires i < |chunks| && Remaining(chunks[i..], p, seen, whole)
    ensures var next, records := Pushed(p, chunks[i]).0, Pushed(p, chunks[i]).1;
            && Remaining(chunks[i + 1..], next, seen + records, whole)
            && (seen + records != [] ==> whole.1 != [] && whole.1[0] == (seen + records)[0])
  {
    assert chunks[i..][1..] == chunks[i + 1..];
    var next, records := Pushed(p, chunks[i]).0, Pushed(p, chunks[i]).1;
    var later := PushAll(next, chunks[i + 1..]).1;
    Associates(seen, records, later);
    if chunks[i + 1..] == [] { assert whole.1 == seen + records; }
  }

  lemma HeaderIsTaken(env: Env, table: Table, records: seq<CsvRecord>)
    ensures AfterRecords(env, table, records).header ==
            if records == [] then None else Some(HeaderOf(env.rules, records[0].values))
  {
    if records != [] {
      var header := HeaderOf(env.rules, records[0].values);
      var has := (job: Job, done: seq<CsvRecord>) => job.header == Some(header);
      forall job, done, record | has(job, done)
        ensures has(Handling(env)(job, record), done + [record])
      {
        HandleKeepsHeader(env, job, record);
      }
      FoldKeeps(Handling(env), Handled(env, NewJob(table), records[0]), [], records[1..], has);
    }
  }
}
