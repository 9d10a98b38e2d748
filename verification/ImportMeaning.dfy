/** Why the batched, bisected import is the plain row-by-row import. */
module ImportMeaning {
  import opened Prelude
  import opened CsvParse
  import opened CsvColumns
  import opened Bisect
  import opened ImportTable
  import opened ImportBatch
  import opened ImportWorker

  /**
   * The history behind a job: the data records read, how many of them have been flushed, the lines
   * that came of those, and every error recorded, stored or not.
   */
  datatype Past = Past(read: seq<CsvRecord>, flushedRead: nat, flushed: seq<Line>, errors: seq<RowError>)

  const NO_PAST := Past([], 0, [], [])

  /** Every failure is counted; the first MAX_ROW_ERRORS are stored or waiting to be. */
  predicate ErrorsKept(job: Job, errors: seq<RowError>) {
    && job.counts.failedRows == |errors|
    && job.storedErrors == |job.errorRows|
    && job.errorRows + job.pendingErrors == errors[..Min(|errors|, MAX_ROW_ERRORS)]
  }

  /** The table and its tallies are those of the flushed lines. */
  predicate TableKept(env: Env, table0: Table, job: Job, flushed: seq<Line>) {
    && job.table == InsertSkipping(table0, Rows(env, flushed))
    && job.counts.importedRows == |job.table| - |table0|
    && job.counts.importedRows + job.counts.skippedRows == |Rows(env, flushed)|
  }

  /** The flushed lines are those of the records flushed, and the batch holds the others. */
  predicate LinesKept(env: Env, header: CsvHeader, job: Job, past: Past) {
    && job.counts.totalRows == |past.read|
    && past.flushedRead <= |past.read|
    && Inputs(env, header, past.read[..past.flushedRead]) == past.flushed
    && Inputs(env, header, past.read) == past.flushed + job.batch
  }

  /** Every error belongs to a record read or a line flushed. */
  predicate ErrorsOwned(env: Env, header: CsvHeader, past: Past) {
    multiset(past.errors) ==
    multiset(Errs(Parsing(env, header), past.read)) + multiset(Errs(Accepting(env), past.flushed))
  }

  predicate Sound(env: Env, header: CsvHeader, table0: Table, job: Job, past: Past) {
    && ErrorsKept(job, past.errors)
    && TableKept(env, table0, job, past.flushed)
    && LinesKept(env, header, job, past)
    && ErrorsOwned(env, header, past)
  }

  // ----- the order errors are met in

  /** The errors of a batch: of lines that do not resolve, then of rows the database rejects. */
  function BatchErrors(env: Env, lines: seq<Line>): seq<RowError> {
    Errs(Linking(env), lines) + RejectErrors(env, Filter(IsRejected(env), Oks(Linking(env), lines)))
  }

  /** What reading has met so far: errors, the lines of a batch not yet full, and where it last was. */
  datatype Meeting = Meeting(errors: seq<RowError>, waiting: seq<Line>, flushedRead: nat, read: nat)

  const NOTHING_MET := Meeting([], [], 0, 0)

  /** A record that does not parse is an error at once; a batch's errors are met when it is full. */
  function Meets(env: Env, header: CsvHeader): (Meeting, CsvRecord) -> Meeting {
    (m: Meeting, record: CsvRecord) =>
      match Parsed(env, header, record)
      case Err(error) => m.(errors := m.errors + [error], read := m.read + 1)
      case Ok(line) =>
        var lines := m.waiting + [line];
        if |lines| < BATCH_SIZE then m.(waiting := lines, read := m.read + 1)
        else Meeting(m.errors + BatchErrors(env, lines), [], m.read + 1, m.read + 1)
  }

  function Met(env: Env, header: CsvHeader, records: seq<CsvRecord>): Meeting {
    Fold(Meets(env, header), NOTHING_MET, records)
  }

  /** All errors of a file in the order they are met; the last batch is flushed at the end. */
  function ErrorsMet(env: Env, header: CsvHeader, records: seq<CsvRecord>): seq<RowError> {
    Met(env, header, records).errors + BatchErrors(env, Met(env, header, records).waiting)
  }

  predicate InOrder(env: Env, header: CsvHeader, job: Job, past: Past) {
    Met(env, header, past.read) == Meeting(past.errors, job.batch, past.flushedRead, |past.read|)
  }

  // ----- each step keeps the job sound

  lemma RecordKeeps(job: Job, errors: seq<RowError>, error: RowError)
    requires ErrorsKept(job, errors)
    ensures ErrorsKept(Record(job, error), errors + [error])
  {
    assert (errors + [error])[..|errors|] == errors;
  }

  lemma {:induction false} RecordAllKeeps(job: Job, errors: seq<RowError>, more: seq<RowError>)
    requires ErrorsKept(job, errors)
    ensures ErrorsKept(RecordAll(job, more), errors + more)
    decreases |more|
  {
    if more == [] {
      assert errors + more == errors;
    } else {
      RecordKeeps(job, errors, more[0]);
      RecordAllKeeps(Record(job, more[0]), errors + [more[0]], more[1..]);
      assert errors + [more[0]] + more[1..] == errors + more;
    }
  }

  /** Recording an error changes nothing but what is kept of errors. */
  lemma RecordKeepsTheRest(env: Env, header: CsvHeader, table0: Table, job: Job, past: Past, error: RowError)
    ensures TableKept(env, table0, Record(job, error), past.flushed) <==> TableKept(env, table0, job, past.flushed)
    ensures LinesKept(env, header, Record(job, error), past) <==> LinesKept(env, header, job, past)
  {
  }

  /** A record that parses adds a line to the batch. */
  lemma LineKept(env: Env, header: CsvHeader, job: Job, past: Past, record: CsvRecord)
    requires LinesKept(env, header, job, past)
    ensures var more := match Parsed(env, header, record) case Ok(line) => [line] case Err(_) => [];
            LinesKept(env, header,
                      job.(counts := job.counts.(totalRows := job.counts.totalRows + 1), batch := job.batch + more),
                      past.(read := past.read + [record]))
  {
    OneMore(Parsing(env, header), past.read, record);
    assert (past.read + [record])[..past.flushedRead] == past.read[..past.flushedRead];
    var more := match Parsed(env, header, record) case Ok(line) => [line] case Err(_) => [];
    Associates(past.flushed, job.batch, more);
  }

  /** A record that does not parse adds its error. */
  lemma ErrorOwned(env: Env, header: CsvHeader, past: Past, record: CsvRecord)
    requires ErrorsOwned(env, header, past)
    ensures var more := match Parsed(env, header, record) case Ok(_) => [] case Err(error) => [error];
            ErrorsOwned(env, header, past.(read := past.read + [record], errors := past.errors + more))
  {
    OneMore(Parsing(env, header), past.read, record);
  }

  lemma TakeKeeps(env: Env, header: CsvHeader, table0: Table, job: Job, past: Past, record: CsvRecord)
    returns (next: Past)
    requires Sound(env, header, table0, job, past)
    ensures Sound(env, header, table0, Taken(env, header, job, record), next)
    ensures next.read == past.read + [record] && next.flushedRead == past.flushedRead
    ensures match Parsed(env, header, record)
            case Ok(line) => Taken(env, header, job, record).batch == job.batch + [line] && next.errors == past.errors
            case Err(error) =>
              Taken(env, header, job, record).batch == job.batch && next.errors == past.errors + [error]
  {
    var counted := job.(counts := job.counts.(totalRows := job.counts.totalRows + 1));
    LineKept(env, header, job, past, record);
    ErrorOwned(env, header, past, record);
    match Parsed(env, header, record)
    case Ok(line) =>
      next := past.(read := past.read + [record]);
      assert past.errors + [] == past.errors;
    case Err(error) =>
      next := past.(read := past.read + [record], errors := past.errors + [error]);
      assert job.batch + [] == job.batch;
      RecordKeeps(counted, past.errors, error);
      RecordKeepsTheRest(env, header, table0, counted, next, error);
  }

  /** What one more batch does to the table, and to the errors of the lines flushed. */
  lemma CommitMeans(env: Env, table0: Table, job: Job, flushed: seq<Line>, lines: seq<Line>)
    returns (more: seq<RowError>)
    requires TableKept(env, table0, job, flushed)
    ensures more == BatchErrors(env, lines)
    ensures TableKept(env, table0, Committed(env, job, lines), flushed + lines)
    ensures Committed(env, job, lines) == Inserted(RecordAll(job, more), BatchOutcome(env, job, lines))
    ensures multiset(Errs(Accepting(env), flushed)) + multiset(more) == multiset(Errs(Accepting(env), flushed + lines))
  {
    var o := BatchOutcome(env, job, lines);
    more := Errs(Linking(env), lines) + FailureErrors(o.failed);
    CommitInserts(env, job.table, Oks(Linking(env), lines));
    CommitFails(env, job.table, Oks(Linking(env), lines));
    BatchInsertsItsLines(env, lines);
    BatchFailsItsLines(env, lines);
    OksConcat(Accepting(env), flushed, lines);
    ErrsConcat(Accepting(env), flushed, lines);
    InsertInParts(table0, Rows(env, flushed), Rows(env, lines));
    RecordKeepsOthers(job, more);
  }

  /** After a flush every line read is flushed and every error is owned. */
  lemma FlushOwns(env: Env, header: CsvHeader, past: Past, next: Past, lines: seq<Line>, more: seq<RowError>)
    requires ErrorsOwned(env, header, past) && Inputs(env, header, past.read) == past.flushed + lines
    requires next == Past(past.read, |past.read|, past.flushed + lines, past.errors + more)
    requires multiset(Errs(Accepting(env), past.flushed)) + multiset(more) ==
             multiset(Errs(Accepting(env), past.flushed + lines))
    ensures ErrorsOwned(env, header, next)
    ensures Inputs(env, header, next.read[..next.flushedRead]) == next.flushed
  {
    assert past.read[..|past.read|] == past.read;
  }

  lemma FlushKeeps(env: Env, header: CsvHeader, table0: Table, job: Job, past: Past) returns (next: Past)
    requires Sound(env, header, table0, job, past)
    ensures Sound(env, header, table0, Flushed(env, job), next)
    ensures next.read == past.read && Flushed(env, job).batch == [] && Flushed(env, job).pendingErrors == []
    ensures next.errors == past.errors + BatchErrors(env, job.batch)
    ensures next.flushedRead == if job.batch == [] then past.flushedRead else |past.read|
  {
    if job.batch == [] {
      next := past;
      PersistKeeps(job, past.errors);
      assert BatchErrors(env, []) == [];
    } else {
      var open := job.(batch := []);
      var lines := job.batch;
      var more := CommitMeans(env, table0, open, past.flushed, lines);
      next := Past(past.read, |past.read|, past.flushed + lines, past.errors + more);
      RecordAllKeeps(open, past.errors, more);
      RecordKeepsOthers(open, more);
      var committed := Committed(env, open, lines);
      PersistKeeps(committed.(savedCounts := committed.counts), next.errors);
      FlushOwns(env, header, past, next, lines, more);
      assert next.flushed + [] == next.flushed;
    }
  }

  lemma PersistKeeps(job: Job, errors: seq<RowError>)
    requires ErrorsKept(job, errors)
    ensures ErrorsKept(Persist(job), errors)
  {
    assert job.errorRows + job.pendingErrors + [] == job.errorRows + job.pendingErrors;
  }

  lemma ProgressKeeps(env: Env, header: CsvHeader, table0: Table, job: Job, past: Past)
    requires Sound(env, header, table0, job, past)
    ensures Sound(env, header, table0, Progressed(job), past) && Progressed(job).batch == job.batch
  {
    PersistKeeps(job.(progressAt := job.counts.totalRows, savedCounts := job.counts), past.errors);
  }

  lemma FlushIfFullKeeps(env: Env, header: CsvHeader, table0: Table, job: Job, past: Past) returns (next: Past)
    requires Sound(env, header, table0, job, past)
    ensures Sound(env, header, table0, FlushedIfFull(env, job), next)
    ensures next.read == past.read && |FlushedIfFull(env, job).batch| < BATCH_SIZE
    ensures if |job.batch| < BATCH_SIZE then next == past && FlushedIfFull(env, job) == job
            else
              && next.errors == past.errors + BatchErrors(env, job.batch)
              && next.flushedRead == |past.read| && FlushedIfFull(env, job).batch == []
  {
    if |job.batch| >= BATCH_SIZE {
      next := FlushKeeps(env, header, table0, job, past);
    } else {
      next := past;
    }
  }

  lemma HandleKeeps(env: Env, header: CsvHeader, table0: Table, job: Job, past: Past, record: CsvRecord)
    returns (next: Past)
    requires Sound(env, header, table0, job, past) && job.header == Some(header)
    requires InOrder(env, header, job, past) && |job.batch| < BATCH_SIZE
    ensures Sound(env, header, table0, Handled(env, job, record), next)
    ensures InOrder(env, header, Handled(env, job, record), next) && |Handled(env, job, record).batch| < BATCH_SIZE
    ensures next.read == past.read + [record]
  {
    var taken := Taken(env, header, job, record);
    next := TakeKeeps(env, header, table0, job, past, record);
    next := FlushIfFullKeeps(env, header, table0, taken, next);
    FoldOneMore(Meets(env, header), NOTHING_MET, past.read, record);
    ProgressKeeps(env, header, table0, FlushedIfFull(env, taken), next);
  }

  /** The history after these records. */
  function PastOf(env: Env, header: CsvHeader, read: seq<CsvRecord>): Past {
    var m := Met(env, header, read);
    Past(read, m.flushedRead, Inputs(env, header, read[..Min(m.flushedRead, |read|)]), m.errors)
  }

  /** Between records: the history accounts for the job, and the batch is under its bound. */
  predicate SoundAt(env: Env, header: CsvHeader, table0: Table, job: Job, read: seq<CsvRecord>) {
    && job.header == Some(header)
    && |job.batch| < BATCH_SIZE
    && Sound(env, header, table0, job, PastOf(env, header, read))
    && InOrder(env, header, job, PastOf(env, header, read))
  }

  lemma OnlyOnePast(env: Env, header: CsvHeader, table0: Table, job: Job, past: Past)
    requires Sound(env, header, table0, job, past) && InOrder(env, header, job, past)
    ensures past == PastOf(env, header, past.read)
  {
  }

  lemma HandleKeepsSound(env: Env, header: CsvHeader, table0: Table, job: Job, read: seq<CsvRecord>, record: CsvRecord)
    requires SoundAt(env, header, table0, job, read)
    ensures SoundAt(env, header, table0, Handled(env, job, record), read + [record])
  {
    var next := HandleKeeps(env, header, table0, job, PastOf(env, header, read), record);
    OnlyOnePast(env, header, table0, Handled(env, job, record), next);
    HandleKeepsHeader(env, job, record);
  }

  /** A job that has handled a header and some records is sound. */
  lemma AfterRecordsIsSound(env: Env, table: Table, records: seq<CsvRecord>)
    requires records != []
    ensures SoundAt(env, HeaderOf(env.rules, records[0].values), table, AfterRecords(env, table, records), records[1..])
  {
    var header := HeaderOf(env.rules, records[0].values);
    var start := Handled(env, NewJob(table), records[0]);
    var sound := (job: Job, read: seq<CsvRecord>) => SoundAt(env, header, table, job, read);
    assert PastOf(env, header, []) == NO_PAST;
    assert sound(start, []);
    forall job, read, record | sound(job, read)
      ensures sound(Handling(env)(job, record), read + [record])
    {
      HandleKeepsSound(env, header, table, job, read, record);
    }
    FoldKeeps(Handling(env), start, [], records[1..], sound);
    assert [] + records[1..] == records[1..];
    assert AfterRecords(env, table, records) == Fold(Handling(env), start, records[1..]);
  }

  // ----- what an import comes to

  /** At every record boundary each row is imported, skipped, failed or in a batch under its bound. */
  lemma RowsAreAccountedFor(env: Env, table: Table, records: seq<CsvRecord>)
    ensures var job := AfterRecords(env, table, records);
            && job.counts.totalRows ==
               job.counts.importedRows + job.counts.skippedRows + job.counts.failedRows + |job.batch|
            && job.counts.totalRows == Max(0, |records| - 1)
            && |job.batch| < BATCH_SIZE
            && |job.errorRows| + |job.pendingErrors| == Min(job.counts.failedRows, MAX_ROW_ERRORS)
  {
    if records != [] {
      AfterRecordsIsSound(env, table, records);
      var past := PastOf(env, HeaderOf(env.rules, records[0].values), records[1..]);
      OksAndErrs(Parsing(env, HeaderOf(env.rules, records[0].values)), past.read);
      OksAndErrs(Accepting(env), past.flushed);
      assert |multiset(past.errors)| == |past.errors|;
    }
  }

  /** A completed import has read, flushed and stored everything. */
  lemma CompletedIsSound(env: Env, table: Table, reading: Reading) returns (past: Past)
    requires ImportedFile(env, table, reading).1 == None
    ensures var job, all := ImportedFile(env, table, reading).0, reading.All();
            && all != []
            && Sound(env, HeaderOf(env.rules, all[0].values), table, job, past)
            && past.read == all[1..] && job.batch == [] && job.pendingErrors == []
            && past.errors == ErrorsMet(env, HeaderOf(env.rules, all[0].values), all[1..])
  {
    var all := reading.All();
    var header, read := HeaderOf(env.rules, all[0].values), AfterRecords(env, table, all);
    AfterRecordsIsSound(env, table, all);
    past := FlushKeeps(env, header, table, read, PastOf(env, header, all[1..]));
    PersistKeeps(Flushed(env, read), past.errors);
    assert ImportedFile(env, table, reading).0 == Persist(Flushed(env, read));
  }

  lemma SoundIsRowByRow(env: Env, header: CsvHeader, table: Table, job: Job, past: Past)
    requires Sound(env, header, table, job, past) && job.batch == [] && job.pendingErrors == []
    ensures job.table == RowByRow(env, header, table, past.read).0
    ensures var outcomes := RowByRow(env, header, table, past.read).1;
            && job.counts == Counts(|past.read|, ImportedIn(outcomes), SkippedIn(outcomes), |ErrorsIn(outcomes)|)
            && multiset(past.errors) == multiset(ErrorsIn(outcomes))
            && job.errorRows == past.errors[..Min(|past.errors|, MAX_ROW_ERRORS)]
  {
    assert past.flushed + [] == past.flushed;
    assert past.flushed == Inputs(env, header, past.read);
    RowByRowInsertsLines(env, header, table, past.read);
    RowByRowTallies(env, header, table, past.read);
    RowByRowErrors(env, header, table, past.read);
    SameSize(past.errors, ErrorsIn(RowByRow(env, header, table, past.read).1));
    assert job.errorRows + [] == job.errorRows;
  }

  /**
   * An import that completes leaves the table and the counts of the row-by-row import, and a report
   * of its errors in the order they were met, cut at MAX_ROW_ERRORS.
   */
  lemma ImportIsRowByRow(env: Env, table: Table, reading: Reading)
    requires ImportedFile(env, table, reading).1 == None
    ensures var job, all := ImportedFile(env, table, reading).0, reading.All();
            && all != []
            && var header := HeaderOf(env.rules, all[0].values);
            && var outcomes := RowByRow(env, header, table, all[1..]).1;
            && job.table == RowByRow(env, header, table, all[1..]).0
            && job.counts == Counts(|all| - 1, ImportedIn(outcomes), SkippedIn(outcomes), |ErrorsIn(outcomes)|)
            && var met := ErrorsMet(env, header, all[1..]);
            && multiset(met) == multiset(ErrorsIn(outcomes))
            && job.errorRows == met[..Min(|met|, MAX_ROW_ERRORS)]
  {
    var past := CompletedIsSound(env, table, reading);
    var job, all := ImportedFile(env, table, reading).0, reading.All();
    SoundIsRowByRow(env, HeaderOf(env.rules, all[0].values), table, job, past);
  }

  lemma SameSize<T>(a: seq<T>, b: seq<T>)
    requires multiset(a) == multiset(b)
    ensures |a| == |b|
  {
    assert |multiset(a)| == |a| && |multiset(b)| == |b|;
  }

  // ----- progress

  /** The counts saved are less than PROGRESS_EVERY_ROWS rows behind. */
  predicate Recent(job: Job) {
    && job.progressAt <= job.savedCounts.totalRows <= job.counts.totalRows
    && job.counts.totalRows - job.progressAt < PROGRESS_EVERY_ROWS
  }

  lemma FlushIsRecent(env: Env, job: Job)
    requires job.progressAt <= job.savedCounts.totalRows <= job.counts.totalRows
    ensures var job' := FlushedIfFull(env, job);
            && job'.progressAt == job.progressAt && job'.counts.totalRows == job.counts.totalRows
            && job'.progressAt <= job'.savedCounts.totalRows <= job'.counts.totalRows
  {
    if |job.batch| >= BATCH_SIZE {
      var open := job.(batch := []);
      RecordKeepsOthers(open, Errs(Linking(env), job.batch) + FailureErrors(BatchOutcome(env, open, job.batch).failed));
    }
  }

  lemma HandleIsRecent(env: Env, job: Job, record: CsvRecord)
    requires Recent(job)
    ensures Recent(Handled(env, job, record))
  {
    if job.header.Some? { FlushIsRecent(env, Taken(env, job.header.value, job, record)); }
  }

  /** When a batch has been flushed the counts saved are those reached, and no error waits. */
  lemma FlushSaves(env: Env, job: Job)
    requires job.batch != []
    ensures var job' := Flushed(env, job);
            && job'.savedCounts == job'.counts && job'.counts.totalRows == job.counts.totalRows
            && job'.batch == [] && job'.pendingErrors == [] && job'.storedErrors >= job.storedErrors
  {
    var open := job.(batch := []);
    RecordKeepsOthers(open, Errs(Linking(env), job.batch) + FailureErrors(BatchOutcome(env, open, job.batch).failed));
  }

  /** While a file is being read, whoever looks at the job sees counts less than 5000 rows old. */
  lemma ProgressIsRecent(env: Env, table: Table, records: seq<CsvRecord>)
    ensures var job := AfterRecords(env, table, records);
            0 <= job.counts.totalRows - job.savedCounts.totalRows < 5000
  {
    var recent := (job: Job, read: seq<CsvRecord>) => Recent(job);
    forall job, read, record | recent(job, read)
      ensures recent(Handling(env)(job, record), read + [record])
    {
      HandleIsRecent(env, job, record);
    }
    FoldKeeps(Handling(env), NewJob(table), [], records, recent);
  }

  // ----- how an import ends

  /** The required columns that the first record of a file does not name. */
  function Lacking(env: Env, first: CsvRecord): seq<string> {
    Filter(Unnamed(env.rules, first.values), env.required)
  }

  /**
   * An import is refused for its columns exactly when the first record lacks required ones, and names
   * them; otherwise it stops at a quoted field that never closes, with its line, or for want of any
   * record; and it completes exactly when none of this is so.
   */
  lemma HowAnImportEnds(env: Env, table: Table, reading: Reading)
    ensures var all, error := reading.All(), ImportedFile(env, table, reading).1;
            var lacking := if all == [] then [] else Lacking(env, all[0]);
            && (forall names :: error == Some(MissingRequired(names)) <==> lacking != [] && names == lacking)
            && (forall line: nat :: error == Some(Unterminated(line)) <==> lacking == [] && reading.ending == Err(line))
            && (error == Some(NoHeader) <==> all == [] && reading.ending.Ok?)
            && (error == None <==> all != [] && lacking == [] && reading.ending.Ok?)
    ensures reading.All() != [] ==>
              forall c :: c in Lacking(env, reading.All()[0]) <==>
                          c in env.required && !Named(env.rules, reading.All()[0].values, c)
  {
    if reading.All() != [] {
      MissingAreUnnamed(env.rules, reading.All()[0].values, env.required);
    }
  }

  // ----- an import that fails

  /** The last full batch ends with record `k`: it makes the lines a multiple of BATCH_SIZE, and fewer follow. */
  predicate IsLastFlush(env: Env, header: CsvHeader, records: seq<CsvRecord>, k: nat) {
    && k <= |records|
    && |Inputs(env, header, records[..k])| % BATCH_SIZE == 0
    && |Inputs(env, header, records[k..])| < BATCH_SIZE
    && (k > 0 ==> Parsed(env, header, records[k - 1]).Ok?)
  }

  /** Where reading stands: after the last full batch, with the lines since then waiting. */
  predicate Stands(env: Env, header: CsvHeader, records: seq<CsvRecord>, m: Meeting) {
    && m.read == |records| && IsLastFlush(env, header, records, m.flushedRead)
    && m.waiting == Inputs(env, header, records[m.flushedRead..])
  }

  lemma StillWaiting(env: Env, header: CsvHeader, front: seq<CsvRecord>, last: CsvRecord, m: Meeting)
    requires Stands(env, header, front, m) && Meets(env, header)(m, last).flushedRead == m.flushedRead <= |front|
    ensures Stands(env, header, front + [last], Meets(env, header)(m, last))
  {
    var records, k := front + [last], m.flushedRead;
    assert records[..k] == front[..k] && records[k..] == front[k..] + [last];
    OneMore(Parsing(env, header), front[k..], last);
  }

  /** The record that fills a batch makes the lines so far a multiple of its size. */
  lemma FillsUp(env: Env, header: CsvHeader, front: seq<CsvRecord>, last: CsvRecord, k: nat)
    requires k <= |front| && Parsed(env, header, last).Ok?
    requires |Inputs(env, header, front[..k])| % BATCH_SIZE == 0
    requires |Inputs(env, header, front[k..])| + 1 == BATCH_SIZE
    ensures |Inputs(env, header, front + [last])| % BATCH_SIZE == 0
  {
    assert front == front[..k] + front[k..];
    OksConcat(Parsing(env, header), front[..k], front[k..]);
    OneMore(Parsing(env, header), front, last);
  }

  lemma NowFull(env: Env, header: CsvHeader, front: seq<CsvRecord>, last: CsvRecord, m: Meeting)
    requires Stands(env, header, front, m) && Meets(env, header)(m, last).flushedRead == |front| + 1
    ensures Stands(env, header, front + [last], Meets(env, header)(m, last))
  {
    var records := front + [last];
    FillsUp(env, header, front, last, m.flushedRead);
    assert records[..|records|] == records && records[|records|..] == [];
  }

  /** Reading stands after the last full batch of what it has read. */
  lemma {:induction false} LastFlush(env: Env, header: CsvHeader, records: seq<CsvRecord>)
    ensures Stands(env, header, records, Met(env, header, records))
  {
    if records != [] {
      var front, last := records[..|records| - 1], records[|records| - 1];
      assert records == front + [last];
      LastFlush(env, header, front);
      FoldOneMore(Meets(env, header), NOTHING_MET, front, last);
      var m := Met(env, header, front);
      if Meets(env, header)(m, last).flushedRead == m.flushedRead {
        StillWaiting(env, header, front, last, m);
      } else {
        NowFull(env, header, front, last, m);
      }
    }
  }

  /** How many data records an import has put in the table when it stops. */
  function Reached(env: Env, header: CsvHeader, data: seq<CsvRecord>, error: Option<ImportError>): (k: nat)
    ensures k <= |data|
  {
    match error
    case None => |data|
    case Some(Unterminated(_)) => Min(Met(env, header, data).flushedRead, |data|)
    case Some(_) => 0
  }

  /** An unfinished job has imported what it has flushed, and counts the errors of what it has read. */
  lemma UnfinishedIsRowByRow(env: Env, header: CsvHeader, table: Table, job: Job, read: seq<CsvRecord>, k: nat)
    requires SoundAt(env, header, table, job, read) && k == PastOf(env, header, read).flushedRead
    ensures k <= |read|
    ensures var outcomes := RowByRow(env, header, table, read[..k]).1;
            && job.table == RowByRow(env, header, table, read[..k]).0
            && job.counts == Counts(|read|, ImportedIn(outcomes), SkippedIn(outcomes),
                                    |ErrorsIn(outcomes)| + |Errs(Parsing(env, header), read[k..])|)
  {
    var past := PastOf(env, header, read);
    var front, back := read[..k], read[k..];
    RowByRowInsertsLines(env, header, table, front);
    RowByRowTallies(env, header, table, front);
    UnfinishedErrors(env, header, table, past, k, front, back);
    assert ErrorsKept(job, past.errors) && TableKept(env, table, job, past.flushed);
    assert LinesKept(env, header, job, past);
  }

  lemma UnfinishedErrors(env: Env, header: CsvHeader, table: Table, past: Past, k: nat, front: seq<CsvRecord>,
                         back: seq<CsvRecord>)
    requires ErrorsOwned(env, header, past) && k <= |past.read| && past.flushed == Inputs(env, header, past.read[..k])
    requires front == past.read[..k] && back == past.read[k..]
    ensures |past.errors| == |ErrorsIn(RowByRow(env, header, table, front).1)| + |Errs(Parsing(env, header), back)|
  {
    CountErrors(env, header, table, past, k);
    assert past.read == front + back;
    ErrsConcat(Parsing(env, header), front, back);
  }

  lemma CountErrors(env: Env, header: CsvHeader, table: Table, past: Past, k: nat)
    requires ErrorsOwned(env, header, past) && k <= |past.read| && past.flushed == Inputs(env, header, past.read[..k])
    ensures |past.errors| == |Errs(Parsing(env, header), past.read)| + |Errs(Accepting(env), past.flushed)|
    ensures |ErrorsIn(RowByRow(env, header, table, past.read[..k]).1)| ==
            |Errs(Parsing(env, header), past.read[..k])| + |Errs(Accepting(env), past.flushed)|
  {
    RowByRowErrors(env, header, table, past.read[..k]);
    SameSize(past.errors, Errs(Parsing(env, header), past.read) + Errs(Accepting(env), past.flushed));
    SameSize(ErrorsIn(RowByRow(env, header, table, past.read[..k]).1),
             Errs(Parsing(env, header), past.read[..k]) + Errs(Accepting(env), past.flushed));
  }

  /**
   * An import that fails has imported a first part of the file row by row and nothing else: no data
   * if the header lacks a column, the batches filled so far if a quoted field never ends. Its counts
   * are of that part, but for the rows read beyond it and those of them that do not parse.
   */
  lemma FailedImportIsAPrefix(env: Env, table: Table, reading: Reading)
    ensures var (job, error) := ImportedFile(env, table, reading);
            var all := reading.All();
            if all == [] then job == NewJob(table)
            else
              var header, data := HeaderOf(env.rules, all[0].values), all[1..];
              var k := Reached(env, header, data, error);
              var outcomes := RowByRow(env, header, table, data[..k]).1;
              var read := if error.Some? && error.value.MissingRequired? then [] else data;
              && (error.Some? && error.value.Unterminated? ==> IsLastFlush(env, header, data, k))
              && job.table == RowByRow(env, header, table, data[..k]).0
              && k <= |read|
              && job.counts == Counts(|read|, ImportedIn(outcomes), SkippedIn(outcomes),
                                      |ErrorsIn(outcomes)| + |Errs(Parsing(env, header), read[k..])|)
  {
    var all, error := reading.All(), ImportedFile(env, table, reading).1;
    if all != [] {
      var header, data := HeaderOf(env.rules, all[0].values), all[1..];
      if error == None {
        ImportIsRowByRow(env, table, reading);
        assert data[..|data|] == data && data[|data|..] == [];
      } else if error.value.Unterminated? {
        assert reading.records == all;
        AfterRecordsIsSound(env, table, all);
        LastFlush(env, header, data);
        UnfinishedIsRowByRow(env, header, table, AfterRecords(env, table, all), data,
                             Met(env, header, data).flushedRead);
      } else {
        RefusedAtTheHeader(env, table, reading);
        assert data[..0] == [] && RowByRow(env, header, table, []).0 == table;
      }
    }
  }

  lemma RefusedAtTheHeader(env: Env, table: Table, reading: Reading)
    requires reading.All() != []
    requires ImportedFile(env, table, reading).1.Some? && ImportedFile(env, table, reading).1.value.MissingRequired?
    ensures ImportedFile(env, table, reading).0.table == table && ImportedFile(env, table, reading).0.counts == ZERO
  {
    var all := reading.All();
    FoldOneMore(Handling(env), NewJob(table), [], all[0]);
    assert [] + [all[0]] == [all[0]];
    assert AfterRecords(env, table, [all[0]]) == Handled(env, NewJob(table), all[0]);
    assert reading.records == [] ==> all == [all[0]];
  }

  /** However the file is cut into chunks, a completed import is the row-by-row import of its text. */
  lemma ChunkedImportIsRowByRow(env: Env, table: Table, chunks: seq<string>)
    requires chunks != [] ==> chunks[0] != ""
    requires ImportedFile(env, table, ReadChunks(chunks)).1 == None
    ensures var all := ReadRaw(StripBom(Concat(chunks))).All();
            && all != []
            && ImportedFile(env, table, ReadChunks(chunks)).0.table ==
               RowByRow(env, HeaderOf(env.rules, all[0].values), table, all[1..]).0
  {
    ChunkingIsInvisible(chunks);
    ImportIsRowByRow(env, table, ReadChunks(chunks));
  }

  lemma {:induction false} SameErrors(first: seq<RowOutcome>, second: seq<RowOutcome>)
    requires |first| == |second|
    requires forall k :: 0 <= k < |first| ==> second[k] == if first[k].Failed? then first[k] else Skipped
    ensures ErrorsIn(second) == ErrorsIn(first) && ImportedIn(second) == 0
  {
    if first != [] { SameErrors(first[1..], second[1..]); }
  }

  lemma SecondRowByRow(env: Env, header: CsvHeader, table: Table, data: seq<CsvRecord>)
    ensures var (once, first) := RowByRow(env, header, table, data);
            var (twice, second) := RowByRow(env, header, once, data);
            && twice == once && ErrorsIn(second) == ErrorsIn(first) && ImportedIn(second) == 0
            && SkippedIn(second) == ImportedIn(first) + SkippedIn(first)
  {
    var once := RowByRow(env, header, table, data).0;
    ImportAgain(env, header, table, data);
    RowByRowTallies(env, header, table, data);
    RowByRowTallies(env, header, once, data);
    SameErrors(RowByRow(env, header, table, data).1, RowByRow(env, header, once, data).1);
  }

  /** Whether an import completes does not depend on the table. */
  lemma CompletesAlike(env: Env, a: Table, b: Table, reading: Reading)
    ensures ImportedFile(env, a, reading).1 == ImportedFile(env, b, reading).1
  {
  }

  /** Importing the same file again: nothing new, nothing lost, and the counts say so. */
  lemma SecondImport(env: Env, table: Table, reading: Reading)
    requires ImportedFile(env, table, reading).1 == None
    ensures var once := ImportedFile(env, table, reading).0;
            var (twice, error) := ImportedFile(env, once.table, reading);
            && error == None
            && twice.table == once.table
            && twice.counts == Counts(once.counts.totalRows, 0, once.counts.importedRows + once.counts.skippedRows,
                                      once.counts.failedRows)
  {
    var once := ImportedFile(env, table, reading).0;
    CompletesAlike(env, table, once.table, reading);
    ImportIsRowByRow(env, table, reading);
    ImportIsRowByRow(env, once.table, reading);
    SecondRowByRow(env, HeaderOf(env.rules, reading.All()[0].values), table, reading.All()[1..]);
  }
}
