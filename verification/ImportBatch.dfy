/**
 * One batch of an import: rows prepared together, committed by bisection, and why that comes to
 * the same as taking the batch's lines one at a time.
 */
module ImportBatch {
  import opened Prelude
  import opened CsvParse
  import opened CsvColumns
  import opened Bisect
  import opened ImportTable

  datatype Prepared = Prepared(line: nat, row: ConversionRow)

  /** The table, and how many rows this batch's statements have inserted. */
  datatype Db = Db(table: Table, inserted: nat)

  function RowsOf(prepared: seq<Prepared>): seq<ConversionRow> {
    if prepared == [] then [] else [prepared[0].row] + RowsOf(prepared[1..])
  }

  /** What the database says of the first row it rejects. */
  function FirstRejection(env: Env, slice: seq<Prepared>): Option<string> {
    if slice == [] then None
    else if env.reject(slice[0].row).Some? then env.reject(slice[0].row)
    else FirstRejection(env, slice[1..])
  }

  /** `insertConversions` for a slice: all of its new rows, or none and the reason. */
  function InsertSlice(env: Env, db: Db, slice: seq<Prepared>): Result<Db, string> {
    match FirstRejection(env, slice)
    case Some(message) => Err(message)
    case None =>
      var after := InsertSkipping(db.table, RowsOf(slice));
      Ok(Db(after, db.inserted + (|after| - |db.table|)))
  }

  function Inserting(env: Env): Commit<Db, Prepared, string> {
    (db, slice) => InsertSlice(env, db, slice)
  }

  function IsRejected(env: Env): Prepared -> bool {
    (p: Prepared) => env.reject(p.row).Some?
  }

  // ----- what lists of records and of lines come to

  function Parsing(env: Env, header: CsvHeader): CsvRecord -> Result<Line, RowError> {
    (r: CsvRecord) => Parsed(env, header, r)
  }

  function Accepting(env: Env): Line -> Result<ConversionRow, RowError> {
    (line: Line) => Accepted(env, line)
  }

  function Linking(env: Env): Line -> Result<Prepared, RowError> {
    (line: Line) => match Linked(env, line) case Ok(row) => Ok(Prepared(line.line, row)) case Err(error) => Err(error)
  }

  /** The lines of the records that are valid. */
  function Inputs(env: Env, header: CsvHeader, records: seq<CsvRecord>): seq<Line> {
    Oks(Parsing(env, header), records)
  }

  /** The rows of the lines the database will have. */
  function Rows(env: Env, lines: seq<Line>): seq<ConversionRow> {
    Oks(Accepting(env), lines)
  }

  function FailureErrors(failed: seq<Failure<Prepared, string>>): seq<RowError> {
    if failed == [] then []
    else [Reported(failed[0].item.line, None, failed[0].error)] + FailureErrors(failed[1..])
  }

  lemma {:induction false} RowsOfConcat(a: seq<Prepared>, b: seq<Prepared>)
    ensures RowsOf(a + b) == RowsOf(a) + RowsOf(b)
  {
    if a == [] {
      assert a + b == b;
    } else {
      RowsOfConcat(a[1..], b);
      assert (a + b)[1..] == a[1..] + b;
    }
  }

  // ----- the bisected commit

  lemma {:induction false} RejectsExactlyPoison(env: Env, slice: seq<Prepared>)
    ensures FirstRejection(env, slice).Some? <==> Count(IsRejected(env), slice) > 0
  {
    if slice != [] { RejectsExactlyPoison(env, slice[1..]); }
  }

  lemma InsertFailsOnPoison(env: Env)
    ensures FailsOnPoison(Inserting(env), IsRejected(env))
  {
    forall db, slice
      ensures Fails(Inserting(env), db, slice) <==> Count(IsRejected(env), slice) > 0
    {
      RejectsExactlyPoison(env, slice);
    }
  }

  /** Slices committed in turn insert what their concatenation inserts. */
  lemma {:induction false} SlicesInsertAll(env: Env, first: Db, slices: seq<seq<Prepared>>, last: Db)
    requires Commits(Inserting(env), first, slices, last)
    ensures last.table == InsertSkipping(first.table, RowsOf(Concat(slices)))
    ensures last.inserted == first.inserted + (|last.table| - |first.table|)
    decreases |slices|
  {
    if slices != [] {
      SlicesInsertAll(env, InsertSlice(env, first, slices[0]).value, slices[1..], last);
      RowsOfConcat(slices[0], Concat(slices[1..]));
      InsertInParts(first.table, RowsOf(slices[0]), RowsOf(Concat(slices[1..])));
    }
  }

  /** The rows a bisected batch puts in the table. */
  lemma CommitInserts(env: Env, table: Table, prepared: seq<Prepared>)
    ensures var o := Bisected(Inserting(env), Db(table, 0), prepared);
            && o.state.table == InsertSkipping(table, RowsOf(Without(IsRejected(env), prepared)))
            && o.state.inserted == |o.state.table| - |table|
            && |o.succeeded| == |RowsOf(Without(IsRejected(env), prepared))|
  {
    if prepared != [] {
      var o := Bisected(Inserting(env), Db(table, 0), prepared);
      InsertFailsOnPoison(env);
      PoisonIsIsolated(Inserting(env), IsRejected(env), Db(table, 0), prepared);
      var slices := WrittenInSlices(Inserting(env), Db(table, 0), prepared);
      SlicesInsertAll(env, Db(table, 0), slices, o.state);
      RowsOfLength(o.succeeded);
    }
  }

  lemma RejectedAlone(env: Env, db: Db, p: Prepared)
    ensures InsertSlice(env, db, [p]).Err? ==> InsertSlice(env, db, [p]).error == RejectionOf(env, p)
  {
    assert [p][1..] == [];
    assert FirstRejection(env, [p]) == env.reject(p.row);
  }

  /** The rows it does not, and what is said about them. */
  lemma CommitFails(env: Env, table: Table, prepared: seq<Prepared>)
    ensures FailureErrors(Bisected(Inserting(env), Db(table, 0), prepared).failed) ==
            RejectErrors(env, Filter(IsRejected(env), prepared))
  {
    if prepared != [] {
      var o := Bisected(Inserting(env), Db(table, 0), prepared);
      InsertFailsOnPoison(env);
      PoisonIsIsolated(Inserting(env), IsRejected(env), Db(table, 0), prepared);
      forall f | f in o.failed
        ensures f.error == RejectionOf(env, f.item)
      {
        FailuresAreSingle(Inserting(env), Db(table, 0), prepared, f);
        var slices: seq<seq<Prepared>>, s: Db :|
          Commits(Inserting(env), Db(table, 0), slices, s) && Concat(slices) <= o.succeeded &&
          Inserting(env)(s, [f.item]) == Err(f.error);
        RejectedAlone(env, s, f.item);
      }
      FailuresAreRejections(env, o.failed);
    }
  }

  lemma {:induction false} RowsOfLength(prepared: seq<Prepared>)
    ensures |RowsOf(prepared)| == |prepared|
  {
    if prepared != [] { RowsOfLength(prepared[1..]); }
  }

  function RejectionOf(env: Env, p: Prepared): string {
    match env.reject(p.row) case Some(message) => message case None => ""
  }

  function RejectErrors(env: Env, rejected: seq<Prepared>): seq<RowError> {
    if rejected == [] then []
    else [Reported(rejected[0].line, None, RejectionOf(env, rejected[0]))] + RejectErrors(env, rejected[1..])
  }

  lemma {:induction false} FailuresAreRejections(env: Env, failed: seq<Failure<Prepared, string>>)
    requires forall f :: f in failed ==> f.error == RejectionOf(env, f.item)
    ensures FailureErrors(failed) == RejectErrors(env, Items(failed))
  {
    if failed != [] {
      FailuresAreRejections(env, failed[1..]);
      assert Items(failed)[1..] == Items(failed[1..]);
    }
  }

  /** What the first line of a batch adds to each of the batch's lists. */
  lemma FirstLine(env: Env, lines: seq<Line>)
    requires lines != []
    ensures var rest := Oks(Linking(env), lines[1..]);
            var all := Oks(Linking(env), lines);
            var poison := IsRejected(env);
            match Linked(env, lines[0])
            case Err(error) =>
              && all == rest
              && Errs(Linking(env), lines) == [error] + Errs(Linking(env), lines[1..])
              && Rows(env, lines) == Rows(env, lines[1..])
              && Errs(Accepting(env), lines) == [error] + Errs(Accepting(env), lines[1..])
            case Ok(row) =>
              && var p := Prepared(lines[0].line, row);
              && Errs(Linking(env), lines) == Errs(Linking(env), lines[1..])
              && if poison(p) then
                   && Without(poison, all) == Without(poison, rest)
                   && Filter(poison, all) == [p] + Filter(poison, rest)
                   && Rows(env, lines) == Rows(env, lines[1..])
                   && Errs(Accepting(env), lines) ==
                      [Reported(p.line, None, RejectionOf(env, p))] + Errs(Accepting(env), lines[1..])
                 else
                   && Without(poison, all) == [p] + Without(poison, rest)
                   && Filter(poison, all) == Filter(poison, rest)
                   && Rows(env, lines) == [row] + Rows(env, lines[1..])
                   && Errs(Accepting(env), lines) == Errs(Accepting(env), lines[1..])
  {
    if Linked(env, lines[0]).Ok? {
      assert Oks(Linking(env), lines)[1..] == Oks(Linking(env), lines[1..]);
    }
  }

  /** A batch's insertable rows are those of its lines. */
  lemma {:induction false} BatchInsertsItsLines(env: Env, lines: seq<Line>)
    ensures RowsOf(Without(IsRejected(env), Oks(Linking(env), lines))) == Rows(env, lines)
  {
    if lines != [] {
      FirstLine(env, lines);
      BatchInsertsItsLines(env, lines[1..]);
      var inserted := Without(IsRejected(env), Oks(Linking(env), lines));
      var rest := Without(IsRejected(env), Oks(Linking(env), lines[1..]));
      assert inserted == rest || inserted[1..] == rest;
    }
  }

  /** So are its errors, though not in the order they are met. */
  lemma {:induction false} BatchFailsItsLines(env: Env, lines: seq<Line>)
    ensures multiset(Errs(Linking(env), lines)) +
            multiset(RejectErrors(env, Filter(IsRejected(env), Oks(Linking(env), lines)))) ==
            multiset(Errs(Accepting(env), lines))
  {
    if lines != [] {
      FirstLine(env, lines);
      BatchFailsItsLines(env, lines[1..]);
      var rejected := Filter(IsRejected(env), Oks(Linking(env), lines));
      var rest := Filter(IsRejected(env), Oks(Linking(env), lines[1..]));
      assert rejected == rest || rejected[1..] == rest;
    }
  }

  // ----- lines against rows taken one at a time

  /** Where one record leaves the lists its lines, rows and errors are collected in. */
  lemma FirstRecord(env: Env, header: CsvHeader, records: seq<CsvRecord>)
    requires records != []
    ensures var rest := Inputs(env, header, records[1..]);
            var lines := Inputs(env, header, records);
            match Parsed(env, header, records[0])
            case Err(_) => lines == rest
            case Ok(line) =>
              && lines == [line] + rest
              && Rows(env, lines) ==
                 (match Accepted(env, line) case Ok(row) => [row] case Err(_) => []) + Rows(env, rest)
              && Errs(Accepting(env), lines) ==
                 (match Accepted(env, line) case Ok(_) => [] case Err(error) => [error]) + Errs(Accepting(env), rest)
  {
    if Parsed(env, header, records[0]).Ok? {
      assert Inputs(env, header, records)[1..] == Inputs(env, header, records[1..]);
    }
  }

  /** Taking the records one at a time inserts the rows of their lines, in order. */
  lemma {:induction false} RowByRowInsertsLines(env: Env, header: CsvHeader, table: Table, records: seq<CsvRecord>)
    ensures RowByRow(env, header, table, records).0 == InsertSkipping(table, Rows(env, Inputs(env, header, records)))
    decreases |records|
  {
    if records != [] {
      FirstRecord(env, header, records);
      RowByRowInsertsLines(env, header, StepTable(env, header, table, records[0]), records[1..]);
      var rows, rest := Rows(env, Inputs(env, header, records)), Rows(env, Inputs(env, header, records[1..]));
      if Resolved(env, header, records[0]).Ok? {
        assert rows == [Resolved(env, header, records[0]).value] + rest;
        assert rows[1..] == rest;
      } else {
        assert rows == rest;
      }
    }
  }

  lemma {:induction false} RowByRowTallies(env: Env, header: CsvHeader, table: Table, records: seq<CsvRecord>)
    ensures var (after, outcomes) := RowByRow(env, header, table, records);
            && ImportedIn(outcomes) == |after| - |table|
            && ImportedIn(outcomes) + SkippedIn(outcomes) == |Rows(env, Inputs(env, header, records))|
    decreases |records|
  {
    if records != [] {
      var next := StepTable(env, header, table, records[0]);
      FirstRecord(env, header, records);
      RowByRowTallies(env, header, next, records[1..]);
      assert RowByRow(env, header, table, records).1[1..] == RowByRow(env, header, next, records[1..]).1;
    }
  }

  /** The first record's error, if any, is found by the parsing or by the accepting. */
  lemma FirstError(env: Env, header: CsvHeader, table: Table, records: seq<CsvRecord>)
    requires records != []
    ensures var error := ErrorOf(StepOutcome(env, header, table, records[0]));
            var parsing, restParsing := Errs(Parsing(env, header), records), Errs(Parsing(env, header), records[1..]);
            var accepting := Errs(Accepting(env), Inputs(env, header, records));
            var restAccepting := Errs(Accepting(env), Inputs(env, header, records[1..]));
            || (parsing == error + restParsing && accepting == restAccepting)
            || (parsing == restParsing && accepting == error + restAccepting)
  {
    FirstRecord(env, header, records);
    var restParsing := Errs(Parsing(env, header), records[1..]);
    assert [] + restParsing == restParsing;
  }

  lemma {:induction false} RowByRowErrors(env: Env, header: CsvHeader, table: Table, records: seq<CsvRecord>)
    ensures multiset(ErrorsIn(RowByRow(env, header, table, records).1)) ==
            multiset(Errs(Parsing(env, header), records)) + multiset(Errs(Accepting(env), Inputs(env, header, records)))
    decreases |records|
  {
    if records != [] {
      var next := StepTable(env, header, table, records[0]);
      RowByRowErrors(env, header, next, records[1..]);
      FirstError(env, header, table, records);
      var outcomes, others := RowByRow(env, header, table, records).1, RowByRow(env, header, next, records[1..]).1;
      assert outcomes == [StepOutcome(env, header, table, records[0])] + others && outcomes[1..] == others;
    }
  }
}
