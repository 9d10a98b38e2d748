/**
 * What an import means: the conversions table, the insert that skips duplicates, and the plain
 * row-by-row import that apps/api/src/workers/import.worker.ts has to amount to.
 */
module ImportTable {
  import opened Prelude
  import opened CsvParse
  import opened CsvColumns
  import opened Bisect

  datatype ImportInput = ImportInput(externalOrderId: string, trackingCode: string, conversionValue: int,
                                     details: string)

  datatype Link = Link(id: string, affiliateId: string)

  datatype Relationship = Relationship(status: string, customCommission: string)

  datatype ConversionRow =
    ConversionRow(campaignId: string, externalOrderId: string, trackingLinkId: string, affiliateId: string,
                  conversionValue: int, commissionAmount: int, details: string)

  datatype RowError = RowError(line: nat, column: Option<string>, message: string)

  /**
   * Everything an import reads and does not change. `judge` is the row schema applied to a row's
   * cells, `price` the commission for a relationship, a value and a count of prior sales, and
   * `reject` the database's verdict on a row, for reasons other than its order id.
   */
  datatype Env = Env(
    campaignId: string,
    rules: TextRules,
    columns: seq<string>,
    required: seq<string>,
    judge: Cells -> Result<ImportInput, (Option<string>, string)>,
    links: map<string, Link>,
    relationships: map<string, Relationship>,
    priorSales: map<string, nat>,
    price: (Option<Relationship>, int, nat) -> int,
    reject: ConversionRow -> Option<string>,
    widthMessage: (nat, nat) -> string,
    linkMessage: string -> string
  )

  const MAX_MESSAGE := 500

  function Reported(line: nat, column: Option<string>, message: string): RowError {
    RowError(line, column, message[..Min(|message|, MAX_MESSAGE)])
  }

  function Lookup<T>(m: map<string, T>, key: string): Option<T> {
    if key in m then Some(m[key]) else None
  }

  function LookupCount(m: map<string, nat>, key: string): nat {
    if key in m then m[key] else 0
  }

  // ----- one row

  datatype Line = Line(line: nat, input: ImportInput)

  /** Judging a record, before the database is asked anything. */
  function Parsed(env: Env, header: CsvHeader, record: CsvRecord): Result<Line, RowError> {
    match Selected(env.rules, header, record.values, env.columns)
    case None => Err(Reported(record.line, None, env.widthMessage(header.width, |record.values|)))
    case Some(cells) =>
      match env.judge(cells)
      case Ok(input) => Ok(Line(record.line, input))
      case Err(issue) => Err(Reported(record.line, issue.0, issue.1))
  }

  function RowFor(env: Env, link: Link, input: ImportInput): ConversionRow {
    ConversionRow(env.campaignId, input.externalOrderId, link.id, link.affiliateId, input.conversionValue,
                  env.price(Lookup(env.relationships, link.affiliateId), input.conversionValue,
                            LookupCount(env.priorSales, link.affiliateId)),
                  input.details)
  }

  function Linked(env: Env, line: Line): Result<ConversionRow, RowError> {
    var code := line.input.trackingCode;
    if code in env.links then Ok(RowFor(env, env.links[code], line.input))
    else Err(Reported(line.line, Some("trackingCode"), env.linkMessage(code)))
  }

  /** The row a valid line becomes, or why the database will not have it. */
  function Accepted(env: Env, line: Line): Result<ConversionRow, RowError> {
    match Linked(env, line)
    case Err(error) => Err(error)
    case Ok(row) =>
      match env.reject(row)
      case None => Ok(row)
      case Some(message) => Err(Reported(line.line, None, message))
  }

  function Resolved(env: Env, header: CsvHeader, record: CsvRecord): Result<ConversionRow, RowError> {
    match Parsed(env, header, record)
    case Err(error) => Err(error)
    case Ok(line) => Accepted(env, line)
  }

  // ----- the table

  type Table = seq<ConversionRow>

  predicate SameOrder(a: ConversionRow, b: ConversionRow) {
    a.campaignId == b.campaignId && a.externalOrderId == b.externalOrderId
  }

  predicate Has(table: Table, row: ConversionRow) {
    exists i :: 0 <= i < |table| && SameOrder(table[i], row)
  }

  function InsertNew(table: Table, row: ConversionRow): Table {
    if Has(table, row) then table else table + [row]
  }

  /** `createMany` with `skipDuplicates`. */
  function InsertSkipping(table: Table, rows: seq<ConversionRow>): (r: Table)
    ensures table <= r
    decreases |rows|
  {
    if rows == [] then table else InsertSkipping(InsertNew(table, rows[0]), rows[1..])
  }

  lemma {:induction false} InsertInParts(table: Table, a: seq<ConversionRow>, b: seq<ConversionRow>)
    ensures InsertSkipping(table, a + b) == InsertSkipping(InsertSkipping(table, a), b)
    decreases |a|
  {
    if a == [] {
      assert a + b == b;
    } else {
      InsertInParts(InsertNew(table, a[0]), a[1..], b);
      assert (a + b)[0] == a[0] && (a + b)[1..] == a[1..] + b;
    }
  }

  // ----- the plain import: one row at a time

  datatype RowOutcome = Imported | Skipped | Failed(error: RowError)

  function StepTable(env: Env, header: CsvHeader, table: Table, record: CsvRecord): Table {
    match Resolved(env, header, record)
    case Err(_) => table
    case Ok(row) => InsertNew(table, row)
  }

  function StepOutcome(env: Env, header: CsvHeader, table: Table, record: CsvRecord): RowOutcome {
    match Resolved(env, header, record)
    case Err(error) => Failed(error)
    case Ok(row) => if Has(table, row) then Skipped else Imported
  }

  function RowByRow(env: Env, header: CsvHeader, table: Table, records: seq<CsvRecord>): (Table, seq<RowOutcome>)
    decreases |records|
  {
    if records == [] then (table, [])
    else
      var (last, others) := RowByRow(env, header, StepTable(env, header, table, records[0]), records[1..]);
      (last, [StepOutcome(env, header, table, records[0])] + others)
  }

  function Tally(outcomes: seq<RowOutcome>, p: RowOutcome -> bool): nat {
    |Filter(p, outcomes)|
  }

  function ImportedIn(outcomes: seq<RowOutcome>): nat { Tally(outcomes, (o: RowOutcome) => o.Imported?) }
  function SkippedIn(outcomes: seq<RowOutcome>): nat { Tally(outcomes, (o: RowOutcome) => o.Skipped?) }

  function ErrorOf(outcome: RowOutcome): seq<RowError> {
    if outcome.Failed? then [outcome.error] else []
  }

  function ErrorsIn(outcomes: seq<RowOutcome>): seq<RowError> {
    if outcomes == [] then []
    else ErrorOf(outcomes[0]) + ErrorsIn(outcomes[1..])
  }

  /** None of the first `k` records stands for the same order. */
  predicate NoneBefore(env: Env, header: CsvHeader, records: seq<CsvRecord>, k: nat, row: ConversionRow)
    requires k <= |records|
  {
    forall j :: 0 <= j < k ==> !StandsFor(env, header, records[j], row)
  }

  predicate StandsFor(env: Env, header: CsvHeader, record: CsvRecord, row: ConversionRow) {
    var resolved := Resolved(env, header, record);
    resolved.Ok? && SameOrder(resolved.value, row)
  }

  lemma NoneBeforeRest(env: Env, header: CsvHeader, records: seq<CsvRecord>, k: nat, row: ConversionRow)
    requires 0 < k <= |records|
    ensures NoneBefore(env, header, records, k, row) <==>
            !StandsFor(env, header, records[0], row) && NoneBefore(env, header, records[1..], k - 1, row)
  {
    forall j | 0 <= j < k - 1
      ensures records[1..][j] == records[j + 1]
    {
    }
    if !StandsFor(env, header, records[0], row) && NoneBefore(env, header, records[1..], k - 1, row) {
      forall j | 0 <= j < k
        ensures !StandsFor(env, header, records[j], row)
      {
        if j > 0 { assert records[j] == records[1..][j - 1]; }
      }
    }
    if NoneBefore(env, header, records, k, row) {
      forall j | 0 <= j < k - 1
        ensures !StandsFor(env, header, records[1..][j], row)
      {
        assert !StandsFor(env, header, records[j + 1], row);
      }
    }
  }

  /** The inserted rows are the resolvable rows whose order id was absent, first occurrence winning. */
  lemma {:induction false} FirstOccurrenceWins(env: Env, header: CsvHeader, table: Table, records: seq<CsvRecord>,
                                               k: nat)
    requires k < |records|
    ensures var after, outcomes := RowByRow(env, header, table, records).0, RowByRow(env, header, table, records).1;
            && |outcomes| == |records|
            && match Resolved(env, header, records[k])
               case Err(error) => outcomes[k] == Failed(error)
               case Ok(row) =>
                 && Has(after, row)
                 && (outcomes[k] == Skipped || outcomes[k] == Imported)
                 && (outcomes[k] == Imported <==> !Has(table, row) && NoneBefore(env, header, records, k, row))
    decreases |records|
  {
    TablesGrow(env, header, table, records);
    if k > 0 {
      var next, rest := StepTable(env, header, table, records[0]), records[1..];
      FirstOccurrenceWins(env, header, next, rest, k - 1);
      assert rest[k - 1] == records[k];
      if Resolved(env, header, records[k]).Ok? {
        var row := Resolved(env, header, records[k]).value;
        StepHas(env, header, table, records[0], row);
        NoneBeforeRest(env, header, records, k, row);
      }
    } else if Resolved(env, header, records[0]).Ok? {
      var row := Resolved(env, header, records[0]).value;
      TablesGrow(env, header, StepTable(env, header, table, records[0]), records[1..]);
      StepHas(env, header, table, records[0], row);
      HasMore(StepTable(env, header, table, records[0]), RowByRow(env, header, table, records).0, row);
    } else {
      TablesGrow(env, header, StepTable(env, header, table, records[0]), records[1..]);
    }
  }

  /** What the lookups make of a line: its campaign, order, value and details, and its link's affiliate and price. */
  predicate IsRowOf(env: Env, input: ImportInput, row: ConversionRow) {
    && row.campaignId == env.campaignId && row.externalOrderId == input.externalOrderId
    && row.conversionValue == input.conversionValue && row.details == input.details
    && input.trackingCode in env.links
    && var link := env.links[input.trackingCode];
    && row.trackingLinkId == link.id && row.affiliateId == link.affiliateId
    && var relationship :=
         if link.affiliateId in env.relationships then Some(env.relationships[link.affiliateId]) else None;
    && var sales := if link.affiliateId in env.priorSales then env.priorSales[link.affiliateId] else 0;
    && row.commissionAmount == env.price(relationship, input.conversionValue, sales)
  }

  /** An error of a record: its line, the column if there is one, and the first five hundred characters. */
  predicate IsErrorOf(error: RowError, record: CsvRecord, column: Option<string>, message: string) {
    && error.line == record.line && error.column == column
    && error.message <= message && |error.message| == if |message| <= 500 then |message| else 500
  }

  /**
   * What becomes of a record, whoever imports it: an error of its width, of its cells, of its tracking
   * code or of the database, in this order, or else the row of its cells.
   */
  lemma ResolvedOutcome(env: Env, names: seq<string>, record: CsvRecord)
    ensures var header := HeaderOf(env.rules, names);
            var resolved := Resolved(env, header, record);
            if |record.values| != |names| then
              resolved.Err? && IsErrorOf(resolved.error, record, None, env.widthMessage(|names|, |record.values|))
            else
              match env.judge(SelectedUpTo(env.rules, header, record.values, env.columns))
              case Err(issue) => resolved.Err? && IsErrorOf(resolved.error, record, issue.0, issue.1)
              case Ok(input) =>
                if input.trackingCode !in env.links then
                  resolved.Err? &&
                    IsErrorOf(resolved.error, record, Some("trackingCode"), env.linkMessage(input.trackingCode))
                else
                  && Linked(env, Line(record.line, input)).Ok?
                  && var row := Linked(env, Line(record.line, input)).value;
                  && IsRowOf(env, input, row)
                  && if env.reject(row).Some? then
                       resolved.Err? && IsErrorOf(resolved.error, record, None, env.reject(row).value)
                     else resolved == Ok(row)
  {
  }

  /** The rows of the records that were imported, in order. */
  function ImportedRows(env: Env, header: CsvHeader, records: seq<CsvRecord>,
                        outcomes: seq<RowOutcome>)
    : seq<ConversionRow>
    requires |outcomes| == |records|
  {
    if records == [] then []
    else
      (match Resolved(env, header, records[0])
       case Ok(row) => if outcomes[0] == Imported then [row] else []
       case Err(_) => []) +
      ImportedRows(env, header, records[1..], outcomes[1..])
  }

  /** What a row-by-row import adds to the table is exactly those. */
  lemma {:induction false} ImportedAreAdded(env: Env, header: CsvHeader, table: Table, records: seq<CsvRecord>)
    ensures var after, outcomes := RowByRow(env, header, table, records).0, RowByRow(env, header, table, records).1;
            |outcomes| == |records| && after == table + ImportedRows(env, header, records, outcomes)
    decreases |records|
  {
    TablesGrow(env, header, table, records);
    if records == [] {
      assert table + [] == table;
    } else {
      var next := StepTable(env, header, table, records[0]);
      ImportedAreAdded(env, header, next, records[1..]);
      var others := RowByRow(env, header, next, records[1..]).1;
      FirstImported(env, header, table, records, others);
    }
  }

  lemma FirstImported(env: Env, header: CsvHeader, table: Table, records: seq<CsvRecord>, others: seq<RowOutcome>)
    requires records != [] && |others| == |records| - 1
    ensures var next, first := StepTable(env, header, table, records[0]), StepOutcome(env, header, table, records[0]);
            next + ImportedRows(env, header, records[1..], others) ==
            table + ImportedRows(env, header, records, [first] + others)
  {
    var first, rest := StepOutcome(env, header, table, records[0]), ImportedRows(env, header, records[1..], others);
    assert ([first] + others)[1..] == others;
    if first == Imported {
      Associates(table, [Resolved(env, header, records[0]).value], rest);
    } else {
      assert [] + rest == rest;
    }
  }

  lemma StepHas(env: Env, header: CsvHeader, table: Table, record: CsvRecord, row: ConversionRow)
    ensures Has(StepTable(env, header, table, record), row) <==>
            Has(table, row) ||
              (Resolved(env, header, record).Ok? && SameOrder(Resolved(env, header, record).value, row))
  {
    var after := StepTable(env, header, table, record);
    if Has(table, row) { HasMore(table, after, row); }
    if Resolved(env, header, record).Ok? {
      var inserted := Resolved(env, header, record).value;
      if SameOrder(inserted, row) {
        if Has(table, inserted) {
          var i :| 0 <= i < |table| && SameOrder(table[i], inserted);
          assert SameOrder(table[i], row);
        } else {
          assert after[|table|] == inserted;
        }
      }
      if Has(after, row) && !Has(table, row) {
        var i :| 0 <= i < |after| && SameOrder(after[i], row);
        assert i >= |table|;
      }
    }
  }

  lemma HasMore(table: Table, more: Table, row: ConversionRow)
    requires table <= more && Has(table, row)
    ensures Has(more, row)
  {
    var i :| 0 <= i < |table| && SameOrder(table[i], row);
    assert SameOrder(more[i], row);
  }

  lemma {:induction false} TablesGrow(env: Env, header: CsvHeader, table: Table, records: seq<CsvRecord>)
    ensures table <= RowByRow(env, header, table, records).0
    ensures |RowByRow(env, header, table, records).1| == |records|
    decreases |records|
  {
    if records != [] {
      TablesGrow(env, header, StepTable(env, header, table, records[0]), records[1..]);
    }
  }

  // ----- the same file again

  /** Every record that resolves is already in the table. */
  ghost predicate Covered(env: Env, header: CsvHeader, table: Table, records: seq<CsvRecord>) {
    forall r :: r in records && Resolved(env, header, r).Ok? ==> Has(table, Resolved(env, header, r).value)
  }

  lemma {:induction false} CoveredAfter(env: Env, header: CsvHeader, table: Table, records: seq<CsvRecord>)
    ensures Covered(env, header, RowByRow(env, header, table, records).0, records)
  {
    var after := RowByRow(env, header, table, records).0;
    forall r | r in records && Resolved(env, header, r).Ok?
      ensures Has(after, Resolved(env, header, r).value)
    {
      var k :| 0 <= k < |records| && records[k] == r;
      FirstOccurrenceWins(env, header, table, records, k);
    }
  }

  /** A covered file inserts nothing, fails the rows it would fail anywhere, and skips the rest. */
  lemma {:induction false} CoveredInsertsNothing(env: Env, header: CsvHeader, table: Table, records: seq<CsvRecord>)
    requires Covered(env, header, table, records)
    ensures var (after, outcomes) := RowByRow(env, header, table, records);
            && after == table
            && |outcomes| == |records|
            && forall k :: 0 <= k < |records| ==>
                 outcomes[k] == (match Resolved(env, header, records[k])
                                 case Err(error) => Failed(error)
                                 case Ok(_) => Skipped)
    decreases |records|
  {
    if records != [] {
      assert records[0] in records;
      CoveredInsertsNothing(env, header, table, records[1..]);
      var outcomes := RowByRow(env, header, table, records).1;
      assert outcomes[1..] == RowByRow(env, header, table, records[1..]).1;
    }
  }

  /**
   * Importing a file a second time: nothing is inserted, the same rows fail for the same reasons,
   * and exactly the rows the first run imported or skipped are skipped.
   */
  lemma ImportAgain(env: Env, header: CsvHeader, table: Table, records: seq<CsvRecord>)
    ensures var (once, first) := RowByRow(env, header, table, records);
            var (twice, second) := RowByRow(env, header, once, records);
            && twice == once
            && |second| == |first| == |records|
            && forall k :: 0 <= k < |records| ==> second[k] == if first[k].Failed? then first[k] else Skipped
  {
    CoveredAfter(env, header, table, records);
    CoveredInsertsNothing(env, header, RowByRow(env, header, table, records).0, records);
    TablesGrow(env, header, table, records);
    var first := RowByRow(env, header, table, records).1;
    var second := RowByRow(env, header, RowByRow(env, header, table, records).0, records).1;
    forall k | 0 <= k < |records|
      ensures second[k] == if first[k].Failed? then first[k] else Skipped
    {
      FirstOccurrenceWins(env, header, table, records, k);
    }
  }
}
