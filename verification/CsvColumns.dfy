/** Columns by name: `csvHeader`, `missingColumns` and `selectColumns` of packages/analytics/src/csv-parse.ts. */
module CsvColumns {
  import opened Prelude
  import opened CsvParse

  /** JavaScript's `trim` and `toLowerCase`, about which nothing is assumed. */
  datatype TextRules = TextRules(trim: string -> string, lower: string -> string)

  datatype CsvHeader = CsvHeader(width: nat, index: map<string, nat>)

  type Cells = map<string, string>

  function Key(rules: TextRules, raw: string): string {
    rules.lower(rules.trim(raw))
  }

  function IndexOf(rules: TextRules, values: seq<string>): map<string, nat> {
    if values == [] then map[]
    else
      var last := |values| - 1;
      var before := IndexOf(rules, values[..last]);
      var key := Key(rules, values[last]);
      if key != "" && key !in before then before[key := last] else before
  }

  function HeaderOf(rules: TextRules, values: seq<string>): CsvHeader {
    CsvHeader(|values|, IndexOf(rules, values))
  }

  method ReadHeader(rules: TextRules, values: seq<string>) returns (header: CsvHeader)
    ensures header == HeaderOf(rules, values)
  {
    var index: map<string, nat> := map[];
    for i := 0 to |values|
      invariant index == IndexOf(rules, values[..i])
    {
      assert values[..i + 1][..i] == values[..i];
      var key := rules.lower(rules.trim(values[i]));
      if key != "" && key !in index { index := index[key := i]; }
    }
    assert values[..|values|] == values;
    header := CsvHeader(|values|, index);
  }

  /** Every named column is found, and of two with one name the first. */
  lemma {:induction false} FirstColumnWins(rules: TextRules, values: seq<string>)
    ensures var index := IndexOf(rules, values);
            && (forall i :: 0 <= i < |values| && Key(rules, values[i]) != "" ==> Key(rules, values[i]) in index)
            && (forall key :: key in index ==>
                  && key != "" && index[key] < |values| && Key(rules, values[index[key]]) == key
                  && forall j :: 0 <= j < index[key] ==> Key(rules, values[j]) != key)
  {
    if values != [] {
      var last := |values| - 1;
      FirstColumnWins(rules, values[..last]);
      var before, index := IndexOf(rules, values[..last]), IndexOf(rules, values);
      forall i | 0 <= i < |values| && Key(rules, values[i]) != ""
        ensures Key(rules, values[i]) in index
      {
        if i < last { assert values[..last][i] == values[i]; }
      }
      forall key | key in index
        ensures key != "" && index[key] < |values| && Key(rules, values[index[key]]) == key
        ensures forall j :: 0 <= j < index[key] ==> Key(rules, values[j]) != key
      {
        assert forall j :: 0 <= j < last ==> values[..last][j] == values[j];
      }
    }
  }

  function MissingColumns(rules: TextRules, header: CsvHeader, required: seq<string>): seq<string> {
    Filter((name: string) => rules.lower(name) !in header.index, required)
  }

  /** Some cell of the header has the column's name. */
  predicate Named(rules: TextRules, names: seq<string>, column: string) {
    rules.lower(column) != "" && exists i :: 0 <= i < |names| && Key(rules, names[i]) == rules.lower(column)
  }

  function Unnamed(rules: TextRules, names: seq<string>): string -> bool {
    (column: string) => !Named(rules, names, column)
  }

  lemma NamedIsIndexed(rules: TextRules, names: seq<string>, column: string)
    ensures rules.lower(column) in IndexOf(rules, names) <==> Named(rules, names, column)
  {
    FirstColumnWins(rules, names);
    if rules.lower(column) in IndexOf(rules, names) {
      assert Key(rules, names[IndexOf(rules, names)[rules.lower(column)]]) == rules.lower(column);
    }
  }

  /** The columns missing are the required ones that no header cell names, in the order asked for. */
  lemma {:induction false} MissingAreUnnamed(rules: TextRules, names: seq<string>, required: seq<string>)
    ensures MissingColumns(rules, HeaderOf(rules, names), required) == Filter(Unnamed(rules, names), required)
    ensures forall c :: c in MissingColumns(rules, HeaderOf(rules, names), required) <==>
                        c in required && !Named(rules, names, c)
  {
    if required != [] {
      MissingAreUnnamed(rules, names, required[1..]);
      NamedIsIndexed(rules, names, required[0]);
      assert forall c :: c in required <==> c == required[0] || c in required[1..];
    }
  }

  function SelectedUpTo(rules: TextRules, header: CsvHeader, values: seq<string>, columns: seq<string>): Cells
    requires |values| == header.width
  {
    if columns == [] then map[]
    else
      var name := columns[|columns| - 1];
      var before := SelectedUpTo(rules, header, values, columns[..|columns| - 1]);
      var key := rules.lower(name);
      if key in header.index && header.index[key] < |values| then before[name := rules.trim(values[header.index[key]])]
      else before
  }

  /** `None` for a record whose width is not the header's. */
  function Selected(rules: TextRules, header: CsvHeader, values: seq<string>, columns: seq<string>): Option<Cells> {
    if |values| != header.width then None else Some(SelectedUpTo(rules, header, values, columns))
  }

  method SelectColumns(rules: TextRules, header: CsvHeader, record: CsvRecord, columns: seq<string>)
    returns (cells: Option<Cells>)
    ensures cells == Selected(rules, header, record.values, columns)
  {
    if |record.values| != header.width { return None; }
    var out: Cells := map[];
    for c := 0 to |columns|
      invariant out == SelectedUpTo(rules, header, record.values, columns[..c])
    {
      assert columns[..c + 1][..c] == columns[..c];
      var key := rules.lower(columns[c]);
      if key in header.index && header.index[key] < |record.values| {
        out := out[columns[c] := rules.trim(record.values[header.index[key]])];
      }
    }
    assert columns[..|columns|] == columns;
    cells := Some(out);
  }

  /** A selected cell is the trimmed value under the first header of that name. */
  lemma {:induction false} SelectedByName(rules: TextRules, names: seq<string>, values: seq<string>,
                                          columns: seq<string>)
    requires |names| == |values|
    ensures var cells := SelectedUpTo(rules, HeaderOf(rules, names), values, columns);
            && (forall c :: c in cells <==> c in columns && Named(rules, names, c))
            && (forall c :: c in cells ==>
                  exists i ::
                    && 0 <= i < |values| && Key(rules, names[i]) == rules.lower(c)
                    && cells[c] == rules.trim(values[i])
                    && forall j :: 0 <= j < i ==> Key(rules, names[j]) != rules.lower(c))
  {
    FirstColumnWins(rules, names);
    forall c ensures rules.lower(c) in IndexOf(rules, names) <==> Named(rules, names, c) {
      NamedIsIndexed(rules, names, c);
    }
    if columns != [] {
      var n := |columns| - 1;
      SelectedByName(rules, names, values, columns[..n]);
      assert columns == columns[..n] + [columns[n]];
    }
  }
}
