/** Upload inspection: which column holds addresses, and how many rows will be paid for. */
module CsvInspect {
  type Record = seq<string>

  const MAX_BATCH_ROWS: nat := 100_000
  const DETECTION_SAMPLE_ROWS: nat := 50

  datatype Inspection =
    | Accepted(emailColumn: nat, hasHeader: bool, totalRows: nat)
    | Empty
    | NoEmailColumn
    | TooManyRows

  /** record[column] ?? '' */
  function Cell(record: Record, column: nat): string {
    if column < |record| then record[column] else ""
  }

  function DataRows(records: seq<Record>, hasHeader: bool): seq<Record> {
    if hasHeader && records != [] then records[1..] else records
  }

  /** The sampled rows that have an @ in the column. */
  ghost function AtRows(sample: seq<Record>, column: nat): set<nat> {
    set i: nat | i < |sample| && column < |sample[i]| && '@' in sample[i][column]
  }

  ghost function AtCount(sample: seq<Record>, column: nat): nat {
    |AtRows(sample, column)|
  }

  lemma AtCountStep(sample: seq<Record>, column: nat, r: Record)
    ensures AtCount(sample + [r], column) == AtCount(sample, column) + (if column < |r| && '@' in r[column] then 1 else 0)
  {
    var more := sample + [r];
    assert forall i :: 0 <= i < |sample| ==> more[i] == sample[i];
    assert more[|sample|] == r;
    assert AtRows(more, column) == AtRows(sample, column) + (if column < |r| && '@' in r[column] then {|sample|} else {});
  }

  function Sample(records: seq<Record>): seq<Record> {
    if |records| <= DETECTION_SAMPLE_ROWS then records else records[..DETECTION_SAMPLE_ROWS]
  }

  /** The earliest of the columns with the most @-cells, of all columns there could be. */
  ghost predicate IsBestColumn(sample: seq<Record>, column: nat) {
    && AtCount(sample, column) > 0
    && (forall c: nat :: AtCount(sample, c) <= AtCount(sample, column))
    && (forall c: nat :: c < column ==> AtCount(sample, c) < AtCount(sample, column))
  }

  ghost predicate IsHeaderColumn(first: Record, isHeader: string -> bool, column: nat) {
    && column < |first| && isHeader(first[column])
    && forall c :: 0 <= c < column ==> !isHeader(first[c])
  }

  /** The rows looked at when there is no header. */
  ghost function First50(records: seq<Record>): seq<Record> {
    if |records| <= 50 then records else records[..50]
  }

  /** What the inspection promises. */
  ghost predicate Inspects(records: seq<Record>, isHeader: string -> bool, r: Inspection) {
    if records == [] then r == Empty
    else if exists c :: 0 <= c < |records[0]| && isHeader(records[0][c]) then
      if |records| == 1 then r == Empty
      else if |records| - 1 > 100_000 then r == TooManyRows
      else r.Accepted? && r.hasHeader && r.totalRows == |records| - 1 && IsHeaderColumn(records[0], isHeader, r.emailColumn)
    else if forall c: nat :: AtCount(First50(records), c) == 0 then r == NoEmailColumn
    else if |records| > 100_000 then r == TooManyRows
    else r.Accepted? && !r.hasHeader && r.totalRows == |records| && IsBestColumn(First50(records), r.emailColumn)
  }

  lemma ColumnsBeyondAreEmpty(sample: seq<Record>, column: nat)
    requires forall i :: 0 <= i < |sample| ==> |sample[i]| <= column
    ensures AtCount(sample, column) == 0
  {
    assert AtRows(sample, column) == {};
  }

  method CountAt(sample: seq<Record>, column: nat) returns (count: nat)
    ensures count == AtCount(sample, column)
  {
    count := 0;
    assert AtRows(sample[..0], column) == {};
    for i := 0 to |sample|
      invariant count == AtCount(sample[..i], column)
    {
      AtCountStep(sample[..i], column, sample[i]);
      assert sample[..i + 1] == sample[..i] + [sample[i]];
      if '@' in Cell(sample[i], column) { count := count + 1; }
    }
    assert sample[..|sample|] == sample;
  }

  method BestColumn(sample: seq<Record>) returns (bestColumn: int)
    ensures bestColumn < 0 ==> forall c: nat :: AtCount(sample, c) == 0
    ensures bestColumn >= 0 ==> IsBestColumn(sample, bestColumn)
  {
    var columns: nat := 0;
    for i := 0 to |sample|
      invariant forall k :: 0 <= k < i ==> |sample[k]| <= columns
    {
      if |sample[i]| > columns { columns := |sample[i]|; }
    }
    bestColumn := -1;
    var bestCount := 0;
    for column := 0 to columns
      invariant -1 <= bestColumn < column
      invariant bestColumn < 0 ==> bestCount == 0
      invariant bestColumn >= 0 ==> bestCount == AtCount(sample, bestColumn) > 0
      invariant forall c: nat :: c < column ==> AtCount(sample, c) <= bestCount
      invariant forall c: nat :: c < bestColumn ==> AtCount(sample, c) < bestCount
    {
      var count := CountAt(sample, column);
      if count > bestCount {
        bestCount := count;
        bestColumn := column;
      }
    }
    forall c: nat | c >= columns
      ensures AtCount(sample, c) == 0
    {
      ColumnsBeyondAreEmpty(sample, c);
    }
  }

  method InspectCsv(records: seq<Record>, isHeader: string -> bool) returns (r: Inspection)
    ensures Inspects(records, isHeader, r)
  {
    var count := 0;
    var sample: seq<Record> := [];
    for i := 0 to |records|
      invariant count == i && sample == Sample(records[..i])
    {
      count := count + 1;
      if |sample| < DETECTION_SAMPLE_ROWS { sample := sample + [records[i]]; }
      assert records[..i + 1] == records[..i] + [records[i]];
    }
    assert records[..|records|] == records;
    assert sample == First50(records);
    if count == 0 { return Empty; }

    var first := records[0];
    var header := 0;
    while header < |first| && !isHeader(first[header])
      invariant header <= |first| && forall c :: 0 <= c < header ==> !isHeader(first[c])
    {
      header := header + 1;
    }
    if header < |first| {
      var totalRows := count - 1;
      if totalRows == 0 { return Empty; }
      if totalRows > MAX_BATCH_ROWS { return TooManyRows; }
      return Accepted(header, true, totalRows);
    }

    var column := BestColumn(sample);
    if column < 0 { return NoEmailColumn; }
    assert AtCount(sample, column) > 0;
    if count > MAX_BATCH_ROWS { return TooManyRows; }
    return Accepted(column, false, count);
  }

  /** An accepted upload reserves one credit for each data row, and there is at least one. */
  lemma AcceptedCountsDataRows(records: seq<Record>, isHeader: string -> bool, r: Inspection)
    requires Inspects(records, isHeader, r) && r.Accepted?
    ensures r.totalRows == |DataRows(records, r.hasHeader)|
    ensures 1 <= r.totalRows <= 100_000
  {
  }
}
