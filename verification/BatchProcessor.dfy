/**
 The batch processor's loop: rows arrive one by one, wait in a chunk, and each
 chunk is resolved with the cache and the engine, once for each new address.
 */
module BatchProcessor {
  import opened ResultCodec
  import opened CsvInspect

  /** What the cache or the engine says about an address. */
  datatype Answer = Cached(stored: RowResult) | Fresh(checked: RowResult) | EngineFailed

  /** normalizeEmail ('' when nothing remains), sha256Hex, and the answers of cache and engine. */
  datatype Env = Env(normalize: string -> string, hash: string -> string, answer: string -> Answer)

  datatype Row = Row(cells: Record, address: string)

  datatype Line = Line(cells: Record, normalized: string, result: RowResult)

  datatype Distribution = Distribution(valid: nat, invalid: nat, risky: nat, unknown: nat)

  const MALFORMED := RowResult(Invalid, 0, ["SYNTAX_INVALID"], "")
  const UNAVAILABLE := RowResult(Unknown, 50, ["MX_LOOKUP_UNAVAILABLE"], "")

  function ResultFor(env: Env, address: string): RowResult {
    match env.answer(address)
    case Cached(r) => r
    case Fresh(r) => r
    case EngineFailed => UNAVAILABLE
  }

  /** What the compact encoding keeps of the answer. */
  function Kept(env: Env, address: string): RowResult {
    DecodeResult(EncodeResult(ResultFor(env, address)))
  }

  /** An address's rows show its answer exactly if the answer survives the encoding. */
  lemma KeptExactly(env: Env, address: string)
    ensures Kept(env, address) == ResultFor(env, address) <==> Encodable(ResultFor(env, address))
  {
    RoundTripsExactly(ResultFor(env, address));
  }

  /** No two addresses of the file share a hash. */
  ghost predicate Collisionless(env: Env, file: set<string>) {
    forall a, b :: a in file && b in file && env.hash(a) == env.hash(b) ==> a == b
  }

  function ReadRow(env: Env, column: nat, record: Record): Row {
    Row(record, env.normalize(Cell(record, column)))
  }

  // ----------------------------------------- what is promised, record by record

  /** A record's address: the normalised cell of the email column, nothing if there is none. */
  ghost function AddressIn(env: Env, column: nat, r: Record): string {
    env.normalize(if column < |r| then r[column] else "")
  }

  /** The addresses of a file. */
  ghost function FileAddresses(env: Env, column: nat, records: seq<Record>): set<string> {
    set i | 0 <= i < |records| && AddressIn(env, column, records[i]) != "" :: AddressIn(env, column, records[i])
  }

  /** The output line a record must get: its own cells, its address, and the answer for that address. */
  ghost predicate LineFits(env: Env, column: nat, r: Record, line: Line) {
    var a := AddressIn(env, column, r);
    && line.cells == r && line.normalized == a
    && line.result ==
         if a == "" then RowResult(Invalid, 0, ["SYNTAX_INVALID"], "")
         else
           match env.answer(a)
           case Cached(stored) => DecodeResult(EncodeResult(stored))
           case Fresh(checked) => DecodeResult(EncodeResult(checked))
           case EngineFailed => DecodeResult(EncodeResult(RowResult(Unknown, 50, ["MX_LOOKUP_UNAVAILABLE"], "")))
  }

  /** One line for each record, at `at`; records with an address in file order, and so those without. */
  ghost predicate LinesFit(env: Env, column: nat, data: seq<Record>, output: seq<Line>, at: seq<nat>) {
    && |at| == |data| == |output|
    && (forall i :: 0 <= i < |data| ==> at[i] < |output| && LineFits(env, column, data[i], output[at[i]]))
    && (forall i, j :: 0 <= i < j < |data| ==> at[i] != at[j])
    && (forall i, j :: 0 <= i < j < |data| && (AddressIn(env, column, data[i]) == "" <==> AddressIn(env, column, data[j]) == "") ==>
          at[i] < at[j])
  }

  /** The records without an address. */
  ghost function Addressless(env: Env, column: nat, data: seq<Record>): set<nat> {
    set i: nat | i < |data| && AddressIn(env, column, data[i]) == ""
  }

  /** How many lines have the verdict. */
  ghost function LinesWith(output: seq<Line>, v: Verdict): nat {
    |WithVerdict(output, v)|
  }

  ghost function WithVerdict(output: seq<Line>, v: Verdict): set<nat> {
    set k: nat | k < |output| && output[k].result.verdict == v
  }

  ghost function AnsweredFresh(env: Env, addresses: set<string>): set<string> {
    set a | a in addresses && env.answer(a).Fresh?
  }

  ghost function AnsweredFromCache(env: Env, addresses: set<string>): set<string> {
    set a | a in addresses && env.answer(a).Cached?
  }

  ghost function Unanswered(env: Env, addresses: set<string>): set<string> {
    set a | a in addresses && env.answer(a).EngineFailed?
  }

  // ------------------------------------------------------- the row-by-row view

  function WellFormedRows(env: Env, column: nat, records: seq<Record>): seq<Row> {
    if records == [] then []
    else
      var row := ReadRow(env, column, records[|records| - 1]);
      WellFormedRows(env, column, records[..|records| - 1]) + (if row.address == "" then [] else [row])
  }

  function MalformedRecords(env: Env, column: nat, records: seq<Record>): seq<Record> {
    if records == [] then []
    else
      var row := ReadRow(env, column, records[|records| - 1]);
      MalformedRecords(env, column, records[..|records| - 1]) + (if row.address == "" then [row.cells] else [])
  }

  function Addresses(rows: seq<Row>): (r: seq<string>)
    ensures |r| == |rows|
  {
    seq(|rows|, i requires 0 <= i < |rows| => rows[i].address)
  }

  /** First occurrences, in order. */
  function Distinct(s: seq<string>): seq<string> {
    if s == [] then []
    else
      var d := Distinct(s[..|s| - 1]);
      if s[|s| - 1] in d then d else d + [s[|s| - 1]]
  }

  /** The line each well-formed row must get. */
  function LinesFor(env: Env, rows: seq<Row>): (r: seq<Line>)
    ensures |r| == |rows|
  {
    seq(|rows|, i requires 0 <= i < |rows| => Line(rows[i].cells, rows[i].address, Kept(env, rows[i].address)))
  }

  function MalformedLines(records: seq<Record>): (r: seq<Line>)
    ensures |r| == |records|
  {
    seq(|records|, i requires 0 <= i < |records| => Line(records[i], "", MALFORMED))
  }

  function Resolved(output: seq<Line>): seq<Line> {
    if output == [] then []
    else Resolved(output[..|output| - 1]) + (if output[|output| - 1].normalized == "" then [] else [output[|output| - 1]])
  }

  function Rejected(output: seq<Line>): seq<Line> {
    if output == [] then []
    else Rejected(output[..|output| - 1]) + (if output[|output| - 1].normalized == "" then [output[|output| - 1]] else [])
  }

  function Count(d: Distribution, v: Verdict): Distribution {
    match v
    case Valid => d.(valid := d.valid + 1)
    case Invalid => d.(invalid := d.invalid + 1)
    case Risky => d.(risky := d.risky + 1)
    case Unknown => d.(unknown := d.unknown + 1)
  }

  function Tally(output: seq<Line>): Distribution {
    if output == [] then Distribution(0, 0, 0, 0)
    else Count(Tally(output[..|output| - 1]), output[|output| - 1].result.verdict)
  }

  function Total(d: Distribution): nat {
    d.valid + d.invalid + d.risky + d.unknown
  }

  datatype Charges = Charges(charged: nat, cached: nat, engineErrors: nat)

  function Charge(c: Charges, a: Answer): Charges {
    match a
    case Fresh(_) => c.(charged := c.charged + 1)
    case Cached(_) => c.(cached := c.cached + 1)
    case EngineFailed => c.(engineErrors := c.engineErrors + 1)
  }

  /** What consulting these addresses once each costs. */
  function ChargesFor(env: Env, addresses: seq<string>): Charges {
    if addresses == [] then Charges(0, 0, 0)
    else Charge(ChargesFor(env, addresses[..|addresses| - 1]), env.answer(addresses[|addresses| - 1]))
  }

  /** A row for the result cache. */
  datatype CacheRow = CacheRow(address: string, hash: string, result: RowResult)

  /** What the fresh checks among these addresses leave in the cache. */
  function FreshRows(env: Env, addresses: seq<string>): seq<CacheRow> {
    if addresses == [] then []
    else
      var last := addresses[|addresses| - 1];
      FreshRows(env, addresses[..|addresses| - 1])
      + match env.answer(last) case Fresh(r) => [CacheRow(last, env.hash(last), r)] case _ => []
  }

  /** How many of the first `k` rows are still waiting in an unfinished chunk. */
  function Waiting(k: nat, chunkSize: nat): (w: nat)
    ensures w <= k && (w == 0 || w < chunkSize)
  {
    if k == 0 || Waiting(k - 1, chunkSize) + 1 >= chunkSize then 0 else Waiting(k - 1, chunkSize) + 1
  }

  /** Rows whose address occurs in an earlier chunk; those within one chunk go unseen. */
  function Duplicates(addresses: seq<string>, chunkSize: nat): nat
  {
    if addresses == [] then 0
    else
      var k := |addresses| - 1;
      Duplicates(addresses[..k], chunkSize) + (if addresses[k] in addresses[..k - Waiting(k, chunkSize)] then 1 else 0)
  }

  // ------------------------------------------------------------------- lemmas

  lemma {:induction false} DistinctMembers(s: seq<string>)
    ensures forall x :: x in Distinct(s) <==> x in s
  {
    if s != [] {
      DistinctMembers(s[..|s| - 1]);
      assert s == s[..|s| - 1] + [s[|s| - 1]];
    }
  }

  lemma {:induction false} DistinctOnce(s: seq<string>)
    ensures |Distinct(s)| <= |s|
    ensures forall i, j :: 0 <= i < j < |Distinct(s)| ==> Distinct(s)[i] != Distinct(s)[j]
  {
    if s != [] { DistinctOnce(s[..|s| - 1]); }
  }

  lemma LaterRowsDistinct(earlier: seq<Row>, rows: seq<Row>)
    ensures forall i :: 0 <= i < |rows| ==> rows[i].address in Distinct(Addresses(earlier + rows))
  {
    DistinctMembers(Addresses(earlier + rows));
    hide Distinct;
    forall i | 0 <= i < |rows|
      ensures rows[i].address in Distinct(Addresses(earlier + rows))
    {
      assert Addresses(earlier + rows)[|earlier| + i] == rows[i].address;
    }
  }

  lemma NothingDistinct()
    ensures Addresses([]) == [] && Distinct([]) == []
  {
  }

  /** The rows of a chunk whose addresses are not known yet. */
  function Unseen(rows: seq<Row>, known: set<string>): seq<Row> {
    if rows == [] then []
    else Unseen(rows[..|rows| - 1], known) + (if rows[|rows| - 1].address in known then [] else [rows[|rows| - 1]])
  }

  lemma {:induction false} UnseenAreRows(rows: seq<Row>, known: set<string>)
    ensures forall r :: r in Unseen(rows, known) ==> r in rows
  {
    if rows != [] { UnseenAreRows(rows[..|rows| - 1], known); }
  }

  lemma AddressesAppend(rows: seq<Row>, row: Row)
    ensures Addresses(rows + [row]) == Addresses(rows) + [row.address]
  {
  }

  lemma DistinctAppend(s: seq<string>, x: string)
    ensures Distinct(s + [x]) == if x in Distinct(s) then Distinct(s) else Distinct(s) + [x]
  {
    assert (s + [x])[..|s|] == s;
  }

  lemma {:induction false} AddressesConcat(xs: seq<Row>, ys: seq<Row>)
    ensures Addresses(xs + ys) == Addresses(xs) + Addresses(ys)
  {
  }

  lemma {:induction false} LinesConcat(env: Env, xs: seq<Row>, ys: seq<Row>)
    ensures LinesFor(env, xs + ys) == LinesFor(env, xs) + LinesFor(env, ys)
  {
    hide Kept;
  }

  lemma NoLines(env: Env)
    ensures LinesFor(env, []) == []
  {
  }

  lemma LinesAppend(env: Env, rows: seq<Row>, row: Row)
    ensures LinesFor(env, rows + [row]) == LinesFor(env, rows) + [Line(row.cells, row.address, Kept(env, row.address))]
  {
    hide Kept;
  }

  lemma ResolvedStep(output: seq<Line>, line: Line)
    requires line.normalized != ""
    ensures Resolved(output + [line]) == Resolved(output) + [line] && Rejected(output + [line]) == Rejected(output)
  {
    assert (output + [line])[..|output|] == output;
  }

  /** One more row, in terms of the rows before it. */
  lemma {:induction false} NewAddressesStep(before: seq<string>, init: seq<Row>, row: Row, unseen: seq<Row>, known: bool)
    requires known <==> row.address in before
    requires Distinct(before + Addresses(init)) == Distinct(before) + Distinct(Addresses(unseen))
    ensures Distinct(before + Addresses(init + [row]))
         == Distinct(before) + Distinct(Addresses(if known then unseen else unseen + [row]))
  {
    AddressesAppend(init, row);
    AddressesAppend(unseen, row);
    DistinctMembers(before);
    hide Addresses;
    assert before + (Addresses(init) + [row.address]) == (before + Addresses(init)) + [row.address];
    DistinctAppend(before + Addresses(init), row.address);
    DistinctAppend(Addresses(unseen), row.address);
    hide Distinct;
    if known || row.address in Distinct(Addresses(unseen)) {
      assert row.address in Distinct(before) + Distinct(Addresses(unseen));
    } else {
      assert Distinct(before) + Distinct(Addresses(unseen)) + [row.address]
          == Distinct(before) + (Distinct(Addresses(unseen)) + [row.address]);
    }
  }

  /** Looking only at unseen rows finds exactly the new addresses, in order. */
  lemma {:induction false} NewAddresses(before: seq<string>, rows: seq<Row>, known: set<string>)
    requires forall x :: x in known <==> x in before
    ensures Distinct(before + Addresses(rows)) == Distinct(before) + Distinct(Addresses(Unseen(rows, known)))
  {
    if rows == [] {
      assert before + Addresses(rows) == before;
    } else {
      var init, row := rows[..|rows| - 1], rows[|rows| - 1];
      var unseen := Unseen(init, known);
      assert rows == init + [row];
      assert Unseen(rows, known) == if row.address in known then unseen else unseen + [row];
      hide Distinct;
      hide Addresses;
      hide Unseen;
      NewAddresses(before, init, known);
      NewAddressesStep(before, init, row, unseen, row.address in known);
    }
  }

  lemma {:induction false} ChargesStep(env: Env, addresses: seq<string>, address: string)
    ensures ChargesFor(env, addresses + [address]) == Charge(ChargesFor(env, addresses), env.answer(address))
  {
    assert (addresses + [address])[..|addresses|] == addresses;
  }

  lemma {:induction false} FreshRowsStep(env: Env, addresses: seq<string>, address: string)
    ensures FreshRows(env, addresses + [address])
         == FreshRows(env, addresses)
            + match env.answer(address) case Fresh(r) => [CacheRow(address, env.hash(address), r)] case _ => []
  {
    assert (addresses + [address])[..|addresses|] == addresses;
  }

  /** One row in the cache for each credit charged. */
  lemma {:induction false} FreshRowsAreCharged(env: Env, addresses: seq<string>)
    ensures |FreshRows(env, addresses)| == ChargesFor(env, addresses).charged
  {
    if addresses != [] { FreshRowsAreCharged(env, addresses[..|addresses| - 1]); }
  }

  lemma {:induction false} ChargesAddUp(env: Env, addresses: seq<string>)
    ensures var c := ChargesFor(env, addresses);
      c.charged + c.cached + c.engineErrors == |addresses|
  {
    if addresses != [] { ChargesAddUp(env, addresses[..|addresses| - 1]); }
  }

  lemma {:induction false} TallyAddsUp(output: seq<Line>)
    ensures Total(Tally(output)) == |output| == |Resolved(output)| + |Rejected(output)|
  {
    if output != [] { TallyAddsUp(output[..|output| - 1]); }
  }

  lemma {:induction false} RowsAddUp(env: Env, column: nat, records: seq<Record>)
    ensures |WellFormedRows(env, column, records)| + |MalformedRecords(env, column, records)| == |records|
  {
    if records != [] { RowsAddUp(env, column, records[..|records| - 1]); }
  }

  lemma {:induction false} WellFormedStep(env: Env, column: nat, records: seq<Record>, record: Record)
    ensures var row := ReadRow(env, column, record);
      && WellFormedRows(env, column, records + [record])
         == WellFormedRows(env, column, records) + (if row.address == "" then [] else [row])
      && MalformedRecords(env, column, records + [record])
         == MalformedRecords(env, column, records) + (if row.address == "" then [record] else [])
      && MalformedLines(MalformedRecords(env, column, records) + [record])
         == MalformedLines(MalformedRecords(env, column, records)) + [Line(record, "", MALFORMED)]
  {
    assert (records + [record])[..|records|] == records;
  }

  lemma {:induction false} RejectedStep(output: seq<Line>, line: Line)
    requires line.normalized == ""
    ensures Rejected(output + [line]) == Rejected(output) + [line] && Resolved(output + [line]) == Resolved(output)
  {
    assert (output + [line])[..|output|] == output;
  }

  /** A row counts as a duplicate exactly when its address was written by an earlier chunk. */
  lemma {:induction false} DuplicatesStep(resolved: seq<Row>, chunk: seq<Row>, row: Row, chunkSize: nat)
    requires |chunk| == Waiting(|resolved| + |chunk|, chunkSize)
    ensures Duplicates(Addresses(resolved + chunk + [row]), chunkSize)
         == Duplicates(Addresses(resolved + chunk), chunkSize) + (if row.address in Addresses(resolved) then 1 else 0)
  {
    var all := resolved + chunk;
    var longer := Addresses(all + [row]);
    AddressesAppend(all, row);
    AddressesConcat(resolved, chunk);
    assert longer[..|all|] == Addresses(all);
    assert longer[..|resolved|] == Addresses(resolved);
  }

  /** Counted, if it repeats an address at all. */
  ghost predicate Caught(addresses: seq<string>, k: nat, chunkSize: nat)
    requires k < |addresses|
  {
    addresses[k] in addresses[..k] ==> addresses[k] in addresses[..k - Waiting(k, chunkSize)]
  }

  lemma CaughtInPrefix(addresses: seq<string>, n: nat, k: nat, chunkSize: nat)
    requires k < n <= |addresses|
    ensures Caught(addresses[..n], k, chunkSize) <==> Caught(addresses, k, chunkSize)
  {
    assert addresses[..n][..k] == addresses[..k];
    assert addresses[..n][..k - Waiting(k, chunkSize)] == addresses[..k - Waiting(k, chunkSize)];
  }

  /** `duplicates` misses a repeated address exactly when its earlier occurrences share its chunk. */
  lemma {:induction false} DuplicatesUndercount(addresses: seq<string>, chunkSize: nat)
    ensures Duplicates(addresses, chunkSize) <= |addresses| - |Distinct(addresses)|
    ensures Duplicates(addresses, chunkSize) == |addresses| - |Distinct(addresses)| <==>
      forall k :: 0 <= k < |addresses| ==> Caught(addresses, k, chunkSize)
  {
    if addresses != [] {
      var k := |addresses| - 1;
      var init, last := addresses[..k], addresses[k];
      DistinctMembers(init);
      assert |Distinct(addresses)| == |Distinct(init)| + (if last in init then 0 else 1);
      var caught := last in addresses[..k - Waiting(k, chunkSize)];
      assert Duplicates(addresses, chunkSize) == Duplicates(init, chunkSize) + (if caught then 1 else 0);
      assert caught ==> last in init by { assert addresses[..k - Waiting(k, chunkSize)] <= init; }
      assert Caught(addresses, k, chunkSize) <==> (last in init ==> caught);
      hide Distinct;
      hide Duplicates;
      hide Caught;
      DuplicatesUndercount(init, chunkSize);
      forall i: nat | i < k { CaughtInPrefix(addresses, k, i, chunkSize); }
    }
  }

  // ----------------------------------------------------------- the processor

  class Job {
    var seen: map<string, string>
    var charges: Charges
    var malformedRows: nat
    var duplicates: nat
    var distribution: Distribution
    var processed: nat
    var header: seq<Record>
    var chunk: seq<Row>
    var output: seq<Line>
    /** Fresh results of the chunk at hand, and those already inserted into the cache. */
    var freshInserts: seq<CacheRow>
    var inserted: seq<CacheRow>
    /** The rows written through a chunk, and the addresses looked up, in order. */
    ghost var resolved: seq<Row>
    ghost var consulted: seq<string>

    ghost predicate Untouched()
      reads this
    {
      && seen == map[] && charges == Charges(0, 0, 0) && malformedRows == duplicates == processed == 0
      && distribution == Distribution(0, 0, 0, 0)
      && header == [] && chunk == [] && output == [] && freshInserts == inserted == [] && resolved == [] && consulted == []
    }

    constructor ()
      ensures Untouched()
    {
      seen, charges, malformedRows, duplicates, processed := map[], Charges(0, 0, 0), 0, 0, 0;
      distribution, header, chunk, output, resolved, consulted := Distribution(0, 0, 0, 0), [], [], [], [], [];
      freshInserts, inserted := [], [];
    }

    /** The map holds the answer for every consulted address and for no other. */
    ghost predicate Remembers(env: Env)
      reads `seen, `consulted, `charges, `freshInserts, `inserted
    {
      && (forall a :: a in seen <==> a in consulted)
      && (forall a :: a in seen ==> seen[a] == EncodeResult(ResultFor(env, a)))
      && charges == ChargesFor(env, consulted)
      && inserted + freshInserts == FreshRows(env, consulted)
    }

    ghost predicate Valid(env: Env)
      reads `seen, `consulted, `charges, `freshInserts, `inserted, `resolved, `output, `distribution, `processed
    {
      && Remembers(env) && freshInserts == []
      && consulted == Distinct(Addresses(resolved))
      && Resolved(output) == LinesFor(env, resolved)
      && distribution == Tally(output) && processed == |output|
    }

    /** The rows whose addresses have no answer yet. */
    method SelectUnresolved(rows: seq<Row>) returns (unresolved: seq<Row>)
      ensures unresolved == Unseen(rows, seen.Keys)
    {
      unresolved := [];
      for i := 0 to |rows|
        invariant unresolved == Unseen(rows[..i], seen.Keys)
      {
        assert rows[..i + 1][..i] == rows[..i];
        if rows[i].address !in seen { unresolved := unresolved + [rows[i]]; }
      }
      assert rows[..|rows|] == rows;
    }

    /** The first row of each hash. */
    static method UniqueByHash(env: Env, rows: seq<Row>, ghost file: set<string>) returns (unique: seq<Row>)
      requires Collisionless(env, file) && forall r :: r in rows ==> r.address in file
      ensures Addresses(unique) == Distinct(Addresses(rows))
    {
      hide Addresses;
      hide Distinct;
      hide ResultFor;
      var hashes: set<string> := {};
      unique := [];
      NothingDistinct();
      for i := 0 to |rows|
        invariant Addresses(unique) == Distinct(Addresses(rows[..i]))
        invariant forall a :: a in file ==> (env.hash(a) in hashes <==> a in Addresses(unique))
        invariant forall a :: a in Addresses(unique) ==> a in file
      {
        var row := rows[i];
        assert rows[..i + 1] == rows[..i] + [row];
        AddressesAppend(rows[..i], row);
        DistinctAppend(Addresses(rows[..i]), row.address);
        if env.hash(row.address) !in hashes {
          AddressesAppend(unique, row);
          hashes := hashes + {env.hash(row.address)};
          unique := unique + [row];
        }
      }
      assert rows[..|rows|] == rows;
    }

    /** filter by `seen`, then one row for each hash. */
    method SelectNew(env: Env, rows: seq<Row>, ghost file: set<string>) returns (unique: seq<Row>)
      requires Collisionless(env, file) && Valid(env) && forall r :: r in rows ==> r.address in file
      ensures consulted + Addresses(unique) == Distinct(Addresses(resolved + rows))
    {
      var unresolved := SelectUnresolved(rows);
      UnseenAreRows(rows, seen.Keys);
      unique := UniqueByHash(env, unresolved, file);
      DistinctMembers(Addresses(resolved));
      hide Addresses;
      hide Distinct;
      hide Unseen;
      hide Resolved;
      NewAddresses(Addresses(resolved), rows, seen.Keys);
      AddressesConcat(resolved, rows);
    }

    /** One cache or engine answer for an address. */
    method ConsultOne(env: Env, address: string)
      requires Remembers(env)
      modifies this`seen, this`charges, this`consulted, this`freshInserts
      ensures Remembers(env) && consulted == old(consulted) + [address]
    {
      hide EncodeResult;
      hide ChargesFor;
      hide FreshRows;
      ChargesStep(env, consulted, address);
      FreshRowsStep(env, consulted, address);
      match env.answer(address) {
        case Cached(result) =>
          seen := seen[address := EncodeResult(result)];
          charges := charges.(cached := charges.cached + 1);
        case EngineFailed =>
          seen := seen[address := EncodeResult(UNAVAILABLE)];
          charges := charges.(engineErrors := charges.engineErrors + 1);
        case Fresh(result) =>
          seen := seen[address := EncodeResult(result)];
          charges := charges.(charged := charges.charged + 1);
          freshInserts := freshInserts + [CacheRow(address, env.hash(address), result)];
      }
      consulted := consulted + [address];
    }

    method Consult(env: Env, unique: seq<Row>)
      requires Remembers(env)
      modifies this`seen, this`charges, this`consulted, this`freshInserts
      ensures Remembers(env) && consulted == old(consulted) + Addresses(unique)
    {
      hide Addresses;
      hide ChargesFor;
      hide FreshRows;
      NothingDistinct();
      for i := 0 to |unique|
        invariant Remembers(env) && consulted == old(consulted) + Addresses(unique[..i])
      {
        assert unique[..i + 1] == unique[..i] + [unique[i]];
        AddressesAppend(unique[..i], unique[i]);
        ConsultOne(env, unique[i].address);
      }
      assert unique[..|unique|] == unique;
    }

    method WriteRow(cells: Record, normalized: string, result: RowResult)
      requires distribution == Tally(output) && processed == |output|
      modifies this`output, this`distribution, this`processed
      ensures output == old(output) + [Line(cells, normalized, result)]
      ensures distribution == Tally(output) && processed == |output|
    {
      output := output + [Line(cells, normalized, result)];
      assert output[..|output| - 1] == old(output);
      match result.verdict {
        case Valid => distribution := distribution.(valid := distribution.valid + 1);
        case Invalid => distribution := distribution.(invalid := distribution.invalid + 1);
        case Risky => distribution := distribution.(risky := distribution.risky + 1);
        case Unknown => distribution := distribution.(unknown := distribution.unknown + 1);
      }
      processed := processed + 1;
    }

    /** Every row gets its address's result; malformed lines stay where they are. */
    method WriteRows(env: Env, rows: seq<Row>)
      requires Remembers(env)
      requires forall i :: 0 <= i < |rows| ==> rows[i].address in seen && rows[i].address != ""
      requires distribution == Tally(output) && processed == |output|
      modifies this`output, this`distribution, this`processed
      ensures distribution == Tally(output) && processed == |output|
      ensures Resolved(output) == old(Resolved(output)) + LinesFor(env, rows)
      ensures Rejected(output) == old(Rejected(output))
    {
      hide EncodeResult, DecodeResult, ChargesFor, FreshRows, Tally, ResultFor, LinesFor, Resolved, Rejected;
      NoLines(env);
      for i := 0 to |rows|
        invariant distribution == Tally(output) && processed == |output|
        invariant Resolved(output) == old(Resolved(output)) + LinesFor(env, rows[..i])
        invariant Rejected(output) == old(Rejected(output))
      {
        var row := rows[i];
        var result := DecodeResult(seen[row.address]);
        ghost var before := output;
        WriteRow(row.cells, row.address, result);
        ResolvedStep(before, Line(row.cells, row.address, result));
        LinesAppend(env, rows[..i], row);
        assert rows[..i + 1] == rows[..i] + [row];
      }
      assert rows[..|rows|] == rows;
    }

    method ResolveChunk(env: Env, rows: seq<Row>, ghost file: set<string>)
      requires Collisionless(env, file) && Valid(env) && forall r :: r in rows ==> r.address in file
      requires forall i :: 0 <= i < |rows| ==> rows[i].address != ""
      modifies this`seen, this`charges, this`consulted, this`freshInserts, this`inserted, this`output, this`distribution, this`processed, this`resolved
      ensures Valid(env) && resolved == old(resolved) + rows
      ensures Rejected(output) == old(Rejected(output))
    {
      hide ChargesFor, Distinct, Resolved, Rejected, Tally, LinesFor, EncodeResult, ResultFor, FreshRows, Collisionless, Addresses;
      var unique := SelectNew(env, rows, file);
      Consult(env, unique);
      inserted, freshInserts := inserted + freshInserts, [];
      LaterRowsDistinct(resolved, rows);
      WriteRows(env, rows);
      LinesConcat(env, resolved, rows);
      resolved := resolved + rows;
    }

    /** The state after `records`: what waits in the chunk is all that is not yet written. */
    ghost predicate Consumed(env: Env, column: nat, records: seq<Record>, chunkSize: nat)
      reads this
    {
      && Valid(env)
      && (forall k :: 0 <= k < |chunk| ==> chunk[k].address != "")
      && resolved + chunk == WellFormedRows(env, column, records)
      && Rejected(output) == MalformedLines(MalformedRecords(env, column, records))
      && malformedRows == |MalformedRecords(env, column, records)|
      && |chunk| == Waiting(|resolved| + |chunk|, chunkSize)
      && duplicates == Duplicates(Addresses(resolved + chunk), chunkSize)
    }

    method RejectRow(env: Env, column: nat, ghost records: seq<Record>, record: Record, chunkSize: nat)
      requires Consumed(env, column, records, chunkSize) && ReadRow(env, column, record).address == ""
      modifies this`output, this`distribution, this`processed, this`malformedRows
      ensures Consumed(env, column, records + [record], chunkSize)
    {
      hide Distinct, ChargesFor, Duplicates, Tally, WellFormedRows, MalformedRecords, MalformedLines, Resolved, Rejected, LinesFor,
           EncodeResult, ResultFor, FreshRows, Addresses;
      WellFormedStep(env, column, records, record);
      RejectedStep(output, Line(record, "", MALFORMED));
      WriteRow(record, "", MALFORMED);
      malformedRows := malformedRows + 1;
    }

    /** Into the chunk, which may now be full. */
    method PushRow(env: Env, row: Row, chunkSize: nat)
      requires Valid(env) && |chunk| == Waiting(|resolved| + |chunk|, chunkSize)
      requires duplicates == Duplicates(Addresses(resolved + chunk), chunkSize)
      modifies this`chunk, this`duplicates
      ensures Valid(env) && chunk == old(chunk) + [row]
      ensures duplicates == Duplicates(Addresses(resolved + chunk), chunkSize)
    {
      hide Distinct;
      hide Duplicates;
      hide Addresses;
      hide Resolved;
      hide Tally;
      hide LinesFor;
      hide ChargesFor;
      hide EncodeResult;
      hide ResultFor;
      DistinctMembers(Addresses(resolved));
      DuplicatesStep(resolved, chunk, row, chunkSize);
      if row.address in seen { duplicates := duplicates + 1; }
      assert resolved + (chunk + [row]) == resolved + chunk + [row];
      chunk := chunk + [row];
    }

    /** The rows that wait belong to the file. */
    ghost predicate ChunkWithin(file: set<string>)
      reads `chunk
    {
      forall r :: r in chunk ==> r.address in file
    }

    method TakeRow(env: Env, column: nat, ghost records: seq<Record>, record: Record, normalized: string, chunkSize: nat, ghost file: set<string>)
      requires Collisionless(env, file) && ChunkWithin(file) && normalized in file && Consumed(env, column, records, chunkSize)
      requires ReadRow(env, column, record) == Row(record, normalized) && normalized != ""
      modifies this
      ensures Consumed(env, column, records + [record], chunkSize) && ChunkWithin(file) && header == old(header)
    {
      WellFormedStep(env, column, records, record);
      hide WellFormedRows;
      hide MalformedRecords;
      hide Valid;
      hide Collisionless;
      hide Duplicates;
      hide Addresses;
      hide Rejected;
      ghost var all := resolved + chunk + [Row(record, normalized)];
      assert |resolved| + |chunk| == |all| - 1;
      PushRow(env, Row(record, normalized), chunkSize);
      assert resolved + chunk == all;
      if |chunk| >= chunkSize {
        ResolveChunk(env, chunk, file);
        chunk := [];
        assert resolved + chunk == all;
      }
    }

    /** Before the first record; the header line, if any, is no data row. */
    method Open(env: Env, column: nat, headerRow: seq<Record>, chunkSize: nat)
      requires Untouched()
      modifies this`header
      ensures Consumed(env, column, [], chunkSize) && chunk == [] && header == headerRow
    {
      header := headerRow;
      NothingDistinct();
    }

    /**
     What a finished run has done, whatever the chunk size: each distinct address
     was looked up once, paid for by its answer and cached if fresh; every well-formed row got its
     address's result, in file order; every malformed row was rejected, in file
     order. Only `duplicates` depends on the chunks.
     */
    ghost predicate Finished(env: Env, column: nat, data: seq<Record>, chunkSize: nat)
      reads this
    {
      var rows := WellFormedRows(env, column, data);
      var malformed := MalformedRecords(env, column, data);
      && consulted == Distinct(Addresses(rows))
      && charges == ChargesFor(env, consulted)
      && inserted == FreshRows(env, consulted)
      && Resolved(output) == LinesFor(env, rows)
      && Rejected(output) == MalformedLines(malformed)
      && malformedRows == |malformed|
      && duplicates == Duplicates(Addresses(rows), chunkSize)
      && distribution == Tally(output) && processed == |output|
    }

    /** The same over the records themselves. */
    ghost predicate Processed(env: Env, column: nat, data: seq<Record>)
      reads this
    {
      var addresses := FileAddresses(env, column, data);
      && (exists at :: LinesFit(env, column, data, output, at))
      && processed == |data|
      && malformedRows == |Addressless(env, column, data)|
      && charges.charged == |AnsweredFresh(env, addresses)|
      && charges.cached == |AnsweredFromCache(env, addresses)|
      && charges.engineErrors == |Unanswered(env, addresses)|
      && distribution.valid == LinesWith(output, Verdict.Valid) && distribution.invalid == LinesWith(output, Verdict.Invalid)
      && distribution.risky == LinesWith(output, Verdict.Risky) && distribution.unknown == LinesWith(output, Verdict.Unknown)
      && |inserted| == charges.charged
      && (forall a :: a in AnsweredFresh(env, addresses) ==> CacheRow(a, env.hash(a), env.answer(a).checked) in inserted)
    }

    /** After the last record the unfinished chunk is resolved. */
    method Finish(env: Env, column: nat, ghost data: seq<Record>, chunkSize: nat, ghost file: set<string>)
      requires Collisionless(env, file) && ChunkWithin(file) && Consumed(env, column, data, chunkSize)
      modifies this`seen, this`charges, this`consulted, this`freshInserts, this`inserted, this`output, this`distribution, this`processed, this`resolved
      ensures Finished(env, column, data, chunkSize)
    {
      hide Collisionless;
      hide WellFormedRows;
      hide MalformedRecords;
      hide Resolved;
      hide Rejected;
      hide Duplicates;
      hide Addresses;
      hide Distinct;
      hide LinesFor;
      hide MalformedLines;
      hide Tally;
      hide ChargesFor;
      hide EncodeResult;
      if |chunk| > 0 {
        ResolveChunk(env, chunk, file);
      } else {
        assert resolved + chunk == resolved;
      }
    }

    method ProcessBatch(env: Env, column: nat, hasHeader: bool, records: seq<Record>, chunkSize: nat)
      requires Collisionless(env, FileAddresses(env, column, DataRows(records, hasHeader))) && Untouched()
      modifies this
      ensures Finished(env, column, DataRows(records, hasHeader), chunkSize)
      ensures Processed(env, column, if hasHeader && records != [] then records[1..] else records)
      ensures header == records[..|records| - |DataRows(records, hasHeader)|]
    {
      hide Collisionless;
      hide Consumed;
      hide Finished;
      hide Processed;
      var start := if hasHeader && records != [] then 1 else 0;
      var data := records[start..];
      assert data == DataRows(records, hasHeader);
      Open(env, column, records[..start], chunkSize);
      ProcessRows(env, column, data, chunkSize);
      FinishedIsProcessed(this, env, column, data, chunkSize);
    }

    method ProcessRows(env: Env, column: nat, data: seq<Record>, chunkSize: nat)
      requires Collisionless(env, FileAddresses(env, column, data)) && Consumed(env, column, [], chunkSize) && chunk == []
      modifies this
      ensures Finished(env, column, data, chunkSize) && header == old(header)
    {
      hide Consumed;
      hide Collisionless;
      hide Finished;
      ghost var file := FileAddresses(env, column, data);
      assert data[..0] == [];
      for i := 0 to |data|
        invariant Consumed(env, column, data[..i], chunkSize) && ChunkWithin(file) && header == old(header)
      {
        var record := data[i];
        assert data[..i + 1] == data[..i] + [record];
        var normalized := env.normalize(Cell(record, column));
        assert normalized == AddressIn(env, column, record);
        if normalized == "" {
          RejectRow(env, column, data[..i], record, chunkSize);
        } else {
          assert normalized == ReadRow(env, column, data[i]).address;
          TakeRow(env, column, data[..i], record, normalized, chunkSize, file);
        }
      }
      assert data[..|data|] == data;
      Finish(env, column, data, chunkSize, file);
    }
  }

  /**
   The settlement of a finished job, by its own counters: each distinct address
   was answered once, every inspected row classified once, no more charged than
   reserved, and each credit charged left one row in the cache.
   */
  lemma SettlementAddsUp(job: Job, env: Env, records: seq<Record>, isHeader: string -> bool, upload: Inspection, chunkSize: nat)
    requires Inspects(records, isHeader, upload) && upload.Accepted?
    requires job.Finished(env, upload.emailColumn, DataRows(records, upload.hasHeader), chunkSize)
    ensures job.charges.charged + job.charges.cached + job.charges.engineErrors == |job.consulted|
    ensures forall i, j :: 0 <= i < j < |job.consulted| ==> job.consulted[i] != job.consulted[j]
    ensures Total(job.distribution) == job.processed == upload.totalRows
    ensures job.charges.charged == |job.inserted| <= upload.totalRows
  {
    var data := DataRows(records, upload.hasHeader);
    var rows := WellFormedRows(env, upload.emailColumn, data);
    AcceptedCountsDataRows(records, isHeader, upload);
    RowsAddUp(env, upload.emailColumn, data);
    TallyAddsUp(job.output);
    DistinctOnce(Addresses(rows));
    ChargesAddUp(env, job.consulted);
    FreshRowsAreCharged(env, job.consulted);
  }

  /** Two equal addresses in one chunk: one of them is a duplicate, and none is counted. */
  lemma DuplicateMissed(address: string)
    ensures var twice := [address, address];
      && Duplicates(twice, 2) == 0 && Duplicates(twice, 1) == 1
      && |twice| - |Distinct(twice)| == 1 && !Caught(twice, 1, 2)
  {
    hide Distinct, Waiting, Duplicates;
    WaitingOfTwo();
    var none: seq<string> := [];
    var one, twice := [address], [address, address];
    assert none + [address] == one && one + [address] == twice;
    NothingDistinct();
    DistinctAppend(none, address);
    DistinctAppend(one, address);
    DuplicatesAppend(none, address, 2);
    DuplicatesAppend(one, address, 2);
    DuplicatesAppend(none, address, 1);
    DuplicatesAppend(one, address, 1);
    NothingDuplicate(2);
    NothingDuplicate(1);
    assert twice[..1] == one && twice[..0] == [];
  }

  lemma NothingDuplicate(chunkSize: nat)
    ensures Duplicates([], chunkSize) == 0
  {
  }

  lemma DuplicatesAppend(s: seq<string>, x: string, chunkSize: nat)
    ensures Duplicates(s + [x], chunkSize) == Duplicates(s, chunkSize) + (if x in s[..|s| - Waiting(|s|, chunkSize)] then 1 else 0)
  {
    assert (s + [x])[..|s|] == s;
    assert (s + [x])[..|s| - Waiting(|s|, chunkSize)] == s[..|s| - Waiting(|s|, chunkSize)];
  }

  lemma WaitingOfTwo()
    ensures Waiting(0, 2) == 0 && Waiting(1, 2) == 1 && Waiting(0, 1) == 0 && Waiting(1, 1) == 0
  {
  }

  // ------------------------------------------------- from the rows to the records

  lemma FinishedIsProcessed(job: Job, env: Env, column: nat, data: seq<Record>, chunkSize: nat)
    requires job.Finished(env, column, data, chunkSize)
    ensures job.Processed(env, column, data)
  {
    hide WellFormedRows, MalformedRecords, Resolved, Rejected, Addresses, Distinct, ChargesFor, FreshRows, Tally, Duplicates, LinesFor, MalformedLines,
         Addressless, LinesWith, AnsweredFromCache, Unanswered;
    var at := LinesAreFit(env, column, data, job.output);
    MalformedCounted(env, column, data);
    TallyCounted(job.output);
    TallyAddsUp(job.output);
    RowsAddUp(env, column, data);
    var rows := WellFormedRows(env, column, data);
    ConsultedAre(env, column, data);
    DistinctOnce(Addresses(rows));
    ChargesCounted(env, job.consulted);
    FreshRowsAreCharged(env, job.consulted);
    FreshRowsThere(env, job.consulted);
  }

  lemma {:induction false} MalformedCounted(env: Env, column: nat, data: seq<Record>)
    ensures |MalformedRecords(env, column, data)| == |Addressless(env, column, data)|
  {
    if data != [] {
      var n := |data| - 1;
      MalformedCounted(env, column, data[..n]);
      AddresslessStep(env, column, data);
      hide Addressless;
      OneMore(Addressless(env, column, data[..n]), Addressless(env, column, data), n, AddressIn(env, column, data[n]) == "");
    }
  }

  lemma AddresslessStep(env: Env, column: nat, data: seq<Record>)
    requires data != []
    ensures var n := |data| - 1;
      && n !in Addressless(env, column, data[..n])
      && forall i :: i in Addressless(env, column, data) <==>
           i in Addressless(env, column, data[..n]) || (i == n && AddressIn(env, column, data[n]) == "")
  {
    hide AddressIn;
    assert forall i :: 0 <= i < |data| - 1 ==> data[..|data| - 1][i] == data[i];
  }

  lemma LinesCounted(output: seq<Line>, v: Verdict)
    requires output != []
    ensures LinesWith(output, v) == LinesWith(output[..|output| - 1], v) + (if output[|output| - 1].result.verdict == v then 1 else 0)
  {
    var n := |output| - 1;
    assert forall k :: 0 <= k < n ==> output[..n][k] == output[k];
    OneMore(WithVerdict(output[..n], v), WithVerdict(output, v), n, output[n].result.verdict == v);
  }

  lemma {:induction false} TallyCounted(output: seq<Line>)
    ensures var d := Tally(output);
      && d.valid == LinesWith(output, Valid) && d.invalid == LinesWith(output, Invalid)
      && d.risky == LinesWith(output, Risky) && d.unknown == LinesWith(output, Unknown)
  {
    if output != [] {
      TallyCounted(output[..|output| - 1]);
      LinesCounted(output, Valid);
      LinesCounted(output, Invalid);
      LinesCounted(output, Risky);
      LinesCounted(output, Unknown);
    }
  }

  ghost function Members(s: seq<string>): set<string> {
    set x | x in s
  }

  lemma {:induction false} ChargesCounted(env: Env, s: seq<string>)
    requires forall i, j :: 0 <= i < j < |s| ==> s[i] != s[j]
    ensures var c := ChargesFor(env, s);
      && c.charged == |AnsweredFresh(env, Members(s))|
      && c.cached == |AnsweredFromCache(env, Members(s))|
      && c.engineErrors == |Unanswered(env, Members(s))|
  {
    if s != [] {
      var n := |s| - 1;
      var init, last := s[..n], s[n];
      ChargesCounted(env, init);
      assert last !in Members(init);
      assert Members(s) == Members(init) + {last} by { assert s == init + [last]; }
      hide AnsweredFresh, AnsweredFromCache, Unanswered, Members;
      AnsweredStep(env, Members(init), last);
    }
  }

  lemma AnsweredStep(env: Env, base: set<string>, a: string)
    requires a !in base
    ensures |AnsweredFresh(env, base + {a})| == |AnsweredFresh(env, base)| + (if env.answer(a).Fresh? then 1 else 0)
    ensures |AnsweredFromCache(env, base + {a})| == |AnsweredFromCache(env, base)| + (if env.answer(a).Cached? then 1 else 0)
    ensures |Unanswered(env, base + {a})| == |Unanswered(env, base)| + (if env.answer(a).EngineFailed? then 1 else 0)
  {
    FreshStep(env, base, a);
    FromCacheStep(env, base, a);
    UnansweredStep(env, base, a);
    hide AnsweredFresh, AnsweredFromCache, Unanswered;
    OneMore(AnsweredFresh(env, base), AnsweredFresh(env, base + {a}), a, env.answer(a).Fresh?);
    OneMore(AnsweredFromCache(env, base), AnsweredFromCache(env, base + {a}), a, env.answer(a).Cached?);
    OneMore(Unanswered(env, base), Unanswered(env, base + {a}), a, env.answer(a).EngineFailed?);
  }

  lemma FreshStep(env: Env, base: set<string>, a: string)
    ensures forall x :: x in AnsweredFresh(env, base + {a}) <==> x in AnsweredFresh(env, base) || (x == a && env.answer(a).Fresh?)
    ensures a !in base ==> a !in AnsweredFresh(env, base)
  {
  }

  lemma FromCacheStep(env: Env, base: set<string>, a: string)
    ensures forall x :: x in AnsweredFromCache(env, base + {a}) <==> x in AnsweredFromCache(env, base) || (x == a && env.answer(a).Cached?)
    ensures a !in base ==> a !in AnsweredFromCache(env, base)
  {
  }

  lemma UnansweredStep(env: Env, base: set<string>, a: string)
    ensures forall x :: x in Unanswered(env, base + {a}) <==> x in Unanswered(env, base) || (x == a && env.answer(a).EngineFailed?)
    ensures a !in base ==> a !in Unanswered(env, base)
  {
  }

  lemma OneMore<T>(before: set<T>, all: set<T>, x: T, more: bool)
    requires x !in before && forall y :: y in all <==> y in before || (y == x && more)
    ensures |all| == |before| + (if more then 1 else 0)
  {
    assert all == if more then before + {x} else before;
  }

  lemma {:induction false} FreshRowsThere(env: Env, s: seq<string>)
    ensures forall a :: a in s && env.answer(a).Fresh? ==> CacheRow(a, env.hash(a), env.answer(a).checked) in FreshRows(env, s)
  {
    if s != [] {
      FreshRowsThere(env, s[..|s| - 1]);
      assert s == s[..|s| - 1] + [s[|s| - 1]];
    }
  }

  /** The addresses looked up are the file's. */
  lemma {:induction false} ConsultedAre(env: Env, column: nat, data: seq<Record>)
    ensures Members(Distinct(Addresses(WellFormedRows(env, column, data)))) == FileAddresses(env, column, data)
  {
    DistinctMembers(Addresses(WellFormedRows(env, column, data)));
    hide Distinct;
    RowAddressesAre(env, column, data);
  }

  lemma {:induction false} RowAddressesAre(env: Env, column: nat, data: seq<Record>)
    ensures forall a :: a in Addresses(WellFormedRows(env, column, data)) <==> a in FileAddresses(env, column, data)
  {
    if data != [] {
      var n := |data| - 1;
      var before, last := data[..n], data[n];
      RowAddressesAre(env, column, before);
      AddressesAppend(WellFormedRows(env, column, before), ReadRow(env, column, last));
      var a := AddressIn(env, column, last);
      assert FileAddresses(env, column, data) == FileAddresses(env, column, before) + (if a == "" then {} else {a});
      assert WellFormedRows(env, column, data)
          == if a == "" then WellFormedRows(env, column, before) else WellFormedRows(env, column, before) + [ReadRow(env, column, last)];
      hide Addresses, FileAddresses, WellFormedRows;
    }
  }

  /** Where the n-th line with an address stands, and the n-th without. */
  ghost function ResolvedAt(output: seq<Line>, n: nat): nat
    requires n < |Resolved(output)|
  {
    var last := |output| - 1;
    if output[last].normalized != "" && n == |Resolved(output)| - 1 then last else ResolvedAt(output[..last], n)
  }

  ghost function RejectedAt(output: seq<Line>, n: nat): nat
    requires n < |Rejected(output)|
  {
    var last := |output| - 1;
    if output[last].normalized == "" && n == |Rejected(output)| - 1 then last else RejectedAt(output[..last], n)
  }

  lemma {:induction false} ResolvedThere(output: seq<Line>, n: nat)
    requires n < |Resolved(output)|
    ensures ResolvedAt(output, n) < |output| && output[ResolvedAt(output, n)] == Resolved(output)[n]
    ensures output[ResolvedAt(output, n)].normalized != ""
    ensures forall m: nat :: m < n ==> ResolvedAt(output, m) < ResolvedAt(output, n)
    decreases |output|
  {
    var last := |output| - 1;
    if output[last].normalized != "" && n == |Resolved(output)| - 1 {
      forall m: nat | m < n { ResolvedThere(output[..last], m); }
    } else {
      ResolvedThere(output[..last], n);
    }
  }

  lemma {:induction false} RejectedThere(output: seq<Line>, n: nat)
    requires n < |Rejected(output)|
    ensures RejectedAt(output, n) < |output| && output[RejectedAt(output, n)] == Rejected(output)[n]
    ensures output[RejectedAt(output, n)].normalized == ""
    ensures forall m: nat :: m < n ==> RejectedAt(output, m) < RejectedAt(output, n)
    decreases |output|
  {
    var last := |output| - 1;
    if output[last].normalized == "" && n == |Rejected(output)| - 1 {
      forall m: nat | m < n { RejectedThere(output[..last], m); }
    } else {
      RejectedThere(output[..last], n);
    }
  }

  /** A record's row is found at its rank among the rows of its kind. */
  lemma {:induction false} RankThere(env: Env, column: nat, data: seq<Record>, i: nat)
    requires i < |data|
    ensures var rows, bad, a := WellFormedRows(env, column, data), MalformedRecords(env, column, data), AddressIn(env, column, data[i]);
      var n, m := |WellFormedRows(env, column, data[..i])|, |MalformedRecords(env, column, data[..i])|;
      if a != "" then n < |rows| && rows[n] == Row(data[i], a) else m < |bad| && bad[m] == data[i]
    decreases |data|
  {
    var last := |data| - 1;
    if i < last {
      RankThere(env, column, data[..last], i);
      assert data[..last][..i] == data[..i];
    }
  }

  /** Ranks of one kind increase. */
  lemma {:induction false} RanksIncrease(env: Env, column: nat, data: seq<Record>, i: nat, j: nat)
    requires i < j <= |data|
    ensures |WellFormedRows(env, column, data[..i])| + (if AddressIn(env, column, data[i]) != "" then 1 else 0)
         <= |WellFormedRows(env, column, data[..j])|
    ensures |MalformedRecords(env, column, data[..i])| + (if AddressIn(env, column, data[i]) == "" then 1 else 0)
         <= |MalformedRecords(env, column, data[..j])|
    decreases j
  {
    assert data[..j][..j - 1] == data[..j - 1];
    if i < j - 1 { RanksIncrease(env, column, data, i, j - 1); }
  }

  lemma LinesAreFit(env: Env, column: nat, data: seq<Record>, output: seq<Line>) returns (at: seq<nat>)
    requires Resolved(output) == LinesFor(env, WellFormedRows(env, column, data))
    requires Rejected(output) == MalformedLines(MalformedRecords(env, column, data))
    ensures LinesFit(env, column, data, output, at)
  {
    TallyAddsUp(output);
    RowsAddUp(env, column, data);
    hide WellFormedRows, MalformedRecords, Resolved, Rejected, ResolvedAt, RejectedAt;
    forall i | 0 <= i < |data| { RankThere(env, column, data, i); }
    at := seq(|data|, i requires 0 <= i < |data| => LineOf(env, column, data, output, i));
    forall i | 0 <= i < |data|
      ensures at[i] < |output| && LineFits(env, column, data[i], output[at[i]]) && (output[at[i]].normalized == "" <==> AddressIn(env, column, data[i]) == "")
    {
      LineOfFits(env, column, data, output, i);
    }
    forall i, j | 0 <= i < j < |data| && (AddressIn(env, column, data[i]) == "" <==> AddressIn(env, column, data[j]) == "")
      ensures at[i] < at[j]
    {
      LinesOfIncrease(env, column, data, output, i, j);
    }
    forall i, j | 0 <= i < j < |data|
      ensures at[i] != at[j]
    {
    }
  }

  /** The line of record `i`. */
  ghost function LineOf(env: Env, column: nat, data: seq<Record>, output: seq<Line>, i: nat): nat
    requires i < |data|
  {
    var n := |WellFormedRows(env, column, data[..i])|;
    var m := |MalformedRecords(env, column, data[..i])|;
    if AddressIn(env, column, data[i]) != "" then (if n < |Resolved(output)| then ResolvedAt(output, n) else 0)
    else if m < |Rejected(output)| then RejectedAt(output, m)
    else 0
  }

  lemma LineOfFits(env: Env, column: nat, data: seq<Record>, output: seq<Line>, i: nat)
    requires i < |data|
    requires Resolved(output) == LinesFor(env, WellFormedRows(env, column, data))
    requires Rejected(output) == MalformedLines(MalformedRecords(env, column, data))
    ensures var k := LineOf(env, column, data, output, i);
      k < |output| && LineFits(env, column, data[i], output[k])
  {
    hide WellFormedRows, MalformedRecords, Resolved, Rejected, ResolvedAt, RejectedAt, EncodeResult, DecodeResult;
    RankThere(env, column, data, i);
    if AddressIn(env, column, data[i]) != "" {
      ResolvedThere(output, |WellFormedRows(env, column, data[..i])|);
    } else {
      RejectedThere(output, |MalformedRecords(env, column, data[..i])|);
    }
  }

  lemma LinesOfIncrease(env: Env, column: nat, data: seq<Record>, output: seq<Line>, i: nat, j: nat)
    requires i < j < |data| && (AddressIn(env, column, data[i]) == "" <==> AddressIn(env, column, data[j]) == "")
    requires Resolved(output) == LinesFor(env, WellFormedRows(env, column, data))
    requires Rejected(output) == MalformedLines(MalformedRecords(env, column, data))
    ensures LineOf(env, column, data, output, i) < LineOf(env, column, data, output, j)
  {
    hide WellFormedRows, MalformedRecords, Resolved, Rejected, ResolvedAt, RejectedAt, LinesFor, MalformedLines;
    RankThere(env, column, data, i);
    RankThere(env, column, data, j);
    RanksIncrease(env, column, data, i, j);
    if AddressIn(env, column, data[i]) != "" {
      ResolvedThere(output, |WellFormedRows(env, column, data[..j])|);
    } else {
      RejectedThere(output, |MalformedRecords(env, column, data[..j])|);
    }
  }
}
