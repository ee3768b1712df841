/**
 Result lines: spreadsheet-formula neutralisation, quoting, and a reader that
 follows section 2 of RFC 4180 with LF line ends.
 */
module CsvLine {
  import opened Prelude

  function Neutralize(cell: string): string {
    if cell != [] && cell[0] in {'=', '+', '-', '@', '\t', '\r'} then "'" + cell else cell
  }

  /** replaceAll('"', '""') */
  function Escape(cell: string): string {
    if cell == [] then [] else (if cell[0] == '"' then "\"\"" else [cell[0]]) + Escape(cell[1..])
  }

  predicate Special(c: char) {
    c == '"' || c == ',' || c == '\n' || c == '\r'
  }

  predicate NeedsQuotes(cell: string) {
    exists i :: 0 <= i < |cell| && Special(cell[i])
  }

  function PrintCell(cell: string): string {
    var hardened := Neutralize(cell);
    if NeedsQuotes(hardened) then "\"" + Escape(hardened) + "\"" else hardened
  }

  function PrintCells(cells: seq<string>): string {
    if cells == [] then []
    else if |cells| == 1 then PrintCell(cells[0])
    else PrintCell(cells[0]) + "," + PrintCells(cells[1..])
  }

  function ToCsvLine(cells: seq<string>): string {
    PrintCells(cells) + "\n"
  }

  function PrintFile(rows: seq<seq<string>>): string {
    if rows == [] then [] else ToCsvLine(rows[0]) + PrintFile(rows[1..])
  }

  // -------------------------------------------------------------- the reader

  /** After an opening quote: up to the closing one, with doubled quotes undone. */
  function ReadQuoted(s: string): (r: Option<(string, string)>)
    ensures r.Some? ==> |r.value.1| < |s|
  {
    if s == [] then None
    else if s[0] != '"' then
      match ReadQuoted(s[1..])
      case None => None
      case Some((field, rest)) => Some(([s[0]] + field, rest))
    else if |s| > 1 && s[1] == '"' then
      match ReadQuoted(s[2..])
      case None => None
      case Some((field, rest)) => Some((['"'] + field, rest))
    else Some(([], s[1..]))
  }

  /** Up to the next comma or line end; a bare quote or carriage return is malformed. */
  function ReadPlain(s: string): (r: Option<(string, string)>)
    ensures r.Some? ==> |r.value.1| <= |s|
  {
    if s == [] || s[0] == ',' || s[0] == '\n' then Some(([], s))
    else if s[0] == '"' || s[0] == '\r' then None
    else
      match ReadPlain(s[1..])
      case None => None
      case Some((field, rest)) => Some(([s[0]] + field, rest))
  }

  function ReadField(s: string): (r: Option<(string, string)>)
    ensures r.Some? ==> |r.value.1| <= |s|
  {
    if s != [] && s[0] == '"' then ReadQuoted(s[1..]) else ReadPlain(s)
  }

  /** One record and what follows its line end. */
  function ReadRecord(s: string): (r: Option<(seq<string>, string)>)
    ensures r.Some? ==> |r.value.1| < |s|
    decreases |s|
  {
    match ReadField(s)
    case None => None
    case Some((field, rest)) =>
      if rest == [] then None
      else if rest[0] == '\n' then Some(([field], rest[1..]))
      else if rest[0] == ',' then
        match ReadRecord(rest[1..])
        case None => None
        case Some((fields, rest')) => Some(([field] + fields, rest'))
      else None
  }

  function ReadFile(s: string): Option<seq<seq<string>>>
    decreases |s|
  {
    if s == [] then Some([])
    else
      match ReadRecord(s)
      case None => None
      case Some((record, rest)) =>
        match ReadFile(rest)
        case None => None
        case Some(records) => Some([record] + records)
  }

  // -------------------------------------------------------------- round trip

  predicate EndsField(rest: string) {
    rest != [] && (rest[0] == ',' || rest[0] == '\n')
  }

  lemma {:induction false} PlainRead(field: string, rest: string)
    requires !NeedsQuotes(field) && EndsField(rest)
    ensures ReadPlain(field + rest) == Some((field, rest))
  {
    if field == [] {
      assert field + rest == rest;
    } else {
      assert !Special(field[0]);
      assert (field + rest)[1..] == field[1..] + rest;
      assert forall i :: 0 <= i < |field| - 1 ==> field[1..][i] == field[i + 1];
      PlainRead(field[1..], rest);
      assert [field[0]] + field[1..] == field;
    }
  }

  lemma {:induction false} QuotedStep(c: char, tail: string)
    requires ReadQuoted(tail).Some?
    ensures ReadQuoted((if c == '"' then "\"\"" else [c]) + tail)
         == Some(([c] + ReadQuoted(tail).value.0, ReadQuoted(tail).value.1))
  {
    if c == '"' {
      assert ("\"\"" + tail)[2..] == tail;
    } else {
      assert ([c] + tail)[1..] == tail;
    }
  }

  lemma {:induction false} ClosingRead(closing: string)
    requires |closing| >= 2 && closing[0] == '"' && EndsField(closing[1..])
    ensures ReadQuoted(closing) == Some(([], closing[1..]))
  {
    assert closing[1] == closing[1..][0];
  }

  lemma {:induction false} EscapeStep(field: string, closing: string)
    requires field != []
    ensures Escape(field) + closing == (if field[0] == '"' then "\"\"" else [field[0]]) + (Escape(field[1..]) + closing)
  {
  }

  lemma {:induction false} QuotedRead(field: string, closing: string)
    requires |closing| >= 2 && closing[0] == '"' && EndsField(closing[1..])
    ensures ReadQuoted(Escape(field) + closing) == Some((field, closing[1..]))
  {
    hide ReadQuoted;
    if field == [] {
      assert Escape(field) + closing == closing;
      ClosingRead(closing);
    } else {
      EscapeStep(field, closing);
      hide Escape;
      QuotedRead(field[1..], closing);
      QuotedStep(field[0], Escape(field[1..]) + closing);
      assert [field[0]] + field[1..] == field;
    }
  }

  lemma {:induction false} CellRead(cell: string, rest: string)
    requires EndsField(rest)
    ensures ReadField(PrintCell(cell) + rest) == Some((Neutralize(cell), rest))
  {
    hide Escape;
    hide ReadQuoted;
    hide ReadPlain;
    var hardened := Neutralize(cell);
    hide Neutralize;
    var s := PrintCell(cell) + rest;
    if NeedsQuotes(hardened) {
      var closing := ['"'] + rest;
      assert closing[1..] == rest;
      QuotedRead(hardened, closing);
      assert s[1..] == Escape(hardened) + closing;
    } else {
      PlainRead(hardened, rest);
      assert s[0] != '"' by {
        if hardened != [] { assert !Special(hardened[0]) && s[0] == hardened[0]; } else { assert s == rest; }
      }
    }
  }

  function NeutralizeAll(cells: seq<string>): (r: seq<string>)
    ensures |r| == |cells|
  {
    seq(|cells|, i requires 0 <= i < |cells| => Neutralize(cells[i]))
  }

  lemma {:induction false} RecordRead(cells: seq<string>, rest: string)
    requires cells != []
    ensures ReadRecord(ToCsvLine(cells) + rest) == Some((NeutralizeAll(cells), rest))
  {
    hide ReadField;
    hide PrintCell;
    hide Neutralize;
    var s := ToCsvLine(cells) + rest;
    if |cells| == 1 {
      var after := "\n" + rest;
      CellRead(cells[0], after);
      assert s == PrintCell(cells[0]) + after && after[1..] == rest;
      assert NeutralizeAll(cells) == [Neutralize(cells[0])];
    } else {
      var after := "," + (ToCsvLine(cells[1..]) + rest);
      CellRead(cells[0], after);
      assert s == PrintCell(cells[0]) + after && after[1..] == ToCsvLine(cells[1..]) + rest;
      RecordRead(cells[1..], rest);
      assert NeutralizeAll(cells) == [Neutralize(cells[0])] + NeutralizeAll(cells[1..]);
    }
  }

  function NeutralizeRows(rows: seq<seq<string>>): seq<seq<string>> {
    if rows == [] then [] else [NeutralizeAll(rows[0])] + NeutralizeRows(rows[1..])
  }

  /** No spreadsheet would run the cell as a formula. */
  predicate Inert(cell: string) {
    cell == [] || cell[0] !in {'=', '+', '-', '@', '\t', '\r'}
  }

  lemma NeutralizedIsInert(cell: string)
    ensures Inert(Neutralize(cell)) && Neutralize(cell) == if Inert(cell) then cell else "'" + cell
  {
  }

  /** Reading a printed file gives back every row, cell by cell, neutralised; so no cell read is a formula. */
  lemma {:induction false} FileRead(rows: seq<seq<string>>)
    requires forall i :: 0 <= i < |rows| ==> rows[i] != []
    ensures ReadFile(PrintFile(rows)) == Some(NeutralizeRows(rows))
    ensures var read := NeutralizeRows(rows);
      && |read| == |rows| && (forall i :: 0 <= i < |rows| ==> |read[i]| == |rows[i]|)
      && forall i, j :: 0 <= i < |rows| && 0 <= j < |rows[i]| ==>
           Inert(read[i][j]) && read[i][j] == if Inert(rows[i][j]) then rows[i][j] else "'" + rows[i][j]
  {
    hide ReadRecord;
    if rows != [] {
      forall j | 0 <= j < |rows[0]|
        ensures Inert(NeutralizeAll(rows[0])[j])
        ensures NeutralizeAll(rows[0])[j] == if Inert(rows[0][j]) then rows[0][j] else "'" + rows[0][j]
      {
        NeutralizedIsInert(rows[0][j]);
      }
      hide NeutralizeAll, Inert;
      RecordRead(rows[0], PrintFile(rows[1..]));
      FileRead(rows[1..]);
      assert PrintFile(rows) == ToCsvLine(rows[0]) + PrintFile(rows[1..]) != [];
    }
  }
}
