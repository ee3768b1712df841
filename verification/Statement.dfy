/**
 Monthly statements and the running balance of the history page, both computed
 from the ledger alone, and the calendar they are cut by.
 */
module Statement {
  import opened Prelude
  import opened Ledger
  import opened Pagination

  // ---------------------------------------------------------------- the calendar

  /** The day number of 1 January, as ECMAScript's Date computes it. */
  function DayFromYear(y: nat): int {
    365 * (y - 1970) + (y - 1969) / 4 - (y - 1901) / 100 + (y - 1601) / 400
  }

  predicate Leap(y: nat) {
    y % 4 == 0 && (y % 100 != 0 || y % 400 == 0)
  }

  function DaysIn(y: nat, month: nat): nat {
    if month == 1 then (if Leap(y) then 29 else 28)
    else if month == 3 || month == 5 || month == 8 || month == 10 then 30
    else 31
  }

  function DaysBefore(y: nat, month: nat): nat {
    if month == 0 then 0 else DaysBefore(y, month - 1) + DaysIn(y, month - 1)
  }

  /** Date.UTC(y, month, 1): months past December carry into the year. */
  function DateUtc(y: nat, month: nat): int {
    var year := y + month / 12;
    (DayFromYear(year) + DaysBefore(year, month % 12)) * DAY_MS
  }

  datatype Bounds = Bounds(start: int, end: int)

  function Digit(c: char): (r: Option<nat>)
    ensures r.Some? ==> r.value <= 9
  {
    if '0' <= c <= '9' then Some((c as int - '0' as int) as nat) else None
  }

  function Number(digits: string): Option<nat> {
    if digits == [] then Some(0)
    else
      var head, last := Number(digits[..|digits| - 1]), Digit(digits[|digits| - 1]);
      if head.Some? && last.Some? then Some(10 * head.value + last.value) else None
  }

  /** YYYY-MM, with the month counted from zero */
  function ReadMonth(text: string): Option<(nat, nat)> {
    if |text| != 7 || text[4] != '-' then None
    else
      var year, month := Number(text[..4]), Number(text[5..]);
      if year.None? || month.None? then None
      else if 1 <= month.value <= 12 && 2020 <= year.value <= 2100 then Some((year.value, month.value - 1))
      else None
  }

  function ParseStatementMonth(text: string): Option<Bounds> {
    match ReadMonth(text)
    case None => None
    case Some((year, month)) => Some(Bounds(DateUtc(year, month), DateUtc(year, month + 1)))
  }

  function Digits(n: nat, width: nat): (r: string)
    ensures |r| == width
  {
    if width == 0 then [] else Digits(n / 10, width - 1) + ['0' + (n % 10) as char]
  }

  function ShowMonth(year: nat, month: nat): string {
    Digits(year, 4) + ['-'] + Digits(month + 1, 2)
  }

  lemma ReadDigits(n: nat, width: nat)
    requires width > 0 && Number(Digits(n / 10, width - 1)) == Some(n / 10)
    ensures Number(Digits(n, width)) == Some(n)
  {
    var text := Digits(n, width);
    assert text[..width - 1] == Digits(n / 10, width - 1);
    assert Digit(text[width - 1]) == Some(n % 10);
  }

  lemma ReadDigit(d: nat)
    requires d <= 9
    ensures Number(Digits(d, 1)) == Some(d)
  {
    ReadDigits(d, 1);
  }

  lemma ReadShownMonth(year: nat, month: nat)
    requires 2020 <= year <= 2100 && month < 12
    ensures ReadMonth(ShowMonth(year, month)) == Some((year, month))
  {
    hide Number, Digits;
    var text := ShowMonth(year, month);
    assert text[..4] == Digits(year, 4) && text[5..] == Digits(month + 1, 2);
    assert Number(text[..4]) == Some(year) by {
      ReadDigit(year / 1000);
      ReadDigits(year / 100, 2);
      ReadDigits(year / 10, 3);
      ReadDigits(year, 4);
    }
    assert Number(text[5..]) == Some(month + 1) by {
      ReadDigit((month + 1) / 10);
      ReadDigits(month + 1, 2);
    }
  }

  lemma {:induction false} NumberInjective(text: string, other: string)
    requires |text| == |other| && Number(text).Some? && Number(text) == Number(other)
    ensures text == other
  {
    if text != [] {
      var n := |text| - 1;
      NumberInjective(text[..n], other[..n]);
      assert text == text[..n] + [text[n]] && other == other[..n] + [other[n]];
    }
  }

  lemma ReadMonthInjective(text: string, other: string)
    requires ReadMonth(text).Some? && ReadMonth(text) == ReadMonth(other)
    ensures text == other
  {
    NumberInjective(text[..4], other[..4]);
    NumberInjective(text[5..], other[5..]);
    assert text == text[..4] + ['-'] + text[5..];
    assert other == other[..4] + ['-'] + other[5..];
  }

  lemma DaysInYear(y: nat)
    ensures DaysBefore(y, 12) == (if Leap(y) then 366 else 365)
  {
    hide Leap;
    var feb := if Leap(y) then 29 else 28;
    assert DaysBefore(y, 0) == 0;
    assert DaysBefore(y, 1) == 31;
    assert DaysBefore(y, 2) == 31 + feb;
    assert DaysBefore(y, 3) == 62 + feb;
    assert DaysBefore(y, 5) == 123 + feb;
    assert DaysBefore(y, 7) == 184 + feb;
    assert DaysBefore(y, 9) == 245 + feb;
    assert DaysBefore(y, 11) == 306 + feb;
  }

  lemma YearLength(y: nat)
    ensures DayFromYear(y + 1) == DayFromYear(y) + DaysBefore(y, 12)
  {
    hide DaysBefore;
    DaysInYear(y);
    LeapByFloors(y);
  }

  /** Each floor of the closed form steps by one at the multiples it counts. */
  lemma FloorSteps(y: nat)
    ensures (y - 1968) / 4 - (y - 1969) / 4 == (if y % 4 == 0 then 1 else 0)
    ensures (y - 1900) / 100 - (y - 1901) / 100 == (if y % 100 == 0 then 1 else 0)
    ensures (y - 1600) / 400 - (y - 1601) / 400 == (if y % 400 == 0 then 1 else 0)
  {}

  lemma MultiplesNest(y: nat)
    ensures y % 400 == 0 ==> y % 100 == 0
    ensures y % 100 == 0 ==> y % 4 == 0
  {
    var century := y / 100;
    assert y % 100 == 0 ==> y == 4 * (25 * century);
    var era := y / 400;
    assert y % 400 == 0 ==> y == 100 * (4 * era);
  }

  lemma LeapByFloors(y: nat)
    ensures DayFromYear(y + 1) - DayFromYear(y) == (if Leap(y) then 366 else 365)
  {
    FloorSteps(y);
    MultiplesNest(y);
  }

  /** The calendar. */
  lemma DaysListed(y: nat)
    ensures var leap := y % 4 == 0 && (y % 100 != 0 || y % 400 == 0);
      seq(12, m requires 0 <= m => DaysIn(y, m)) == [31, if leap then 29 else 28, 31, 30, 31, 30, 31, 31, 30, 31, 30, 31]
  {
    assert Leap(y) == (y % 4 == 0 && (y % 100 != 0 || y % 400 == 0));
    hide Leap;
  }

  /** Each month is as long as the calendar says, December included. */
  lemma MonthLength(y: nat, month: nat)
    requires month < 12
    ensures DateUtc(y, month + 1) == DateUtc(y, month) + DaysIn(y, month) * DAY_MS
  {
    hide DayFromYear, DaysIn;
    if month == 11 { YearLength(y); }
  }

  /** Months counted from year 0 */
  function StartOf(k: nat): int {
    DateUtc(k / 12, k % 12)
  }

  lemma StartAdvances(k: nat)
    ensures StartOf(k + 1) == StartOf(k) + DaysIn(k / 12, k % 12) * DAY_MS
    ensures StartOf(k + 1) == DateUtc(k / 12, k % 12 + 1)
  {
    hide DayFromYear, DaysIn, DaysBefore;
    MonthLength(k / 12, k % 12);
  }

  lemma {:induction false} StartsIncrease(j: nat, k: nat)
    requires j <= k
    ensures StartOf(j) <= StartOf(k)
  {
    hide StartOf, DateUtc;
    if j < k {
      StartsIncrease(j, k - 1);
      StartAdvances(k - 1);
    }
  }

  ghost predicate Covers(text: string, t: int) {
    var b := ParseStatementMonth(text);
    b.Some? && b.value.start <= t < b.value.end
  }

  lemma {:induction false} FindMonth(j: nat, k: nat, t: int) returns (m: nat)
    requires j < k && StartOf(j) <= t < StartOf(k)
    ensures j <= m < k && StartOf(m) <= t < StartOf(m + 1)
    decreases k - j
  {
    hide StartOf;
    if t < StartOf(j + 1) {
      m := j;
    } else {
      m := FindMonth(j + 1, k, t);
    }
  }

  /** Every instant of the accepted years lies in exactly one statement. */
  lemma MonthsTileTime(t: int)
    requires DateUtc(2020, 0) <= t < DateUtc(2101, 0)
    ensures exists text :: Covers(text, t)
    ensures forall text, other :: Covers(text, t) && Covers(other, t) ==> text == other
  {
    hide DateUtc, ReadMonth;
    assert StartOf(24240) == DateUtc(2020, 0) && StartOf(25212) == DateUtc(2101, 0);
    var m := FindMonth(24240, 25212, t);
    ReadShownMonth(m / 12, m % 12);
    StartAdvances(m);
    assert Covers(ShowMonth(m / 12, m % 12), t);
    forall text, other | Covers(text, t) && Covers(other, t)
      ensures text == other
    {
      CoversOne(text, other, t);
    }
  }

  lemma CoversOne(text: string, other: string, t: int)
    requires Covers(text, t) && Covers(other, t)
    ensures text == other
  {
    hide StartOf, ReadMonth, IndexOf, DateUtc;
    BoundsOf(text);
    BoundsOf(other);
    SameMonth(IndexOf(text), IndexOf(other), t);
    IndexInjective(text, other);
  }

  lemma SameMonth(j: nat, k: nat, t: int)
    requires StartOf(j) <= t < StartOf(j + 1) && StartOf(k) <= t < StartOf(k + 1)
    ensures j == k
  {
    hide StartOf;
    if j < k {
      StartsIncrease(j + 1, k);
    } else if k < j {
      StartsIncrease(k + 1, j);
    }
  }

  lemma IndexInjective(text: string, other: string)
    requires ReadMonth(text).Some? && ReadMonth(other).Some? && IndexOf(text) == IndexOf(other)
    ensures text == other
  {
    hide ReadMonth;
    MonthBounded(text);
    MonthBounded(other);
    ReadMonthInjective(text, other);
  }

  function IndexOf(text: string): nat
    requires ReadMonth(text).Some?
  {
    12 * ReadMonth(text).value.0 + ReadMonth(text).value.1
  }

  lemma BoundsOf(text: string)
    requires ReadMonth(text).Some?
    ensures ParseStatementMonth(text) == Some(Bounds(StartOf(IndexOf(text)), StartOf(IndexOf(text) + 1)))
    ensures StartOf(IndexOf(text)) < StartOf(IndexOf(text) + 1)
  {
    hide DateUtc;
    MonthBounded(text);
    var (y, m) := ReadMonth(text).value;
    assert (12 * y + m) / 12 == y && (12 * y + m) % 12 == m;
    StartAdvances(IndexOf(text));
  }

  lemma MonthBounded(text: string)
    requires ReadMonth(text).Some?
    ensures ReadMonth(text).value.1 < 12 && ReadMonth(text).value.0 >= 2020
  {}

  /** The statement after `text` is the one for the next calendar month. */
  ghost predicate Follows(text: string, next: string) {
    ReadMonth(text).Some? && ReadMonth(next).Some? && IndexOf(next) == IndexOf(text) + 1
  }

  // ---------------------------------------------------------------- the statement

  function Delta(r: Row): int {
    if r.columns.Credit? then r.columns.delta else 0
  }

  function Total(rows: seq<Row>): int {
    if rows == [] then 0 else Delta(rows[0]) + Total(rows[1..])
  }

  /** WHERE org_id = ... AND created_at in [from, to) */
  function Between(rows: seq<Row>, org: nat, from: int, to: int): seq<Row> {
    if rows == [] then []
    else (if rows[0].org == org && from <= rows[0].createdAt < to then [rows[0]] else []) + Between(rows[1..], org, from, to)
  }

  function ByReason(rows: seq<Row>, reasons: set<Reason>): int {
    if rows == [] then 0
    else
      (if rows[0].columns.Credit? && rows[0].columns.reason in reasons then Delta(rows[0]) else 0)
      + ByReason(rows[1..], reasons)
  }

  datatype MonthlyStatement = MonthlyStatement(opening: int, granted: int, consumed: int, refunded: int,
    adjustments: int, closing: int, entries: seq<Row>)

  function GetMonthlyStatement(ledger: seq<Row>, org: nat, month: string): Option<MonthlyStatement> {
    match ParseStatementMonth(month)
    case None => None
    case Some(bounds) =>
      var opening := Total(Between(ledger, org, 0, bounds.start));
      var entries := OrderBy(OldestFirst, Between(ledger, org, bounds.start, bounds.end));
      Some(MonthlyStatement(
             opening,
             ByReason(entries, {Reason.Grant}),
             -ByReason(entries, {SingleCheck, BatchCheck}),
             ByReason(entries, {Reason.Refund}),
             ByReason(entries, {Adjustment}),
             opening + Total(entries),
             entries))
  }

  lemma {:induction false} InsertTotal(order: Order, r: Row, rows: seq<Row>)
    ensures Total(InsertSorted(order, r, rows)) == Delta(r) + Total(rows)
  {
    if rows != [] && !Less(KeyOf(order, r), KeyOf(order, rows[0])) {
      InsertTotal(order, r, rows[1..]);
      assert InsertSorted(order, r, rows)[1..] == InsertSorted(order, r, rows[1..]);
    } else {
      assert ([r] + rows)[1..] == rows;
    }
  }

  /** Sorting loses no credits. */
  lemma {:induction false} OrderByTotal(order: Order, rows: seq<Row>)
    ensures Total(OrderBy(order, rows)) == Total(rows)
  {
    if rows != [] {
      OrderByTotal(order, rows[1..]);
      InsertTotal(order, rows[0], OrderBy(order, rows[1..]));
    }
  }

  lemma {:induction false} BetweenSplits(rows: seq<Row>, org: nat, a: int, b: int, c: int)
    requires a <= b <= c
    ensures Total(Between(rows, org, a, c)) == Total(Between(rows, org, a, b)) + Total(Between(rows, org, b, c))
  {
    if rows != [] {
      BetweenSplits(rows[1..], org, a, b, c);
      BetweenHead(rows, org, a, c);
      BetweenHead(rows, org, a, b);
      BetweenHead(rows, org, b, c);
    }
  }

  lemma BetweenHead(rows: seq<Row>, org: nat, from: int, to: int)
    requires rows != []
    ensures Total(Between(rows, org, from, to))
         == (if rows[0].org == org && from <= rows[0].createdAt < to then Delta(rows[0]) else 0)
            + Total(Between(rows[1..], org, from, to))
  {
    var rest := Between(rows[1..], org, from, to);
    assert ([rows[0]] + rest)[1..] == rest && [] + rest == rest;
  }

  lemma {:induction false} ReasonsPartition(rows: seq<Row>)
    ensures Total(rows) == ByReason(rows, {Reason.Grant}) + ByReason(rows, {SingleCheck, BatchCheck})
                           + ByReason(rows, {Reason.Refund}) + ByReason(rows, {Adjustment})
  {
    if rows != [] {
      ReasonsPartition(rows[1..]);
      if rows[0].columns.Credit? {
        var reason := rows[0].columns.reason;
        assert reason == Reason.Grant || reason == SingleCheck || reason == BatchCheck || reason == Reason.Refund || reason == Adjustment;
      }
    }
  }

  lemma EpochStart()
    ensures StartOf(1970 * 12) == 0
  {
    hide DaysBefore;
    NothingBeforeJanuary(1970);
    assert DayFromYear(1970) == 0;
    hide DayFromYear;
    assert DateUtc(1970, 0) == 0;
  }

  lemma NothingBeforeJanuary(y: nat)
    ensures DaysBefore(y, 0) == 0
  {}

  lemma NotBeforeEpoch(month: string)
    requires ReadMonth(month).Some?
    ensures StartOf(IndexOf(month)) >= 0
  {
    hide ReadMonth;
    MonthBounded(month);
    EpochStart();
    hide StartOf;
    StartsIncrease(23640, IndexOf(month));
  }

  /** A statement adds up, and closes at the sum of everything before the month's end. */
  lemma StatementAddsUp(ledger: seq<Row>, org: nat, month: string)
    requires ParseStatementMonth(month).Some?
    ensures var s, b := GetMonthlyStatement(ledger, org, month).value, ParseStatementMonth(month).value;
      && s.closing == s.opening + s.granted - s.consumed + s.refunded + s.adjustments
      && s.opening == Total(Between(ledger, org, 0, b.start))
      && s.closing == Total(Between(ledger, org, 0, b.end))
  {
    hide Total, Between, OrderBy, ByReason, StartOf, IndexOf, ReadMonth;
    var b := ParseStatementMonth(month).value;
    var own := Between(ledger, org, b.start, b.end);
    ReasonsPartition(OrderBy(OldestFirst, own));
    OrderByTotal(OldestFirst, own);
    BoundsOf(month);
    NotBeforeEpoch(month);
    BetweenSplits(ledger, org, 0, b.start, b.end);
  }

  /** Each month opens where the month before closed. */
  lemma StatementsChain(ledger: seq<Row>, org: nat, month: string, next: string)
    requires Follows(month, next)
    ensures GetMonthlyStatement(ledger, org, month).value.closing == GetMonthlyStatement(ledger, org, next).value.opening
  {
    BoundsOf(month);
    BoundsOf(next);
    StatementAddsUp(ledger, org, month);
    StatementAddsUp(ledger, org, next);
  }

  // ---------------------------------------------------- what each entry adds to it

  lemma {:induction false} InsertByReason(order: Order, r: Row, rows: seq<Row>, reasons: set<Reason>)
    ensures ByReason(InsertSorted(order, r, rows), reasons) == ByReason([r], reasons) + ByReason(rows, reasons)
  {
    if rows != [] && !Less(KeyOf(order, r), KeyOf(order, rows[0])) {
      InsertByReason(order, r, rows[1..], reasons);
      assert InsertSorted(order, r, rows)[1..] == InsertSorted(order, r, rows[1..]);
    } else {
      assert ([r] + rows)[1..] == rows;
    }
  }

  lemma {:induction false} OrderByReason(order: Order, rows: seq<Row>, reasons: set<Reason>)
    ensures ByReason(OrderBy(order, rows), reasons) == ByReason(rows, reasons)
  {
    if rows != [] {
      OrderByReason(order, rows[1..], reasons);
      InsertByReason(order, rows[0], OrderBy(order, rows[1..]), reasons);
    }
  }

  lemma {:induction false} BetweenAppend(rows: seq<Row>, r: Row, org: nat, from: int, to: int)
    ensures Between(rows + [r], org, from, to)
         == Between(rows, org, from, to) + (if r.org == org && from <= r.createdAt < to then [r] else [])
  {
    if rows == [] {
      assert rows + [r] == [r] && [r][1..] == [];
    } else {
      assert (rows + [r])[1..] == rows[1..] + [r];
      BetweenAppend(rows[1..], r, org, from, to);
    }
  }

  lemma {:induction false} ByReasonAppend(rows: seq<Row>, r: Row, reasons: set<Reason>)
    ensures ByReason(rows + [r], reasons) == ByReason(rows, reasons) + ByReason([r], reasons)
  {
    if rows == [] {
      assert rows + [r] == [r];
    } else {
      assert (rows + [r])[1..] == rows[1..] + [r];
      ByReasonAppend(rows[1..], r, reasons);
    }
  }

  /** A month's total for some reasons, after one more ledger row. */
  lemma MonthByReason(ledger: seq<Row>, r: Row, org: nat, from: int, to: int, reasons: set<Reason>)
    ensures ByReason(OrderBy(OldestFirst, Between(ledger + [r], org, from, to)), reasons)
         == ByReason(OrderBy(OldestFirst, Between(ledger, org, from, to)), reasons)
            + (if r.org == org && from <= r.createdAt < to then ByReason([r], reasons) else 0)
  {
    var before, after := Between(ledger, org, from, to), Between(ledger + [r], org, from, to);
    OrderByReason(OldestFirst, before, reasons);
    OrderByReason(OldestFirst, after, reasons);
    BetweenAppend(ledger, r, org, from, to);
    ByReasonAppend(before, r, reasons);
    assert before + [] == before;
    hide ByReason, OrderBy, Between;
  }

  lemma OneRowByReason(id: nat, org: nat, createdAt: nat, delta: int, reason: Reason, reasons: set<Reason>)
    ensures ByReason([Row(id, org, createdAt, Credit(delta, reason))], reasons) == if reason in reasons then delta else 0
  {
  }

  /** No entries, no movements. */
  lemma EmptyStatement(org: nat, month: string)
    requires ParseStatementMonth(month).Some?
    ensures GetMonthlyStatement([], org, month) == Some(MonthlyStatement(0, 0, 0, 0, 0, 0, []))
  {
    hide ParseStatementMonth;
  }

  /**
   One more ledger row shifts exactly one figure: the opening balance if it comes
   before the month; the figure of its reason if it falls into it; none if it comes
   after or belongs to someone else.
   */
  lemma EntryShiftsOneFigure(ledger: seq<Row>, id: nat, owner: nat, createdAt: nat, delta: int, reason: Reason, org: nat, month: string)
    requires ParseStatementMonth(month).Some?
    ensures var b, row := ParseStatementMonth(month).value, Row(id, owner, createdAt, Credit(delta, reason));
      var s, t := GetMonthlyStatement(ledger, org, month).value, GetMonthlyStatement(ledger + [row], org, month).value;
      var earlier, within := owner == org && createdAt < b.start, owner == org && b.start <= createdAt < b.end;
      && t.opening == s.opening + (if earlier then delta else 0)
      && t.granted == s.granted + (if within && reason == Reason.Grant then delta else 0)
      && t.consumed == s.consumed - (if within && (reason == SingleCheck || reason == BatchCheck) then delta else 0)
      && t.refunded == s.refunded + (if within && reason == Reason.Refund then delta else 0)
      && t.adjustments == s.adjustments + (if within && reason == Adjustment then delta else 0)
      && t.closing == s.closing + (if earlier || within then delta else 0)
  {
    hide ByReason, OrderBy, Between, Total, ParseStatementMonth;
    var b, row := ParseStatementMonth(month).value, Row(id, owner, createdAt, Credit(delta, reason));
    MonthByReason(ledger, row, org, b.start, b.end, {Reason.Grant});
    MonthByReason(ledger, row, org, b.start, b.end, {SingleCheck, BatchCheck});
    MonthByReason(ledger, row, org, b.start, b.end, {Reason.Refund});
    MonthByReason(ledger, row, org, b.start, b.end, {Adjustment});
    OneRowByReason(id, owner, createdAt, delta, reason, {Reason.Grant});
    OneRowByReason(id, owner, createdAt, delta, reason, {SingleCheck, BatchCheck});
    OneRowByReason(id, owner, createdAt, delta, reason, {Reason.Refund});
    OneRowByReason(id, owner, createdAt, delta, reason, {Adjustment});
    OpeningShifts(ledger, row, org, b.start);
    StatementAddsUp(ledger, org, month);
    StatementAddsUp(ledger + [row], org, month);
  }

  lemma OpeningShifts(ledger: seq<Row>, r: Row, org: nat, start: int)
    ensures Total(Between(ledger + [r], org, 0, start))
         == Total(Between(ledger, org, 0, start)) + (if r.org == org && r.createdAt < start then Delta(r) else 0)
  {
    BetweenAppend(ledger, r, org, 0, start);
    TotalConcat(Between(ledger, org, 0, start), [r]);
    assert Between(ledger, org, 0, start) + [] == Between(ledger, org, 0, start);
  }

  // ---------------------------------------------------------- the running balance

  /** SUM(delta) OVER (ORDER BY created_at, id): everything up to and including the row. */
  function UpTo(rows: seq<Row>, org: nat, last: Key): seq<Row> {
    if rows == [] then []
    else (if rows[0].org == org && !Less(last, KeyOf(OldestFirst, rows[0])) then [rows[0]] else []) + UpTo(rows[1..], org, last)
  }

  function RunningBalance(ledger: seq<Row>, org: nat, r: Row): int {
    Total(UpTo(ledger, org, KeyOf(OldestFirst, r)))
  }

  lemma ListHead(rows: seq<Row>, org: nat, r: Row)
    requires rows != []
    ensures Total(UpTo(rows, org, KeyOf(OldestFirst, r)))
         == (if rows[0].org == org && !Less(KeyOf(OldestFirst, r), KeyOf(OldestFirst, rows[0])) then Delta(rows[0]) else 0)
            + Total(UpTo(rows[1..], org, KeyOf(OldestFirst, r)))
    ensures var c := Some(KeyOf(NewestFirst, r));
      Total(Where(NewestFirst, rows, org, c))
      == (if Matches(NewestFirst, rows[0], org, c) then Delta(rows[0]) else 0) + Total(Where(NewestFirst, rows[1..], org, c))
  {
    var rest := UpTo(rows[1..], org, KeyOf(OldestFirst, r));
    assert ([rows[0]] + rest)[1..] == rest && [] + rest == rest;
    var older := Where(NewestFirst, rows[1..], org, Some(KeyOf(NewestFirst, r)));
    assert ([rows[0]] + older)[1..] == older && [] + older == older;
  }

  /** The window's sum is the row's own delta and whatever the history lists after it. */
  lemma {:induction false} UpToIsSelfAndOlder(rows: seq<Row>, org: nat, r: Row)
    requires DistinctIds(rows) && r.org == org
    requires forall x :: x in rows && x.id == r.id ==> x == r
    ensures Total(UpTo(rows, org, KeyOf(OldestFirst, r)))
         == (if r in rows then Delta(r) else 0) + Total(Where(NewestFirst, rows, org, Some(KeyOf(NewestFirst, r))))
  {
    if rows != [] {
      assert rows[0] in rows;
      assert rows == [rows[0]] + rows[1..];
      UpToIsSelfAndOlder(rows[1..], org, r);
      ListHead(rows, org, r);
      if rows[0] == r { assert r !in rows[1..]; }
    }
  }

  /** In the history, newest first, each running balance is the sum of the entries from there on. */
  lemma RunningIsSuffix(ledger: seq<Row>, org: nat, k: nat)
    requires DistinctIds(ledger) && k < |Listing(NewestFirst, ledger, org)|
    ensures var history := Listing(NewestFirst, ledger, org);
      RunningBalance(ledger, org, history[k]) == Total(history[k..])
  {
    var history := Listing(NewestFirst, ledger, org);
    var r := history[k];
    ListingSorted(NewestFirst, ledger, org);
    assert r in history;
    UpToIsSelfAndOlder(ledger, org, r);
    var c := Some(KeyOf(NewestFirst, r));
    OrderByTotal(NewestFirst, Where(NewestFirst, ledger, org, c));
    RestOfListing(NewestFirst, ledger, org, c, k + 1);
    assert history[k..][1..] == history[k + 1..];
  }

  function EntryOf(r: Row): Entry {
    Entry(r.org, Delta(r), if r.columns.Credit? then r.columns.reason else Adjustment, Reference.ById(r.id), r.createdAt)
  }

  function Entries(rows: seq<Row>): (es: seq<Entry>)
    ensures |es| == |rows|
  {
    seq(|rows|, i requires 0 <= i < |rows| => EntryOf(rows[i]))
  }

  lemma {:induction false} BalanceIsListingTotal(ledger: seq<Row>, org: nat)
    ensures Total(Where(NewestFirst, ledger, org, None)) == Balance(Entries(ledger), org)
  {
    if ledger != [] {
      var last := |ledger| - 1;
      BalanceIsListingTotal(ledger[..last], org);
      assert Entries(ledger) == Entries(ledger[..last]) + [EntryOf(ledger[last])];
      BalanceAppend(Entries(ledger[..last]), EntryOf(ledger[last]), org);
      assert ledger == ledger[..last] + [ledger[last]];
      WhereConcat(NewestFirst, ledger[..last], [ledger[last]], org, None);
      TotalConcat(Where(NewestFirst, ledger[..last], org, None), Where(NewestFirst, [ledger[last]], org, None));
    }
  }

  lemma {:induction false} TotalConcat(xs: seq<Row>, ys: seq<Row>)
    ensures Total(xs + ys) == Total(xs) + Total(ys)
  {
    if xs == [] {
      assert xs + ys == ys;
    } else {
      assert (xs + ys)[1..] == xs[1..] + ys;
      TotalConcat(xs[1..], ys);
    }
  }

  /** The newest running balance is the credit balance. */
  lemma NewestRunningIsBalance(ledger: seq<Row>, org: nat)
    requires DistinctIds(ledger)
    ensures var history := Listing(NewestFirst, ledger, org);
      if history == [] then Balance(Entries(ledger), org) == 0
      else RunningBalance(ledger, org, history[0]) == Balance(Entries(ledger), org)
  {
    var history := Listing(NewestFirst, ledger, org);
    BalanceIsListingTotal(ledger, org);
    OrderByTotal(NewestFirst, Where(NewestFirst, ledger, org, None));
    if history != [] {
      RunningIsSuffix(ledger, org, 0);
      assert history[0..] == history;
    }
  }

  /** The last entry before an instant carries the balance at that instant. */
  lemma {:induction false} RunningIsBalanceAt(rows: seq<Row>, org: nat, r: Row, t: int)
    requires r.createdAt < t
    requires forall x :: x in rows && x.org == org && x.createdAt < t ==> !Less(KeyOf(OldestFirst, r), KeyOf(OldestFirst, x))
    ensures RunningBalance(rows, org, r) == Total(Between(rows, org, 0, t))
  {
    if rows != [] {
      assert rows[0] in rows;
      assert rows == [rows[0]] + rows[1..];
      RunningIsBalanceAt(rows[1..], org, r, t);
      ListHead(rows, org, r);
      BetweenHead(rows, org, 0, t);
    }
  }

  lemma {:induction false} BetweenMembers(rows: seq<Row>, org: nat, from: int, to: int)
    ensures forall x :: x in Between(rows, org, from, to) <==> x in rows && x.org == org && from <= x.createdAt < to
    ensures DistinctIds(rows) ==> DistinctIds(Between(rows, org, from, to))
  {
    if rows != [] {
      assert rows == [rows[0]] + rows[1..];
      BetweenMembers(rows[1..], org, from, to);
      var rest := Between(rows[1..], org, from, to);
      if DistinctIds(rows) {
        forall j | 0 <= j < |rest|
          ensures rest[j].id != rows[0].id
        {
          assert rest[j] in rows[1..];
        }
      }
    }
  }

  /** The month's entries as listed: all of them, oldest first. */
  lemma MonthEntries(ledger: seq<Row>, org: nat, from: int, to: int)
    requires DistinctIds(ledger)
    ensures var entries := OrderBy(OldestFirst, Between(ledger, org, from, to));
      && Sorted(OldestFirst, entries)
      && (forall x :: x in entries <==> x in ledger && x.org == org && from <= x.createdAt < to)
  {
    hide Sorted, DistinctIds;
    var own := Between(ledger, org, from, to);
    var entries := OrderBy(OldestFirst, own);
    BetweenMembers(ledger, org, from, to);
    OrderByIsSorted(OldestFirst, own);
    forall x
      ensures x in entries <==> x in own
    {
      assert x in entries <==> x in multiset(entries);
      assert x in own <==> x in multiset(own);
    }
  }

  /** A statement lists the month's entries in order, and the last one's running balance is the closing balance. */
  lemma StatementMatchesHistory(ledger: seq<Row>, org: nat, month: string)
    requires DistinctIds(ledger) && ParseStatementMonth(month).Some?
    ensures var s, b := GetMonthlyStatement(ledger, org, month).value, ParseStatementMonth(month).value;
      && (forall i, j :: 0 <= i < j < |s.entries| ==> ComesBefore(OldestFirst, s.entries[i], s.entries[j]))
      && (forall x :: x in s.entries <==> x in ledger && x.org == org && b.start <= x.createdAt < b.end)
      && (s.entries != [] ==> RunningBalance(ledger, org, s.entries[|s.entries| - 1]) == s.closing)
  {
    hide Sorted, DistinctIds, OrderBy, Between, Total, RunningBalance, ParseStatementMonth, ByReason, Less, KeyOf;
    var s, b := GetMonthlyStatement(ledger, org, month).value, ParseStatementMonth(month).value;
    MonthEntries(ledger, org, b.start, b.end);
    SortedMeans(OldestFirst, s.entries);
    if s.entries != [] {
      var r := s.entries[|s.entries| - 1];
      assert r in s.entries;
      LastIsLatest(ledger, org, b.start, b.end, s.entries);
      RunningIsBalanceAt(ledger, org, r, b.end);
      StatementAddsUp(ledger, org, month);
    }
  }

  lemma LastIsLatest(ledger: seq<Row>, org: nat, from: int, to: int, entries: seq<Row>)
    requires entries != [] && Sorted(OldestFirst, entries)
    requires forall x :: x in entries <==> x in ledger && x.org == org && from <= x.createdAt < to
    ensures forall x :: x in ledger && x.org == org && x.createdAt < to ==>
      !Less(KeyOf(OldestFirst, entries[|entries| - 1]), KeyOf(OldestFirst, x))
  {
    var r := entries[|entries| - 1];
    assert r in entries;
    forall x | x in ledger && x.org == org && x.createdAt < to
      ensures !Less(KeyOf(OldestFirst, r), KeyOf(OldestFirst, x))
    {
      if from <= x.createdAt {
        var i :| 0 <= i < |entries| && entries[i] == x;
      }
    }
  }
}
