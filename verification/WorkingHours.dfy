/**
 Working hours of scheduling-service: wall-clock text, validation, the store's delete-then-insert and its
 grouping read, and the windows of one date.
 */
module WorkingHours {
  import opened Wrappers
  import opened Availability
  import Appointments

  // ---------------------------------------------------------------- wall-clock text

  predicate IsDigit(c: char) {
    '0' <= c <= '9'
  }

  function Digit(c: char): int
    requires IsDigit(c)
  {
    c as int - '0' as int
  }

  function Char(n: int): char
    requires 0 <= n < 10
  {
    ('0' as int + n) as char
  }

  /** Minutes of a text in Go's layout "15:04": an hour of one or two digits, two digits of minutes, nothing
      more; -1 for anything else. */
  function ParseWall(v: string): int {
    var p := if |v| >= 2 && IsDigit(v[1]) then 2 else 1;
    if |v| != p + 3 || !IsDigit(v[0]) || v[p] != ':' || !IsDigit(v[p + 1]) || !IsDigit(v[p + 2]) then -1
    else
      var hour := if p == 2 then Digit(v[0]) * 10 + Digit(v[1]) else Digit(v[0]);
      var minute := Digit(v[p + 1]) * 10 + Digit(v[p + 2]);
      if hour >= 24 || minute >= 60 then -1 else hour * 60 + minute
  }

  const MICROS: int := 60_000_000

  /** Two digits of hour and minute of a stored time of day, in microseconds. */
  function TimeText(micros: int): string
    requires 0 <= micros < 1440 * MICROS
  {
    var m := micros / MICROS;
    [Char(m / 60 / 10), Char(m / 60 % 10), ':', Char(m % 60 / 10), Char(m % 60 % 10)]
  }

  lemma ParseUndoesText(m: int)
    requires 0 <= m < 1440
    ensures ParseWall(TimeText(m * MICROS)) == m
  {
  }

  /** The four digits of hour and minute determine the printed text. */
  lemma TextOfDigits(a: int, b: int, c: int, d: int)
    requires 0 <= a < 10 && 0 <= b < 10 && 0 <= c < 6 && 0 <= d < 10 && 10 * a + b < 24
    ensures var m := (10 * a + b) * 60 + (10 * c + d);
            0 <= m < 1440 && TimeText(m * MICROS) == [Char(a), Char(b), ':', Char(c), Char(d)]
  {
    var h, n := 10 * a + b, 10 * c + d;
    var m := h * 60 + n;
    assert m * MICROS / MICROS == m;
    assert m / 60 == h && m % 60 == n;
    assert h / 10 == a && h % 10 == b && n / 10 == c && n % 10 == d;
  }

  lemma CharOfDigit(c: char)
    requires IsDigit(c)
    ensures Char(Digit(c)) == c
  {
  }

  /** A text that parses is the printed minute, with or without the leading zero of the hour. */
  lemma ParsedIsPrinted(v: string)
    requires ParseWall(v) >= 0
    ensures var m := ParseWall(v);
            0 <= m < 1440 && (v == TimeText(m * MICROS) || (m < 600 && v == TimeText(m * MICROS)[1..]))
  {
    var p := if IsDigit(v[1]) then 2 else 1;
    CharOfDigit(v[0]);
    CharOfDigit(v[p + 1]);
    CharOfDigit(v[p + 2]);
    if p == 2 {
      CharOfDigit(v[1]);
      TextOfDigits(Digit(v[0]), Digit(v[1]), Digit(v[3]), Digit(v[4]));
      assert v == [v[0], v[1], v[2], v[3], v[4]];
    } else {
      TextOfDigits(0, Digit(v[0]), Digit(v[2]), Digit(v[3]));
      assert v == [v[0], v[1], v[2], v[3]];
    }
  }

  /** Also without the leading zero the printed minute parses back. */
  lemma ParseUndoesShortText(m: int)
    requires 0 <= m < 600
    ensures ParseWall(TimeText(m * MICROS)[1..]) == m
  {
    var h, n := m / 60, m % 60;
    TextOfDigits(0, h, n / 10, n % 10);
    assert TimeText(m * MICROS)[1..] == [Char(h), ':', Char(n / 10), Char(n % 10)];
  }

  /** Hours come first, midnight is 00:00, there is no 24:00, and seconds are dropped. */
  lemma WallExamples()
    ensures ParseWall("09:05") == 545 && ParseWall("9:05") == 545
    ensures ParseWall("00:00") == 0 && ParseWall("23:59") == 1439
    ensures ParseWall("24:00") == -1 && ParseWall("09:60") == -1 && ParseWall("9:5") == -1 && ParseWall("") == -1
    ensures TimeText(545 * 60_000_000) == "09:05" && TimeText(545 * 60_000_000 + 59_999_999) == "09:05"
  {
  }

  // ---------------------------------------------------------------- validation

  datatype Interval = Interval(start: string, end: string)
  datatype Day = Day(weekday: int, intervals: seq<Interval>)

  /** The same in minutes of the day; -1 stands for a text that is not a time of day. */
  datatype Span = Span(s: int, e: int)
  datatype SpanDay = SpanDay(weekday: int, spans: seq<Span>)

  function Parse(v: Interval): Span {
    Span(ParseWall(v.start), ParseWall(v.end))
  }

  function Spans(ivs: seq<Interval>): seq<Span> {
    seq(|ivs|, i requires 0 <= i < |ivs| => Parse(ivs[i]))
  }

  function SpanDays(days: seq<Day>): seq<SpanDay> {
    seq(|days|, i requires 0 <= i < |days| => SpanDay(days[i].weekday, Spans(days[i].intervals)))
  }

  /** Every span is a non-empty range of the day, and each ends before any later one starts. */
  predicate Valid(sps: seq<Span>) {
    && (forall i :: 0 <= i < |sps| ==> 0 <= sps[i].s < sps[i].e < 1440)
    && (forall i, j :: 0 <= i < j < |sps| ==> sps[i].e <= sps[j].s)
  }

  predicate ValidHours(days: seq<SpanDay>) {
    forall i :: 0 <= i < |days| ==> 0 <= days[i].weekday <= 6 && Valid(days[i].spans)
  }

  lemma SpanBounds(v: Interval)
    ensures -1 <= Parse(v).s < 1440 && -1 <= Parse(v).e < 1440
  {
  }

  /** The first i spans are valid and the last of them ends at `prev`. */
  ghost predicate ValidUpTo(sps: seq<Span>, i: nat, prev: int) {
    i <= |sps| && Valid(sps[..i]) && prev == if i == 0 then -1 else sps[i - 1].e
  }

  /** The check of one more span, against the end of the one before it, decides the whole prefix. */
  lemma ValidStep(sps: seq<Span>, i: nat, prev: int)
    requires ValidUpTo(sps, i, prev) && i < |sps| && sps[i].s < 1440 && sps[i].e < 1440
    ensures var bad := sps[i].s < 0 || sps[i].e < 0 || sps[i].s >= sps[i].e || sps[i].s < prev;
            if bad then !Valid(sps) else ValidUpTo(sps, i + 1, sps[i].e)
  {
  }

  method ValidIntervals(ivs: seq<Interval>) returns (ok: bool)
    ensures ok <==> Valid(Spans(ivs))
    ensures ok <==>
            && (forall i :: 0 <= i < |ivs| ==> 0 <= ParseWall(ivs[i].start) < ParseWall(ivs[i].end))
            && (forall i, j :: 0 <= i < j < |ivs| ==> ParseWall(ivs[i].end) <= ParseWall(ivs[j].start))
  {
    ghost var sps := Spans(ivs);
    var prev := -1;
    for i := 0 to |ivs|
      invariant ValidUpTo(sps, i, prev)
    {
      var sp := Parse(ivs[i]);
      SpanBounds(ivs[i]);
      assert sps[i] == sp;
      ValidStep(sps, i, prev);
      if sp.s < 0 || sp.e < 0 || sp.s >= sp.e || sp.s < prev {
        ValidInTexts(ivs);
        return false;
      }
      prev := sp.e;
    }
    assert sps[..|ivs|] == sps;
    ok := true;
    ValidInTexts(ivs);
  }

  lemma ValidInTexts(ivs: seq<Interval>)
    ensures Valid(Spans(ivs)) <==>
            && (forall i :: 0 <= i < |ivs| ==> 0 <= ParseWall(ivs[i].start) < ParseWall(ivs[i].end))
            && (forall i, j :: 0 <= i < j < |ivs| ==> ParseWall(ivs[i].end) <= ParseWall(ivs[j].start))
  {
    var sps := Spans(ivs);
    forall i | 0 <= i < |ivs|
      ensures sps[i] == Parse(ivs[i]) && sps[i].e < 1440
    {
      SpanBounds(ivs[i]);
    }
  }

  // ---------------------------------------------------------------- the stored table

  datatype Owner = Owner(tenant: Appointments.Uuid, barber: Appointments.Uuid)

  /** One stored interval; its two times of day are kept here in minutes. */
  datatype HourRow = HourRow(weekday: int, start: int, end: int)

  function RowOf(weekday: int, sp: Span): HourRow {
    HourRow(weekday, sp.s, sp.e)
  }

  /** The exclusion constraint of the table: same weekday and overlapping half-open ranges. */
  predicate Collide(a: HourRow, b: HourRow) {
    a.weekday == b.weekday && a.start < b.end && b.start < a.end
  }

  function DayRows(weekday: int, ivs: seq<Span>): seq<HourRow> {
    if ivs == [] then [] else DayRows(weekday, ivs[..|ivs| - 1]) + [RowOf(weekday, ivs[|ivs| - 1])]
  }

  function AllRows(days: seq<SpanDay>): seq<HourRow> {
    if days == [] then []
    else AllRows(days[..|days| - 1]) + DayRows(days[|days| - 1].weekday, days[|days| - 1].spans)
  }

  predicate Apart(rows: seq<HourRow>) {
    forall i, j :: 0 <= i < j < |rows| ==> !Collide(rows[i], rows[j])
  }

  predicate Before(a: HourRow, b: HourRow) {
    a.weekday < b.weekday || (a.weekday == b.weekday && a.start < b.start)
  }

  /** ORDER BY weekday, start_time, with no ties. */
  predicate Sorted(rows: seq<HourRow>) {
    forall i, j :: 0 <= i < j < |rows| ==> Before(rows[i], rows[j])
  }

  function Elements(rows: seq<HourRow>): set<HourRow> {
    set x | x in rows
  }

  function FirstFrom(days: seq<SpanDay>, weekday: int, k: nat): (i: nat)
    requires k <= |days|
    ensures k <= i <= |days|
    ensures i < |days| ==> days[i].weekday == weekday
    ensures forall j :: k <= j < i ==> days[j].weekday != weekday
    decreases |days| - k
  {
    if k == |days| || days[k].weekday == weekday then k else FirstFrom(days, weekday, k + 1)
  }

  /** Position of the first day with the weekday, or the length if there is none. */
  function IndexOf(days: seq<SpanDay>, weekday: int): nat {
    FirstFrom(days, weekday, 0)
  }

  predicate OfDay(r: HourRow) {
    0 <= r.start < 1440 && 0 <= r.end < 1440
  }

  /** Adds one row to the days read so far: to its weekday if that was seen, else as a new day at the end. */
  function AddRow(days: seq<SpanDay>, r: HourRow): seq<SpanDay> {
    var v, i := Span(r.start, r.end), IndexOf(days, r.weekday);
    if i < |days| then days[i := SpanDay(r.weekday, days[i].spans + [v])] else days + [SpanDay(r.weekday, [v])]
  }

  function Group(rows: seq<HourRow>): seq<SpanDay> {
    if rows == [] then [] else AddRow(Group(rows[..|rows| - 1]), rows[|rows| - 1])
  }

  /** Inserts one day's intervals, stopping at the first that breaks the exclusion constraint. */
  method InsertDay(stored: seq<HourRow>, weekday: int, ivs: seq<Span>) returns (ok: bool, all: seq<HourRow>)
    requires Apart(stored)
    ensures ok <==> Apart(stored + DayRows(weekday, ivs))
    ensures ok ==> all == stored + DayRows(weekday, ivs)
  {
    all := stored;
    for j := 0 to |ivs|
      invariant all == stored + DayRows(weekday, ivs[..j]) && Apart(all)
    {
      var r := RowOf(weekday, ivs[j]);
      assert ivs[..j + 1][..j] == ivs[..j];
      assert DayRows(weekday, ivs[..j + 1]) == DayRows(weekday, ivs[..j]) + [r];
      if exists x :: 0 <= x < |all| && Collide(all[x], r) {
        CollisionStays(stored, weekday, ivs, j);
        return false, all;
      }
      all := all + [r];
    }
    assert ivs[..|ivs|] == ivs;
    ok := true;
  }

  /** A row that collides with an earlier one spoils the whole day. */
  lemma CollisionStays(stored: seq<HourRow>, weekday: int, ivs: seq<Span>, j: nat)
    requires j < |ivs|
    requires var all := stored + DayRows(weekday, ivs[..j]);
             exists x :: 0 <= x < |all| && Collide(all[x], RowOf(weekday, ivs[j]))
    ensures !Apart(stored + DayRows(weekday, ivs))
  {
    var all, r := stored + DayRows(weekday, ivs[..j]), RowOf(weekday, ivs[j]);
    var x :| 0 <= x < |all| && Collide(all[x], r);
    assert ivs[..j + 1][..j] == ivs[..j];
    DayRowsPrefix(weekday, ivs, j + 1);
    var full := stored + DayRows(weekday, ivs);
    assert full[x] == all[x] && full[|all|] == r;
  }

  /** Inserts day after day until one breaks the constraint. */
  method InsertDays(days: seq<SpanDay>) returns (ok: bool, stored: seq<HourRow>)
    ensures ok <==> Apart(AllRows(days))
    ensures ok ==> stored == AllRows(days)
  {
    stored := [];
    for i := 0 to |days|
      invariant stored == AllRows(days[..i]) && Apart(stored)
    {
      assert days[..i + 1][..i] == days[..i];
      ok, stored := InsertDay(stored, days[i].weekday, days[i].spans);
      if !ok {
        assert !Apart(AllRows(days)) by { AllRowsPrefix(days, i + 1); }
        return;
      }
    }
    assert days[..|days|] == days;
    ok := true;
  }

  class HoursTable {
    var table: map<Owner, set<HourRow>>

    constructor ()
      ensures table == map[]
    {
      table := map[];
    }

    /** Deletes the barber's rows and inserts the new ones; a violated constraint rolls everything back. */
    method ReplaceHours(o: Owner, input: seq<Day>) returns (ok: bool)
      requires ValidHours(SpanDays(input))
      modifies this
      ensures ok <==> Apart(AllRows(SpanDays(input)))
      ensures ok <==> !SentTwice(SpanDays(input))
      ensures ok ==> o in table && forall x :: x in table[o] <==> exists i, j :: IsInterval(x, SpanDays(input), i, j)
      ensures table == if ok then old(table)[o := Elements(AllRows(SpanDays(input)))] else old(table)
    {
      var stored;
      ok, stored := InsertDays(SpanDays(input));
      CollisionIff(SpanDays(input));
      if ok {
        table := table[o := Elements(stored)];
        forall x
          ensures x in stored <==> exists i, j :: IsInterval(x, SpanDays(input), i, j)
        {
          RowsAreIntervals(SpanDays(input), x);
        }
      }
    }

    /** Groups the rows of the ordered query by weekday, with an index of the days already seen. */
    method Hours(o: Owner, rows: seq<HourRow>) returns (out: seq<Day>)
      requires Listing(rows, if o in table then table[o] else {})
      requires forall i :: 0 <= i < |rows| ==> OfDay(rows[i])
      ensures SpanDays(out) == Group(rows)
    {
      out := [];
      var idx: map<int, nat> := map[];
      for n := 0 to |rows|
        invariant SpanDays(out) == Group(rows[..n]) && Indexed(idx, SpanDays(out))
      {
        assert rows[..n + 1][..n] == rows[..n];
        out, idx := AddText(out, idx, rows[n]);
      }
      assert rows[..|rows|] == rows;
    }
  }

  /** One row of the grouping loop: find or append its weekday, then append its text. */
  method AddText(days: seq<Day>, idx: map<int, nat>, r: HourRow) returns (days': seq<Day>, idx': map<int, nat>)
    requires Indexed(idx, SpanDays(days)) && OfDay(r)
    ensures SpanDays(days') == AddRow(SpanDays(days), r) && Indexed(idx', SpanDays(days'))
  {
    IndexedAfter(idx, SpanDays(days), r);
    ghost var next := AddRow(SpanDays(days), r);
    var v := Interval(TimeText(r.start * MICROS), TimeText(r.end * MICROS));
    assert Parse(v) == Span(r.start, r.end) by {
      ParseUndoesText(r.start);
      ParseUndoesText(r.end);
    }
    days', idx' := days, idx;
    if r.weekday !in idx {
      days' := days + [Day(r.weekday, [])];
      idx' := idx[r.weekday := |days|];
    }
    var i := idx'[r.weekday];
    AppendText(days'[i].intervals, v, Span(r.start, r.end));
    days' := days'[i := Day(r.weekday, days'[i].intervals + [v])];
    assert forall x :: 0 <= x < |next| ==> SpanDays(days')[x] == next[x];
  }

  lemma AppendText(ivs: seq<Interval>, v: Interval, sp: Span)
    requires Parse(v) == sp
    ensures Spans(ivs + [v]) == Spans(ivs) + [sp]
  {
  }

  /** `idx` holds the position of every weekday already seen, and of no other. */
  ghost predicate Indexed(idx: map<int, nat>, days: seq<SpanDay>) {
    forall d :: if d in idx then idx[d] == IndexOf(days, d) < |days| else IndexOf(days, d) == |days|
  }

  lemma IndexedAfter(idx: map<int, nat>, days: seq<SpanDay>, r: HourRow)
    requires Indexed(idx, days)
    ensures Indexed(if r.weekday in idx then idx else idx[r.weekday := |days|], AddRow(days, r))
  {
    forall d ensures IndexOf(AddRow(days, r), d) == IndexAfter(days, r, d) { AddRowIndex(days, r, d); }
  }

  /** What a query ordered by weekday and start returns for a stored set of rows. */
  predicate Listing(rows: seq<HourRow>, stored: set<HourRow>) {
    Sorted(rows) && Elements(rows) == stored
  }

  function IndexAfter(days: seq<SpanDay>, r: HourRow, d: int): nat {
    var i := IndexOf(days, d);
    if d != r.weekday && i == |days| && IndexOf(days, r.weekday) == |days| then i + 1 else i
  }

  lemma IndexUnique(days: seq<SpanDay>, d: int, q: nat)
    requires q <= |days| && (q < |days| ==> days[q].weekday == d)
    requires forall j :: 0 <= j < q ==> days[j].weekday != d
    ensures IndexOf(days, d) == q
  {
  }

  lemma AddRowIndex(days: seq<SpanDay>, r: HourRow, d: int)
    ensures IndexOf(AddRow(days, r), d) == IndexAfter(days, r, d)
  {
    var a := AddRow(days, r);
    assert forall x :: 0 <= x < |days| ==> a[x].weekday == days[x].weekday;
    IndexUnique(a, d, IndexAfter(days, r, d));
  }

  lemma {:induction false} DayRowsPrefix(weekday: int, ivs: seq<Span>, j: nat)
    requires j <= |ivs|
    ensures DayRows(weekday, ivs[..j]) <= DayRows(weekday, ivs)
  {
    if j < |ivs| {
      assert ivs[..|ivs| - 1][..j] == ivs[..j];
      DayRowsPrefix(weekday, ivs[..|ivs| - 1], j);
    } else {
      assert ivs[..j] == ivs;
    }
  }

  lemma {:induction false} AllRowsPrefix(days: seq<SpanDay>, i: nat)
    requires i <= |days|
    ensures AllRows(days[..i]) <= AllRows(days)
  {
    if i < |days| {
      assert days[..|days| - 1][..i] == days[..i];
      AllRowsPrefix(days[..|days| - 1], i);
    } else {
      assert days[..i] == days;
    }
  }

  lemma {:induction false} SortedUnique(a: seq<HourRow>, b: seq<HourRow>)
    requires Sorted(a) && Sorted(b) && Elements(a) == Elements(b)
    ensures a == b
  {
    assert a != [] ==> a[0] in Elements(a);
    assert b != [] ==> b[0] in Elements(b);
    if a != [] && b != [] {
      assert a[0] in Elements(b) && b[0] in Elements(a);
      assert a[0] == b[0];
      forall x ensures x in a[1..] <==> x in b[1..] {
        assert x in a[1..] ==> x in Elements(a) && x != a[0];
        assert x in b[1..] ==> x in Elements(b) && x != b[0];
        assert a == [a[0]] + a[1..] && b == [b[0]] + b[1..];
      }
      SortedUnique(a[1..], b[1..]);
    }
  }

  // ---------------------------------------------------------------- hours survive the store

  predicate Distinct(days: seq<SpanDay>) {
    forall i, j :: 0 <= i < j < |days| ==> days[i].weekday != days[j].weekday
  }

  /** The intervals of a weekday: those of its first day in the list. */
  function DayOf(days: seq<SpanDay>, weekday: int): seq<Span> {
    var i := IndexOf(days, weekday);
    if i < |days| then days[i].spans else []
  }

  /** The intervals of the seven weekdays. */
  function Week(days: seq<SpanDay>): (week: seq<seq<Span>>)
    ensures |week| == 7 && forall w :: 0 <= w < 7 ==> week[w] == DayOf(days, w)
  {
    seq(7, w => DayOf(days, w))
  }

  ghost predicate ValidWeek(week: seq<seq<Span>>) {
    forall w :: 0 <= w < |week| ==> Valid(week[w])
  }

  /** The rows of weekdays 0 to n-1, weekday by weekday. */
  function OrderedRows(week: seq<seq<Span>>, n: nat): seq<HourRow>
    requires n <= |week|
  {
    if n == 0 then [] else OrderedRows(week, n - 1) + DayRows(n - 1, week[n - 1])
  }

  lemma {:induction false} DayRowsAt(weekday: int, ivs: seq<Span>)
    ensures |DayRows(weekday, ivs)| == |ivs|
    ensures forall i :: 0 <= i < |ivs| ==> DayRows(weekday, ivs)[i] == RowOf(weekday, ivs[i])
  {
    if ivs != [] {
      DayRowsAt(weekday, ivs[..|ivs| - 1]);
    }
  }

  lemma DayRowsWeekday(weekday: int, ivs: seq<Span>, r: HourRow)
    ensures r in DayRows(weekday, ivs) ==> r.weekday == weekday
  {
    DayRowsAt(weekday, ivs);
  }

  lemma DayRowsSorted(weekday: int, ivs: seq<Span>)
    requires Valid(ivs)
    ensures Sorted(DayRows(weekday, ivs)) && Apart(DayRows(weekday, ivs))
    ensures forall r :: r in DayRows(weekday, ivs) ==> r.weekday == weekday && OfDay(r)
  {
    DayRowsAt(weekday, ivs);
  }

  lemma WeekValid(days: seq<SpanDay>)
    requires ValidHours(days)
    ensures ValidWeek(Week(days))
  {
  }

  /** A row is among the ordered rows exactly if its own weekday has it. */
  lemma {:induction false} OrderedMembers(week: seq<seq<Span>>, n: nat, r: HourRow)
    requires n <= |week|
    ensures r in OrderedRows(week, n) <==> 0 <= r.weekday < n && r in DayRows(r.weekday, week[r.weekday])
    decreases n
  {
    if n > 0 {
      OrderedMembers(week, n - 1, r);
      var today := DayRows(n - 1, week[n - 1]);
      DayRowsWeekday(n - 1, week[n - 1], r);
      assert r in OrderedRows(week, n - 1) + today <==> r in OrderedRows(week, n - 1) || r in today;
    }
  }

  lemma OrderedBound(week: seq<seq<Span>>, n: nat)
    requires n <= |week| && ValidWeek(week)
    ensures forall i :: 0 <= i < |OrderedRows(week, n)| ==>
      OfDay(OrderedRows(week, n)[i]) && OrderedRows(week, n)[i].weekday < n
  {
    var rows := OrderedRows(week, n);
    forall i | 0 <= i < |rows|
      ensures OfDay(rows[i]) && rows[i].weekday < n
    {
      OrderedMembers(week, n, rows[i]);
      DayRowsSorted(rows[i].weekday, week[rows[i].weekday]);
    }
  }

  lemma OrderedSorted(week: seq<seq<Span>>, n: nat)
    requires n <= |week| && ValidWeek(week)
    ensures Sorted(OrderedRows(week, n))
  {
    for w := 0 to n
      invariant Sorted(OrderedRows(week, w))
    {
      OrderedBound(week, w);
      SortedJoin(OrderedRows(week, w), w, week[w]);
    }
  }

  lemma SortedJoin(a: seq<HourRow>, w: int, ivs: seq<Span>)
    requires Sorted(a) && Valid(ivs)
    requires forall i :: 0 <= i < |a| ==> a[i].weekday < w
    ensures Sorted(a + DayRows(w, ivs))
  {
    DayRowsAt(w, ivs);
  }

  lemma {:induction false} AllRowsMembers(days: seq<SpanDay>, r: HourRow)
    ensures r in AllRows(days) <==> exists i :: 0 <= i < |days| && r in DayRows(days[i].weekday, days[i].spans)
  {
    if days != [] {
      AllRowsMembers(days[..|days| - 1], r);
    }
  }

  /** The row holds the weekday and the two times of the j-th interval of the i-th day. */
  ghost predicate IsInterval(x: HourRow, days: seq<SpanDay>, i: int, j: int) {
    && 0 <= i < |days| && 0 <= j < |days[i].spans|
    && x.weekday == days[i].weekday && x.start == days[i].spans[j].s && x.end == days[i].spans[j].e
  }

  lemma RowsAreIntervals(days: seq<SpanDay>, x: HourRow)
    ensures x in AllRows(days) <==> exists i, j :: IsInterval(x, days, i, j)
  {
    AllRowsMembers(days, x);
    if x in AllRows(days) {
      var i :| 0 <= i < |days| && x in DayRows(days[i].weekday, days[i].spans);
      DayRowsAt(days[i].weekday, days[i].spans);
      var j :| 0 <= j < |DayRows(days[i].weekday, days[i].spans)| && DayRows(days[i].weekday, days[i].spans)[j] == x;
      assert IsInterval(x, days, i, j);
    }
    if i, j :| IsInterval(x, days, i, j) {
      DayRowsAt(days[i].weekday, days[i].spans);
      assert DayRows(days[i].weekday, days[i].spans)[j] == x;
    }
  }

  /** Two entries for one weekday whose p-th and q-th intervals overlap. */
  ghost predicate Overlapping(a: SpanDay, b: SpanDay, p: int, q: int) {
    && a.weekday == b.weekday && 0 <= p < |a.spans| && 0 <= q < |b.spans|
    && a.spans[p].s < b.spans[q].e && b.spans[q].s < a.spans[p].e
  }

  ghost predicate SentTwice(days: seq<SpanDay>) {
    exists i, j, p, q :: 0 <= i < j < |days| && Overlapping(days[i], days[j], p, q)
  }

  /** Where the p-th interval of the i-th day is among all rows. */
  lemma RowAt(days: seq<SpanDay>, i: nat, p: nat) returns (x: nat)
    requires i < |days| && p < |days[i].spans|
    ensures x == |AllRows(days[..i])| + p && |AllRows(days[..i + 1])| == |AllRows(days[..i])| + |days[i].spans|
    ensures x < |AllRows(days)| && AllRows(days)[x] == RowOf(days[i].weekday, days[i].spans[p])
  {
    x := |AllRows(days[..i])| + p;
    assert days[..i + 1][..i] == days[..i];
    DayRowsAt(days[i].weekday, days[i].spans);
    AllRowsPrefix(days, i + 1);
    assert AllRows(days[..i + 1])[x] == RowOf(days[i].weekday, days[i].spans[p]);
  }

  /** Valid hours collide in the store exactly when two entries for one weekday overlap. */
  lemma CollisionIff(days: seq<SpanDay>)
    requires ValidHours(days)
    ensures Apart(AllRows(days)) <==> !SentTwice(days)
  {
    if i, j, p, q :| 0 <= i < j < |days| && Overlapping(days[i], days[j], p, q) {
      var x := RowAt(days, i, p);
      var y := RowAt(days, j, q);
      assert days[..j][..i + 1] == days[..i + 1];
      AllRowsPrefix(days[..j], i + 1);
      assert x < y && Collide(AllRows(days)[x], AllRows(days)[y]);
    } else {
      ApartUnlessTwice(days);
    }
  }

  lemma {:induction false} ApartUnlessTwice(days: seq<SpanDay>)
    requires ValidHours(days) && !SentTwice(days)
    ensures Apart(AllRows(days))
    decreases |days|
  {
    if days != [] {
      var n := |days| - 1;
      var front, last := days[..n], days[n];
      forall i, j, p, q | 0 <= i < j < n
        ensures !Overlapping(front[i], front[j], p, q)
      {
        assert front[i] == days[i] && front[j] == days[j];
      }
      ApartUnlessTwice(front);
      DayRowsSorted(last.weekday, last.spans);
      DayRowsAt(last.weekday, last.spans);
      forall x, q | 0 <= x < |AllRows(front)| && 0 <= q < |last.spans|
        ensures !Collide(AllRows(front)[x], RowOf(last.weekday, last.spans[q]))
      {
        RowsAreIntervals(front, AllRows(front)[x]);
        var i, p :| IsInterval(AllRows(front)[x], front, i, p);
        assert front[i] == days[i];
        assert !Overlapping(days[i], days[n], p, q);
      }
    }
  }

  lemma DistinctDaysApart(days: seq<SpanDay>)
    requires ValidHours(days) && Distinct(days)
    ensures Apart(AllRows(days))
  {
    CollisionIff(days);
  }

  lemma SameRows(days: seq<SpanDay>)
    requires ValidHours(days) && Distinct(days)
    ensures Elements(OrderedRows(Week(days), 7)) == Elements(AllRows(days))
  {
    forall r
      ensures r in OrderedRows(Week(days), 7) <==> r in AllRows(days)
    {
      OrderedMembers(Week(days), 7, r);
      AllRowsOfWeekday(days, r);
    }
  }

  lemma AllRowsOfWeekday(days: seq<SpanDay>, r: HourRow)
    requires ValidHours(days) && Distinct(days)
    ensures r in AllRows(days) <==> 0 <= r.weekday < 7 && r in DayRows(r.weekday, DayOf(days, r.weekday))
  {
    AllRowsMembers(days, r);
    if r in AllRows(days) {
      var i :| 0 <= i < |days| && r in DayRows(days[i].weekday, days[i].spans);
      DayRowsSorted(days[i].weekday, days[i].spans);
      IndexUnique(days, r.weekday, i);
    }
    if r in DayRows(r.weekday, DayOf(days, r.weekday)) {
      var i := IndexOf(days, r.weekday);
      assert r in DayRows(days[i].weekday, days[i].spans);
    }
  }

  lemma {:induction false} UnseenWeekday(rows: seq<HourRow>, w: int)
    requires forall i :: 0 <= i < |rows| ==> rows[i].weekday != w
    ensures IndexOf(Group(rows), w) == |Group(rows)|
  {
    if rows != [] {
      UnseenWeekday(rows[..|rows| - 1], w);
      AddRowIndex(Group(rows[..|rows| - 1]), rows[|rows| - 1], w);
    }
  }

  /** A further row of the last day joins it. */
  lemma AddToLast(before: seq<SpanDay>, w: int, front: seq<Span>, sp: Span)
    requires IndexOf(before, w) == |before|
    ensures AddRow(if front == [] then
      before else before + [SpanDay(w, front)], RowOf(w, sp)) == before + [SpanDay(w, front + [sp])]
  {
    assert front == [] ==> front + [sp] == [sp];
    IndexUnique(before + [SpanDay(w, front)], w, |before|);
  }

  /** Grouping one more weekday's rows appends exactly one day, or none if it has no row. */
  lemma {:induction false} GroupDay(rows: seq<HourRow>, w: int, ivs: seq<Span>)
    requires IndexOf(Group(rows), w) == |Group(rows)|
    ensures Group(rows + DayRows(w, ivs)) == if ivs == [] then Group(rows) else Group(rows) + [SpanDay(w, ivs)]
  {
    if ivs == [] {
      assert rows + [] == rows;
    } else {
      var front, sp := ivs[..|ivs| - 1], ivs[|ivs| - 1];
      var before := Group(rows);
      calc {
        Group(rows + DayRows(w, ivs));
        { assert rows + DayRows(w, ivs) == rows + DayRows(w, front) + [RowOf(w, sp)]; }
        Group(rows + DayRows(w, front) + [RowOf(w, sp)]);
        { GroupStep(rows + DayRows(w, front), RowOf(w, sp)); }
        AddRow(Group(rows + DayRows(w, front)), RowOf(w, sp));
        { GroupDay(rows, w, front); }
        AddRow(if front == [] then before else before + [SpanDay(w, front)], RowOf(w, sp));
        { AddToLast(before, w, front, sp); }
        before + [SpanDay(w, front + [sp])];
        { assert front + [sp] == ivs; }
        before + [SpanDay(w, ivs)];
      }
    }
  }

  lemma GroupStep(rows: seq<HourRow>, r: HourRow)
    ensures Group(rows + [r]) == AddRow(Group(rows), r)
  {
  }

  /** The grouped days are the non-empty weekdays before n, once each, ascending, with their intervals. */
  ghost predicate ReadsBack(out: seq<SpanDay>, week: seq<seq<Span>>, n: nat)
    requires n <= |week|
  {
    && (forall i :: 0 <= i < |out| ==> 0 <= out[i].weekday < n && out[i].spans != [])
    && (forall i, j :: 0 <= i < j < |out| ==> out[i].weekday < out[j].weekday)
    && (forall w :: 0 <= w < n ==> DayOf(out, w) == week[w])
  }

  /** The non-empty weekdays before n. */
  function Packed(week: seq<seq<Span>>, n: nat): seq<SpanDay>
    requires n <= |week|
  {
    if n == 0 then []
    else if week[n - 1] == [] then Packed(week, n - 1)
    else Packed(week, n - 1) + [SpanDay(n - 1, week[n - 1])]
  }

  /** Grouping the ordered rows gives just these. */
  lemma GroupIsPacked(week: seq<seq<Span>>, n: nat)
    requires n <= |week| && ValidWeek(week)
    ensures Group(OrderedRows(week, n)) == Packed(week, n)
  {
    for w := 0 to n
      invariant Group(OrderedRows(week, w)) == Packed(week, w)
    {
      NextDayUnseen(week, w);
      GroupDay(OrderedRows(week, w), w, week[w]);
    }
  }

  lemma NextDayUnseen(week: seq<seq<Span>>, w: nat)
    requires w < |week| && ValidWeek(week)
    ensures IndexOf(Group(OrderedRows(week, w)), w) == |Group(OrderedRows(week, w))|
  {
    OrderedBound(week, w);
    UnseenWeekday(OrderedRows(week, w), w);
  }

  lemma PackedReadsBack(week: seq<seq<Span>>, n: nat)
    requires n <= |week|
    ensures ReadsBack(Packed(week, n), week, n)
  {
    for w := 0 to n
      invariant ReadsBack(Packed(week, w), week, w)
    {
      PackedOneMore(week, w);
    }
  }

  lemma PackedOneMore(week: seq<seq<Span>>, w: nat)
    requires w < |week| && ReadsBack(Packed(week, w), week, w)
    ensures ReadsBack(Packed(week, w + 1), week, w + 1)
  {
    var before := Packed(week, w);
    IndexUnique(before, w, |before|);
    ReadOneMore(before, week, w);
  }

  lemma ReadOneMore(before: seq<SpanDay>, week: seq<seq<Span>>, w: nat)
    requires w < |week| && ReadsBack(before, week, w) && IndexOf(before, w) == |before|
    ensures ReadsBack(if week[w] == [] then before else before + [SpanDay(w, week[w])], week, w + 1)
  {
    var after := if week[w] == [] then before else before + [SpanDay(w, week[w])];
    forall d | 0 <= d < w + 1
      ensures DayOf(after, d) == week[d]
    {
      if d < w { assert DayOf(before, d) == week[d]; }
      PrefixIndex(before, after, d);
    }
  }

  lemma PrefixIndex(before: seq<SpanDay>, after: seq<SpanDay>, d: int)
    requires before <= after && |after| <= |before| + 1
    ensures IndexOf(before, d) < |before| ==> IndexOf(after, d) == IndexOf(before, d)
    ensures IndexOf(before, d) == |before| < |after| && after[|before|].weekday == d ==> IndexOf(after, d) == |before|
    ensures IndexOf(before, d) == |before| && (|after| == |before| || after[|before|].weekday != d) ==>
      IndexOf(after, d) == |after|
  {
    var i := IndexOf(before, d);
    IndexUnique(after, d, if i == |before| < |after| && after[i].weekday != d then |after| else i);
  }

  /** Valid hours with distinct weekdays are stored, and the ordered query grouped again gives every non-empty
      weekday once, ascending, with the same intervals in minutes and in order. */
  lemma HoursSurviveStore(days: seq<SpanDay>, rows: seq<HourRow>)
    requires ValidHours(days) && Distinct(days)
    requires Listing(rows, Elements(AllRows(days)))
    ensures Apart(AllRows(days))
    ensures forall i :: 0 <= i < |rows| ==> OfDay(rows[i])
    ensures ReadsBack(Group(rows), Week(days), 7)
  {
    var week := Week(days);
    DistinctDaysApart(days);
    SameRows(days);
    WeekValid(days);
    OrderedSorted(week, 7);
    SortedUnique(rows, OrderedRows(week, 7));
    OrderedBound(week, 7);
    GroupIsPacked(week, 7);
    PackedReadsBack(week, 7);
  }

  // ---------------------------------------------------------------- the windows of one date

  datatype Override = Override(customHours: bool, intervals: seq<Interval>)

  /** An override replaces the weekly hours; anything but custom hours closes the day. */
  function Chosen(hours: seq<Day>, over: Option<Override>, weekday: int): seq<Span> {
    match over
    case Some(o) => if o.customHours then Spans(o.intervals) else []
    case None => DayOf(SpanDays(hours), weekday)
  }

  function WindowOf(base: int, sp: Span): Slot {
    Slot(base + sp.s * Appointments.MINUTE, base + sp.e * Appointments.MINUTE)
  }

  function Windows(base: int, sps: seq<Span>): seq<Slot> {
    if sps == [] then []
    else
      var sp := sps[|sps| - 1];
      Windows(base, sps[..|sps| - 1])
      + if sp.s >= 0 && sp.e >= 0 then [WindowOf(base, sp)] else []
  }

  /** The first day of the weekday, as the loop with `break` finds it. */
  method DayIntervals(hours: seq<Day>, weekday: int) returns (ivs: seq<Interval>)
    ensures Spans(ivs) == DayOf(SpanDays(hours), weekday)
    ensures forall d :: IsFirst(hours, weekday, d) ==> ivs == hours[d].intervals
    ensures (forall d :: 0 <= d < |hours| ==> hours[d].weekday != weekday) ==> ivs == []
  {
    for i := 0 to |hours|
      invariant forall j :: 0 <= j < i ==> hours[j].weekday != weekday
    {
      if hours[i].weekday == weekday {
        IndexUnique(SpanDays(hours), weekday, i);
        return hours[i].intervals;
      }
    }
    IndexUnique(SpanDays(hours), weekday, |hours|);
    ivs := [];
  }

  method IntervalsForDate(hours: seq<Day>, over: Option<Override>, weekday: int, base: int) returns (out: seq<Slot>)
    ensures out == Windows(base, Chosen(hours, over, weekday))
    ensures over.Some? ==>
              if over.value.customHours then WindowsOf(out, base, Spans(over.value.intervals)) else out == []
    ensures over.None? && (forall d :: 0 <= d < |hours| ==> hours[d].weekday != weekday) ==> out == []
    ensures over.None? ==> forall d :: IsFirst(hours, weekday, d) ==> WindowsOf(out, base, Spans(hours[d].intervals))
  {
    var ivs: seq<Interval> := [];
    if over.Some? {
      if !over.value.customHours {
        return [];
      }
      ivs := over.value.intervals;
    } else {
      ivs := DayIntervals(hours, weekday);
    }
    out := ToWindows(base, ivs);
    WindowsAreRight(base, Spans(ivs));
  }

  /** Day d is the first of the list with the weekday. */
  ghost predicate IsFirst(hours: seq<Day>, weekday: int, d: int) {
    0 <= d < |hours| && hours[d].weekday == weekday && forall c :: 0 <= c < d ==> hours[c].weekday != weekday
  }

  /** The spans whose two ends can be read as times of day, in order. */
  function Readable(sps: seq<Span>): (r: seq<Span>)
    ensures forall x :: x in r <==> x in sps && x.s >= 0 && x.e >= 0
    ensures (forall x :: x in sps ==> x.s >= 0 && x.e >= 0) ==> r == sps
  {
    if sps == [] then []
    else
      var front, last := sps[..|sps| - 1], sps[|sps| - 1];
      assert sps == front + [last];
      if last.s >= 0 && last.e >= 0 then Readable(front) + [last] else Readable(front)
  }

  /** The window of a span: its two ends in minutes after the base. */
  ghost predicate IsWindow(x: Slot, base: int, sp: Span) {
    x.start == base + sp.s * 60_000_000_000 && x.end == base + sp.e * 60_000_000_000
  }

  /** The windows are those of the spans that can be read, in their order. */
  ghost predicate WindowsOf(out: seq<Slot>, base: int, sps: seq<Span>) {
    && |out| == |Readable(sps)|
    && forall j :: 0 <= j < |out| ==> IsWindow(out[j], base, Readable(sps)[j])
  }

  lemma {:induction false} WindowsAreRight(base: int, sps: seq<Span>)
    ensures WindowsOf(Windows(base, sps), base, sps)
    decreases |sps|
  {
    if sps != [] {
      WindowsAreRight(base, sps[..|sps| - 1]);
    }
  }

  method ToWindows(base: int, ivs: seq<Interval>) returns (out: seq<Slot>)
    ensures out == Windows(base, Spans(ivs))
  {
    ghost var sps := Spans(ivs);
    out := [];
    for i := 0 to |ivs|
      invariant out == Windows(base, sps[..i])
    {
      assert sps[..i + 1][..i] == sps[..i];
      var sp := Parse(ivs[i]);
      assert sp == sps[..i + 1][i];
      if sp.s >= 0 && sp.e >= 0 {
        out := out + [WindowOf(base, sp)];
      }
    }
    assert sps[..|ivs|] == sps;
  }

  lemma {:induction false} WindowsAt(base: int, sps: seq<Span>)
    requires Valid(sps)
    ensures |Windows(base, sps)| == |sps|
    ensures forall i :: 0 <= i < |sps| ==> Windows(base, sps)[i] == WindowOf(base, sps[i])
  {
    if sps != [] {
      var front, sp := sps[..|sps| - 1], sps[|sps| - 1];
      WindowsAt(base, front);
      assert Windows(base, sps) == Windows(base, front) + [WindowOf(base, sp)];
    }
  }

  ghost predicate OfOneDay(sps: seq<Span>) {
    forall i :: 0 <= i < |sps| ==> sps[i].s < 1440 && sps[i].e < 1440
  }

  /** Whatever hours and override say, what is parsed from them lies within one day. */
  lemma ChosenOfOneDay(hours: seq<Day>, over: Option<Override>, weekday: int)
    ensures OfOneDay(Chosen(hours, over, weekday))
  {
    var sps := Chosen(hours, over, weekday);
    var days := SpanDays(hours);
    var i := IndexOf(days, weekday);
    var ivs := if over.Some? then over.value.intervals else if i < |hours| then hours[i].intervals else [];
    forall j | 0 <= j < |sps|
      ensures sps[j].s < 1440 && sps[j].e < 1440
    {
      assert sps[j] == Parse(ivs[j]);
      SpanBounds(ivs[j]);
    }
  }

  /** So its windows lie inside the 24 hours after local midnight, valid or not. */
  lemma {:induction false} WindowsOfOneDay(base: int, sps: seq<Span>)
    requires OfOneDay(sps)
    ensures forall i :: 0 <= i < |Windows(base, sps)| ==>
      base <= Windows(base, sps)[i].start && Windows(base, sps)[i].end < base + 1440 * Appointments.MINUTE
  {
    if sps != [] {
      WindowsOfOneDay(base, sps[..|sps| - 1]);
    }
  }

  /** Valid hours become valid windows inside the 24 hours after local midnight. */
  lemma WindowsValid(base: int, sps: seq<Span>)
    requires Valid(sps)
    ensures ValidWindows(Windows(base, sps))
    ensures forall i :: 0 <= i < |Windows(base, sps)| ==>
      base <= Windows(base, sps)[i].start && Windows(base, sps)[i].end < base + 1440 * Appointments.MINUTE
  {
    WindowsAt(base, sps);
  }

  /** From the request to the windows: valid hours with distinct weekdays, stored, listed by the ordered query and
      grouped again as `Hours` does, give for each weekday exactly the intervals that were sent for it, as valid
      windows. */
  lemma StoredHoursGiveWindows(input: seq<Day>, rows: seq<HourRow>, out: seq<Day>, weekday: int, base: int)
    requires ValidHours(SpanDays(input)) && Distinct(SpanDays(input)) && 0 <= weekday < 7
    requires Listing(rows, Elements(AllRows(SpanDays(input)))) && SpanDays(out) == Group(rows)
    ensures Chosen(out, None, weekday) == DayOf(SpanDays(input), weekday)
    ensures ValidWindows(Windows(base, Chosen(out, None, weekday)))
  {
    HoursSurviveStore(SpanDays(input), rows);
    WeekValid(SpanDays(input));
    assert DayOf(Group(rows), weekday) == Week(SpanDays(input))[weekday];
    WindowsValid(base, Chosen(out, None, weekday));
  }
}
