/**
 Scheduling-service and appointment-service together: what Availability offers is exactly what the exclusion
 guard of the appointment store accepts, and when offered slots also respect every blocked period.
 */
module Bookable {
  import opened Wrappers
  import opened Appointments
  import opened Availability
  import Hours = WorkingHours
  import Runs = AppointmentRuns

  const DAY: int := 1440 * MINUTE

  // ---------------------------------------------------------------- the configured step

  const MAX_INT: int := 0x7FFF_FFFF_FFFF_FFFF

  predicate AllDigits(v: string) {
    v != "" && forall i :: 0 <= i < |v| ==> Hours.IsDigit(v[i])
  }

  function Value(v: string): nat
    requires forall i :: 0 <= i < |v| ==> Hours.IsDigit(v[i])
  {
    if v == "" then 0 else 10 * Value(v[..|v| - 1]) + Hours.Digit(v[|v| - 1])
  }

  /** Go's Atoi: an optional sign and decimal digits, within 64 bits. */
  function Atoi(v: string): Option<int> {
    var signed := v != "" && (v[0] == '+' || v[0] == '-');
    var digits := if signed then v[1..] else v;
    if !AllDigits(digits) then None
    else
      var m: int := Value(digits);
      var n := if signed && v[0] == '-' then -m else m;
      if -MAX_INT - 1 <= n <= MAX_INT then Some(n) else None
  }

  /** The fallback step: at least one minute whatever the environment holds. */
  function Interval(v: string): (step: int)
    ensures step >= 1 && (step == 15 || Atoi(v) == Some(step))
  {
    var n := Atoi(v);
    if n.None? || n.value < 1 then 15 else n.value
  }

  function Decimal(n: nat): string {
    if n < 10 then [Hours.Char(n)] else Decimal(n / 10) + [Hours.Char(n % 10)]
  }

  lemma {:induction false} DecimalValue(n: nat)
    ensures AllDigits(Decimal(n)) && Value(Decimal(n)) == n
  {
    var v := Decimal(n);
    if n < 10 {
      assert v[..0] == "";
    } else {
      DecimalValue(n / 10);
      assert v[..|v| - 1] == Decimal(n / 10);
    }
  }

  /** A number written out is the step itself, unless it is zero or does not fit. */
  lemma IntervalOfNumber(n: nat)
    ensures Interval(Decimal(n)) == if 1 <= n <= MAX_INT then n else 15
  {
    DecimalValue(n);
    assert Hours.IsDigit(Decimal(n)[0]);
  }

  /** The same with a sign: a plus is ignored, a negative number is no step. */
  lemma IntervalOfSigned(n: nat)
    ensures Interval("+" + Decimal(n)) == if 1 <= n <= MAX_INT then n else 15
    ensures Interval("-" + Decimal(n)) == 15
  {
    DecimalValue(n);
    assert ("+" + Decimal(n))[1..] == Decimal(n) && ("-" + Decimal(n))[1..] == Decimal(n);
  }

  // ---------------------------------------------------------------- one query

  /** The rows of the occupancy endpoint as the scheduling client keeps them: empty ranges are dropped. */
  method Occupied(rows: seq<Row>) returns (out: seq<Slot>)
    ensures forall i :: 0 <= i < |rows| && rows[i].occStart < rows[i].occEnd ==>
      Slot(rows[i].occStart, rows[i].occEnd) in out
    ensures forall x :: x in out ==>
      x.start < x.end && exists i :: 0 <= i < |rows| && x == Slot(rows[i].occStart, rows[i].occEnd)
  {
    out := [];
    for n := 0 to |rows|
      invariant forall i :: 0 <= i < n && rows[i].occStart < rows[i].occEnd ==>
        Slot(rows[i].occStart, rows[i].occEnd) in out
      invariant forall x :: x in out ==>
        x.start < x.end && exists i :: 0 <= i < |rows| && x == Slot(rows[i].occStart, rows[i].occEnd)
    {
      if rows[n].occStart < rows[n].occEnd {
        out := out + [Slot(rows[n].occStart, rows[n].occEnd)];
      }
    }
  }

  /** `occ` is the barber's live occupancy as fetched for [from, to): nothing missing, nothing invented. */
  ghost predicate Fetches(
      occ: seq<Slot>, rows: map<Uuid, Row>, tenant: Uuid, barber: Uuid, from: Instant, to: Instant)
  {
    && (forall k :: k in rows && Occupies(rows[k], tenant, barber, from, to) && rows[k].occStart < rows[k].occEnd ==>
          Slot(rows[k].occStart, rows[k].occEnd) in occ)
    && (forall x :: x in occ ==>
          exists k ::
            k in rows && Occupies(rows[k], tenant, barber, from, to) && x == Slot(rows[k].occStart, rows[k].occEnd))
  }

  predicate Fetched(x: Slot, midnight: Instant, next: Instant) {
    x.start < next && x.end > midnight
  }

  /** Day fetches the blocked periods that meet one local day, from its midnight to the next. */
  function DayBlocks(blocks: seq<Slot>, midnight: Instant, next: Instant): seq<Slot> {
    if blocks == [] then []
    else
      DayBlocks(blocks[..|blocks| - 1], midnight, next)
      + (if Fetched(blocks[|blocks| - 1], midnight, next) then [blocks[|blocks| - 1]] else [])
  }

  /** The answer of one query: the offer over the windows of the date, the blocks of the local day and the live
      appointments fetched with a day of margin on both sides. */
  ghost predicate Answers(
      out: seq<Slot>, rows: map<Uuid, Row>, tenant: Uuid, barber: Uuid, spans: seq<Hours.Span>,
      midnight: Instant, next: Instant, blocks: seq<Slot>, svc: Service, step: int, now: Instant)
    requires step >= 1
  {
    exists occ ::
      && Fetches(occ, rows, tenant, barber, midnight - DAY, next + DAY)
      && out == Offer(Hours.Windows(midnight, spans), DayBlocks(blocks, midnight, next) + occ, svc, step, now)
  }

  /** In the store `d`, a booking of any of these slots, under a fresh id and key, succeeds exactly when the service
      takes time. */
  ghost predicate AllBookable(d: Db, out: seq<Slot>, tenant: Uuid, barber: Uuid, svc: Service) {
    forall id: Uuid, req: Request, k: KeyId, fp: string ::
      id !in d.rows && k !in d.keys && k.tenant == tenant && req.barber == barber && SlotAt(svc, req.start) in out ==>
        (CreateTx(d, id, req, Derive(req.start, svc), k, fp).1.Ok? <==> svc.duration > 0)
  }

  /** The slots are, in arithmetic, those of the suitable grid points of the date's windows, all of them and no
      others. */
  ghost predicate RightFor(
      out: seq<Slot>, rows: map<Uuid, Row>, tenant: Uuid, barber: Uuid, spans: seq<Hours.Span>,
      midnight: Instant, next: Instant, blocks: seq<Slot>, svc: Service, step: int, now: Instant)
  {
    exists occ ::
      && Fetches(occ, rows, tenant, barber, midnight - DAY, next + DAY)
      && RightSlots(out, Hours.Windows(midnight, spans), DayBlocks(blocks, midnight, next), occ, svc, step, now)
  }

  /** In arithmetic: no slot, with its buffers, meets a live appointment of the barber. */
  ghost predicate ClearOfStore(out: seq<Slot>, rows: map<Uuid, Row>, tenant: Uuid, barber: Uuid, svc: Service) {
    forall x, k ::
      x in out && k in rows && rows[k].tenant == tenant && rows[k].barber == barber
      && (rows[k].status == Pending || rows[k].status == Confirmed) && rows[k].occStart < rows[k].occEnd ==>
        || x.start + (svc.duration + svc.after) * 60_000_000_000 <= rows[k].occStart
        || rows[k].occEnd <= x.start - svc.before * 60_000_000_000
  }

  /** In arithmetic: no slot, with its buffers, meets a block that touches the local day. */
  ghost predicate ClearOfBlocks(out: seq<Slot>, blocks: seq<Slot>, midnight: Instant, next: Instant, svc: Service) {
    forall x, b :: x in out && b in blocks && b.start < next && midnight < b.end ==>
      || x.start + (svc.duration + svc.after) * 60_000_000_000 <= b.start
      || b.end <= x.start - svc.before * 60_000_000_000
  }

  /** The service occupies the barber for some time. */
  predicate TakesTime(svc: Service) {
    NonNegative(svc) && svc.before + svc.duration + svc.after > 0
  }

  /** Availability for one date; `midnight` and `next` are the local midnights that open and close it. Every slot it
      returns is bookable in the store it looked at, and valid hours give them in strictly ascending order. */
  method AvailabilityOf(
      repo: Repository, tenant: Uuid, barber: Uuid, hours: seq<Hours.Day>, over: Option<Hours.Override>, weekday: int,
      midnight: Instant, next: Instant, blocks: seq<Slot>, svc: Service, setting: int, fallback: int, now: Instant)
    returns (out: seq<Slot>)
    requires fallback >= 1
    requires forall k :: k in repo.rows ==> repo.rows[k].id == k
    ensures Answers(out, repo.rows, tenant, barber, Hours.Chosen(hours, over, weekday), midnight, next, blocks, svc,
                    Step(setting, fallback), now)
    ensures RightFor(out, repo.rows, tenant, barber, Hours.Chosen(hours, over, weekday), midnight, next, blocks, svc,
                     if setting < 1 then fallback else setting, now)
    ensures ClearOfBlocks(out, blocks, midnight, next, svc)
    ensures midnight <= next ==> ClearOfStore(out, repo.rows, tenant, barber, svc)
    ensures Runs.Valid(repo.State()) && NonNegative(svc) && midnight <= next ==>
              AllBookable(repo.State(), out, tenant, barber, svc)
    ensures Hours.Valid(Hours.Chosen(hours, over, weekday)) && TakesTime(svc) ==> Ascending(out)
  {
    var ws := Hours.IntervalsForDate(hours, over, weekday, midnight);
    var rows := repo.Occupancy(tenant, barber, midnight - DAY, next + DAY);
    var occupied := Occupied(rows);
    assert forall i :: 0 <= i < |rows| ==> rows[i].id in repo.rows && rows[i] == repo.rows[rows[i].id];
    assert Fetches(occupied, repo.rows, tenant, barber, midnight - DAY, next + DAY);
    out := Available(ws, DayBlocks(blocks, midnight, next), occupied, svc, Step(setting, fallback), now);
    ghost var step, spans := Step(setting, fallback), Hours.Chosen(hours, over, weekday);
    Hours.ChosenOfOneDay(hours, over, weekday);
    Hours.WindowsOfOneDay(midnight, spans);
    RightIsClear(out, ws, occupied, repo.rows, tenant, barber, midnight, next, blocks, svc, step, now);
    if Runs.Valid(repo.State()) && NonNegative(svc) && midnight <= next {
      AnswersAreBookable(repo.State(), out, tenant, barber, spans, midnight, next, blocks, svc, step, now);
    }
    if Hours.Valid(spans) && TakesTime(svc) {
      Hours.WindowsValid(midnight, spans);
      OfferAscends(ws, DayBlocks(blocks, midnight, next) + occupied, svc, step, now);
    }
  }

  // ---------------------------------------------------------------- offered means bookable

  /** Windows of one date: inside the 24 hours after its midnight. */
  predicate OfDate(ws: seq<Slot>, midnight: Instant) {
    forall i :: 0 <= i < |ws| ==> midnight <= ws[i].start && ws[i].end < midnight + DAY
  }

  /** The fetched range reaches every row a slot of the date could clash with, so `Fits` and the guard agree. */
  lemma GuardSeesTheSame(
      d: Db, tenant: Uuid, occ: seq<Slot>, svc: Service, s: Instant, id: Uuid, req: Request, midnight: Instant,
      next: Instant)
    requires Runs.Valid(d) && id !in d.rows && NonNegative(svc) && midnight <= next
    requires midnight <= s - svc.before * MINUTE && s + Tail(svc) < midnight + DAY
    requires Fetches(occ, d.rows, tenant, req.barber, midnight - DAY, next + DAY)
    ensures Excluded(d.rows, NewRow(id, tenant, req, Derive(s, svc))) <==>
      exists i :: 0 <= i < |occ| && Meets(svc, s, occ[i])
  {
    var r := NewRow(id, tenant, req, Derive(s, svc));
    if Excluded(d.rows, r) {
      var k :| k in d.rows && Clash(d.rows[k], r);
      assert Checked(d.rows[k]) && Occupies(d.rows[k], tenant, req.barber, midnight - DAY, next + DAY);
      var x := Slot(d.rows[k].occStart, d.rows[k].occEnd);
      assert x in occ && Meets(svc, s, x);
    }
    if exists i :: 0 <= i < |occ| && Meets(svc, s, occ[i]) {
      var i :| 0 <= i < |occ| && Meets(svc, s, occ[i]);
      assert occ[i] in occ;
      var k :| && k in d.rows && Occupies(d.rows[k], tenant, req.barber, midnight - DAY, next + DAY)
               && occ[i] == Slot(d.rows[k].occStart, d.rows[k].occEnd);
      assert Clash(d.rows[k], r);
    }
  }

  lemma BusySplit(svc: Service, s: Instant, blocked: seq<Slot>, occ: seq<Slot>)
    ensures (forall i :: 0 <= i < |blocked + occ| ==> !Meets(svc, s, (blocked + occ)[i])) <==>
      (forall i :: 0 <= i < |blocked| ==> !Meets(svc, s, blocked[i])) && (forall i :: 0 <= i < |occ| ==>
        !Meets(svc, s, occ[i]))
  {
    assert forall i :: 0 <= i < |blocked| ==> (blocked + occ)[i] == blocked[i];
    assert forall i :: 0 <= i < |occ| ==> (blocked + occ)[|blocked| + i] == occ[i];
  }

  /** Every offered start is accepted by the store, as long as the appointments have not changed, exactly when
      the service takes time: the catalog admits a duration of zero, the appointments table does not. */
  lemma OfferedIsBookable(
      d: Db, ws: seq<Slot>, blocked: seq<Slot>, occ: seq<Slot>, svc: Service, step: int, now: Instant,
      midnight: Instant, next: Instant, x: Slot, id: Uuid, req: Request, k: KeyId, fp: string)
    requires Runs.Valid(d) && id !in d.rows && k !in d.keys
    requires NonNegative(svc) && step >= 1 && midnight <= next && OfDate(ws, midnight)
    requires Fetches(occ, d.rows, k.tenant, req.barber, midnight - DAY, next + DAY)
    requires x in Offer(ws, blocked + occ, svc, step, now) && req.start == x.start
    ensures CreateTx(d, id, req, Derive(req.start, svc), k, fp).1.Ok? <==> svc.duration > 0
  {
    OfferMeaning(ws, blocked + occ, svc, step, now, x);
    var i, n: nat :| 0 <= i < |ws| && Offered(ws[i], blocked + occ, svc, step, now, n, x.start);
    BusySplit(svc, x.start, blocked, occ);
    GuardSeesTheSame(d, k.tenant, occ, svc, x.start, id, req, midnight, next);
  }

  /** Right slots of one date are clear of everything live in the store and of every block of the day. */
  lemma RightIsClear(
      out: seq<Slot>, ws: seq<Slot>, occ: seq<Slot>, rows: map<Uuid, Row>, tenant: Uuid, barber: Uuid,
      midnight: Instant, next: Instant, blocks: seq<Slot>, svc: Service, step: int, now: Instant)
    requires OfDate(ws, midnight) && Fetches(occ, rows, tenant, barber, midnight - DAY, next + DAY)
    requires RightSlots(out, ws, DayBlocks(blocks, midnight, next), occ, svc, step, now)
    ensures ClearOfBlocks(out, blocks, midnight, next, svc)
    ensures midnight <= next ==> ClearOfStore(out, rows, tenant, barber, svc)
  {
    var blocked := DayBlocks(blocks, midnight, next);
    forall x, b | x in out && b in blocks && b.start < next && midnight < b.end
      ensures || x.start + (svc.duration + svc.after) * 60_000_000_000 <= b.start
              || b.end <= x.start - svc.before * 60_000_000_000
    {
      DayBlocksMembers(blocks, midnight, next, b);
      var i, n: nat :|
        0 <= i < |ws| && OnGrid(ws[i], step, n, x.start) && Suits(ws[i], blocked, occ, svc, now, x.start);
    }
    forall x, k |
      x in out && k in rows && rows[k].tenant == tenant && rows[k].barber == barber && midnight <= next
      && (rows[k].status == Pending || rows[k].status == Confirmed) && rows[k].occStart < rows[k].occEnd
      ensures || x.start + (svc.duration + svc.after) * 60_000_000_000 <= rows[k].occStart
              || rows[k].occEnd <= x.start - svc.before * 60_000_000_000
    {
      var i, n: nat :|
        0 <= i < |ws| && OnGrid(ws[i], step, n, x.start) && Suits(ws[i], blocked, occ, svc, now, x.start);
      if Occupies(rows[k], tenant, barber, midnight - DAY, next + DAY) {
        assert Slot(rows[k].occStart, rows[k].occEnd) in occ;
      }
    }
  }

  /** The answer of a whole query is bookable: its windows lie within a day of midnight, whatever the hours, and the
      margin covers every appointment that could clash. */
  lemma AnswersAreBookable(
      d: Db, out: seq<Slot>, tenant: Uuid, barber: Uuid, spans: seq<Hours.Span>,
      midnight: Instant, next: Instant, blocks: seq<Slot>, svc: Service, step: int, now: Instant)
    requires Runs.Valid(d) && NonNegative(svc) && midnight <= next && step >= 1 && Hours.OfOneDay(spans)
    requires Answers(out, d.rows, tenant, barber, spans, midnight, next, blocks, svc, step, now)
    ensures AllBookable(d, out, tenant, barber, svc)
  {
    var ws, blocked := Hours.Windows(midnight, spans), DayBlocks(blocks, midnight, next);
    var occ :| && Fetches(occ, d.rows, tenant, barber, midnight - DAY, next + DAY)
               && out == Offer(ws, blocked + occ, svc, step, now);
    Hours.WindowsOfOneDay(midnight, spans);
    forall id: Uuid, req: Request, k: KeyId, fp: string |
      id !in d.rows && k !in d.keys && k.tenant == tenant && req.barber == barber && SlotAt(svc, req.start) in out
      ensures CreateTx(d, id, req, Derive(req.start, svc), k, fp).1.Ok? <==> svc.duration > 0
    {
      var x := SlotAt(svc, req.start);
      OfferedIsBookable(d, ws, blocked, occ, svc, step, now, midnight, next, x, id, req, k, fp);
    }
  }

  /** Conversely a future grid start inside a window that meets no blocked period is offered exactly when the
      store would accept its insert. */
  lemma GuardAgreement(
      d: Db, ws: seq<Slot>, blocked: seq<Slot>, occ: seq<Slot>, svc: Service, step: int, now: Instant,
      midnight: Instant, next: Instant, w: nat, n: nat, s: Instant, id: Uuid, req: Request, k: KeyId, fp: string)
    requires Runs.Valid(d) && id !in d.rows && k !in d.keys
    requires NonNegative(svc) && svc.duration > 0 && step >= 1 && midnight <= next && OfDate(ws, midnight)
    requires Fetches(occ, d.rows, k.tenant, req.barber, midnight - DAY, next + DAY)
    requires w < |ws| && Offered(ws[w], blocked, svc, step, now, n, s) && req.start == s
    ensures SlotAt(svc, s) in Offer(ws, blocked + occ, svc, step, now)
      <==> CreateTx(d, id, req, Derive(s, svc), k, fp).1.Ok?
  {
    if SlotAt(svc, s) in Offer(ws, blocked + occ, svc, step, now) {
      OfferedIsBookable(d, ws, blocked, occ, svc, step, now, midnight, next, SlotAt(svc, s), id, req, k, fp);
    }
    if CreateTx(d, id, req, Derive(s, svc), k, fp).1.Ok? {
      GuardSeesTheSame(d, k.tenant, occ, svc, s, id, req, midnight, next);
      BusySplit(svc, s, blocked, occ);
      assert Offered(ws[w], blocked + occ, svc, step, now, n, s);
      OfferMeaning(ws, blocked + occ, svc, step, now, SlotAt(svc, s));
    }
  }

  // ---------------------------------------------------------------- rescheduling

  function Range(r: Row): Slot {
    Slot(r.occStart, r.occEnd)
  }

  function Moved(r: Row, t: Times): Row {
    r.(start := t.start, end := t.end, occStart := t.occStart, occEnd := t.occEnd)
  }

  /** The fetched occupancy holds the appointment's own row, which the guard ignores when it moves. */
  lemma MoveSeesTheSame(
      d: Db, occ: seq<Slot>, svc: Service, s: Instant, id: Uuid, midnight: Instant, next: Instant)
    requires Runs.Valid(d) && id in d.rows && Live(d.rows[id].status) && NonNegative(svc) && midnight <= next
    requires midnight <= s - svc.before * MINUTE && s + Tail(svc) < midnight + DAY
    requires Fetches(occ, d.rows, d.rows[id].tenant, d.rows[id].barber, midnight - DAY, next + DAY)
    ensures (exists i :: 0 <= i < |occ| && Meets(svc, s, occ[i])) <==>
            Excluded(d.rows, Moved(d.rows[id], Derive(s, svc))) || Meets(svc, s, Range(d.rows[id]))
  {
    var own := d.rows[id];
    var r := Moved(own, Derive(s, svc));
    if i :| 0 <= i < |occ| && Meets(svc, s, occ[i]) {
      assert occ[i] in occ;
      var k :| k in d.rows && Occupies(d.rows[k], own.tenant, own.barber, midnight - DAY, next + DAY)
               && occ[i] == Slot(d.rows[k].occStart, d.rows[k].occEnd);
      assert k != id ==> Clash(d.rows[k], r);
    }
    forall k | k in d.rows && (Clash(d.rows[k], r) || (k == id && Meets(svc, s, Range(own))))
      ensures Range(d.rows[k]) in occ && Meets(svc, s, Range(d.rows[k]))
    {
      assert Checked(d.rows[k]) && Occupies(d.rows[k], own.tenant, own.barber, midnight - DAY, next + DAY);
    }
  }

  /** A free grid start is offered for a move exactly when the store would accept the move and the new range does not
      meet the appointment's own present one: the advisory check is the stricter of the two. */
  lemma MoveAgreement(
      d: Db, ws: seq<Slot>, blocked: seq<Slot>, occ: seq<Slot>, svc: Service, step: int, now: Instant,
      midnight: Instant, next: Instant, w: nat, n: nat, s: Instant, id: Uuid)
    requires Runs.Valid(d) && id in d.rows && Live(d.rows[id].status)
    requires NonNegative(svc) && svc.duration > 0 && step >= 1 && midnight <= next && OfDate(ws, midnight)
    requires Fetches(occ, d.rows, d.rows[id].tenant, d.rows[id].barber, midnight - DAY, next + DAY)
    requires w < |ws| && Offered(ws[w], blocked, svc, step, now, n, s)
    ensures SlotAt(svc, s) in Offer(ws, blocked + occ, svc, step, now) <==>
            && RescheduleTx(d, d.rows[id].tenant, id, Derive(s, svc)).1.Ok?
            && !Meets(svc, s, Range(d.rows[id]))
  {
    MoveSeesTheSame(d, occ, svc, s, id, midnight, next);
    BusySplit(svc, s, blocked, occ);
    OfferMeaning(ws, blocked + occ, svc, step, now, SlotAt(svc, s));
    if forall i :: 0 <= i < |occ| ==> !Meets(svc, s, occ[i]) {
      assert Offered(ws[w], blocked + occ, svc, step, now, n, s);
    }
  }

  /** The store after one booking of an hour at 10:00. */
  function OneBooked(): Db {
    CreateTx(EMPTY, 1, Request(1, 1, 1, "", 600 * MINUTE), Derive(600 * MINUTE, Service(60, 0, 0)),
             KeyId(1, "", "", "k"), "").0
  }

  lemma OneBookedValid()
    ensures Runs.Valid(OneBooked()) && OneBooked().rows.Keys == {1}
    ensures var r := OneBooked().rows[1];
            r.tenant == 1 && r.barber == 1 && Live(r.status) && Range(r) == Slot(600 * MINUTE, 660 * MINUTE)
  {
    Runs.RunKeepsValid(EMPTY, []);
    Runs.CreateKeepsValid(EMPTY, 1, Request(1, 1, 1, "", 600 * MINUTE), Derive(600 * MINUTE, Service(60, 0, 0)),
                          KeyId(1, "", "", "k"), "");
  }

  /** Moving that booking to 10:30 is accepted by the store but not offered, because it meets its own old hour. */
  lemma MoveOverOwnRange(occ: seq<Slot>)
    requires Fetches(occ, OneBooked().rows, 1, 1, -DAY, DAY + DAY)
    ensures var svc := Service(60, 0, 0);
            && RescheduleTx(OneBooked(), 1, 1, Derive(630 * MINUTE, svc)).1.Ok?
            && SlotAt(svc, 630 * MINUTE) !in Offer([Slot(0, 1200 * MINUTE)], [] + occ, svc, 15, 0)
  {
    var svc, ws, s := Service(60, 0, 0), [Slot(0, 1200 * MINUTE)], 630 * MINUTE;
    OneBookedValid();
    assert Offered(ws[0], [], svc, 15, 0, 42, s);
    MoveAgreement(OneBooked(), ws, [], occ, svc, 15, 0, 0, DAY, 0, 42, s, 1);
  }

  // ---------------------------------------------------------------- blocked periods and short days

  ghost predicate Avoids(out: seq<Slot>, blocks: seq<Slot>, svc: Service) {
    forall x, b :: x in out && b in blocks ==> !Meets(svc, x.start, b)
  }

  lemma {:induction false} DayBlocksMembers(blocks: seq<Slot>, midnight: Instant, next: Instant, b: Slot)
    ensures b in DayBlocks(blocks, midnight, next) <==> b in blocks && Fetched(b, midnight, next)
  {
    if blocks != [] {
      DayBlocksMembers(blocks[..|blocks| - 1], midnight, next, b);
    }
  }

  /** More busy time never adds a slot, and a slot that meets none of the added time stays. */
  lemma OfferWithBlocks(
      ws: seq<Slot>, blocked: seq<Slot>, occ: seq<Slot>, svc: Service, step: int, now: Instant, x: Slot)
    requires step >= 1
    ensures x in Offer(ws, blocked + occ, svc, step, now) <==>
      x in Offer(ws, occ, svc, step, now) && forall b :: b in blocked ==> !Meets(svc, x.start, b)
  {
    OfferMeaning(ws, blocked + occ, svc, step, now, x);
    OfferMeaning(ws, occ, svc, step, now, x);
    BusySplit(svc, x.start, blocked, occ);
    if x in Offer(ws, blocked + occ, svc, step, now) {
      var i, n: nat :| 0 <= i < |ws| && Offered(ws[i], blocked + occ, svc, step, now, n, x.start);
      assert Offered(ws[i], occ, svc, step, now, n, x.start);
    }
    if x in Offer(ws, occ, svc, step, now) && forall b :: b in blocked ==> !Meets(svc, x.start, b) {
      var i, n: nat :| 0 <= i < |ws| && Offered(ws[i], occ, svc, step, now, n, x.start);
      assert forall j :: 0 <= j < |blocked| ==> blocked[j] in blocked;
      assert Offered(ws[i], blocked + occ, svc, step, now, n, x.start);
    }
  }

  /** Offered slots avoid every blocked period, whatever is blocked, if and only if no slot that the hours and the
      appointments leave free reaches past the next local midnight. A 23-hour day can break this. */
  lemma BlocksRespectedIff(
      ws: seq<Slot>, occ: seq<Slot>, svc: Service, step: int, now: Instant, midnight: Instant, next: Instant)
    requires step >= 1 && NonNegative(svc) && OfDate(ws, midnight)
    ensures (forall blocks :: Avoids(Offer(ws, DayBlocks(blocks, midnight, next) + occ, svc, step, now), blocks, svc))
      <==> (forall x :: x in Offer(ws, occ, svc, step, now) ==> x.start + Tail(svc) <= next)
  {
    var free := Offer(ws, occ, svc, step, now);
    if forall x :: x in free ==> x.start + Tail(svc) <= next {
      forall blocks, x, b | x in Offer(ws, DayBlocks(blocks, midnight, next) + occ, svc, step, now) && b in blocks
        ensures !Meets(svc, x.start, b)
      {
        OfferWithBlocks(ws, DayBlocks(blocks, midnight, next), occ, svc, step, now, x);
        DayBlocksMembers(blocks, midnight, next, b);
        OfferMeaning(ws, occ, svc, step, now, x);
      }
    } else {
      var x :| x in free && x.start + Tail(svc) > next;
      var b := Slot(next, x.start + Tail(svc) + 1);
      var blocks := [b];
      DayBlocksMembers(blocks, midnight, next, b);
      assert DayBlocks(blocks, midnight, next) == [] by {
        assert blocks[..0] == [];
      }
      assert [] + occ == occ;
      assert b in blocks && Meets(svc, x.start, b);
      assert !Avoids(Offer(ws, DayBlocks(blocks, midnight, next) + occ, svc, step, now), blocks, svc);
    }
  }

  /** So blocks are always respected when every window ends by the next midnight, and in particular on every day of
      24 hours or more. */
  lemma BlocksRespectedOnFullDays(
      ws: seq<Slot>, occ: seq<Slot>, svc: Service, step: int, now: Instant, midnight: Instant, next: Instant,
      blocks: seq<Slot>)
    requires step >= 1 && NonNegative(svc) && OfDate(ws, midnight)
    requires midnight + DAY <= next || forall i :: 0 <= i < |ws| ==> ws[i].end <= next
    ensures Avoids(Offer(ws, DayBlocks(blocks, midnight, next) + occ, svc, step, now), blocks, svc)
  {
    forall x | x in Offer(ws, occ, svc, step, now)
      ensures x.start + Tail(svc) <= next
    {
      OfferMeaning(ws, occ, svc, step, now, x);
    }
    BlocksRespectedIff(ws, occ, svc, step, now, midnight, next);
  }

  /** On a day of 23 hours with hours until 23:30, a booking at 22:45 of elapsed time is offered although 23:00
      to 24:00 of elapsed time is blocked: the block starts at the next midnight and is not fetched. */
  lemma ShortDayMissesBlock()
    ensures
      var ws, block := [Slot(0, 1410 * MINUTE)], Slot(1380 * MINUTE, 1440 * MINUTE);
      var svc, next := Service(30, 0, 0), 1380 * MINUTE;
      !Avoids(Offer(ws, DayBlocks([block], 0, next), svc, 15, 0), [block], svc)
  {
    var ws, block := [Slot(0, 1410 * MINUTE)], Slot(1380 * MINUTE, 1440 * MINUTE);
    var svc, next := Service(30, 0, 0), 1380 * MINUTE;
    assert [block][..0] == [] && DayBlocks([block], 0, next) == [];
    assert Offered(ws[0], [], svc, 15, 0, 91, 1365 * MINUTE);
    OfferMeaning(ws, [], svc, 15, 0, SlotAt(svc, 1365 * MINUTE));
    var x := SlotAt(svc, 1365 * MINUTE);
    assert x in Offer(ws, [], svc, 15, 0) && block in [block] && Meets(svc, x.start, block);
  }
}
