/**
 The appointment store of appointment-service: the tables `appointments`, `idempotency_keys`,
 `appointment_events` and `outbox_events`, and the transactions that change them.
 A transaction is one atomic step from a database value to a database value; the class `Repository`
 performs it statement by statement on the stored tables.
 */
module Appointments {

  type Uuid = nat

  /** Instants and durations are nanoseconds. */
  type Instant = int

  const MINUTE: int := 60_000_000_000

  datatype Status = Pending | Confirmed | Cancelled | Completed | NoShow

  predicate Live(s: Status) {
    s.Pending? || s.Confirmed?
  }

  /** The `transitions` table. */
  predicate Allowed(from: Status, to: Status) {
    match from
    case Pending => to.Confirmed? || to.Cancelled?
    case Confirmed => to.Cancelled? || to.Completed? || to.NoShow?
    case _ => false
  }

  datatype Row = Row(
    id: Uuid, tenant: Uuid, branch: Uuid, barber: Uuid, service: Uuid, contact: string,
    start: Instant, end: Instant, occStart: Instant, occEnd: Instant, status: Status)

  /** What a caller asks to book, and the catalog's times for the service (in minutes). */
  datatype Request = Request(branch: Uuid, barber: Uuid, service: Uuid, contact: string, start: Instant)
  datatype Service = Service(duration: int, before: int, after: int)
  datatype Times = Times(start: Instant, end: Instant, occStart: Instant, occEnd: Instant)

  /** The end and the occupied range are derived from the catalog, never taken from the caller. */
  function Derive(start: Instant, svc: Service): Times {
    var end := start + svc.duration * MINUTE;
    Times(start, end, start - svc.before * MINUTE, end + svc.after * MINUTE)
  }

  function NewRow(id: Uuid, tenant: Uuid, req: Request, t: Times): Row {
    Row(id, tenant, req.branch, req.barber, req.service, req.contact, t.start, t.end, t.occStart, t.occEnd, Pending)
  }

  datatype EventKind = EvCreated | EvRescheduled | EvConfirmed | EvCancelled | EvCompleted | EvNoShow
  datatype Payload = Payload(
    appointment: Uuid, branch: Uuid, barber: Uuid, service: Uuid, start: Instant, end: Instant, status: Status)
  datatype Record = Record(tenant: Uuid, appointment: Uuid, kind: EventKind, payload: Payload)

  function Title(to: Status): EventKind
    requires !to.Pending?
  {
    match to
    case Confirmed => EvConfirmed
    case Cancelled => EvCancelled
    case Completed => EvCompleted
    case NoShow => EvNoShow
  }

  function EventOf(r: Row, kind: EventKind): Record {
    Record(r.tenant, r.id, kind, Payload(r.id, r.branch, r.barber, r.service, r.start, r.end, r.status))
  }

  datatype KeyId = KeyId(tenant: Uuid, scope: string, operation: string, key: string)
  datatype KeyRow = KeyRow(fingerprint: string, appointment: Uuid)

  /** `events` and `outbox` hold every row ever written, in order. */
  datatype Db = Db(rows: map<Uuid, Row>, keys: map<KeyId, KeyRow>, events: seq<Record>, outbox: seq<Record>)

  const EMPTY: Db := Db(map[], map[], [], [])

  datatype Error = NotFound | IdempotencyConflict | InvalidTransition | Conflict | CheckFailed
  datatype Outcome = Ok(row: Row) | Err(error: Error)

  // ---------------------------------------------------------------- the constraints of the table

  predicate Overlap(a: Row, b: Row) {
    a.occStart < b.occEnd && b.occStart < a.occEnd
  }

  /** Two different live rows of one tenant and barber whose half-open occupied ranges meet. */
  predicate Clash(a: Row, b: Row) {
    a.id != b.id && a.tenant == b.tenant && a.barber == b.barber && Live(a.status) && Live(b.status) && Overlap(a, b)
  }

  /** `appointments_no_overlap` would reject `r`. */
  predicate Excluded(rows: map<Uuid, Row>, r: Row) {
    exists k :: k in rows && Clash(rows[k], r)
  }

  /** The CHECK constraints on the two ranges of a row. */
  predicate Checked(r: Row) {
    r.start < r.end && r.occStart < r.occEnd
  }

  // ---------------------------------------------------------------- the transactions

  /** Writes one row under the table's constraints, with its event and its outbox row. */
  function Put(d: Db, r: Row, kind: EventKind): (Db, Outcome) {
    if !Checked(r) then (d, Err(CheckFailed))
    else if Excluded(d.rows, r) then (d, Err(Conflict))
    else (Db(d.rows[r.id := r], d.keys, d.events + [EventOf(r, kind)], d.outbox + [EventOf(r, kind)]), Ok(r))
  }

  function Find(d: Db, tenant: Uuid, id: Uuid): Outcome {
    if id in d.rows && d.rows[id].tenant == tenant then Ok(d.rows[id]) else Err(NotFound)
  }

  function ReplayTx(d: Db, k: KeyId, fingerprint: string): Outcome
    requires k in d.keys
  {
    if d.keys[k].fingerprint != fingerprint then Err(IdempotencyConflict)
    else Find(d, k.tenant, d.keys[k].appointment)
  }

  /** Create: look the key up, else insert the row, record the key, append event and outbox row. */
  function CreateTx(d: Db, id: Uuid, req: Request, t: Times, k: KeyId, fingerprint: string): (Db, Outcome) {
    if k.key != "" && k in d.keys then (d, ReplayTx(d, k, fingerprint))
    else
      var r := NewRow(id, k.tenant, req, t);
      if Checked(r) && id in d.rows then (d, Err(Conflict))
      else
        var (d', o) := Put(d, r, EvCreated);
        if o.Ok? && k.key != "" then (d'.(keys := d'.keys[k := KeyRow(fingerprint, id)]), o) else (d', o)
  }

  function TransitionTx(d: Db, tenant: Uuid, id: Uuid, to: Status): (Db, Outcome) {
    if Find(d, tenant, id).Err? then (d, Err(NotFound))
    else if !Allowed(d.rows[id].status, to) then (d, Err(InvalidTransition))
    else Put(d, d.rows[id].(status := to), Title(to))
  }

  function RescheduleTx(d: Db, tenant: Uuid, id: Uuid, t: Times): (Db, Outcome) {
    if Find(d, tenant, id).Err? then (d, Err(NotFound))
    else if !Live(d.rows[id].status) then (d, Err(InvalidTransition))
    else Put(d, d.rows[id].(start := t.start, end := t.end, occStart := t.occStart, occEnd := t.occEnd), EvRescheduled)
  }

  // ---------------------------------------------------------------- what a caller finds afterwards

  /** The row holds what was asked for: each column its own value. */
  ghost predicate AsAsked(r: Row, id: Uuid, tenant: Uuid, req: Request, t: Times) {
    && r.id == id && r.tenant == tenant
    && r.branch == req.branch && r.barber == req.barber && r.service == req.service && r.contact == req.contact
    && r.start == t.start && r.end == t.end && r.occStart == t.occStart && r.occEnd == t.occEnd
    && r.status == Pending
  }

  /** The record tells of this row at this moment, as an event of this kind. */
  ghost predicate Tells(e: Record, r: Row, kind: EventKind) {
    && e.tenant == r.tenant && e.appointment == r.id && e.kind == kind
    && e.payload.appointment == r.id && e.payload.branch == r.branch && e.payload.barber == r.barber
    && e.payload.service == r.service && e.payload.start == r.start && e.payload.end == r.end
    && e.payload.status == r.status
  }

  /** From d to d' one record that tells of the row was appended to the log and to the outbox. */
  ghost predicate Logged(d: Db, d': Db, r: Row, kind: EventKind) {
    && |d'.events| == |d.events| + 1 && d.events <= d'.events && Tells(d'.events[|d.events|], r, kind)
    && |d'.outbox| == |d.outbox| + 1 && d.outbox <= d'.outbox && Tells(d'.outbox[|d.outbox|], r, kind)
  }

  /** No row but this one changed. */
  ghost predicate OnlyRow(d: Db, d': Db, id: Uuid) {
    && d'.rows.Keys == d.rows.Keys + {id}
    && forall x :: x in d.rows && x != id ==> d'.rows[x] == d.rows[x]
  }

  /** Rows are stored under their own id. */
  ghost predicate Keyed(rows: map<Uuid, Row>) {
    forall x :: x in rows ==> rows[x].id == x
  }

  /** A first successful booking stores the row as asked for, tells of it, records the key and does nothing else. */
  ghost predicate Booked(d: Db, d': Db, o: Outcome, id: Uuid, req: Request, t: Times, k: KeyId, fp: string) {
    && o.Ok? && id !in d.rows && OnlyRow(d, d', id)
    && AsAsked(d'.rows[id], id, k.tenant, req, t) && o.row == d'.rows[id]
    && Logged(d, d', d'.rows[id], EvCreated)
    && d'.keys == if k.key == "" then d.keys else d.keys[k := KeyRow(fp, id)]
  }

  /** The same row with another status, and nothing else changed. */
  ghost predicate Turned(d: Db, d': Db, o: Outcome, id: Uuid, to: Status) {
    && o.Ok? && id in d.rows && OnlyRow(d, d', id) && d'.keys == d.keys && o.row == d'.rows[id]
    && var a, b := d.rows[id], d'.rows[id];
    && b.id == a.id && b.tenant == a.tenant && b.branch == a.branch && b.barber == a.barber && b.service == a.service
    && b.contact == a.contact && b.start == a.start && b.end == a.end
    && b.occStart == a.occStart && b.occEnd == a.occEnd && b.status == to
    && (to == Confirmed ==> Logged(d, d', b, EvConfirmed)) && (to == Cancelled ==> Logged(d, d', b, EvCancelled))
    && (to == Completed ==> Logged(d, d', b, EvCompleted)) && (to == NoShow ==> Logged(d, d', b, EvNoShow))
  }

  /** The same row at other times, and nothing else changed. */
  ghost predicate Shifted(d: Db, d': Db, o: Outcome, id: Uuid, t: Times) {
    && o.Ok? && id in d.rows && OnlyRow(d, d', id) && d'.keys == d.keys && o.row == d'.rows[id]
    && var a, b := d.rows[id], d'.rows[id];
    && b.id == a.id && b.tenant == a.tenant && b.branch == a.branch && b.barber == a.barber && b.service == a.service
    && b.contact == a.contact && b.status == a.status
    && b.start == t.start && b.end == t.end && b.occStart == t.occStart && b.occEnd == t.occEnd
    && Logged(d, d', b, EvRescheduled)
  }

  lemma CreateBooks(d: Db, id: Uuid, req: Request, t: Times, k: KeyId, fp: string)
    requires k.key == "" || k !in d.keys
    ensures var (d', o) := CreateTx(d, id, req, t, k, fp);
            if o.Ok? then Booked(d, d', o, id, req, t, k, fp) else d' == d
  {
  }

  lemma TransitionTurns(d: Db, tenant: Uuid, id: Uuid, to: Status)
    requires Keyed(d.rows)
    ensures var (d', o) := TransitionTx(d, tenant, id, to);
            if o.Ok? then Turned(d, d', o, id, to) else d' == d
  {
  }

  lemma RescheduleShifts(d: Db, tenant: Uuid, id: Uuid, t: Times)
    requires Keyed(d.rows)
    ensures var (d', o) := RescheduleTx(d, tenant, id, t);
            if o.Ok? then Shifted(d, d', o, id, t) else d' == d
  {
  }

  /** The filter of the Occupancy query. */
  predicate Occupies(r: Row, tenant: Uuid, barber: Uuid, from: Instant, to: Instant) {
    r.tenant == tenant && r.barber == barber && Live(r.status) && r.occStart < to && r.occEnd > from
  }

  /** The four tables, changed statement by statement; a failed statement rolls the transaction back. */
  class Repository {
    var rows: map<Uuid, Row>
    var keys: map<KeyId, KeyRow>
    var events: seq<Record>
    var outbox: seq<Record>

    function State(): Db
      reads this
    {
      Db(rows, keys, events, outbox)
    }

    constructor ()
      ensures State() == EMPTY
    {
      rows, keys, events, outbox := map[], map[], [], [];
    }

    /** A committed result for the key, before the caller repeats any outside check. */
    method Replay(k: KeyId, fingerprint: string) returns (found: bool, o: Outcome)
      ensures k !in keys ==> !found && o == Err(NotFound)
      ensures k in keys ==> o == ReplayTx(State(), k, fingerprint) && found == o.Ok?
      ensures k in keys && keys[k].fingerprint != fingerprint ==> o == Err(IdempotencyConflict)
      ensures k in keys && keys[k].fingerprint == fingerprint ==>
                var id := keys[k].appointment;
                if id in rows && rows[id].tenant == k.tenant then o == Ok(rows[id]) else o == Err(NotFound)
    {
      found, o := false, Err(NotFound);
      if k !in keys {
        return;
      }
      var stored := keys[k];
      if stored.fingerprint != fingerprint {
        return false, Err(IdempotencyConflict);
      }
      if stored.appointment in rows && rows[stored.appointment].tenant == k.tenant {
        found, o := true, Ok(rows[stored.appointment]);
      }
    }

    method AppendEvent(r: Row, kind: EventKind)
      modifies this`events, this`outbox
      ensures events == old(events) + [EventOf(r, kind)]
      ensures outbox == old(outbox) + [EventOf(r, kind)]
    {
      var record := EventOf(r, kind);
      events := events + [record];
      outbox := outbox + [record];
    }

    method Create(id: Uuid, req: Request, t: Times, k: KeyId, fingerprint: string) returns (o: Outcome)
      modifies this
      ensures (State(), o) == CreateTx(old(State()), id, req, t, k, fingerprint)
      ensures o.Ok? && (k.key == "" || k !in old(keys)) ==>
                Booked(old(State()), State(), o, id, req, t, k, fingerprint)
      ensures o.Err? ==> State() == old(State())
      ensures k.key != "" && k in old(keys) ==>
                && State() == old(State())
                && (old(keys)[k].fingerprint != fingerprint ==> o == Err(IdempotencyConflict))
                && (old(keys)[k].fingerprint == fingerprint && old(keys)[k].appointment in old(rows)
                    && old(rows)[old(keys)[k].appointment].tenant == k.tenant ==>
                      o == Ok(old(rows)[old(keys)[k].appointment]))
    {
      ghost var before := State();
      if k.key == "" || k !in keys {
        CreateBooks(before, id, req, t, k, fingerprint);
      }
      if k.key != "" && k in keys {
        var found;
        found, o := Replay(k, fingerprint);
        return;
      }
      var r := NewRow(id, k.tenant, req, t);
      if !Checked(r) {
        return Err(CheckFailed);
      }
      if id in rows || Excluded(rows, r) {
        return Err(Conflict);
      }
      rows := rows[id := r];
      if k.key != "" {
        keys := keys[k := KeyRow(fingerprint, id)];
      }
      AppendEvent(r, EvCreated);
      o := Ok(r);
    }

    method Transition(tenant: Uuid, id: Uuid, to: Status) returns (o: Outcome)
      modifies this
      ensures (State(), o) == TransitionTx(old(State()), tenant, id, to)
      ensures o.Ok? && Keyed(old(rows)) ==> Turned(old(State()), State(), o, id, to)
      ensures o == Err(NotFound) <==> id !in old(rows) || old(rows)[id].tenant != tenant
      ensures o == Err(InvalidTransition) <==>
              && id in old(rows) && old(rows)[id].tenant == tenant
              && var from := old(rows)[id].status;
              && !(from == Pending && (to == Confirmed || to == Cancelled))
              && !(from == Confirmed && (to == Cancelled || to == Completed || to == NoShow))
      ensures o.Err? ==> State() == old(State())
    {
      if Keyed(rows) {
        TransitionTurns(State(), tenant, id, to);
      }
      if id !in rows || rows[id].tenant != tenant {
        return Err(NotFound);
      }
      if !Allowed(rows[id].status, to) {
        return Err(InvalidTransition);
      }
      var r := rows[id].(status := to);
      if !Checked(r) {
        return Err(CheckFailed);
      }
      if Excluded(rows, r) {
        return Err(Conflict);
      }
      assert old(State()).rows == rows;
      rows := rows[r.id := r];
      AppendEvent(r, Title(to));
      o := Ok(r);
    }

    method Reschedule(tenant: Uuid, id: Uuid, t: Times) returns (o: Outcome)
      modifies this
      ensures (State(), o) == RescheduleTx(old(State()), tenant, id, t)
      ensures o.Ok? && Keyed(old(rows)) ==> Shifted(old(State()), State(), o, id, t)
      ensures o == Err(NotFound) <==> id !in old(rows) || old(rows)[id].tenant != tenant
      ensures o == Err(InvalidTransition) <==>
              && id in old(rows) && old(rows)[id].tenant == tenant
              && old(rows)[id].status != Pending && old(rows)[id].status != Confirmed
      ensures o.Err? ==> State() == old(State())
    {
      if Keyed(rows) {
        RescheduleShifts(State(), tenant, id, t);
      }
      if id !in rows || rows[id].tenant != tenant {
        return Err(NotFound);
      }
      if !Live(rows[id].status) {
        return Err(InvalidTransition);
      }
      var r := rows[id].(start := t.start, end := t.end, occStart := t.occStart, occEnd := t.occEnd);
      if !Checked(r) {
        return Err(CheckFailed);
      }
      if Excluded(rows, r) {
        return Err(Conflict);
      }
      rows := rows[r.id := r];
      AppendEvent(r, EvRescheduled);
      o := Ok(r);
    }

    /** The live appointments of one barber that meet [from, to), each exactly once. */
    method Occupancy(tenant: Uuid, barber: Uuid, from: Instant, to: Instant) returns (out: seq<Row>)
      requires forall k :: k in rows ==> rows[k].id == k
      ensures forall k :: k in rows ==>
        (rows[k] in out <==>
           && rows[k].tenant == tenant && rows[k].barber == barber
           && (rows[k].status == Pending || rows[k].status == Confirmed)
           && rows[k].occStart < to && from < rows[k].occEnd)
      ensures forall k :: k in rows && Occupies(rows[k], tenant, barber, from, to) ==> rows[k] in out
      ensures forall i :: 0 <= i < |out| ==>
        Occupies(out[i], tenant, barber, from, to) && out[i].id in rows && out[i] == rows[out[i].id]
      ensures forall i, j :: 0 <= i < j < |out| ==> out[i].id != out[j].id
    {
      out := [];
      var todo := rows.Keys;
      while todo != {}
        invariant todo <= rows.Keys
        invariant forall k :: k in rows && k !in todo && Occupies(rows[k], tenant, barber, from, to) ==> rows[k] in out
        invariant forall i :: 0 <= i < |out| ==>
          && Occupies(out[i], tenant, barber, from, to)
          && out[i].id in rows && out[i].id !in todo && out[i] == rows[out[i].id]
        invariant forall i, j :: 0 <= i < j < |out| ==> out[i].id != out[j].id
      {
        var k :| k in todo;
        todo := todo - {k};
        if Occupies(rows[k], tenant, barber, from, to) {
          out := out + [rows[k]];
        }
      }
    }
  }
}
