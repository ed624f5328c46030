/**
 Whole runs of the appointment store: no double booking, well-ordered times, a status machine without
 resurrection, and an event log that determines every row.
 */
module AppointmentRuns {
  import opened Appointments

  /** The operations of BookingService and LifecycleService on the store, and key retention. */
  datatype Op =
    | Book(id: Uuid, req: Request, svc: Service, k: KeyId, fingerprint: string)
    | SetStatus(tenant: Uuid, id: Uuid, to: Status)
    | Move(tenant: Uuid, id: Uuid, start: Instant, svc: Service)
    | ExpireKeys(expired: set<KeyId>)

  function Apply(d: Db, op: Op): Db {
    match op
    case Book(id, req, svc, k, fp) => CreateTx(d, id, req, Derive(req.start, svc), k, fp).0
    case SetStatus(tenant, id, to) => TransitionTx(d, tenant, id, to).0
    case Move(tenant, id, start, svc) => RescheduleTx(d, tenant, id, Derive(start, svc)).0
    case ExpireKeys(expired) => d.(keys := d.keys - expired)
  }

  function Run(d: Db, ops: seq<Op>): Db
    decreases |ops|
  {
    if ops == [] then d else Run(Apply(d, ops[0]), ops[1..])
  }

  /** The catalog stores no negative duration or buffer. */
  predicate FromCatalog(op: Op) {
    match op
    case Book(_, _, svc, _, _) => svc.duration >= 0 && svc.before >= 0 && svc.after >= 0
    case Move(_, _, _, svc) => svc.duration >= 0 && svc.before >= 0 && svc.after >= 0
    case _ => true
  }

  // ---------------------------------------------------------------- what the event log says

  /** The life of one appointment as its events alone tell it. */
  datatype Life = Unborn | Life(status: Status, start: Instant, end: Instant, changes: nat) | Corrupt

  function History(events: seq<Record>, id: Uuid): seq<Record> {
    if events == [] then []
    else
      var rest, last := events[..|events| - 1], events[|events| - 1];
      History(rest, id) + (if last.appointment == id then [last] else [])
  }

  function Meaning(kind: EventKind, current: Status): Status {
    match kind
    case EvCreated => Pending
    case EvRescheduled => current
    case EvConfirmed => Confirmed
    case EvCancelled => Cancelled
    case EvCompleted => Completed
    case EvNoShow => NoShow
  }

  /** Nothing follows a terminal status, only the first event is Created, and payloads carry the status. */
  function Advance(l: Life, e: Record): Life {
    match l
    case Corrupt => Corrupt
    case Unborn =>
      if !e.kind.EvCreated? || !e.payload.status.Pending? then Corrupt
      else Life(Pending, e.payload.start, e.payload.end, 0)
    case Life(s, start, end, n) =>
      var s' := Meaning(e.kind, s);
      if !Live(s) || e.kind.EvCreated? || e.payload.status != s' then Corrupt
      else if e.kind.EvRescheduled? then Life(s, e.payload.start, e.payload.end, n)
      else if !Allowed(s, s') || e.payload.start != start || e.payload.end != end then Corrupt
      else Life(s', start, end, n + 1)
  }

  function Replay(h: seq<Record>): Life {
    if h == [] then Unborn else Advance(Replay(h[..|h| - 1]), h[|h| - 1])
  }

  ghost predicate LogTells(d: Db, id: Uuid) {
    var l := Replay(History(d.events, id));
    if id !in d.rows then l.Unborn?
    else
      && l.Life? && l.status == d.rows[id].status && l.start == d.rows[id].start && l.end == d.rows[id].end
      && (l.status.Pending? ==> l.changes == 0) && (l.status.Confirmed? ==> l.changes == 1) && l.changes <= 2
  }

  // ---------------------------------------------------------------- the invariant of every run

  ghost predicate NoDoubleBooking(d: Db) {
    forall a, b :: a in d.rows && b in d.rows ==> !Clash(d.rows[a], d.rows[b])
  }

  ghost predicate WellOrdered(r: Row) {
    r.occStart <= r.start < r.end <= r.occEnd
  }

  ghost predicate Valid(d: Db) {
    && (forall id :: id in d.rows ==> d.rows[id].id == id && Checked(d.rows[id]))
    && NoDoubleBooking(d)
    && (forall k :: k in d.keys ==> d.keys[k].appointment in d.rows && d.rows[d.keys[k].appointment].tenant == k.tenant)
    && (forall id :: LogTells(d, id))
    && d.outbox == d.events
  }

  lemma HistoryAppend(events: seq<Record>, e: Record, id: Uuid)
    ensures History(events + [e], id) == History(events, id) + (if e.appointment == id then [e] else [])
  {
  }

  lemma ReplayAppend(h: seq<Record>, e: Record)
    ensures Replay(h + [e]) == Advance(Replay(h), e)
  {
  }

  /** One accepted write appends the event that takes the row's life from its old to its new columns. */
  lemma PutTells(d: Db, r: Row, kind: EventKind, id: Uuid)
    requires Valid(d) && Put(d, r, kind).1.Ok?
    requires Advance(Replay(History(d.events, r.id)), EventOf(r, kind)).Life?
    requires
      var l := Advance(Replay(History(d.events, r.id)), EventOf(r, kind));
      l.status == r.status && l.start == r.start && l.end == r.end && l.changes <= 2
      && (l.status.Pending? ==> l.changes == 0) && (l.status.Confirmed? ==> l.changes == 1)
    ensures LogTells(Put(d, r, kind).0, id)
  {
    HistoryAppend(d.events, EventOf(r, kind), id);
    if id == r.id {
      ReplayAppend(History(d.events, id), EventOf(r, kind));
    } else {
      assert History(d.events, id) + [] == History(d.events, id);
      assert LogTells(d, id);
    }
  }

  lemma PutKeepsRanges(d: Db, r: Row, kind: EventKind)
    requires Valid(d) && Put(d, r, kind).1.Ok?
    ensures NoDoubleBooking(Put(d, r, kind).0)
  {
  }

  lemma CreateKeepsValid(d: Db, id: Uuid, req: Request, t: Times, k: KeyId, fp: string)
    requires Valid(d)
    ensures Valid(CreateTx(d, id, req, t, k, fp).0)
  {
    var r := NewRow(id, k.tenant, req, t);
    if !(k.key != "" && k in d.keys) && id !in d.rows && Put(d, r, EvCreated).1.Ok? {
      PutKeepsRanges(d, r, EvCreated);
      assert LogTells(d, id);
      forall x ensures LogTells(CreateTx(d, id, req, t, k, fp).0, x) { PutTells(d, r, EvCreated, x); }
    }
  }

  lemma TransitionKeepsValid(d: Db, tenant: Uuid, id: Uuid, to: Status)
    requires Valid(d)
    ensures Valid(TransitionTx(d, tenant, id, to).0)
  {
    if Find(d, tenant, id).Ok? && Allowed(d.rows[id].status, to) {
      var r := d.rows[id].(status := to);
      if Put(d, r, Title(to)).1.Ok? {
        PutKeepsRanges(d, r, Title(to));
        assert LogTells(d, id);
        forall x ensures LogTells(TransitionTx(d, tenant, id, to).0, x) { PutTells(d, r, Title(to), x); }
      }
    }
  }

  lemma RescheduleKeepsValid(d: Db, tenant: Uuid, id: Uuid, t: Times)
    requires Valid(d)
    ensures Valid(RescheduleTx(d, tenant, id, t).0)
  {
    if Find(d, tenant, id).Ok? && Live(d.rows[id].status) {
      var r := d.rows[id].(start := t.start, end := t.end, occStart := t.occStart, occEnd := t.occEnd);
      if Put(d, r, EvRescheduled).1.Ok? {
        PutKeepsRanges(d, r, EvRescheduled);
        assert LogTells(d, id);
        forall x ensures LogTells(RescheduleTx(d, tenant, id, t).0, x) { PutTells(d, r, EvRescheduled, x); }
      }
    }
  }

  lemma ApplyKeepsValid(d: Db, op: Op)
    requires Valid(d)
    ensures Valid(Apply(d, op))
  {
    match op
    case Book(id, req, svc, k, fp) => CreateKeepsValid(d, id, req, Derive(req.start, svc), k, fp);
    case SetStatus(tenant, id, to) => TransitionKeepsValid(d, tenant, id, to);
    case Move(tenant, id, start, svc) => RescheduleKeepsValid(d, tenant, id, Derive(start, svc));
    case ExpireKeys(expired) =>
      forall x ensures LogTells(Apply(d, op), x) { assert LogTells(d, x); }
  }

  lemma {:induction false} RunKeepsValid(d: Db, ops: seq<Op>)
    requires Valid(d)
    ensures Valid(Run(d, ops))
    decreases |ops|
  {
    if ops != [] {
      ApplyKeepsValid(d, ops[0]);
      RunKeepsValid(Apply(d, ops[0]), ops[1..]);
    }
  }

  // ---------------------------------------------------------------- theorems over every run

  /** From an empty store no run ever double-books a barber. */
  lemma NeverDoubleBooked(ops: seq<Op>, a: Uuid, b: Uuid)
    ensures
      var d := Run(EMPTY, ops);
      && a in d.rows && b in d.rows && a != b
      && d.rows[a].tenant == d.rows[b].tenant && d.rows[a].barber == d.rows[b].barber
      && (d.rows[a].status == Pending || d.rows[a].status == Confirmed)
      && (d.rows[b].status == Pending || d.rows[b].status == Confirmed)
      ==> d.rows[a].occEnd <= d.rows[b].occStart || d.rows[b].occEnd <= d.rows[a].occStart
  {
    RunKeepsValid(EMPTY, ops);
  }

  /** With the catalog's non-negative times every stored row is well ordered. */
  lemma {:induction false} TimesWellOrdered(d: Db, ops: seq<Op>)
    requires forall id :: id in d.rows ==> WellOrdered(d.rows[id])
    requires forall i :: 0 <= i < |ops| ==> FromCatalog(ops[i])
    ensures forall id :: id in Run(d, ops).rows ==> WellOrdered(Run(d, ops).rows[id])
    decreases |ops|
  {
    if ops != [] {
      assert FromCatalog(ops[0]);
      TimesWellOrdered(Apply(d, ops[0]), ops[1..]);
    }
  }

  /** In every reachable state the log replays to the row, and every event has its outbox row, in order. */
  lemma EventLogDeterminesRow(ops: seq<Op>, id: Uuid)
    ensures
      var d := Run(EMPTY, ops);
      var h := History(d.events, id);
      && d.outbox == d.events
      && (id !in d.rows <==> h == [])
      && (id in d.rows ==>
            && h[0].kind.EvCreated?
            && Replay(h).Life? && Replay(h).changes <= 2
            && Replay(h).status == d.rows[id].status
            && Replay(h).start == d.rows[id].start && Replay(h).end == d.rows[id].end)
  {
    RunKeepsValid(EMPTY, ops);
    var d := Run(EMPTY, ops);
    assert LogTells(d, id);
    StartsWithCreated(History(d.events, id));
  }

  lemma {:induction false} StartsWithCreated(h: seq<Record>)
    requires !Replay(h).Corrupt?
    ensures h == [] <==> Replay(h).Unborn?
    ensures h != [] ==> h[0].kind.EvCreated?
  {
    if |h| > 1 {
      StartsWithCreated(h[..|h| - 1]);
    }
  }

  /** Transition never needs the overlap check: in a valid store the exclusion guard cannot stop it. */
  lemma TransitionNeverConflicts(d: Db, tenant: Uuid, id: Uuid, to: Status)
    requires Valid(d)
    ensures
      var o := TransitionTx(d, tenant, id, to).1;
      && (o.Ok? <==>
            && id in d.rows && d.rows[id].tenant == tenant
            && (|| (d.rows[id].status == Pending && (to == Confirmed || to == Cancelled))
                || (d.rows[id].status == Confirmed && (to == Cancelled || to == Completed || to == NoShow))))
      && o != Err(Conflict) && o != Err(CheckFailed)
      && (o.Ok? ==> o.row == d.rows[id].(status := to))
  {
  }

  /** One step leaves a dead row alone and logs nothing about it. */
  lemma DeadStep(d: Db, op: Op, id: Uuid)
    requires forall k :: k in d.rows ==> d.rows[k].id == k
    requires id in d.rows && !Live(d.rows[id].status)
    ensures id in Apply(d, op).rows && Apply(d, op).rows[id] == d.rows[id]
    ensures History(Apply(d, op).events, id) == History(d.events, id)
  {
    var d' := Apply(d, op);
    if d'.events != d.events {
      var e := d'.events[|d.events|];
      assert d'.events == d.events + [e] && e.appointment != id;
      HistoryAppend(d.events, e, id);
    }
  }

  /** No step makes a dead appointment live, and it gains no event: its row and history are final. */
  lemma {:induction false} DeadStaysDead(d: Db, ops: seq<Op>, id: Uuid)
    requires Valid(d) && id in d.rows && !Live(d.rows[id].status)
    ensures id in Run(d, ops).rows && Run(d, ops).rows[id] == d.rows[id]
    ensures History(Run(d, ops).events, id) == History(d.events, id)
    decreases |ops|
  {
    if ops != [] {
      DeadStep(d, ops[0], id);
      ApplyKeepsValid(d, ops[0]);
      DeadStaysDead(Apply(d, ops[0]), ops[1..], id);
    }
  }

  /** What the caller asked for never changes: tenant, branch, barber, service and contact of an appointment stay as
      they were booked, in every run. */
  lemma {:induction false} ColumnsStay(d: Db, ops: seq<Op>, id: Uuid)
    requires Valid(d) && id in d.rows
    ensures id in Run(d, ops).rows
    ensures var a, b := d.rows[id], Run(d, ops).rows[id];
            && b.id == a.id && b.tenant == a.tenant && b.branch == a.branch && b.barber == a.barber
            && b.service == a.service && b.contact == a.contact
    decreases |ops|
  {
    if ops != [] {
      ColumnsStep(d, ops[0], id);
      ApplyKeepsValid(d, ops[0]);
      ColumnsStay(Apply(d, ops[0]), ops[1..], id);
    }
  }

  lemma ColumnsStep(d: Db, op: Op, id: Uuid)
    requires Keyed(d.rows) && id in d.rows
    ensures id in Apply(d, op).rows
    ensures var a, b := d.rows[id], Apply(d, op).rows[id];
            && b.id == a.id && b.tenant == a.tenant && b.branch == a.branch && b.barber == a.barber
            && b.service == a.service && b.contact == a.contact
  {
  }

  /** The times of a row booked or moved to `start` for a service: end and buffers in minutes from the start. */
  ghost predicate TimedFor(r: Row, start: Instant, svc: Service) {
    && r.start == start
    && r.end == start + svc.duration * 60_000_000_000
    && r.occStart == start - svc.before * 60_000_000_000
    && r.occEnd == start + (svc.duration + svc.after) * 60_000_000_000
  }

  /** A booking that adds a row, and a move that takes effect, store the times of the service. */
  lemma StoredTimes(d: Db, op: Op)
    requires Valid(d)
    ensures op.Book? && op.id !in d.rows && op.id in Apply(d, op).rows ==>
              TimedFor(Apply(d, op).rows[op.id], op.req.start, op.svc)
    ensures op.Move? && Apply(d, op).events != d.events ==>
              op.id in Apply(d, op).rows && TimedFor(Apply(d, op).rows[op.id], op.start, op.svc)
  {
  }

  /** When a move succeeds: the appointment is the tenant's and live, the new times are proper ranges, and no other
      live appointment of the barber meets the new occupied range. */
  lemma RescheduleOkIff(d: Db, tenant: Uuid, id: Uuid, t: Times)
    requires Valid(d)
    ensures RescheduleTx(d, tenant, id, t).1.Ok? <==>
            && id in d.rows && d.rows[id].tenant == tenant
            && (d.rows[id].status == Pending || d.rows[id].status == Confirmed)
            && t.start < t.end && t.occStart < t.occEnd
            && forall k :: k in d.rows && k != id && d.rows[k].tenant == tenant && d.rows[k].barber == d.rows[id].barber
                           && (d.rows[k].status == Pending || d.rows[k].status == Confirmed) ==>
                             d.rows[k].occEnd <= t.occStart || t.occEnd <= d.rows[k].occStart
  {
  }

  /** When a booking under a new id and key succeeds, in the same terms. */
  lemma CreateOkIff(d: Db, id: Uuid, req: Request, t: Times, k: KeyId, fp: string)
    requires Valid(d) && id !in d.rows && k !in d.keys
    ensures CreateTx(d, id, req, t, k, fp).1.Ok? <==>
            && t.start < t.end && t.occStart < t.occEnd
            && forall x :: x in d.rows && d.rows[x].tenant == k.tenant && d.rows[x].barber == req.barber
                           && (d.rows[x].status == Pending || d.rows[x].status == Confirmed) ==>
                             d.rows[x].occEnd <= t.occStart || t.occEnd <= d.rows[x].occStart
  {
  }
}
