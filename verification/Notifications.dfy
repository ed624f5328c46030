/**
 The notification store of notification-service, the consumer that plans and cancels rows from appointment
 events, and the delivery worker's claim and finish statements.
 */
module Notifications {
  import opened Wrappers
  import Appointments

  type Uuid = Appointments.Uuid
  type Instant = Appointments.Instant

  /** A reminder's event id is a name-based UUID of the event and the offset (section 5.5 of RFC 9562); it is
      taken to be injective and never equal to a random id. */
  datatype EventId = Base(event: Uuid) | Derived(event: Uuid, offset: int)

  datatype Kind = NCreated | NRescheduled | NCancelled | NConfirmed | Reminder

  /** UNIQUE (tenant_id, event_id, notification_type). */
  datatype Key = Key(tenant: Uuid, event: EventId, kind: Kind)

  datatype Status = Pending | Processing(token: Uuid, leaseUntil: Instant) | Sent | Failed | Cancelled
  datatype Row = Row(appointment: Uuid, scheduled: Instant, nextAttempt: Instant, attempts: nat, status: Status)
  type Table = map<Key, Row>

  const LEASE: int := 2 * Appointments.MINUTE

  /** What the consumer reads from one message; `start` is None when the payload has no usable start time. */
  datatype Envelope =
    Envelope(
      id: Uuid, tenant: Uuid, appointment: Uuid, version: int, kind: Appointments.EventKind, start: Option<Instant>)

  const NIL: Uuid := 0

  predicate Attributable(e: Envelope) {
    e.id != NIL && e.tenant != NIL && e.appointment != NIL
  }

  predicate WellFormed(e: Envelope) {
    Attributable(e) && e.version == 1
  }

  /** Event types without a template are acknowledged and ignored. */
  function KindOf(kind: Appointments.EventKind): Option<Kind> {
    match kind
    case EvCreated => Some(NCreated)
    case EvRescheduled => Some(NRescheduled)
    case EvCancelled => Some(NCancelled)
    case EvConfirmed => Some(NConfirmed)
    case EvCompleted => None
    case EvNoShow => None
  }

  // ---------------------------------------------------------------- statements

  /** INSERT ... ON CONFLICT DO NOTHING. */
  function Plan(t: Table, k: Key, appointment: Uuid, scheduled: Instant): Table {
    if k in t then t else t[k := Row(appointment, scheduled, scheduled, 0, Pending)]
  }

  predicate IsReminderOf(t: Table, k: Key, tenant: Uuid, appointment: Uuid) {
    k in t && k.tenant == tenant && k.kind.Reminder? && t[k].appointment == appointment
  }

  function CancelReminders(t: Table, tenant: Uuid, appointment: Uuid): Table {
    map k | k in t ::
      if IsReminderOf(t, k, tenant, appointment) && t[k].status.Pending? then t[k].(status := Cancelled) else t[k]
  }

  /** The upsert of a terminal failure; rows that are sent or cancelled are left alone. */
  function Fail(t: Table, k: Key, appointment: Uuid, now: Instant): Table {
    if k !in t then t[k := Row(appointment, now, now, 0, Failed)]
    else if t[k].status.Sent? || t[k].status.Cancelled? then t
    else t[k := t[k].(status := Failed)]
  }

  /** The worker takes a due pending row, or one whose lease ran out. */
  function Claim(t: Table, k: Key, now: Instant, token: Uuid): Table {
    if k in t
       && ((t[k].status.Pending? && t[k].scheduled <= now && t[k].nextAttempt <= now)
           || (t[k].status.Processing? && t[k].status.leaseUntil < now))
    then t[k := t[k].(status := Processing(token, now + LEASE), attempts := t[k].attempts + 1)]
    else t
  }

  datatype Delivery = Delivered | Retry(at: Instant) | GaveUp

  /** The worker reports the result; only the current claim token counts. */
  function Finish(t: Table, k: Key, token: Uuid, d: Delivery): Table {
    if k !in t || !t[k].status.Processing? || t[k].status.token != token then t
    else match d
      case Delivered => t[k := t[k].(status := Sent)]
      case Retry(at) => t[k := t[k].(status := Pending, nextAttempt := at)]
      case GaveUp => t[k := t[k].(status := Failed)]
  }

  // ---------------------------------------------------------------- handling one event

  datatype Action = DoPlan(k: Key, appointment: Uuid, scheduled: Instant) | DoCancel(tenant: Uuid, appointment: Uuid)

  function Perform(t: Table, a: Action): Table {
    match a
    case DoPlan(k, appointment, scheduled) => Plan(t, k, appointment, scheduled)
    case DoCancel(tenant, appointment) => CancelReminders(t, tenant, appointment)
  }

  function Exec(t: Table, actions: seq<Action>): Table {
    if actions == [] then t else Perform(Exec(t, actions[..|actions| - 1]), actions[|actions| - 1])
  }

  function ReminderKey(e: Envelope, off: int): Key {
    Key(e.tenant, Derived(e.id, off), Reminder)
  }

  /** The reminders to plan: one per offset whose time before the start is still in the future. */
  function ReminderPlans(e: Envelope, now: Instant, offsets: seq<int>): seq<Action>
    requires e.start.Some?
  {
    if offsets == [] then []
    else
      var off := offsets[|offsets| - 1];
      ReminderPlans(e, now, offsets[..|offsets| - 1])
      + if e.start.value - off > now then [DoPlan(ReminderKey(e, off), e.appointment, e.start.value - off)] else []
  }

  predicate PlansReminders(e: Envelope) {
    (e.kind.EvCreated? || e.kind.EvRescheduled?) && e.start.Some?
  }

  predicate CancelsReminders(e: Envelope) {
    e.kind.EvRescheduled? || e.kind.EvCancelled?
  }

  /** All writes of `handle`, in order, each its own transaction. */
  function Script(e: Envelope, planned: Instant, now: Instant, offsets: seq<int>): seq<Action> {
    Opening(e, planned) + if WellFormed(e) && PlansReminders(e) then ReminderPlans(e, now, offsets) else []
  }

  /** The writes before the reminder loop. */
  function Opening(e: Envelope, planned: Instant): seq<Action> {
    if !WellFormed(e) || KindOf(e.kind).None? then []
    else
      [DoPlan(EventKey(e), e.appointment, planned)]
      + if CancelsReminders(e) then [DoCancel(e.tenant, e.appointment)] else []
  }

  function EventKey(e: Envelope): Key
    requires KindOf(e.kind).Some?
  {
    Key(e.tenant, Base(e.id), KindOf(e.kind).value)
  }

  function Min(a: nat, b: nat): nat {
    if a <= b then a else b
  }

  /** What became of the calls one delivery depends on: `budget` writes succeed before the process or the
      database fails, and `offsets` is None when the tenant's settings cannot be read. */
  datatype Luck = Luck(planned: Instant, now: Instant, offsets: Option<seq<int>>, budget: nat)

  function Offsets(luck: Luck): seq<int> {
    if luck.offsets.Some? then luck.offsets.value else []
  }

  /** The writes of one delivery that take effect: a prefix of the whole script. */
  function Effect(e: Envelope, luck: Luck): seq<Action> {
    var script := Script(e, luck.planned, luck.now, Offsets(luck));
    script[..Min(luck.budget, |script|)]
  }

  predicate Succeeds(e: Envelope, luck: Luck) {
    WellFormed(e)
    && (PlansReminders(e) ==> luck.offsets.Some?)
    && luck.budget >= |Script(e, luck.planned, luck.now, Offsets(luck))|
  }

  // ---------------------------------------------------------------- what a customer is told

  /** The event is announced once, under its own kind and no other, to its appointment. */
  ghost predicate Announced(t: Table, u: Table, e: Envelope, kind: Kind, planned: Instant) {
    var k := Key(e.tenant, Base(e.id), kind);
    && k in u && (k in t ==> u[k].appointment == t[k].appointment)
    && (k !in t ==> u[k] == Row(e.appointment, planned, planned, 0, Pending))
    && forall other :: other != kind && Key(e.tenant, Base(e.id), other) in u ==> Key(e.tenant, Base(e.id), other) in t
  }

  /** Every future offset has its reminder: those that were not planned before are pending at start minus offset. */
  ghost predicate Reminded(t: Table, u: Table, e: Envelope, now: Instant, offsets: seq<int>) {
    e.start.Some? ==>
      forall off :: off in offsets && now < e.start.value - off ==>
        var k := Key(e.tenant, Derived(e.id, off), Reminder);
        && k in u
        && (k !in t ==> u[k] == Row(e.appointment, e.start.value - off, e.start.value - off, 0, Pending))
  }

  /** Rows that belong neither to the event nor to the reminders of its appointment are as they were, and a reminder of
      the appointment can only have been cancelled, which a created or confirmed event does not do. */
  ghost predicate OthersKept(t: Table, u: Table, e: Envelope) {
    forall k :: k in t ==>
      && k in u
      && (u[k] == t[k]
          || (&& (e.kind == Appointments.EvRescheduled || e.kind == Appointments.EvCancelled)
              && k.tenant == e.tenant && k.kind == Reminder && t[k].appointment == e.appointment
              && t[k].status == Pending && u[k] == t[k].(status := Cancelled)))
  }

  /** What a completely handled event leaves behind, kind by kind. */
  ghost predicate Told(t: Table, u: Table, e: Envelope, planned: Instant, now: Instant, offsets: seq<int>) {
    && OthersKept(t, u, e)
    && (forall k :: k in u && k !in t ==> k.tenant == e.tenant && k.event.event == e.id)
    && match e.kind
       case EvCreated => Announced(t, u, e, NCreated, planned) && Reminded(t, u, e, now, offsets)
       case EvRescheduled => Announced(t, u, e, NRescheduled, planned) && Reminded(t, u, e, now, offsets)
       case EvCancelled => Announced(t, u, e, NCancelled, planned)
       case EvConfirmed => Announced(t, u, e, NConfirmed, planned)
       case EvCompleted => u == t
       case EvNoShow => u == t
  }

  /** Under this key there is now a failed row, unless what was there is sent or cancelled; nothing else changed. */
  ghost predicate FailedUnder(t: Table, u: Table, k: Key, appointment: Uuid, now: Instant) {
    && u.Keys == t.Keys + {k} && (forall x :: x in t && x != k ==> u[x] == t[x])
    && (k !in t ==> u[k] == Row(appointment, now, now, 0, Failed))
    && (k in t && (t[k].status == Sent || t[k].status == Cancelled) ==> u[k] == t[k])
    && (k in t && t[k].status != Sent && t[k].status != Cancelled ==> u[k] == t[k].(status := Failed))
  }

  /** What a message that exhausted its deliveries leaves behind, kind by kind. */
  ghost predicate Audited(t: Table, u: Table, e: Envelope, now: Instant) {
    if e.id == 0 || e.tenant == 0 || e.appointment == 0 then u == t
    else
      match e.kind
      case EvCreated => FailedUnder(t, u, Key(e.tenant, Base(e.id), NCreated), e.appointment, now)
      case EvRescheduled => FailedUnder(t, u, Key(e.tenant, Base(e.id), NRescheduled), e.appointment, now)
      case EvCancelled => FailedUnder(t, u, Key(e.tenant, Base(e.id), NCancelled), e.appointment, now)
      case EvConfirmed => FailedUnder(t, u, Key(e.tenant, Base(e.id), NConfirmed), e.appointment, now)
      case EvCompleted => u == t
      case EvNoShow => u == t
  }

  datatype Verdict = Ack | Nak | Term

  class Consumer {
    var table: Table

    constructor ()
      ensures table == map[]
    {
      table := map[];
    }

    /** One write that may fail. */
    method Write(a: Action, budget: nat) returns (ok: bool, left: nat)
      modifies this
      ensures ok == (budget > 0)
      ensures ok ==> table == Perform(old(table), a) && left == budget - 1
      ensures !ok ==> table == old(table) && left == 0
    {
      ok, left := budget > 0, 0;
      if ok {
        left := budget - 1;
        table := Perform(table, a);
      }
    }

    method PlanReminders(e: Envelope, now: Instant, offsets: seq<int>, budget: nat) returns (ok: bool)
      requires e.start.Some?
      modifies this
      ensures ok == (budget >= |ReminderPlans(e, now, offsets)|)
      ensures table == Exec(old(table), ReminderPlans(e, now, offsets)[..Min(budget, |ReminderPlans(e, now, offsets)|)])
    {
      ghost var plans := ReminderPlans(e, now, offsets);
      ghost var done: seq<Action> := [];
      var left := budget;
      for i := 0 to |offsets|
        invariant done == ReminderPlans(e, now, offsets[..i]) && done <= plans
        invariant left == budget - |done|
        invariant table == Exec(old(table), done)
      {
        var off := offsets[i];
        var scheduled := e.start.value - off;
        PlansStep(e, now, offsets, i);
        if scheduled <= now {
          continue;
        }
        var a := DoPlan(ReminderKey(e, off), e.appointment, scheduled);
        ok, left := Write(a, left);
        if !ok {
          assert plans[..budget] == done;
          return;
        }
        ExecLast(old(table), done, a);
        done := done + [a];
      }
      assert offsets[..|offsets|] == offsets;
      assert plans[..|plans|] == plans;
      ok := true;
    }

    /** The writes up to the reminder loop. */
    method Open(e: Envelope, planned: Instant, budget: nat) returns (ok: bool, left: nat)
      requires WellFormed(e) && KindOf(e.kind).Some?
      modifies this
      ensures ok == (budget >= |Opening(e, planned)|)
      ensures ok ==> left == budget - |Opening(e, planned)|
      ensures table == Exec(old(table), Opening(e, planned)[..Min(budget, |Opening(e, planned)|)])
    {
      ghost var script := Opening(e, planned);
      ok, left := Write(DoPlan(EventKey(e), e.appointment, planned), budget);
      if !ok {
        return;
      }
      ExecPrefix(old(table), script, 0);
      if CancelsReminders(e) {
        ok, left := Write(DoCancel(e.tenant, e.appointment), left);
        if ok {
          ExecPrefix(old(table), script, 1);
        }
      }
    }

    /** Handles one event. A malformed one fails without a write; a complete handling tells the customer what the
        event means. */
    method Handle(e: Envelope, luck: Luck) returns (ok: bool)
      modifies this
      ensures ok == Succeeds(e, luck)
      ensures table == Exec(old(table), Effect(e, luck))
      ensures e.id == 0 || e.tenant == 0 || e.appointment == 0 || e.version != 1 ==> !ok && table == old(table)
      ensures ok ==> Told(old(table), table, e, luck.planned, luck.now, Offsets(luck))
    {
      ghost var before := table;
      ok := Process(e, luck);
      if ok {
        SuccessTells(before, e, luck);
      }
    }

    method Process(e: Envelope, luck: Luck) returns (ok: bool)
      modifies this
      ensures ok == Succeeds(e, luck)
      ensures table == Exec(old(table), Effect(e, luck))
    {
      if !WellFormed(e) {
        return false;
      }
      if KindOf(e.kind).None? {
        return true;
      }
      ghost var opening := Opening(e, luck.planned);
      ghost var script := Script(e, luck.planned, luck.now, Offsets(luck));
      var left;
      ok, left := Open(e, luck.planned, luck.budget);
      if !ok {
        assert script[..luck.budget] == opening[..luck.budget];
        return;
      }
      assert opening[..|opening|] == opening;
      if PlansReminders(e) {
        if luck.offsets.None? {
          assert script == opening && Effect(e, luck) == opening;
          return false;
        }
        ghost var plans := ReminderPlans(e, luck.now, luck.offsets.value);
        ok := PlanReminders(e, luck.now, luck.offsets.value, left);
        ExecJoin(old(table), opening, plans[..Min(left, |plans|)]);
        assert Effect(e, luck) == opening + plans[..Min(left, |plans|)];
      } else {
        assert script == opening && Effect(e, luck) == opening;
      }
    }

    /** The verdict on one delivery; None is a message that cannot be parsed. `logged` says whether the audit row
        of an exhausted message could be written. */
    method Receive(m: Option<Envelope>, luck: Luck, delivered: nat, maxDeliver: int, logged: bool) returns (v: Verdict)
      modifies this
      ensures v.Ack? <==> m.Some? && Succeeds(m.value, luck)
      ensures v.Term? <==> !v.Ack? && 0 < maxDeliver <= delivered
      ensures m.None? ==> table == old(table)
      ensures m.Some? && (!v.Term? || !logged) ==> table == Exec(old(table), Effect(m.value, luck))
      ensures m.Some? && v.Term? && logged ==>
                table == MarkTerminal(Exec(old(table), Effect(m.value, luck)), m.value, luck.now)
      ensures m.Some? && v.Ack? ==> Told(old(table), table, m.value, luck.planned, luck.now, Offsets(luck))
      ensures m.Some? && v.Term? && logged ==>
                Audited(Exec(old(table), Effect(m.value, luck)), table, m.value, luck.now)
    {
      var ok := false;
      if m.Some? {
        ok := Handle(m.value, luck);
      }
      if ok {
        return Ack;
      }
      if 0 < maxDeliver <= delivered {
        if m.Some? && logged {
          table := MarkTerminal(table, m.value, luck.now);
        }
        return Term;
      }
      return Nak;
    }
  }

  /** The audit row of a message that exhausted its deliveries. */
  function MarkTerminal(t: Table, e: Envelope, now: Instant): Table {
    if !Attributable(e) || KindOf(e.kind).None? then t else Fail(t, EventKey(e), e.appointment, now)
  }

  lemma ExecPrefix(t: Table, actions: seq<Action>, n: nat)
    requires n < |actions|
    ensures Exec(t, actions[..n + 1]) == Perform(Exec(t, actions[..n]), actions[n])
  {
    assert actions[..n + 1][..n] == actions[..n];
  }

  lemma ExecLast(t: Table, actions: seq<Action>, a: Action)
    ensures Exec(t, actions + [a]) == Perform(Exec(t, actions), a)
  {
    assert (actions + [a])[..|actions|] == actions;
  }

  lemma {:induction false} ExecJoin(t: Table, a: seq<Action>, b: seq<Action>)
    ensures Exec(t, a + b) == Exec(Exec(t, a), b)
    decreases |b|
  {
    if b == [] {
      assert a + b == a;
    } else {
      ExecJoin(t, a, b[..|b| - 1]);
      assert (a + b)[..|a + b| - 1] == a + b[..|b| - 1];
    }
  }

  lemma {:induction false} PlansPrefix(e: Envelope, now: Instant, offsets: seq<int>, n: nat)
    requires e.start.Some? && n <= |offsets|
    ensures ReminderPlans(e, now, offsets[..n]) <= ReminderPlans(e, now, offsets)
  {
    if n < |offsets| {
      assert offsets[..|offsets| - 1][..n] == offsets[..n];
      PlansPrefix(e, now, offsets[..|offsets| - 1], n);
    } else {
      assert offsets[..n] == offsets;
    }
  }

  /** The plans of one more offset. */
  lemma PlansStep(e: Envelope, now: Instant, offsets: seq<int>, i: nat)
    requires e.start.Some? && i < |offsets|
    ensures var due := e.start.value - offsets[i];
            var more := if due > now then [DoPlan(ReminderKey(e, offsets[i]), e.appointment, due)] else [];
            && ReminderPlans(e, now, offsets[..i + 1]) == ReminderPlans(e, now, offsets[..i]) + more
            && ReminderPlans(e, now, offsets[..i + 1]) <= ReminderPlans(e, now, offsets)
  {
    assert offsets[..i + 1][..i] == offsets[..i];
    PlansPrefix(e, now, offsets, i + 1);
  }

  /** The reminder of `e` at `off` is still to come at `now`. */
  ghost predicate Due(e: Envelope, now: Instant, off: int) {
    PlansReminders(e) && e.start.value - off > now
  }

  /** Planning only adds pending rows, each from one of the plans. */
  lemma {:induction false} PlansAdd(t: Table, e: Envelope, now: Instant, offsets: seq<int>, k: Key)
    requires PlansReminders(e)
    ensures var u := Exec(t, ReminderPlans(e, now, offsets));
            && (k in t ==> k in u && u[k] == t[k])
            && (k !in t ==> (k in u <==> exists off :: off in offsets && Due(e, now, off) && k == ReminderKey(e, off)))
            && (k !in t && k in u ==>
                  && k == ReminderKey(e, k.event.offset)
                  && var due := e.start.value - k.event.offset;
                     u[k] == Row(e.appointment, due, due, 0, Pending))
    decreases |offsets|
  {
    if offsets != [] {
      var n := |offsets| - 1;
      PlansAdd(t, e, now, offsets[..n], k);
      assert offsets == offsets[..n] + [offsets[n]];
      assert forall off :: off in offsets <==> off in offsets[..n] || off == offsets[n];
      var plans := ReminderPlans(e, now, offsets);
      if Due(e, now, offsets[n]) {
        assert plans[..|plans| - 1] == ReminderPlans(e, now, offsets[..n]);
      } else {
        assert plans == ReminderPlans(e, now, offsets[..n]);
      }
    }
  }

  lemma CompleteSplits(t: Table, e: Envelope, planned: Instant, now: Instant, offsets: seq<int>)
    requires WellFormed(e) && PlansReminders(e)
    ensures Exec(t, Script(e, planned, now, offsets)) ==
            Exec(Exec(t, Opening(e, planned)), ReminderPlans(e, now, offsets))
  {
    ExecJoin(t, Opening(e, planned), ReminderPlans(e, now, offsets));
  }

  /** The opening, key by key. */
  lemma OpeningAt(t: Table, e: Envelope, planned: Instant, k: Key)
    requires WellFormed(e) && KindOf(e.kind).Some?
    ensures var u := Exec(t, Opening(e, planned));
            && (k in u <==> k in t || k == EventKey(e))
            && (k !in t && k == EventKey(e) ==> u[k] == Row(e.appointment, planned, planned, 0, Pending))
            && (k in t ==>
                  u[k] == if CancelsReminders(e) && IsReminderOf(t, k, e.tenant, e.appointment) && t[k].status.Pending?
                          then t[k].(status := Cancelled) else t[k])
  {
    var opening := Opening(e, planned);
    ExecPrefix(t, opening, 0);
    if CancelsReminders(e) {
      ExecPrefix(t, opening, 1);
      assert opening[..2] == opening;
    } else {
      assert opening[..1] == opening;
    }
  }

  /** A complete handling, key by key. */
  lemma CompleteAt(t: Table, e: Envelope, planned: Instant, now: Instant, offsets: seq<int>, k: Key)
    requires WellFormed(e) && KindOf(e.kind).Some?
    ensures var u := Exec(t, Script(e, planned, now, offsets));
            && (k in t ==> k in u)
            && (k in t ==>
                  u[k] == if CancelsReminders(e) && IsReminderOf(t, k, e.tenant, e.appointment) && t[k].status.Pending?
                          then t[k].(status := Cancelled) else t[k])
            && (k == EventKey(e) ==> k in u)
            && (k !in t && k == EventKey(e) ==> u[k] == Row(e.appointment, planned, planned, 0, Pending))
            && (k !in t && k in u && k != EventKey(e) ==>
                  && PlansReminders(e) && k.event.Derived? && k == ReminderKey(e, k.event.offset)
                  && var at := e.start.value - k.event.offset;
                     u[k] == Row(e.appointment, at, at, 0, Pending))
            && (forall off :: off in offsets && Due(e, now, off) && k == ReminderKey(e, off) ==> k in u)
  {
    OpeningAt(t, e, planned, k);
    if PlansReminders(e) {
      CompleteSplits(t, e, planned, now, offsets);
      PlansAdd(Exec(t, Opening(e, planned)), e, now, offsets, k);
    } else {
      assert Script(e, planned, now, offsets) == Opening(e, planned);
    }
  }

  /** A complete handling tells the customer what it should, and touches nothing else. */
  lemma CompleteTells(t: Table, e: Envelope, planned: Instant, now: Instant, offsets: seq<int>)
    requires WellFormed(e)
    ensures Told(t, Exec(t, Script(e, planned, now, offsets)), e, planned, now, offsets)
  {
    if KindOf(e.kind).Some? {
      var u := Exec(t, Script(e, planned, now, offsets));
      forall k
        ensures k in t ==> k in u
        ensures k in t ==>
                  u[k] == if CancelsReminders(e) && IsReminderOf(t, k, e.tenant, e.appointment) && t[k].status.Pending?
                          then t[k].(status := Cancelled) else t[k]
        ensures k in u && k !in t ==>
                  k.tenant == e.tenant && k.event.event == e.id && (k == EventKey(e) || k.event.Derived?)
      {
        CompleteAt(t, e, planned, now, offsets, k);
      }
      CompleteAt(t, e, planned, now, offsets, EventKey(e));
      if PlansReminders(e) {
        forall off | off in offsets && now < e.start.value - off
          ensures var k := Key(e.tenant, Derived(e.id, off), Reminder);
                  var at := e.start.value - off;
                  k in u && (k !in t ==> u[k] == Row(e.appointment, at, at, 0, Pending))
        {
          assert Due(e, now, off);
          CompleteAt(t, e, planned, now, offsets, ReminderKey(e, off));
        }
      }
    }
  }

  lemma SuccessTells(t: Table, e: Envelope, luck: Luck)
    requires Succeeds(e, luck)
    ensures Told(t, Exec(t, Effect(e, luck)), e, luck.planned, luck.now, Offsets(luck))
  {
    var script := Script(e, luck.planned, luck.now, Offsets(luck));
    assert script[..|script|] == script;
    CompleteTells(t, e, luck.planned, luck.now, Offsets(luck));
  }
}
