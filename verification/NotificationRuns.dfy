/**
 Whole runs of the notification store: any interleaving of the single writes of any deliveries, by any number of
 consumers, with terminal failures and the delivery worker's claims and reports in between.
 */
module NotificationRuns {
  import opened Notifications

  /** `Write` is the i-th write of some delivery of `e` that looked at the clock at `now` and read the tenant's
      `offsets`. Writes may be missing, repeated or out of order, so cut-off, duplicated and concurrent deliveries are
      all covered, and every delivery may read other offsets. */
  datatype Step =
    | Write(e: Envelope, planned: Instant, now: Instant, offsets: seq<int>, i: nat)
    | Terminal(e: Envelope, at: Instant)
    | Take(k: Key, at: Instant, token: Uuid)
    | Report(k: Key, token: Uuid, d: Delivery)

  function Apply(t: Table, s: Step): Table {
    match s
    case Write(e, planned, now, offsets, i) =>
      var script := Script(e, planned, now, offsets);
      if i < |script| then Perform(t, script[i]) else t
    case Terminal(e, at) => MarkTerminal(t, e, at)
    case Take(k, at, token) => Claim(t, k, at, token)
    case Report(k, token, d) => Finish(t, k, token, d)
  }

  function Run(t: Table, steps: seq<Step>): Table {
    if steps == [] then t else Apply(Run(t, steps[..|steps| - 1]), steps[|steps| - 1])
  }

  lemma {:induction false} RunJoin(t: Table, a: seq<Step>, b: seq<Step>)
    ensures Run(t, a + b) == Run(Run(t, a), b)
    decreases |b|
  {
    if b == [] {
      assert a + b == a;
    } else {
      var c, n := a + b, |b| - 1;
      assert c[|c| - 1] == b[n] && c[..|c| - 1] == a + b[..n];
      RunJoin(t, a, b[..n]);
      RunLast(t, c);
      RunLast(Run(t, a), b);
    }
  }

  lemma RunLast(t: Table, steps: seq<Step>)
    requires steps != []
    ensures Run(t, steps) == Apply(Run(t, steps[..|steps| - 1]), steps[|steps| - 1])
  {
  }

  /** The first n writes of one delivery, as steps. */
  function Writes(e: Envelope, planned: Instant, now: Instant, offsets: seq<int>, n: nat): seq<Step> {
    seq(n, i requires 0 <= i => Write(e, planned, now, offsets, i))
  }

  /** A delivery that is cut off after any number of writes is a run. */
  lemma {:induction false} DeliveryIsRun(
      t: Table, e: Envelope, planned: Instant, now: Instant, offsets: seq<int>, n: nat)
    requires n <= |Script(e, planned, now, offsets)|
    ensures Run(t, Writes(e, planned, now, offsets, n)) == Exec(t, Script(e, planned, now, offsets)[..n])
    decreases n
  {
    if n > 0 {
      var steps := Writes(e, planned, now, offsets, n);
      assert steps[..n - 1] == Writes(e, planned, now, offsets, n - 1);
      DeliveryIsRun(t, e, planned, now, offsets, n - 1);
      ExecPrefix(t, Script(e, planned, now, offsets), n - 1);
    }
  }

  // ---------------------------------------------------------------- what a script contains

  ghost predicate PlansAt(e: Envelope, now: Instant, offsets: seq<int>, off: int, a: Action) {
    off in offsets && Due(e, now, off) && a == DoPlan(ReminderKey(e, off), e.appointment, e.start.value - off)
  }

  lemma {:induction false} PlansMeaning(e: Envelope, now: Instant, offsets: seq<int>, a: Action)
    requires PlansReminders(e)
    ensures a in ReminderPlans(e, now, offsets) <==> exists off :: PlansAt(e, now, offsets, off, a)
    decreases |offsets|
  {
    if offsets != [] {
      var n := |offsets| - 1;
      PlansMeaning(e, now, offsets[..n], a);
      assert offsets == offsets[..n] + [offsets[n]];
      assert forall off :: PlansAt(e, now, offsets, off, a) ==>
        off == offsets[n] || PlansAt(e, now, offsets[..n], off, a);
      assert forall off :: PlansAt(e, now, offsets[..n], off, a) ==> PlansAt(e, now, offsets, off, a);
      var due := e.start.value - offsets[n];
      if due > now && a == DoPlan(ReminderKey(e, offsets[n]), e.appointment, due) {
        assert PlansAt(e, now, offsets, offsets[n], a);
      }
    }
  }

  /** What one write of a delivery can be. */
  lemma ScriptMeaning(e: Envelope, planned: Instant, now: Instant, offsets: seq<int>, a: Action)
    requires a in Script(e, planned, now, offsets)
    ensures WellFormed(e) && KindOf(e.kind).Some?
    ensures || a == DoPlan(EventKey(e), e.appointment, planned)
            || (CancelsReminders(e) && a == DoCancel(e.tenant, e.appointment))
            || exists off :: PlansAt(e, now, offsets, off, a)
  {
    if WellFormed(e) && PlansReminders(e) {
      PlansMeaning(e, now, offsets, a);
    }
  }

  // ---------------------------------------------------------------- every run

  ghost predicate Final(s: Status) {
    s.Sent? || s.Cancelled?
  }

  /** Keys are never removed, a row keeps its appointment and its time, and final rows stay as they are. */
  ghost predicate Grows(t: Table, u: Table) {
    forall k :: k in t ==> k in u && u[k].appointment == t[k].appointment && u[k].scheduled == t[k].scheduled
                           && (Final(t[k].status) ==> u[k] == t[k])
  }

  /** Sent and cancelled rows are never overwritten, whatever is redelivered, failed, claimed or reported later. */
  lemma {:induction false} FinalRowsStay(t: Table, steps: seq<Step>)
    ensures Grows(t, Run(t, steps))
    decreases |steps|
  {
    if steps != [] {
      FinalRowsStay(t, steps[..|steps| - 1]);
      ApplyGrows(Run(t, steps[..|steps| - 1]), steps[|steps| - 1]);
    }
  }

  lemma ApplyGrows(t: Table, s: Step)
    ensures Grows(t, Apply(t, s))
  {
  }

  /** The step that can have inserted key `k`: the announcement of an event, one of its reminders, or the audit
      row of its terminal failure. */
  ghost predicate Wrote(s: Step, k: Key, r: Row) {
    && (s.Write? || s.Terminal?)
    && k.tenant == s.e.tenant && k.event.event == s.e.id && r.appointment == s.e.appointment
    && KindOf(s.e.kind).Some?
    && (match k.event
        case Base(_) => k == EventKey(s.e)
        case Derived(_, off) =>
          && s.Write? && k.kind == Reminder
          && off in s.offsets && Due(s.e, s.now, off)
          && r.scheduled == s.e.start.value - off)
  }

  lemma StepWrote(t: Table, s: Step, k: Key)
    requires k in Apply(t, s) && k !in t
    ensures Wrote(s, k, Apply(t, s)[k])
  {
    if s.Write? {
      var script := Script(s.e, s.planned, s.now, s.offsets);
      assert s.i < |script|;
      ScriptMeaning(s.e, s.planned, s.now, s.offsets, script[s.i]);
    }
  }

  /** Every row comes from an event: its key names the event it announces, so there is at most one row per event
      and type, and its appointment and time are those of that event. */
  lemma {:induction false} EveryRowHasItsEvent(t: Table, steps: seq<Step>, k: Key)
    requires k in Run(t, steps) && k !in t
    ensures exists j :: 0 <= j < |steps| && Wrote(steps[j], k, Run(t, steps)[k])
    decreases |steps|
  {
    var n := |steps| - 1;
    var u := Run(t, steps[..n]);
    if k in u {
      EveryRowHasItsEvent(t, steps[..n], k);
      var j :| 0 <= j < n && Wrote(steps[..n][j], k, u[k]);
      ApplyGrows(u, steps[n]);
      assert Wrote(steps[j], k, Run(t, steps)[k]);
    } else {
      StepWrote(u, steps[n], k);
      assert Wrote(steps[n], k, Run(t, steps)[k]);
    }
  }

  // ---------------------------------------------------------------- rescheduling

  /** A pending reminder of the appointment. */
  ghost predicate Waiting(t: Table, k: Key, tenant: Uuid, appointment: Uuid) {
    IsReminderOf(t, k, tenant, appointment) && t[k].status.Pending?
  }

  /** After the opening of a rescheduled event nothing is waiting, and only the event's own key can be new. */
  lemma OpeningClears(t: Table, e: Envelope, planned: Instant, k: Key)
    requires WellFormed(e) && CancelsReminders(e)
    ensures var u := Exec(t, Opening(e, planned));
            && (k in u <==> k in t || k == EventKey(e))
            && !Waiting(u, k, e.tenant, e.appointment)
            && (k in t ==> u[k].appointment == t[k].appointment)
  {
    var opening := Opening(e, planned);
    ExecPrefix(t, opening, 0);
    ExecPrefix(t, opening, 1);
    assert opening[..2] == opening;
  }

  /** A complete handling of a rescheduled event leaves waiting exactly the reminders whose key is new and whose
      time before the new start is still to come; none of the old start is left. */
  lemma RescheduleLeaves(t: Table, e: Envelope, planned: Instant, now: Instant, offsets: seq<int>, k: Key)
    requires WellFormed(e) && e.kind.EvRescheduled? && e.start.Some?
    ensures var u := Exec(t, Script(e, planned, now, offsets));
            && (Waiting(u, k, e.tenant, e.appointment) <==>
                k !in t && exists off :: off in offsets && Due(e, now, off) && k == ReminderKey(e, off))
            && (Waiting(u, k, e.tenant, e.appointment) ==> u[k].scheduled == e.start.value - k.event.offset)
  {
    CompleteSplits(t, e, planned, now, offsets);
    OpeningClears(t, e, planned, k);
    PlansAdd(Exec(t, Opening(e, planned)), e, now, offsets, k);
  }

  /** The reminders of a rescheduled event are those the customer should get: one per future offset. */
  ghost predicate RemindersRight(u: Table, e: Envelope, now: Instant, offsets: seq<int>) {
    forall k :: Waiting(u, k, e.tenant, e.appointment) <==>
                  exists off :: off in offsets && Due(e, now, off) && k == ReminderKey(e, off)
  }

  /** They are right exactly when no future reminder of this event had been planned before: a delivery that was cut
      off inside the reminder loop, or a duplicate, makes the next complete one lose what was planned. */
  lemma RescheduleRightIff(t: Table, e: Envelope, planned: Instant, now: Instant, offsets: seq<int>)
    requires WellFormed(e) && e.kind.EvRescheduled? && e.start.Some?
    ensures RemindersRight(Exec(t, Script(e, planned, now, offsets)), e, now, offsets) <==>
            forall off :: off in offsets && Due(e, now, off) ==> ReminderKey(e, off) !in t
  {
    var u := Exec(t, Script(e, planned, now, offsets));
    forall k
      ensures Waiting(u, k, e.tenant, e.appointment) <==>
              k !in t && exists off :: off in offsets && Due(e, now, off) && k == ReminderKey(e, off)
    {
      RescheduleLeaves(t, e, planned, now, offsets, k);
    }
    if off :| off in offsets && Due(e, now, off) && ReminderKey(e, off) in t {
      assert !Waiting(u, ReminderKey(e, off), e.tenant, e.appointment);
    }
  }

  /** A step of somebody else while `e` is being handled: another event, which may belong to the same appointment if
      it neither plans nor cancels reminders, an audit row, or the worker on other rows than the appointment's
      reminders. */
  ghost predicate Aside(t: Table, s: Step, e: Envelope) {
    match s
    case Write(f, _, _, _, _) =>
      && f.id != e.id
      && (f.tenant == e.tenant && f.appointment == e.appointment ==> !PlansReminders(f) && !CancelsReminders(f))
    case Terminal(_, _) => true
    case Take(k, _, _) => !IsReminderOf(t, k, e.tenant, e.appointment)
    case Report(k, _, _) => !IsReminderOf(t, k, e.tenant, e.appointment)
  }

  /** The first n writes of one delivery of `e`, in order, with any such steps before, between and after them. */
  ghost predicate Interleaved(
      t: Table, steps: seq<Step>, e: Envelope, planned: Instant, now: Instant, n: nat, offsets: seq<int>)
    decreases |steps|
  {
    if steps == [] then n == 0
    else
      var m := |steps| - 1;
      || (n > 0 && steps[m] == Write(e, planned, now, offsets, n - 1)
          && Interleaved(t, steps[..m], e, planned, now, n - 1, offsets))
      || (Aside(Run(t, steps[..m]), steps[m], e)
          && Interleaved(t, steps[..m], e, planned, now, n, offsets))
  }

  /** The two tables have the same reminders of e's appointment, and the same reminder keys of e itself. */
  ghost predicate Agree(u: Table, v: Table, e: Envelope) {
    && (forall k :: IsReminderOf(u, k, e.tenant, e.appointment) ==> k in v && v[k] == u[k])
    && (forall k :: IsReminderOf(v, k, e.tenant, e.appointment) ==> k in u && u[k] == v[k])
    && (forall off :: ReminderKey(e, off) in u <==> ReminderKey(e, off) in v)
  }

  lemma AsideKeepsAgree(u: Table, v: Table, s: Step, e: Envelope)
    requires Agree(u, v, e) && Aside(u, s, e)
    ensures Agree(Apply(u, s), v, e)
  {
    var w := Apply(u, s);
    forall k | k in w && k !in u
      ensures k.kind.Reminder? ==> !IsReminderOf(w, k, e.tenant, e.appointment) && k.event.event != e.id
    {
      StepWrote(u, s, k);
    }
    forall k | IsReminderOf(u, k, e.tenant, e.appointment)
      ensures k in w && w[k] == u[k]
    {
      AsideKeepsRow(u, s, e, k);
    }
    ApplyGrows(u, s);
  }

  lemma AsideKeepsRow(u: Table, s: Step, e: Envelope, k: Key)
    requires Aside(u, s, e) && IsReminderOf(u, k, e.tenant, e.appointment)
    ensures k in Apply(u, s) && Apply(u, s)[k] == u[k]
  {
    if s.Write? {
      var script := Script(s.e, s.planned, s.now, s.offsets);
      if s.i < |script| {
        ScriptMeaning(s.e, s.planned, s.now, s.offsets, script[s.i]);
      }
    }
  }

  lemma OwnKeepsAgree(u: Table, v: Table, e: Envelope, planned: Instant, now: Instant, offsets: seq<int>, a: Action)
    requires Agree(u, v, e) && a in Script(e, planned, now, offsets)
    ensures Agree(Perform(u, a), Perform(v, a), e)
  {
    ScriptMeaning(e, planned, now, offsets, a);
  }

  /** For the appointment's reminders an interleaved delivery is as good as an uninterrupted one. */
  lemma {:induction false} InterleavedAgrees(
      t: Table, steps: seq<Step>, e: Envelope, planned: Instant, now: Instant, n: nat, offsets: seq<int>)
    requires Interleaved(t, steps, e, planned, now, n, offsets) && n <= |Script(e, planned, now, offsets)|
    ensures Agree(Run(t, steps), Exec(t, Script(e, planned, now, offsets)[..n]), e)
    decreases |steps|
  {
    if steps != [] {
      var m, script := |steps| - 1, Script(e, planned, now, offsets);
      var u := Run(t, steps[..m]);
      RunLast(t, steps);
      if Aside(u, steps[m], e) && Interleaved(t, steps[..m], e, planned, now, n, offsets) {
        InterleavedAgrees(t, steps[..m], e, planned, now, n, offsets);
        AsideKeepsAgree(u, Exec(t, script[..n]), steps[m], e);
      } else {
        InterleavedAgrees(t, steps[..m], e, planned, now, n - 1, offsets);
        ExecPrefix(t, script, n - 1);
        OwnKeepsAgree(u, Exec(t, script[..n - 1]), e, planned, now, offsets, script[n - 1]);
      }
    }
  }

  /** In every run, the first delivery of a rescheduled event to get into the reminder loop, if handled to the end,
      leaves the right reminders, whatever other events are handled between its writes. */
  lemma FirstRescheduleIsRight(
      before: seq<Step>, steps: seq<Step>, e: Envelope, planned: Instant, now: Instant, offsets: seq<int>)
    requires WellFormed(e) && e.kind.EvRescheduled? && e.start.Some?
    requires forall j :: 0 <= j < |before| && before[j].Write? && before[j].e.id == e.id ==>
                           before[j].i < 2 && before[j].e == e
    requires var n := |Script(e, planned, now, offsets)|;
             Interleaved(Run(map[], before), steps, e, planned, now, n, offsets)
    ensures RemindersRight(Run(map[], before + steps), e, now, offsets)
  {
    var t, script := Run(map[], before), Script(e, planned, now, offsets);
    forall off | off in offsets && Due(e, now, off)
      ensures ReminderKey(e, off) !in t
    {
      NoReminderYet(before, e, off);
    }
    RescheduleRightIff(t, e, planned, now, offsets);
    InterleavedAgrees(t, steps, e, planned, now, |script|, offsets);
    assert script[..|script|] == script;
    RunJoin(map[], before, steps);
    AgreeRight(Run(t, steps), Exec(t, script), e, now, offsets);
  }

  lemma AgreeRight(u: Table, v: Table, e: Envelope, now: Instant, offsets: seq<int>)
    requires Agree(u, v, e) && RemindersRight(v, e, now, offsets)
    ensures RemindersRight(u, e, now, offsets)
  {
    assert forall k :: Waiting(u, k, e.tenant, e.appointment) <==> Waiting(v, k, e.tenant, e.appointment);
  }

  lemma {:induction false} NoReminderYet(steps: seq<Step>, e: Envelope, off: int)
    requires e.kind.EvRescheduled?
    requires forall j :: 0 <= j < |steps| && steps[j].Write? && steps[j].e.id == e.id ==>
      steps[j].i < 2 && steps[j].e == e
    ensures ReminderKey(e, off) !in Run(map[], steps)
    decreases |steps|
  {
    if steps != [] {
      var n := |steps| - 1;
      var k := ReminderKey(e, off);
      var t := Run(map[], steps[..n]);
      NoReminderYet(steps[..n], e, off);
      if k in Apply(t, steps[n]) {
        StepWrote(t, steps[n], k);
        assert false;
      }
    }
  }

  /** Handling the same rescheduled event to the end a second time, at a later clock and with no new offset, leaves
      no reminder at all. */
  lemma SecondDeliverySilences(
      t: Table, e: Envelope, p1: Instant, n1: Instant, offsets1: seq<int>,
      p2: Instant, n2: Instant, offsets2: seq<int>, k: Key)
    requires WellFormed(e) && e.kind.EvRescheduled? && e.start.Some? && n1 <= n2
    requires forall off :: off in offsets2 ==> off in offsets1
    ensures var u := Exec(t, Script(e, p1, n1, offsets1));
            !Waiting(Exec(u, Script(e, p2, n2, offsets2)), k, e.tenant, e.appointment)
  {
    var u := Exec(t, Script(e, p1, n1, offsets1));
    RescheduleLeaves(u, e, p2, n2, offsets2, k);
    if off :| off in offsets2 && Due(e, n2, off) && k == ReminderKey(e, off) {
      PlannedWhenComplete(t, e, p1, n1, offsets1, off);
    }
  }

  lemma PlannedWhenComplete(t: Table, e: Envelope, planned: Instant, now: Instant, offsets: seq<int>, off: int)
    requires WellFormed(e) && off in offsets && Due(e, now, off)
    ensures ReminderKey(e, off) in Exec(t, Script(e, planned, now, offsets))
  {
    CompleteSplits(t, e, planned, now, offsets);
    PlansAdd(Exec(t, Opening(e, planned)), e, now, offsets, ReminderKey(e, off));
  }

  // ---------------------------------------------------------------- cancelled stays silent

  /** One appointment, its events that plan reminders, a time by which these have been handled, and offsets that
      each of these handlings used. */
  datatype Story = Story(tenant: Uuid, appointment: Uuid, events: set<Envelope>, since: Instant, offsets: set<int>)

  /** No reminder of the appointment is pending; with `worker`, none is with the delivery worker either. */
  ghost predicate Quiet(t: Table, c: Story, worker: bool) {
    forall k :: IsReminderOf(t, k, c.tenant, c.appointment) ==>
                  !t[k].status.Pending? && (worker ==> !t[k].status.Processing?)
  }

  /** Every reminder of the events that was still to come has a row. */
  ghost predicate Covered(t: Table, c: Story) {
    forall e, off :: e in c.events && off in c.offsets && Due(e, c.since, off) ==> ReminderKey(e, off) in t
  }

  /** A later step. Its delivery looked at the clock no earlier than `since`; if its event belongs to the appointment
      and plans reminders, it is one of the events, with no new offset. All other events, the cancelled event itself
      among them, come as they like. Without the worker, no delivery report arrives. */
  ghost predicate Later(s: Step, c: Story, worker: bool) {
    match s
    case Write(e, _, now, offsets, _) =>
      e.tenant == c.tenant && e.appointment == c.appointment && PlansReminders(e) ==>
        c.since <= now && e in c.events && forall off :: off in offsets ==> off in c.offsets
    case Terminal(_, _) => true
    case Take(_, _, _) => true
    case Report(_, _, _) => worker
  }

  ghost predicate AllLater(after: seq<Step>, c: Story, worker: bool) {
    forall s :: s in after ==> Later(s, c, worker)
  }

  /** A row that a later step adds is no reminder of the appointment: those all have rows already. */
  lemma NotReminder(t: Table, s: Step, k: Key, c: Story, worker: bool)
    requires Covered(t, c) && Later(s, c, worker) && k in Apply(t, s) && k !in t
    ensures !IsReminderOf(Apply(t, s), k, c.tenant, c.appointment)
  {
    StepWrote(t, s, k);
    if k.event.Derived? {
      assert k == ReminderKey(s.e, k.event.offset);
      assert c.since <= s.now ==> Due(s.e, c.since, k.event.offset);
    }
  }

  lemma LaterStepQuiet(t: Table, s: Step, c: Story, worker: bool)
    requires Quiet(t, c, worker) && Covered(t, c) && Later(s, c, worker)
    ensures Quiet(Apply(t, s), c, worker)
  {
    var u := Apply(t, s);
    forall k | IsReminderOf(u, k, c.tenant, c.appointment)
      ensures !u[k].status.Pending? && (worker ==> !u[k].status.Processing?)
    {
      if k !in t {
        NotReminder(t, s, k, c, worker);
      } else {
        assert IsReminderOf(t, k, c.tenant, c.appointment);
      }
    }
  }

  lemma {:induction false} LaterStepsQuiet(t: Table, steps: seq<Step>, c: Story, worker: bool)
    requires Quiet(t, c, worker) && Covered(t, c) && AllLater(steps, c, worker)
    ensures Quiet(Run(t, steps), c, worker)
    decreases |steps|
  {
    if steps != [] {
      var n := |steps| - 1;
      LaterStepsQuiet(t, steps[..n], c, worker);
      FinalRowsStay(t, steps[..n]);
      LaterStepQuiet(Run(t, steps[..n]), steps[n], c, worker);
    }
  }

  /** All writes of one delivery of `e` are among the steps. */
  ghost predicate Done(steps: seq<Step>, e: Envelope, planned: Instant, now: Instant, offsets: seq<int>) {
    forall i :: 0 <= i < |Script(e, planned, now, offsets)| ==> Write(e, planned, now, offsets, i) in steps
  }

  /** Some delivery of `e` that looked at the clock by `since` and used these offsets got through all its writes. */
  ghost predicate Handled(steps: seq<Step>, e: Envelope, c: Story) {
    exists planned: Instant, now: Instant, offsets: seq<int> ::
      Done(steps, e, planned, now, offsets) && now <= c.since && forall off :: off in c.offsets ==> off in offsets
  }

  /** Once performed, a write's row is there for the rest of the run. */
  lemma {:induction false} WrittenStays(t: Table, steps: seq<Step>, s: Step)
    requires s in steps && s.Write? && s.i < |Script(s.e, s.planned, s.now, s.offsets)|
    requires Script(s.e, s.planned, s.now, s.offsets)[s.i].DoPlan?
    ensures Script(s.e, s.planned, s.now, s.offsets)[s.i].k in Run(t, steps)
    decreases |steps|
  {
    var n := |steps| - 1;
    if s != steps[n] {
      assert s in steps[..n];
      WrittenStays(t, steps[..n], s);
      ApplyGrows(Run(t, steps[..n]), steps[n]);
    }
  }

  lemma HandledCovers(t: Table, steps: seq<Step>, e: Envelope, c: Story, off: int)
    requires WellFormed(e) && Handled(steps, e, c) && off in c.offsets && Due(e, c.since, off)
    ensures ReminderKey(e, off) in Run(t, steps)
  {
    var planned: Instant, now: Instant, offsets: seq<int> :|
      Done(steps, e, planned, now, offsets) && now <= c.since && forall x :: x in c.offsets ==> x in offsets;
    var a := DoPlan(ReminderKey(e, off), e.appointment, e.start.value - off);
    assert PlansAt(e, now, offsets, off, a);
    PlansMeaning(e, now, offsets, a);
    var script := Script(e, planned, now, offsets);
    assert a in script;
    var i :| 0 <= i < |script| && script[i] == a;
    WrittenStays(t, steps, Write(e, planned, now, offsets, i));
  }

  /** The write of a cancelled event that cancels the reminders. */
  ghost predicate IsCancel(s: Step, c: Story) {
    && s.Write? && s.i == 1 && WellFormed(s.e) && s.e.kind.EvCancelled?
    && s.e.tenant == c.tenant && s.e.appointment == c.appointment
  }

  /** All planning events of the appointment are handled, and then the cancellation is written. */
  ghost predicate CancelledAfterAll(before: seq<Step>, cancel: Step, c: Story) {
    (forall e :: e in c.events ==> WellFormed(e) && Handled(before, e, c)) && IsCancel(cancel, c)
  }

  lemma AfterCancel(t: Table, before: seq<Step>, cancel: Step, c: Story)
    requires CancelledAfterAll(before, cancel, c)
    ensures var u := Run(t, before);
            && Covered(u, c)
            && Run(t, before + [cancel]) == CancelReminders(u, c.tenant, c.appointment)
  {
    forall e, off | e in c.events && off in c.offsets && Due(e, c.since, off)
      ensures ReminderKey(e, off) in Run(t, before)
    {
      HandledCovers(t, before, e, c, off);
    }
    assert (before + [cancel])[..|before|] == before;
  }

  /** Cancelled stays silent: no later redelivery, in any order and cut off anywhere, makes one of the
      appointment's reminders pending again. */
  lemma CancelledStaysSilent(t: Table, before: seq<Step>, cancel: Step, after: seq<Step>, c: Story)
    requires CancelledAfterAll(before, cancel, c) && AllLater(after, c, false)
    ensures Quiet(Run(t, before + [cancel] + after), c, false)
  {
    AfterCancel(t, before, cancel, c);
    LaterStepsQuiet(Run(t, before + [cancel]), after, c, false);
    RunJoin(t, before + [cancel], after);
  }

  /** A reminder of the appointment is with the delivery worker. */
  ghost predicate InFlight(t: Table, k: Key, c: Story) {
    IsReminderOf(t, k, c.tenant, c.appointment) && t[k].status.Processing?
  }

  /** The worker's report makes a reminder in flight pending, also after its cancellation. */
  lemma RetryWakes(t: Table, k: Key, c: Story) returns (after: seq<Step>)
    requires InFlight(t, k, c)
    ensures after == [Report(k, t[k].status.token, Retry(c.since))] && !Quiet(Run(t, after), c, false)
  {
    after := [Report(k, t[k].status.token, Retry(c.since))];
    assert after[..0] == [];
    assert Waiting(Run(t, after), k, c.tenant, c.appointment);
  }

  lemma CancelQuiets(t: Table, c: Story)
    requires forall k :: !InFlight(t, k, c)
    ensures Quiet(CancelReminders(t, c.tenant, c.appointment), c, true)
  {
    var w := CancelReminders(t, c.tenant, c.appointment);
    assert forall k :: IsReminderOf(w, k, c.tenant, c.appointment) ==>
      IsReminderOf(t, k, c.tenant, c.appointment) && !InFlight(t, k, c);
  }

  /** With the delivery worker also at work, silence is guaranteed exactly when no reminder of the appointment was
      in flight at the cancellation: the retry report of such a one makes it pending again. */
  lemma SilentWithWorkerIff(t: Table, before: seq<Step>, cancel: Step, c: Story)
    requires CancelledAfterAll(before, cancel, c)
    ensures (forall after :: AllLater(after, c, true) ==> Quiet(Run(t, before + [cancel] + after), c, false))
            <==> forall k :: !InFlight(Run(t, before), k, c)
  {
    AfterCancel(t, before, cancel, c);
    var u, w := Run(t, before), Run(t, before + [cancel]);
    if k :| InFlight(u, k, c) {
      var after := RetryWakes(w, k, c);
      assert AllLater(after, c, true);
      RunJoin(t, before + [cancel], after);
    } else {
      CancelQuiets(u, c);
      forall after | AllLater(after, c, true)
        ensures Quiet(Run(t, before + [cancel] + after), c, false)
      {
        LaterStepsQuiet(w, after, c, true);
        RunJoin(t, before + [cancel], after);
      }
    }
  }

  // ---------------------------------------------------------------- the delivery worker

  /** What a step does to a row that is there, as far as the worker is concerned: a row goes into work only by a claim
      of a due or abandoned row, for two minutes and with one more attempt; it is sent only on the report of the
      current claim; and only such a report makes it pending again. */
  lemma WorkerMeaning(t: Table, s: Step, k: Key)
    requires k in t
    ensures var a, b := t[k], Apply(t, s)[k];
            && k in Apply(t, s)
            && (b.status.Processing? && b != a ==>
                  && s.Take? && s.k == k && b.attempts == a.attempts + 1
                  && b.status == Processing(s.token, s.at + 120_000_000_000)
                  && (|| (a.status == Pending && a.scheduled <= s.at && a.nextAttempt <= s.at)
                      || (a.status.Processing? && a.status.leaseUntil < s.at)))
            && (b.status == Sent && a.status != Sent ==>
                  s.Report? && s.k == k && s.d == Delivered && a.status.Processing? && a.status.token == s.token)
            && (b.status == Pending && a.status != Pending ==>
                  && s.Report? && s.k == k && s.d.Retry? && b.nextAttempt == s.d.at
                  && a.status.Processing? && a.status.token == s.token)
  {
  }

  /** A due pending row, or one whose lease ran out, can always be claimed, and its report always counts. */
  lemma WorkerProgress(t: Table, k: Key, at: Instant, token: Uuid, d: Delivery)
    requires k in t
    requires || (t[k].status == Pending && t[k].scheduled <= at && t[k].nextAttempt <= at)
             || (t[k].status.Processing? && t[k].status.leaseUntil < at)
    ensures var u := Apply(t, Take(k, at, token));
            var w := Apply(u, Report(k, token, d));
            && u[k].status == Processing(token, at + 120_000_000_000)
            && w[k].status == match d case Delivered => Sent case Retry(_) => Pending case GaveUp => Failed
  {
  }
}
