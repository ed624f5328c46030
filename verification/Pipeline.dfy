/**
 The event pipeline from end to end: committed appointment changes, several outbox publishers with expiring leases,
 the broker's stream, and the notification store. Any interleaving of their single steps is a run.
 */
module Pipeline {
  import opened Wrappers
  import opened Outbox
  import A = Appointments
  import AR = AppointmentRuns
  import N = Notifications
  import NR = NotificationRuns

  datatype Phase = Claimed | Acked | Refused
  datatype Held = Held(phase: Phase, since: Instant)

  /** One event in the hands of one publisher process. */
  datatype Task = Task(publisher: nat, id: Uuid)

  /** `acked` holds the events the broker acknowledged, `stream` the events it stored. An outbox row's id is its
      position in the order of commits, counted from 1. */
  datatype Sys = Sys(
    db: A.Db, rows: Rows, tasks: map<Task, Held>, acked: set<Uuid>, stream: set<Uuid>, table: N.Table)

  const START: Sys := Sys(A.EMPTY, map[], map[], {}, {}, map[])

  datatype Action =
    | Commit(op: AR.Op)
    | TakeBatch(publisher: nat, chosen: set<Uuid>, now: Instant)
    | Publish(publisher: nat, id: Uuid, acked: bool, stored: bool)
    | MarkDone(publisher: nat, id: Uuid, now: Instant, ok: bool)
    | GiveBack(publisher: nat, id: Uuid, now: Instant, ok: bool)
    | Crash(publisher: nat)
    | Cleanup(chosen: set<Uuid>, now: Instant)
    | Consume(step: NR.Step)

  function EnvelopeOf(id: Uuid, r: A.Record): N.Envelope {
    N.Envelope(id, r.tenant, r.appointment, 1, r.kind, Some(r.payload.start))
  }

  predicate Committed(s: Sys, id: Uuid) {
    1 <= id <= |s.db.outbox|
  }

  /** `e` is the message of an event on the stream. */
  predicate Delivered(s: Sys, e: N.Envelope) {
    e.id in s.stream && Committed(s, e.id) && e == EnvelopeOf(e.id, s.db.outbox[e.id - 1])
  }

  predicate InPhase(s: Sys, publisher: nat, id: Uuid, phase: Phase) {
    Task(publisher, id) in s.tasks && s.tasks[Task(publisher, id)].phase == phase
  }

  ghost predicate Enabled(s: Sys, a: Action) {
    match a
    case Commit(_) => true
    case TakeBatch(p, chosen, now) =>
      && (forall t :: t in s.tasks ==> t.publisher != p)
      && |chosen| <= BATCH
      && (forall id :: id in chosen ==> id in s.rows && Claimable(s.rows[id], now))
    case Publish(p, id, acked, stored) => InPhase(s, p, id, Claimed) && (acked ==> stored)
    case MarkDone(p, id, _, _) => InPhase(s, p, id, Acked)
    case GiveBack(p, id, _, _) => InPhase(s, p, id, Refused)
    case Crash(_) => true
    case Cleanup(chosen, now) => forall id :: id in chosen ==> id in s.rows && Expired(s.rows[id], now)
    case Consume(step) => step.Write? || step.Terminal? ==> Delivered(s, step.e)
  }

  function Next(s: Sys, a: Action): Sys {
    match a
    case Commit(op) =>
      var d := AR.Apply(s.db, op);
      var n := |d.outbox|;
      s.(db := d, rows := if n > |s.db.outbox| then s.rows[n := Fresh(d.outbox[n - 1])] else s.rows)
    case TakeBatch(p, chosen, now) =>
      s.(rows := Claim(s.rows, chosen, now),
         tasks := s.tasks + map id | id in chosen :: Task(p, id) := Held(Claimed, now))
    case Publish(p, id, acked, stored) =>
      if Task(p, id) !in s.tasks then s else
      s.(tasks := s.tasks[Task(p, id) := Held(if acked then Acked else Refused, s.tasks[Task(p, id)].since)],
         acked := if acked then s.acked + {id} else s.acked,
         stream := if stored then s.stream + {id} else s.stream)
    case MarkDone(p, id, now, ok) =>
      s.(rows := if ok then Mark(s.rows, id, now) else s.rows, tasks := s.tasks - {Task(p, id)})
    case GiveBack(p, id, now, ok) =>
      s.(rows := if ok then Release(s.rows, id, now) else s.rows, tasks := s.tasks - {Task(p, id)})
    case Crash(p) => s.(tasks := map t | t in s.tasks && t.publisher != p :: s.tasks[t])
    case Cleanup(chosen, _) => s.(rows := s.rows - chosen)
    case Consume(step) => s.(table := NR.Apply(s.table, step))
  }

  ghost predicate Possible(s: Sys, run: seq<Action>)
    decreases |run|
  {
    run == [] || (Enabled(s, run[0]) && Possible(Next(s, run[0]), run[1..]))
  }

  function Run(s: Sys, run: seq<Action>): Sys
    decreases |run|
  {
    if run == [] then s else Run(Next(s, run[0]), run[1..])
  }

  // ---------------------------------------------------------------- conservation

  ghost predicate Known(n: nat, id: Uuid) {
    1 <= id <= n
  }

  /** Every row is the committed event of its id. */
  ghost predicate RowsMatch(outbox: seq<A.Record>, rows: Rows) {
    forall id :: id in rows ==> Known(|outbox|, id) && rows[id].record == outbox[id - 1]
  }

  /** An event whose row is gone or marked was acknowledged, and what is acknowledged is on the stream. */
  ghost predicate AckedOrKept(n: nat, rows: Rows, acked: set<Uuid>, stream: set<Uuid>) {
    && (forall id :: Known(n, id) && id !in rows ==> id in acked)
    && (forall id :: id in rows && rows[id].published.Some? ==> id in acked)
    && acked <= stream && (forall id :: id in stream ==> Known(n, id))
  }

  /** What is about to be marked was acknowledged. */
  ghost predicate TasksKnown(n: nat, tasks: map<Task, Held>, acked: set<Uuid>) {
    forall t :: t in tasks ==> Known(n, t.id) && (tasks[t].phase.Acked? ==> t.id in acked)
  }

  /** A row is terminal exactly after twenty refused attempts. */
  ghost predicate TwentyRefusals(rows: Rows) {
    forall id :: id in rows ==> (rows[id].failed.Some? <==> rows[id].attempts >= MAX_ATTEMPTS)
  }

  ghost predicate Ledger(s: Sys) {
    && RowsMatch(s.db.outbox, s.rows)
    && AckedOrKept(|s.db.outbox|, s.rows, s.acked, s.stream)
    && TasksKnown(|s.db.outbox|, s.tasks, s.acked)
    && TwentyRefusals(s.rows)
  }

  /** A transaction appends at most one outbox row and changes none. */
  lemma CommitAppends(d: A.Db, op: AR.Op)
    ensures d.outbox <= AR.Apply(d, op).outbox && |AR.Apply(d, op).outbox| <= |d.outbox| + 1
  {
  }

  lemma StepKeepsLedger(s: Sys, a: Action)
    requires Ledger(s) && Enabled(s, a)
    ensures Ledger(Next(s, a))
  {
    match a
    case Commit(op) => CommitKeepsLedger(s, op);
    case TakeBatch(p, chosen, now) => TakeKeepsLedger(s, p, chosen, now);
    case Publish(_, _, _, _) =>
    case MarkDone(p, id, now, ok) => MarkKeepsLedger(s, p, id, now, ok);
    case GiveBack(p, id, now, ok) => GiveBackKeepsLedger(s, p, id, now, ok);
    case Crash(_) =>
    case Cleanup(chosen, now) => CleanupKeepsLedger(s, chosen, now);
    case Consume(_) =>
  }

  lemma CommitKeepsLedger(s: Sys, op: AR.Op)
    requires Ledger(s)
    ensures Ledger(Next(s, Commit(op)))
  {
    CommitAppends(s.db, op);
  }

  lemma TakeKeepsLedger(s: Sys, p: nat, chosen: set<Uuid>, now: Instant)
    requires Ledger(s) && Enabled(s, TakeBatch(p, chosen, now))
    ensures Ledger(Next(s, TakeBatch(p, chosen, now)))
  {
  }

  lemma MarkKeepsLedger(s: Sys, p: nat, id: Uuid, now: Instant, ok: bool)
    requires Ledger(s) && Enabled(s, MarkDone(p, id, now, ok))
    ensures Ledger(Next(s, MarkDone(p, id, now, ok)))
  {
  }

  lemma GiveBackKeepsLedger(s: Sys, p: nat, id: Uuid, now: Instant, ok: bool)
    requires Ledger(s) && Enabled(s, GiveBack(p, id, now, ok))
    ensures Ledger(Next(s, GiveBack(p, id, now, ok)))
  {
  }

  lemma CleanupKeepsLedger(s: Sys, chosen: set<Uuid>, now: Instant)
    requires Ledger(s) && Enabled(s, Cleanup(chosen, now))
    ensures Ledger(Next(s, Cleanup(chosen, now)))
  {
  }

  // ---------------------------------------------------------------- tracing notifications to events

  /** The notification that belongs to an event. */
  ghost predicate Announces(n: N.Kind, kind: A.EventKind) {
    match n
    case NCreated => kind == A.EvCreated
    case NRescheduled => kind == A.EvRescheduled
    case NCancelled => kind == A.EvCancelled
    case NConfirmed => kind == A.EvConfirmed
    case Reminder => false
  }

  /** The notification row `k` comes from a committed event on the stream, and says what that event says. */
  ghost predicate Traced(s: Sys, k: N.Key)
    requires k in s.table
  {
    var id := k.event.event;
    && id in s.stream && Committed(s, id)
    && var r := s.db.outbox[id - 1];
    && k.tenant == r.tenant && s.table[k].appointment == r.appointment
    && (match k.event
        case Base(_) => Announces(k.kind, r.kind)
        case Derived(_, off) =>
          && k.kind == N.Reminder && (r.kind.EvCreated? || r.kind.EvRescheduled?)
          && s.table[k].scheduled == r.payload.start - off)
  }

  ghost predicate AllTraced(s: Sys) {
    forall k :: k in s.table ==> Traced(s, k)
  }

  lemma StepKeepsTraced(s: Sys, a: Action)
    requires AllTraced(s) && Enabled(s, a)
    ensures AllTraced(Next(s, a))
  {
    if a.Commit? {
      CommitAppends(s.db, a.op);
    } else if a.Consume? {
      var n := Next(s, a);
      forall k | k in n.table
        ensures Traced(n, k)
      {
        if k in s.table {
          NR.ApplyGrows(s.table, a.step);
        } else {
          NR.StepWrote(s.table, a.step, k);
        }
      }
    }
  }

  lemma {:induction false} RunKeeps(s: Sys, run: seq<Action>)
    requires Ledger(s) && AllTraced(s) && Possible(s, run)
    ensures Ledger(Run(s, run)) && AllTraced(Run(s, run))
    decreases |run|
  {
    if run != [] {
      StepKeepsLedger(s, run[0]);
      StepKeepsTraced(s, run[0]);
      RunKeeps(Next(s, run[0]), run[1..]);
    }
  }

  /** Where a committed event is: waiting, acknowledged by the broker, or given up after twenty refusals; nothing
      committed is ever lost on the way. */
  lemma EventsAreConserved(run: seq<Action>, id: Uuid)
    requires Possible(START, run) && Committed(Run(START, run), id)
    ensures var s := Run(START, run);
            && (id !in s.rows ==> id in s.acked)
            && (id in s.rows ==>
                  && s.rows[id].record == s.db.outbox[id - 1]
                  && (s.rows[id].published.Some? ==> id in s.acked)
                  && (s.rows[id].failed.Some? <==> s.rows[id].attempts >= 20)
                  && (Pending(s.rows[id]) ==> exists t :: Recovers(s.rows[id], t)))
            && s.acked <= s.stream
  {
    RunKeeps(START, run);
    var s := Run(START, run);
    if id in s.rows && Pending(s.rows[id]) {
      var t := if s.rows[id].publishing.None? then 0 else s.rows[id].publishing.value + LEASE + 1;
      assert Recovers(s.rows[id], t);
    }
  }

  /** A published row stays, as it was marked, for thirty days. */
  lemma {:induction false} PublishedRowsStay(s: Sys, run: seq<Action>, id: Uuid, t: Instant)
    requires Ledger(s) && Possible(s, run) && id in s.rows && s.rows[id].published == Some(t)
    requires forall a :: a in run && a.Cleanup? ==> a.now <= t + 30 * 86_400_000_000_000
    ensures var u := Run(s, run); id in u.rows && u.rows[id].published == Some(t)
    decreases |run|
  {
    if run != [] {
      assert run[0] in run;
      StepKeepsLedger(s, run[0]);
      PublishedStep(s, run[0], id);
      PublishedRowsStay(Next(s, run[0]), run[1..], id, t);
    }
  }

  lemma PublishedStep(s: Sys, a: Action, id: Uuid)
    requires Ledger(s) && Enabled(s, a) && id in s.rows && s.rows[id].published.Some?
    requires a.Cleanup? ==> a.now <= s.rows[id].published.value + RETENTION
    ensures id in Next(s, a).rows && Next(s, a).rows[id].published == s.rows[id].published
  {
  }

  /** From time t on the row can be claimed, whoever crashed while holding it. */
  ghost predicate Recovers(r: OutRow, t: Instant) {
    forall now :: now >= t ==> Claimable(r, now)
  }

  /** Under any duplicate publishes, redeliveries and failures, every notification is traceable to a committed
      event, and there is one row per event and type (per event and offset for reminders). */
  lemma NotificationsAreTraced(run: seq<Action>, k: N.Key, m: N.Key)
    requires Possible(START, run)
    requires k in Run(START, run).table && m in Run(START, run).table
    ensures Traced(Run(START, run), k)
    ensures k.event == m.event ==> k == m
  {
    RunKeeps(START, run);
    assert Traced(Run(START, run), m);
  }

  /** What is on the stream can be handled: the message of a committed event carries its tenant, appointment, kind and
      start, and a complete handling of it tells the customer so. */
  lemma CommittedEventIsTold(
      s: Sys, id: Uuid, t: N.Table, planned: Instant, now: Instant, offsets: seq<int>)
    requires Committed(s, id) && s.db.outbox[id - 1].tenant != 0 && s.db.outbox[id - 1].appointment != 0
    ensures var r := s.db.outbox[id - 1];
            var e := N.Envelope(id, r.tenant, r.appointment, 1, r.kind, Some(r.payload.start));
            && EnvelopeOf(id, r) == e
            && N.Told(t, N.Exec(t, N.Script(EnvelopeOf(id, r), planned, now, offsets)), e, planned, now, offsets)
  {
    N.CompleteTells(t, EnvelopeOf(id, s.db.outbox[id - 1]), planned, now, offsets);
  }

  /** Sent and cancelled notifications are never overwritten by anything that happens in the pipeline. */
  lemma {:induction false} FinalNotificationsStay(s: Sys, run: seq<Action>, k: N.Key)
    requires k in s.table && NR.Final(s.table[k].status)
    ensures k in Run(s, run).table && Run(s, run).table[k] == s.table[k]
    decreases |run|
  {
    if run != [] {
      if run[0].Consume? {
        NR.ApplyGrows(s.table, run[0].step);
      }
      FinalNotificationsStay(Next(s, run[0]), run[1..], k);
    }
  }

  // ---------------------------------------------------------------- published and terminal at once

  /** No row is both published and terminal. */
  ghost predicate Exclusive(rows: Rows) {
    forall id :: id in rows ==> rows[id].published.None? || rows[id].failed.None?
  }

  /** Marking has no guard against terminal rows. */
  ghost predicate MarksTerminal(s: Sys, a: Action) {
    a.MarkDone? && a.ok && a.id in s.rows && s.rows[a.id].published.None? && s.rows[a.id].failed.Some?
  }

  /** That is the only way the two states come together. */
  lemma ExclusiveIff(s: Sys, a: Action)
    requires Ledger(s) && Exclusive(s.rows) && Enabled(s, a)
    ensures Exclusive(Next(s, a).rows) <==> !MarksTerminal(s, a)
  {
    var n := Next(s, a);
    if MarksTerminal(s, a) {
      assert n.rows[a.id].published.Some? && n.rows[a.id].failed.Some?;
    }
  }

  ghost predicate HeldOnce(tasks: map<Task, Held>) {
    forall t, u :: t in tasks && u in tasks && t.id == u.id ==> t == u
  }

  ghost predicate HeldPending(tasks: map<Task, Held>, rows: Rows) {
    forall t :: t in tasks ==> t.id in rows && Pending(rows[t.id]) && rows[t.id].publishing == Some(tasks[t].since)
  }

  /** Each held event is held once, and is still pending under its holder's lease. */
  ghost predicate Sole(s: Sys) {
    HeldOnce(s.tasks) && HeldPending(s.tasks, s.rows)
  }

  /** No batch takes an event that some publisher still holds. */
  ghost predicate Unshared(s: Sys, a: Action) {
    a.TakeBatch? ==> forall t :: t in s.tasks ==> t.id !in a.chosen
  }

  ghost predicate AllUnshared(s: Sys, run: seq<Action>)
    decreases |run|
  {
    run == [] || (Unshared(s, run[0]) && AllUnshared(Next(s, run[0]), run[1..]))
  }

  lemma StepKeepsSole(s: Sys, a: Action)
    requires Ledger(s) && Sole(s) && Enabled(s, a) && Unshared(s, a)
    ensures Sole(Next(s, a)) && !MarksTerminal(s, a)
  {
    if a.Commit? {
      CommitAppends(s.db, a.op);
    } else if a.TakeBatch? {
      TakeKeepsSole(s, a.publisher, a.chosen, a.now);
    } else if a.MarkDone? || a.GiveBack? {
      SettleKeepsSole(s, a, a.publisher, a.id);
    } else {
      OthersKeepSole(s, a);
    }
  }

  lemma OthersKeepSole(s: Sys, a: Action)
    requires Sole(s) && Enabled(s, a) && (a.Publish? || a.Crash? || a.Cleanup? || a.Consume?)
    ensures Sole(Next(s, a))
  {
  }

  lemma TakeKeepsSole(s: Sys, p: nat, chosen: set<Uuid>, now: Instant)
    requires Sole(s) && Enabled(s, TakeBatch(p, chosen, now)) && Unshared(s, TakeBatch(p, chosen, now))
    ensures Sole(Next(s, TakeBatch(p, chosen, now)))
  {
  }

  lemma SettleKeepsSole(s: Sys, a: Action, p: nat, id: Uuid)
    requires Sole(s) && Enabled(s, a) && (a.MarkDone? || a.GiveBack?) && a.publisher == p && a.id == id
    ensures Sole(Next(s, a)) && !MarksTerminal(s, a)
  {
  }

  /** While no held event is taken again, every committed event that is not expired is exactly one of pending,
      published with the broker's acknowledgement, or terminal. */
  lemma {:induction false} ExclusiveWhileUnshared(s: Sys, run: seq<Action>)
    requires Ledger(s) && Sole(s) && Exclusive(s.rows) && Possible(s, run) && AllUnshared(s, run)
    ensures Exclusive(Run(s, run).rows)
    decreases |run|
  {
    if run != [] {
      StepKeepsLedger(s, run[0]);
      StepKeepsSole(s, run[0]);
      ExclusiveIff(s, run[0]);
      ExclusiveWhileUnshared(Next(s, run[0]), run[1..]);
    }
  }

  /** A single publisher process never shares, however often it crashes and however slow it is. */
  lemma {:induction false} OnePublisherNeverShares(s: Sys, run: seq<Action>, p: nat)
    requires Possible(s, run)
    requires forall t :: t in s.tasks ==> t.publisher == p
    requires forall a :: a in run && a.TakeBatch? ==> a.publisher == p
    ensures AllUnshared(s, run)
    decreases |run|
  {
    if run != [] {
      assert run[0] in run;
      var n := Next(s, run[0]);
      assert forall t :: t in n.tasks ==> t.publisher == p;
      OnePublisherNeverShares(n, run[1..], p);
    }
  }

  /** Whenever a batch is taken, whatever is still held was claimed at most a minute ago. */
  ghost predicate Prompt(s: Sys, run: seq<Action>)
    decreases |run|
  {
    run == []
    || ((run[0].TakeBatch? ==> forall t :: t in s.tasks ==> s.tasks[t].since >= run[0].now - LEASE)
        && Prompt(Next(s, run[0]), run[1..]))
  }

  /** Several publishers that settle their events within the lease do not share either. */
  lemma {:induction false} PromptPublishersNeverShare(s: Sys, run: seq<Action>)
    requires Ledger(s) && Sole(s) && Possible(s, run) && Prompt(s, run)
    ensures AllUnshared(s, run)
    decreases |run|
  {
    if run != [] {
      assert Unshared(s, run[0]);
      StepKeepsLedger(s, run[0]);
      StepKeepsSole(s, run[0]);
      PromptPublishersNeverShare(Next(s, run[0]), run[1..]);
    }
  }

  lemma {:induction false} RunJoin(s: Sys, a: seq<Action>, b: seq<Action>)
    ensures Run(s, a + b) == Run(Run(s, a), b)
    ensures Possible(s, a) && Possible(Run(s, a), b) ==> Possible(s, a + b)
    decreases |a|
  {
    if a == [] {
      assert a + b == b;
    } else {
      assert (a + b)[1..] == a[1..] + b && (a + b)[0] == a[0];
      RunJoin(Next(s, a[0]), a[1..], b);
    }
  }

  lemma OneStep(s: Sys, a: Action)
    requires Enabled(s, a)
    ensures Possible(s, [a]) && Run(s, [a]) == Next(s, a)
  {
  }

  // ---------------------------------------------------------------- the publisher's batch is a run

  /** Publisher p still has to publish the events of its batch from position i on. */
  ghost predicate HoldsFrom(s: Sys, p: nat, batch: seq<Uuid>, i: nat) {
    forall j :: i <= j < |batch| ==> InPhase(s, p, batch[j], Claimed)
  }

  /** Settling one event of the batch takes two steps. */
  lemma SettleIsRun(s: Sys, p: nat, batch: seq<Uuid>, i: nat, f: Fate) returns (run: seq<Action>)
    requires i < |batch| && HoldsFrom(s, p, batch, i)
    requires forall j :: i < j < |batch| ==> batch[j] != batch[i]
    ensures Possible(s, run)
    ensures Run(s, run).rows == Settle(s.rows, batch[i], f) && HoldsFrom(Run(s, run), p, batch, i + 1)
  {
    var id := batch[i];
    var a := Publish(p, id, f.acked, f.acked);
    var b := if f.acked then MarkDone(p, id, f.at, f.stored) else GiveBack(p, id, f.at, f.stored);
    assert InPhase(s, p, id, Claimed);
    var s1 := Next(s, a);
    assert InPhase(s1, p, id, if f.acked then Acked else Refused) && s1.rows == s.rows;
    OneStep(s, a);
    OneStep(s1, b);
    RunJoin(s, [a], [b]);
    run := [a] + [b];
  }

  /** Settling the first n events of a claimed batch. */
  lemma {:induction false} SettlingIsRun(
      s: Sys, p: nat, batch: seq<Uuid>, fates: seq<Fate>, n: nat)
    returns (run: seq<Action>)
    requires |batch| == |fates| && n <= |batch| && HoldsFrom(s, p, batch, 0)
    requires forall i, j :: 0 <= i < j < |batch| ==> batch[i] != batch[j]
    ensures Possible(s, run) && HoldsFrom(Run(s, run), p, batch, n)
    ensures Run(s, run).rows == SettleAll(s.rows, batch[..n], fates[..n])
    decreases n
  {
    run := [];
    if n > 0 {
      var first := SettlingIsRun(s, p, batch, fates, n - 1);
      var last := SettleIsRun(Run(s, first), p, batch, n - 1, fates[n - 1]);
      RunJoin(s, first, last);
      run := first + last;
      assert batch[..n][..n - 1] == batch[..n - 1] && fates[..n][..n - 1] == fates[..n - 1];
    }
  }

  /** What PublishBatch does to the rows is what some run of the system does, so all that is proved of runs holds
      of the publisher. */
  lemma BatchIsRun(
      s: Sys, p: nat, batch: seq<Uuid>, fates: seq<Fate>, now: Instant)
    returns (run: seq<Action>)
    requires |batch| == |fates| && forall i, j :: 0 <= i < j < |batch| ==> batch[i] != batch[j]
    requires Enabled(s, TakeBatch(p, (set id | id in batch), now))
    ensures Possible(s, run)
    ensures Run(s, run).rows == SettleAll(Claim(s.rows, (set id | id in batch), now), batch, fates)
  {
    var take := TakeBatch(p, (set id | id in batch), now);
    var t := Next(s, take);
    assert HoldsFrom(t, p, batch, 0);
    OneStep(s, take);
    var rest := SettlingIsRun(t, p, batch, fates, |batch|);
    assert batch[..|batch|] == batch && fates[..|fates|] == fates;
    RunJoin(s, [take], rest);
    run := [take] + rest;
  }

  // ---------------------------------------------------------------- two publishers and one row

  const LATE: Instant := 2 * LEASE

  /** Publisher 1 holds event 1 past its lease while publisher 2 is refused until the row is terminal. */
  ghost predicate Stalled(s: Sys, n: nat) {
    && s.tasks == map[Task(1, 1) := Held(Claimed, 0)] && 1 in s.rows
    && s.rows[1].attempts + n == MAX_ATTEMPTS && s.rows[1].published.None? && (s.rows[1].failed.Some? <==> n == 0)
    && (s.rows[1].publishing.None? || s.rows[1].publishing.value == 0)
  }

  lemma RefusedOnce(s: Sys, n: nat) returns (run: seq<Action>)
    requires Stalled(s, n) && n > 0
    ensures Possible(s, run) && Stalled(Run(s, run), n - 1)
  {
    var a, b, c := TakeBatch(2, {1}, LATE), Publish(2, 1, false, false), GiveBack(2, 1, LATE, true);
    var s1 := Next(s, a);
    var s2 := Next(s1, b);
    var s3 := Next(s2, c);
    RefusalSteps(s, n);
    OneStep(s, a);
    OneStep(s1, b);
    OneStep(s2, c);
    RunJoin(s, [a], [b]);
    RunJoin(s, [a] + [b], [c]);
    run := [a] + [b] + [c];
  }

  lemma RefusalSteps(s: Sys, n: nat)
    requires Stalled(s, n) && n > 0
    ensures var a, b, c := TakeBatch(2, {1}, LATE), Publish(2, 1, false, false), GiveBack(2, 1, LATE, true);
            var s1 := Next(s, a);
            var s2 := Next(s1, b);
            Enabled(s, a) && Enabled(s1, b) && Enabled(s2, c) && Stalled(Next(s2, c), n - 1)
  {
  }

  lemma {:induction false} RefusedUntilTerminal(s: Sys, n: nat) returns (run: seq<Action>)
    requires Stalled(s, n)
    ensures Possible(s, run) && Stalled(Run(s, run), 0)
    decreases n
  {
    run := [];
    if n > 0 {
      var first := RefusedOnce(s, n);
      var rest := RefusedUntilTerminal(Run(s, first), n - 1);
      RunJoin(s, first, rest);
      run := first + rest;
    }
  }

  const BOOKING: AR.Op :=
    AR.Book(1, A.Request(1, 1, 1, "", 0), A.Service(30, 0, 0), A.KeyId(1, "", "", ""), "")

  lemma BookedOnce()
    ensures var s := Next(START, Commit(BOOKING));
            s.tasks == map[] && s.rows.Keys == {1} && s.rows[1] == Fresh(s.db.outbox[0])
  {
    var d := AR.Apply(A.EMPTY, BOOKING);
    assert |d.outbox| == 1;
  }

  /** The opening of the run: one booking, taken by publisher 1 at time 0. */
  lemma TakenOnce() returns (run: seq<Action>)
    ensures Possible(START, run) && Stalled(Run(START, run), MAX_ATTEMPTS)
  {
    var a, b := Commit(BOOKING), TakeBatch(1, {1}, 0);
    var s := Next(START, a);
    BookedOnce();
    assert Next(s, b).tasks == map[Task(1, 1) := Held(Claimed, 0)];
    OneStep(START, a);
    OneStep(s, b);
    RunJoin(START, [a], [b]);
    run := [a] + [b];
  }

  /** Two publishers can make a row both published and terminal. */
  lemma PublishedAndTerminal() returns (run: seq<Action>)
    ensures Possible(START, run) && !Exclusive(Run(START, run).rows)
  {
    var first := TakenOnce();
    var s := Run(START, first);
    var middle := RefusedUntilTerminal(s, MAX_ATTEMPTS);
    var t := Run(s, middle);
    var a, b := Publish(1, 1, true, true), MarkDone(1, 1, LATE, true);
    var t1 := Next(t, a);
    assert InPhase(t1, 1, 1, Acked) && t1.rows == t.rows;
    var u := Next(t1, b);
    assert u.rows[1].published.Some? && u.rows[1].failed.Some?;
    OneStep(t, a);
    OneStep(t1, b);
    RunJoin(t, [a], [b]);
    var last := [a] + [b];
    RunJoin(s, middle, last);
    RunJoin(START, first, middle + last);
    run := first + (middle + last);
  }
}
