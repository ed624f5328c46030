/**
 Idempotent booking under every interleaving. BookingService.Create is split at each point where another
 request can run: the replay look-up, the outside checks, and inside the transaction the advisory lock, the
 look-up under the lock, the insert (still uncommitted) and the commit. A call may stop at any point; its
 transaction then rolls back and its lock is released.
 */
module BookingProtocol {
  import opened Appointments
  import Runs = AppointmentRuns

  type CallId = nat

  datatype Pc =
    | Arrived   // request validated, nothing looked up
    | Checking  // no stored result: branch, barber, service and slot are being checked
    | Begun     // transaction open, waiting for the advisory lock
    | Locked    // lock held
    | Missed    // lock held, the key is not recorded
    | Inserted  // lock held, row inserted but not committed

  datatype Call = Call(id: Uuid, req: Request, svc: Service, k: KeyId, fingerprint: string, pc: Pc) {
    function Row(): Row {
      NewRow(id, k.tenant, req, Derive(req.start, svc))
    }
    predicate HoldsLock() {
      pc.Locked? || pc.Missed? || pc.Inserted?
    }
  }

  /** `epoch` counts how often retention removed a key; `e` below is the epoch in which something happened. */
  datatype Creation = Creation(k: KeyId, e: nat, id: Uuid)
  datatype Reply = Reply(k: KeyId, e: nat, fingerprint: string, id: Uuid)

  datatype Sys = Sys(
    db: Db, calls: map<CallId, Call>, locks: map<int, CallId>, epoch: map<KeyId, nat>,
    created: set<Creation>, replies: set<Reply>)
  {
    function Epoch(k: KeyId): nat {
      EpochOf(epoch, k)
    }
  }

  const INIT: Sys := Sys(EMPTY, map[], map[], map[], {}, {})

  datatype Action =
    | Arrive(c: CallId, call: Call)
    | Replay(c: CallId)
    | Begin(c: CallId)
    | Lock(c: CallId)
    | LookUp(c: CallId)
    | Insert(c: CallId)
    | Commit(c: CallId)
    | Stop(c: CallId)
    | Other(op: Runs.Op)
    | Expire(expired: set<KeyId>)

  /** The lock is taken on a 64-bit hash of the key; different keys may share it. */
  type LockHash = KeyId -> int

  predicate At(s: Sys, c: CallId, pc: Pc) {
    c in s.calls && s.calls[c].pc == pc
  }

  /** The insert of call `c` meets an uncommitted row of another transaction and has to wait for it. */
  ghost predicate Waits(s: Sys, r: Row, c: CallId) {
    exists c' :: c' in s.calls && c' != c && s.calls[c'].pc.Inserted?
      && (Clash(s.calls[c'].Row(), r) || s.calls[c'].id == r.id)
  }

  ghost predicate Enabled(h: LockHash, s: Sys, a: Action) {
    match a
    case Arrive(c, call) => c !in s.calls && call.pc.Arrived? && call.k.key != ""
    case Replay(c) => At(s, c, Arrived)
    case Begin(c) => At(s, c, Checking)
    case Lock(c) => At(s, c, Begun) && h(s.calls[c].k) !in s.locks
    case LookUp(c) => At(s, c, Locked)
    case Insert(c) => At(s, c, Missed) && !Waits(s, s.calls[c].Row(), c)
    case Commit(c) => At(s, c, Inserted)
    case Stop(c) => c in s.calls
    case Other(op) =>
      && (op.SetStatus? || op.Move?)
      && forall c :: c in s.calls && s.calls[c].pc.Inserted? ==>
          !Excluded(Runs.Apply(s.db, op).rows, s.calls[c].Row()) && s.calls[c].id !in Runs.Apply(s.db, op).rows
    case Expire(_) => true
  }

  function Goto(s: Sys, c: CallId, pc: Pc): Sys
    requires c in s.calls
  {
    s.(calls := s.calls[c := s.calls[c].(pc := pc)])
  }

  /** The call returns or its process dies: transaction and lock are gone. */
  function End(s: Sys, c: CallId): Sys {
    s.(calls := s.calls - {c}, locks := map l | l in s.locks && s.locks[l] != c :: s.locks[l])
  }

  /** Answer from the recorded key, if the fingerprint agrees. */
  function Answer(s: Sys, c: CallId): Sys
    requires c in s.calls && s.calls[c].k in s.db.keys
  {
    var call := s.calls[c];
    var o := ReplayTx(s.db, call.k, call.fingerprint);
    if o.Ok? then End(s.(replies := s.replies + {Reply(call.k, s.Epoch(call.k), call.fingerprint, o.row.id)}), c)
    else End(s, c)
  }

  function Commit(s: Sys, c: CallId): Sys
    requires c in s.calls
  {
    var call := s.calls[c];
    var r, e := call.Row(), s.Epoch(call.k);
    var db := Db(s.db.rows[call.id := r], s.db.keys[call.k := KeyRow(call.fingerprint, call.id)],
                 s.db.events + [EventOf(r, EvCreated)], s.db.outbox + [EventOf(r, EvCreated)]);
    End(s.(db := db,
           created := s.created + {Creation(call.k, e, call.id)},
           replies := s.replies + {Reply(call.k, e, call.fingerprint, call.id)}), c)
  }

  ghost function Next(h: LockHash, s: Sys, a: Action): Sys
    requires Enabled(h, s, a)
  {
    match a
    case Arrive(c, call) => s.(calls := s.calls[c := call])
    case Replay(c) => if s.calls[c].k in s.db.keys then Answer(s, c) else Goto(s, c, Checking)
    case Begin(c) => Goto(s, c, Begun)
    case Lock(c) => Goto(s.(locks := s.locks[h(s.calls[c].k) := c]), c, Locked)
    case LookUp(c) => if s.calls[c].k in s.db.keys then Answer(s, c) else Goto(s, c, Missed)
    case Insert(c) =>
      var r := s.calls[c].Row();
      if !Checked(r) || r.id in s.db.rows || Excluded(s.db.rows, r) then End(s, c) else Goto(s, c, Inserted)
    case Commit(c) => Commit(s, c)
    case Stop(c) => End(s, c)
    case Other(op) => s.(db := Runs.Apply(s.db, op))
    case Expire(expired) =>
      s.(db := Runs.Apply(s.db, Runs.ExpireKeys(expired)),
         epoch := map k | k in s.epoch.Keys + (expired * s.db.keys.Keys) ::
           s.Epoch(k) + if k in expired && k in s.db.keys then 1 else 0)
  }

  ghost predicate Possible(h: LockHash, s: Sys, actions: seq<Action>)
    decreases |actions|
  {
    actions == [] || (Enabled(h, s, actions[0]) && Possible(h, Next(h, s, actions[0]), actions[1..]))
  }

  ghost function Run(h: LockHash, s: Sys, actions: seq<Action>): Sys
    requires Possible(h, s, actions)
    decreases |actions|
  {
    if actions == [] then s else Run(h, Next(h, s, actions[0]), actions[1..])
  }

  // ---------------------------------------------------------------- invariant

  /** A lock holder owns its lock, and between a miss and the commit nobody else records its key. */
  ghost predicate LocksHeld(h: LockHash, s: Sys) {
    forall c :: c in s.calls ==>
      && s.calls[c].k.key != ""
      && (s.calls[c].HoldsLock() ==> h(s.calls[c].k) in s.locks && s.locks[h(s.calls[c].k)] == c)
      && (s.calls[c].pc.Missed? || s.calls[c].pc.Inserted? ==> s.calls[c].k !in s.db.keys)
  }

  /** Uncommitted rows fit beside the committed rows and beside each other. */
  ghost predicate StagedFits(rows: map<Uuid, Row>, calls: map<CallId, Call>) {
    && (forall c :: c in calls && calls[c].pc.Inserted? ==>
          Checked(calls[c].Row()) && calls[c].id !in rows && !Excluded(rows, calls[c].Row()))
    && (forall c, c' :: c in calls && c' in calls && c != c' && calls[c].pc.Inserted? && calls[c'].pc.Inserted? ==>
          calls[c].id != calls[c'].id && !Clash(calls[c].Row(), calls[c'].Row()))
  }

  function EpochOf(epoch: map<KeyId, nat>, k: KeyId): nat {
    if k in epoch then epoch[k] else 0
  }

  /** The recorded key is what the current epoch created and answered; older epochs are closed. */
  ghost predicate Recorded(
      keys: map<KeyId, KeyRow>, epoch: map<KeyId, nat>, created: set<Creation>, replies: set<Reply>)
  {
    && (forall x :: x in created ==> x.e <= EpochOf(epoch, x.k))
    && (forall x :: x in created && x.e == EpochOf(epoch, x.k) ==> x.k in keys && keys[x.k].appointment == x.id)
    && (forall x :: x in replies ==> x.e <= EpochOf(epoch, x.k))
    && (forall x :: x in replies && x.e == EpochOf(epoch, x.k) ==>
      x.k in keys && keys[x.k] == KeyRow(x.fingerprint, x.id))
    && (forall k :: k in keys ==> Creation(k, EpochOf(epoch, k), keys[k].appointment) in created)
    && (forall k :: k in keys ==> Reply(k, EpochOf(epoch, k), keys[k].fingerprint, keys[k].appointment) in replies)
  }

  ghost predicate Unique(created: set<Creation>, replies: set<Reply>) {
    && (forall x, y :: x in created && y in created && x.k == y.k && x.e == y.e ==> x == y)
    && (forall x, y :: x in replies && y in replies && x.k == y.k && x.e == y.e ==> x == y)
    && (forall x :: x in replies ==> Creation(x.k, x.e, x.id) in created)
  }

  ghost predicate Books(s: Sys) {
    Recorded(s.db.keys, s.epoch, s.created, s.replies) && Unique(s.created, s.replies)
  }

  /** The stored appointments are exactly the created ones. */
  ghost predicate AllCreated(rows: map<Uuid, Row>, created: set<Creation>) {
    rows.Keys == set x | x in created :: x.id
  }

  ghost predicate Inv(h: LockHash, s: Sys) {
    && Runs.Valid(s.db) && LocksHeld(h, s) && StagedFits(s.db.rows, s.calls) && Books(s)
    && AllCreated(s.db.rows, s.created)
  }

  /** The commit of the split transaction is exactly the atomic Create on the store as it is at that moment. */
  lemma CommitIsAtomicCreate(h: LockHash, s: Sys, c: CallId)
    requires Inv(h, s) && At(s, c, Inserted)
    ensures
      var call := s.calls[c];
      CreateTx(s.db, call.id, call.req, Derive(call.req.start, call.svc), call.k, call.fingerprint)
        == (Commit(s, c).db, Ok(call.Row()))
  {
    assert s.calls[c].k.key != "" && s.calls[c].k !in s.db.keys;
  }

  /** The store operations a protocol step performs: none, or one whole transaction. */
  ghost function Effect(s: Sys, a: Action): seq<Runs.Op>
    requires a.Commit? ==> a.c in s.calls
  {
    match a
    case Commit(c) => [Runs.Book(s.calls[c].id, s.calls[c].req, s.calls[c].svc, s.calls[c].k, s.calls[c].fingerprint)]
    case Other(op) => [op]
    case Expire(expired) => [Runs.ExpireKeys(expired)]
    case _ => []
  }

  lemma RunOne(d: Db, op: Runs.Op)
    ensures Runs.Run(d, [op]) == Runs.Apply(d, op)
  {
  }

  /** Only a commit, another operation or retention changes the tables. */
  lemma OthersKeepDb(h: LockHash, s: Sys, a: Action)
    requires Enabled(h, s, a) && !a.Commit? && !a.Other? && !a.Expire?
    ensures Next(h, s, a).db == s.db
  {
  }

  lemma CommitRefinesStore(h: LockHash, s: Sys, c: CallId)
    requires Inv(h, s) && At(s, c, Inserted)
    ensures Commit(s, c).db == Runs.Run(s.db, Effect(s, Action.Commit(c)))
  {
    RunOne(s.db, Effect(s, Action.Commit(c))[0]);
    CommitIsAtomicCreate(h, s, c);
  }

  lemma StepRefinesStore(h: LockHash, s: Sys, a: Action)
    requires Inv(h, s) && Enabled(h, s, a)
    ensures Next(h, s, a).db == Runs.Run(s.db, Effect(s, a))
  {
    if a.Commit? {
      CommitRefinesStore(h, s, a.c);
    } else if a.Other? {
      RunOne(s.db, a.op);
    } else if a.Expire? {
      RunOne(s.db, Runs.ExpireKeys(a.expired));
    } else {
      OthersKeepDb(h, s, a);
    }
  }

  lemma EndKeepsLocks(h: LockHash, s: Sys, c: CallId)
    requires LocksHeld(h, s)
    ensures LocksHeld(h, End(s, c))
  {
  }

  lemma CommitKeepsLocks(h: LockHash, s: Sys, c: CallId)
    requires LocksHeld(h, s) && At(s, c, Inserted)
    ensures LocksHeld(h, Commit(s, c))
  {
  }

  /** Moving one call on keeps the locks if it owns its lock wherever it now has to. */
  lemma GotoKeepsLocks(h: LockHash, s: Sys, c: CallId, pc: Pc)
    requires LocksHeld(h, s) && c in s.calls
    requires
      var call := s.calls[c].(pc := pc);
      call.HoldsLock() ==> s.calls[c].HoldsLock() && (pc.Locked? || call.k !in s.db.keys)
    ensures LocksHeld(h, Goto(s, c, pc))
  {
  }

  lemma LockKeepsLocks(h: LockHash, s: Sys, c: CallId)
    requires LocksHeld(h, s) && Enabled(h, s, Lock(c))
    ensures LocksHeld(h, Next(h, s, Lock(c)))
  {
  }

  lemma FewerKeysKeepLocks(h: LockHash, s: Sys, s': Sys)
    requires LocksHeld(h, s) && s'.calls == s.calls && s'.locks == s.locks && s'.db.keys.Keys <= s.db.keys.Keys
    ensures LocksHeld(h, s')
  {
  }

  lemma StepKeepsLocks(h: LockHash, s: Sys, a: Action)
    requires LocksHeld(h, s) && Enabled(h, s, a)
    ensures LocksHeld(h, Next(h, s, a))
  {
    var s' := Next(h, s, a);
    match a
    case Arrive(c, call) =>
    case Replay(c) =>
      if s.calls[c].k in s.db.keys { EndKeepsLocks(h, s, c); } else { GotoKeepsLocks(h, s, c, Checking); }
    case Begin(c) => GotoKeepsLocks(h, s, c, Begun);
    case Lock(c) => LockKeepsLocks(h, s, c);
    case LookUp(c) =>
      if s.calls[c].k in s.db.keys { EndKeepsLocks(h, s, c); } else { GotoKeepsLocks(h, s, c, Missed); }
    case Insert(c) => if s' == End(s, c) { EndKeepsLocks(h, s, c); } else { GotoKeepsLocks(h, s, c, Inserted); }
    case Stop(c) => EndKeepsLocks(h, s, c);
    case Commit(c) => CommitKeepsLocks(h, s, c);
    case Other(op) => FewerKeysKeepLocks(h, s, s');
    case Expire(expired) => FewerKeysKeepLocks(h, s, s');
  }

  lemma FewerStaged(rows: map<Uuid, Row>, calls: map<CallId, Call>, calls': map<CallId, Call>)
    requires StagedFits(rows, calls)
    requires forall c :: c in calls' && calls'[c].pc.Inserted? ==> c in calls && calls'[c] == calls[c]
    ensures StagedFits(rows, calls')
  {
  }

  lemma CommitKeepsStaged(s: Sys, c: CallId)
    requires StagedFits(s.db.rows, s.calls) && At(s, c, Inserted)
    ensures StagedFits(Commit(s, c).db.rows, Commit(s, c).calls)
  {
  }

  lemma InsertKeepsStaged(s: Sys, c: CallId)
    requires StagedFits(s.db.rows, s.calls) && At(s, c, Missed)
    requires Checked(s.calls[c].Row()) && s.calls[c].id !in s.db.rows && !Excluded(s.db.rows, s.calls[c].Row())
    requires !Waits(s, s.calls[c].Row(), c)
    ensures StagedFits(s.db.rows, Goto(s, c, Inserted).calls)
  {
  }

  lemma StepKeepsStaged(h: LockHash, s: Sys, a: Action)
    requires StagedFits(s.db.rows, s.calls) && Enabled(h, s, a)
    ensures StagedFits(Next(h, s, a).db.rows, Next(h, s, a).calls)
  {
    var s' := Next(h, s, a);
    if a.Commit? {
      CommitKeepsStaged(s, a.c);
    } else if a.Insert? {
      if s'.calls == s.calls - {a.c} { FewerStaged(s.db.rows, s.calls, s'.calls); } else { InsertKeepsStaged(s, a.c); }
    } else if !a.Other? {
      OthersKeepRows(h, s, a);
      FewerStaged(s.db.rows, s.calls, s'.calls);
    }
  }

  lemma OthersKeepRows(h: LockHash, s: Sys, a: Action)
    requires Enabled(h, s, a) && !a.Commit? && !a.Insert? && !a.Other?
    ensures Next(h, s, a).db.rows == s.db.rows
    ensures forall c :: c in Next(h, s, a).calls && Next(h, s, a).calls[c].pc.Inserted? ==>
              c in s.calls && Next(h, s, a).calls[c] == s.calls[c]
  {
  }

  lemma AnswerKeepsBooks(s: Sys, c: CallId)
    requires Books(s) && c in s.calls && s.calls[c].k in s.db.keys
    requires forall id :: id in s.db.rows ==> s.db.rows[id].id == id
    ensures Books(Answer(s, c))
  {
    var call := s.calls[c];
    if ReplayTx(s.db, call.k, call.fingerprint).Ok? {
      var x := Reply(call.k, s.Epoch(call.k), call.fingerprint, s.db.keys[call.k].appointment);
      assert s.replies + {x} == s.replies;
    }
  }

  lemma RecordNewKey(
      keys: map<KeyId, KeyRow>, epoch: map<KeyId, nat>, created: set<Creation>, replies: set<Reply>,
      k: KeyId, fp: string, id: Uuid)
    requires Recorded(keys, epoch, created, replies) && k !in keys
    ensures Recorded(keys[k := KeyRow(fp, id)], epoch,
      created + {Creation(k, EpochOf(epoch, k), id)}, replies + {Reply(k, EpochOf(epoch, k), fp, id)})
  {
  }

  lemma CommitKeepsBooks(s: Sys, c: CallId)
    requires Books(s) && c in s.calls && s.calls[c].k !in s.db.keys
    ensures Books(Commit(s, c))
  {
    var call, e := s.calls[c], s.Epoch(s.calls[c].k);
    RecordNewKey(s.db.keys, s.epoch, s.created, s.replies, call.k, call.fingerprint, call.id);
    assert forall x :: x in s.created ==> !(x.k == call.k && x.e == e);
    assert forall x :: x in s.replies ==> !(x.k == call.k && x.e == e);
    NewStaysUnique(s.created, s.replies, call.k, e, call.fingerprint, call.id);
  }

  lemma NewStaysUnique(created: set<Creation>, replies: set<Reply>, k: KeyId, e: nat, fp: string, id: Uuid)
    requires Unique(created, replies)
    requires forall x :: x in created ==> !(x.k == k && x.e == e)
    requires forall x :: x in replies ==> !(x.k == k && x.e == e)
    ensures Unique(created + {Creation(k, e, id)}, replies + {Reply(k, e, fp, id)})
  {
  }

  lemma CloseEpochs(
      keys: map<KeyId, KeyRow>, epoch: map<KeyId, nat>, epoch': map<KeyId, nat>,
      created: set<Creation>, replies: set<Reply>, expired: set<KeyId>)
    requires Recorded(keys, epoch, created, replies)
    requires forall k :: EpochOf(epoch', k) == EpochOf(epoch, k) + if k in expired && k in keys then 1 else 0
    ensures Recorded(keys - expired, epoch', created, replies)
  {
  }

  lemma ExpireKeepsBooks(h: LockHash, s: Sys, expired: set<KeyId>)
    requires Books(s)
    ensures Books(Next(h, s, Expire(expired)))
  {
    CloseEpochs(s.db.keys, s.epoch, Next(h, s, Expire(expired)).epoch, s.created, s.replies, expired);
  }

  lemma StepKeepsBooks(h: LockHash, s: Sys, a: Action)
    requires Books(s) && LocksHeld(h, s) && Enabled(h, s, a)
    requires forall id :: id in s.db.rows ==> s.db.rows[id].id == id
    ensures Books(Next(h, s, a))
  {
    if (a.Replay? || a.LookUp?) && s.calls[a.c].k in s.db.keys {
      AnswerKeepsBooks(s, a.c);
    } else if a.Commit? {
      CommitKeepsBooks(s, a.c);
    } else if a.Expire? {
      ExpireKeepsBooks(h, s, a.expired);
    } else {
      OthersKeepBooks(h, s, a);
    }
  }

  lemma OthersKeepBooks(h: LockHash, s: Sys, a: Action)
    requires Enabled(h, s, a) && !a.Commit? && !a.Expire?
    requires !((a.Replay? || a.LookUp?) && s.calls[a.c].k in s.db.keys)
    ensures var s' := Next(h, s, a);
            s'.db.keys == s.db.keys && s'.epoch == s.epoch && s'.created == s.created && s'.replies == s.replies
  {
  }

  lemma StepKeepsCreated(h: LockHash, s: Sys, a: Action)
    requires AllCreated(s.db.rows, s.created) && Enabled(h, s, a)
    requires forall id :: id in s.db.rows ==> s.db.rows[id].id == id
    ensures AllCreated(Next(h, s, a).db.rows, Next(h, s, a).created)
  {
  }

  lemma StepKeepsInv(h: LockHash, s: Sys, a: Action)
    requires Inv(h, s) && Enabled(h, s, a)
    ensures Inv(h, Next(h, s, a))
  {
    StepRefinesStore(h, s, a);
    Runs.RunKeepsValid(s.db, Effect(s, a));
    StepKeepsLocks(h, s, a);
    StepKeepsStaged(h, s, a);
    StepKeepsBooks(h, s, a);
    StepKeepsCreated(h, s, a);
  }

  lemma {:induction false} RunKeepsInv(h: LockHash, s: Sys, actions: seq<Action>)
    requires Inv(h, s) && Possible(h, s, actions)
    ensures Inv(h, Run(h, s, actions))
    decreases |actions|
  {
    if actions != [] {
      StepKeepsInv(h, s, actions[0]);
      RunKeepsInv(h, Next(h, s, actions[0]), actions[1..]);
    }
  }

  // ---------------------------------------------------------------- theorems over every interleaving

  lemma Initially(h: LockHash)
    ensures Inv(h, INIT)
  {
  }

  /** Every stored appointment was created under one key and epoch, and no other was created under it. */
  lemma OneAppointmentPerKey(h: LockHash, actions: seq<Action>, id: Uuid) returns (x: Creation)
    requires Possible(h, INIT, actions)
    requires id in Run(h, INIT, actions).db.rows
    ensures x in Run(h, INIT, actions).created && x.id == id
    ensures forall y :: y in Run(h, INIT, actions).created && y.k == x.k && y.e == x.e ==> y.id == id
  {
    Initially(h);
    RunKeepsInv(h, INIT, actions);
    x :| x in Run(h, INIT, actions).created && x.id == id;
  }

  /** All successful calls of one key agree on the fingerprint and return the one appointment created for it. */
  lemma SuccessfulCallsAgree(h: LockHash, actions: seq<Action>, x: Reply, y: Reply)
    requires Possible(h, INIT, actions)
    requires x in Run(h, INIT, actions).replies && y in Run(h, INIT, actions).replies
    requires x.k == y.k && x.e == y.e
    ensures x.fingerprint == y.fingerprint && x.id == y.id
    ensures Creation(x.k, x.e, x.id) in Run(h, INIT, actions).created
  {
    Initially(h);
    RunKeepsInv(h, INIT, actions);
  }

  lemma {:induction false} RepliesGrow(h: LockHash, s: Sys, actions: seq<Action>)
    requires Possible(h, s, actions)
    ensures s.replies <= Run(h, s, actions).replies
    decreases |actions|
  {
    if actions != [] {
      RepliesGrow(h, Next(h, s, actions[0]), actions[1..]);
    }
  }

  /** Once a key is recorded, no later call with another fingerprint succeeds while it is retained. */
  lemma RecordedFingerprintWins(h: LockHash, s: Sys, actions: seq<Action>, k: KeyId, x: Reply)
    requires Inv(h, s) && k in s.db.keys && Possible(h, s, actions)
    requires x in Run(h, s, actions).replies && x.k == k && x.e == s.Epoch(k)
    ensures x.fingerprint == s.db.keys[k].fingerprint && x.id == s.db.keys[k].appointment
  {
    RunKeepsInv(h, s, actions);
    RepliesGrow(h, s, actions);
    assert Reply(k, s.Epoch(k), s.db.keys[k].fingerprint, s.db.keys[k].appointment) in Run(h, s, actions).replies;
  }

  lemma AnswerMeaning(s: Sys, c: CallId)
    requires c in s.calls && s.calls[c].k in s.db.keys
    requires var id := s.db.keys[s.calls[c].k].appointment;
             id in s.db.rows && s.db.rows[id].id == id && s.db.rows[id].tenant == s.calls[c].k.tenant
    ensures var s', call, stored := Answer(s, c), s.calls[c], s.db.keys[s.calls[c].k];
            && c !in s'.calls && s'.db == s.db
            && (stored.fingerprint == call.fingerprint ==>
                  Reply(call.k, s.Epoch(call.k), call.fingerprint, stored.appointment) in s'.replies)
            && (stored.fingerprint != call.fingerprint ==> s'.replies == s.replies)
  {
  }

  /** A call that finds its key recorded, before or under the lock, is over, changes no table, and is answered with the
      recorded appointment exactly when the fingerprint agrees. */
  lemma RecordedKeyAnswers(h: LockHash, s: Sys, a: Action)
    requires Runs.Valid(s.db) && Enabled(h, s, a) && (a.Replay? || a.LookUp?) && s.calls[a.c].k in s.db.keys
    ensures var s', call, stored := Next(h, s, a), s.calls[a.c], s.db.keys[s.calls[a.c].k];
            && a.c !in s'.calls && s'.db == s.db
            && (stored.fingerprint == call.fingerprint ==>
                  Reply(call.k, s.Epoch(call.k), call.fingerprint, stored.appointment) in s'.replies)
            && (stored.fingerprint != call.fingerprint ==> s'.replies == s.replies)
  {
    AnswerMeaning(s, a.c);
    assert Next(h, s, a) == Answer(s, a.c);
  }

  /** A commit stores the appointment as the call asked for it, with the times of its service, and answers with it. */
  lemma CommitStoresRequest(h: LockHash, s: Sys, c: CallId)
    requires Inv(h, s) && Enabled(h, s, Action.Commit(c))
    ensures var s', call := Next(h, s, Action.Commit(c)), s.calls[c];
            && call.id in s'.db.rows && call.id !in s.db.rows
            && AsAsked(s'.db.rows[call.id], call.id, call.k.tenant, call.req, Derive(call.req.start, call.svc))
            && Runs.TimedFor(s'.db.rows[call.id], call.req.start, call.svc)
            && call.k in s'.db.keys && s'.db.keys[call.k] == KeyRow(call.fingerprint, call.id)
            && Reply(call.k, s.Epoch(call.k), call.fingerprint, call.id) in s'.replies
  {
  }

  /** Every interleaving is a run of whole store transactions, so it never double-books either. */
  lemma {:induction false} RunRefinesStore(h: LockHash, s: Sys, actions: seq<Action>) returns (ops: seq<Runs.Op>)
    requires Inv(h, s) && Possible(h, s, actions)
    ensures Run(h, s, actions).db == Runs.Run(s.db, ops)
    decreases |actions|
  {
    if actions == [] {
      return [];
    }
    StepRefinesStore(h, s, actions[0]);
    StepKeepsInv(h, s, actions[0]);
    var rest := RunRefinesStore(h, Next(h, s, actions[0]), actions[1..]);
    ops := Effect(s, actions[0]) + rest;
    if Effect(s, actions[0]) == [] {
      assert ops == rest;
    } else {
      assert ops[1..] == rest;
    }
  }
}
