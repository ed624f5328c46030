/**
 The cache-aside domain resolver of tenant-service. A lookup reads the cache, else the database, and then sets the
 cache for five minutes; an update commits and then deletes the cache entries of the hostnames it touched. Each of
 these is a step of its own, deletes and sets may fail, and any number of lookups and updates interleave.
 */
module DomainCache {
  import opened Wrappers
  import opened TenantDomains

  type Instant = int

  const TTL: int := 300_000_000_000

  // ---------------------------------------------------------------- updates and what they invalidate

  datatype Update =
    | UNewTenant(tenant: Uuid)
    | UTenantStatus(tenant: Uuid, active: bool)
    | UCreateDomain(tenant: Uuid, host: Host, app: AppType, hash: Token)
    | UMarkSucceeded(tenant: Uuid, host: Host)
    | UMarkFailed(tenant: Uuid, host: Host)
    | UActivate(tenant: Uuid, host: Host)
    | UDeactivate(tenant: Uuid, host: Host)

  function Commit(d: Db, u: Update): Db {
    match u
    case UNewTenant(tenant) => CreateTenant(d, tenant)
    case UTenantStatus(tenant, active) => SetTenantStatus(d, tenant, active)
    case UCreateDomain(tenant, host, app, hash) => CreateDomain(d, tenant, host, app, hash)
    case UMarkSucceeded(tenant, host) => MarkSucceeded(d, tenant, host)
    case UMarkFailed(tenant, host) => MarkFailed(d, tenant, host)
    case UActivate(tenant, host) => Activate(d, tenant, host)
    case UDeactivate(tenant, host) => Deactivate(d, tenant, host)
  }

  /** The hostnames whose entries are deleted after the commit; an update that found no row deletes nothing. */
  function Invalidates(d: Db, u: Update): set<Host> {
    match u
    case UNewTenant(_) => {}
    case UTenantStatus(tenant, _) =>
      if tenant in d.tenants then set h | h in d.domains && d.domains[h].tenant == tenant else {}
    case UCreateDomain(_, _, _, _) => {}
    case UMarkSucceeded(tenant, host) => if Owns(d, tenant, host) then {host} else {}
    case UMarkFailed(tenant, host) => if CanFail(d, tenant, host) then {host} else {}
    case UActivate(tenant, host) =>
      if Owns(d, tenant, host) && ActiveTenant(d, tenant) && d.domains[host].verified then {host} else {}
    case UDeactivate(tenant, host) => if Owns(d, tenant, host) then {host} else {}
  }

  /** No row belongs to a tenant that is not there (the foreign key). */
  ghost predicate Referenced(d: Db) {
    forall h :: h in d.domains ==> d.domains[h].tenant in d.tenants
  }

  /** The invalidated hostnames are enough: no other hostname's answer changes. */
  lemma InvalidationSuffices(d: Db, u: Update, h: Host)
    requires Referenced(d)
    ensures Referenced(Commit(d, u))
    ensures h !in Invalidates(d, u) ==> Resolve(Commit(d, u), h) == Resolve(d, h)
  {
  }

  // ---------------------------------------------------------------- the system

  /** The host is an active, verified domain of this type of this tenant, and the tenant is active. */
  ghost predicate Serves(d: Db, host: Host, v: Resolution) {
    && host in d.domains && d.domains[host].tenant == v.tenant && d.domains[host].app == v.app
    && d.domains[host].verified && d.domains[host].active
    && v.tenant in d.tenants && d.tenants[v.tenant]
  }

  lemma ResolveServes(d: Db, host: Host, v: Resolution)
    ensures Resolve(d, host) == Some(v) <==> Serves(d, host, v)
  {
  }

  /** `readAt` records when the value was read from the database. */
  datatype Entry = Entry(value: Resolution, expires: Instant, readAt: Instant)
  datatype Reader = Querying(host: Host) | Setting(host: Host, value: Resolution, readAt: Instant)
  datatype Answer = Answer(host: Host, value: Option<Resolution>, at: Instant)
  datatype Snapshot = Snapshot(at: Instant, db: Db)

  /** A cache that agrees with the database. */
  ghost predicate Agrees(cache: map<Host, Entry>, d: Db) {
    forall h :: h in cache ==> Resolve(d, h) == Some(cache[h].value)
  }

  /** The calls one after the other; `getOk`, `setOk` and `deleted` say which calls to the cache succeed. */
  class Resolver {
    var db: Db
    var cache: map<Host, Entry>

    constructor (d: Db)
      ensures db == d && cache == map[]
    {
      db, cache := d, map[];
    }

    method ResolveDomain(host: Host, now: Instant, getOk: bool, setOk: bool) returns (v: Option<Resolution>)
      modifies this`cache
      ensures var hit := getOk && host in old(cache) && now < old(cache)[host].expires;
              && v == (if hit then Some(old(cache)[host].value) else Resolve(db, host))
              && cache == if hit || v.None? || !setOk then old(cache)
                          else old(cache)[host := Entry(v.value, now + TTL, now)]
      ensures Agrees(old(cache), db) ==> Agrees(cache, db) && v == Resolve(db, host)
      ensures var hit := getOk && host in old(cache) && now < old(cache)[host].expires;
              !hit || Agrees(old(cache), db) ==> forall x :: v == Some(x) <==> Serves(db, host, x)
    {
      if getOk && host in cache && now < cache[host].expires {
        return Some(cache[host].value);
      }
      v := Resolve(db, host);
      if v.Some? && setOk {
        cache := cache[host := Entry(v.value, now + TTL, now)];
      }
    }

    /** Commits the status and then deletes the entry of each of the tenant's hostnames in turn. */
    method ChangeTenantStatus(tenant: Uuid, active: bool, hostnames: seq<Host>, deleted: seq<bool>)
      requires |hostnames| == |deleted|
      requires forall h :: h in hostnames <==>
                             tenant in db.tenants && h in db.domains && db.domains[h].tenant == tenant
      requires Referenced(db)
      modifies this
      ensures db == SetTenantStatus(old(db), tenant, active)
      ensures forall h :: h in cache <==>
        h in old(cache) && !exists i :: 0 <= i < |hostnames| && hostnames[i] == h && deleted[i]
      ensures forall h :: h in cache ==> cache[h] == old(cache)[h]
      ensures Agrees(old(cache), old(db)) && (forall i :: 0 <= i < |deleted| ==> deleted[i]) ==> Agrees(cache, db)
    {
      ghost var before := db;
      db := SetTenantStatus(db, tenant, active);
      for i := 0 to |hostnames|
        invariant db == SetTenantStatus(before, tenant, active)
        invariant forall h :: h in cache <==>
          h in old(cache) && !exists j :: 0 <= j < i && hostnames[j] == h && deleted[j]
        invariant forall h :: h in cache ==> cache[h] == old(cache)[h]
      {
        if deleted[i] {
          cache := cache - {hostnames[i]};
        }
      }
      forall h | h in cache && h !in hostnames
        ensures Resolve(db, h) == Resolve(before, h)
      {
        InvalidationSuffices(before, UTenantStatus(tenant, active), h);
      }
    }
  }

  /** `deletes` holds the cache deletes that committed updates still have to perform; `past` and `answers` record
      every database state with its time, and every answer given. */
  datatype World = World(
    now: Instant, db: Db, cache: map<Host, Entry>, readers: map<nat, Reader>, deletes: map<nat, set<Host>>,
    past: seq<Snapshot>, answers: set<Answer>)

  datatype Action =
    | Tick(elapsed: nat)
    | Change(updater: nat, u: Update)
    | Delete(updater: nat, host: Host, ok: bool)
    | Forget(updater: nat)
    | Get(reader: nat, host: Host, ok: bool)
    | Query(reader: nat)
    | Set(reader: nat, ok: bool)

  predicate Hit(s: World, host: Host, ok: bool) {
    ok && host in s.cache && s.now < s.cache[host].expires
  }

  /** `gap` bounds the time from a reader's query to its set. */
  predicate Enabled(s: World, a: Action, gap: nat) {
    match a
    case Tick(_) => true
    case Change(u, _) => u !in s.deletes
    case Delete(u, host, _) => u in s.deletes && host in s.deletes[u]
    case Forget(u) => u in s.deletes
    case Get(r, _, _) => r !in s.readers
    case Query(r) => r in s.readers && s.readers[r].Querying?
    case Set(r, _) => r in s.readers && s.readers[r].Setting? && s.now - s.readers[r].readAt <= gap
  }

  function Next(s: World, a: Action, gap: nat): World
    requires Enabled(s, a, gap)
  {
    match a
    case Tick(elapsed) => s.(now := s.now + elapsed, past := s.past + [Snapshot(s.now + elapsed, s.db)])
    case Change(k, u) =>
      s.(db := Commit(s.db, u), deletes := s.deletes[k := Invalidates(s.db, u)],
         past := s.past + [Snapshot(s.now, Commit(s.db, u))])
    case Delete(k, host, ok) =>
      s.(cache := if ok then s.cache - {host} else s.cache, deletes := s.deletes[k := s.deletes[k] - {host}])
    case Forget(k) => s.(deletes := s.deletes - {k})
    case Get(r, host, ok) =>
      if Hit(s, host, ok) then s.(answers := s.answers + {Answer(host, Some(s.cache[host].value), s.now)})
      else s.(readers := s.readers[r := Querying(host)])
    case Query(r) =>
      var host := s.readers[r].host;
      var v := Resolve(s.db, host);
      if v.None? then s.(readers := s.readers - {r}, answers := s.answers + {Answer(host, None, s.now)})
      else s.(readers := s.readers[r := Setting(host, v.value, s.now)])
    case Set(r, ok) =>
      var q := s.readers[r];
      s.(readers := s.readers - {r}, answers := s.answers + {Answer(q.host, Some(q.value), s.now)},
         cache := if ok then s.cache[q.host := Entry(q.value, s.now + TTL, q.readAt)] else s.cache)
  }

  predicate Possible(s: World, run: seq<Action>, gap: nat)
    decreases |run|
  {
    run == [] || (Enabled(s, run[0], gap) && Possible(Next(s, run[0], gap), run[1..], gap))
  }

  function Run(s: World, run: seq<Action>, gap: nat): World
    requires Possible(s, run, gap)
    decreases |run|
  {
    if run == [] then s else Run(Next(s, run[0], gap), run[1..], gap)
  }

  function Start(d: Db): World {
    World(0, d, map[], map[], map[], [Snapshot(0, d)], {})
  }

  // ---------------------------------------------------------------- bounded staleness

  /** The database gave this answer at time t. */
  ghost predicate Held(past: seq<Snapshot>, host: Host, value: Option<Resolution>, t: Instant) {
    exists i :: 0 <= i < |past| && past[i].at == t && Resolve(past[i].db, host) == value
  }

  ghost predicate HeldWithin(past: seq<Snapshot>, a: Answer, age: int) {
    exists t :: a.at - age <= t <= a.at && Held(past, a.host, a.value, t)
  }

  ghost predicate CacheTrue(cache: map<Host, Entry>, past: seq<Snapshot>, now: Instant, gap: nat) {
    forall h :: h in cache ==>
                  && Held(past, h, Some(cache[h].value), cache[h].readAt)
                  && cache[h].readAt <= now && cache[h].expires - TTL - gap <= cache[h].readAt
  }

  ghost predicate ReadersTrue(readers: map<nat, Reader>, past: seq<Snapshot>, now: Instant) {
    forall r :: r in readers && readers[r].Setting? ==>
                  Held(past, readers[r].host, Some(readers[r].value), readers[r].readAt) && readers[r].readAt <= now
  }

  /** A positive answer is at most the cache time and the gap old; a negative answer is never stale. */
  ghost predicate AnswersTrue(answers: set<Answer>, past: seq<Snapshot>, gap: nat) {
    forall a :: a in answers ==> HeldWithin(past, a, if a.value.Some? then TTL + gap else 0)
  }

  /** The last snapshot is the present. */
  ghost predicate Recorded(s: World) {
    |s.past| > 0 && s.past[|s.past| - 1] == Snapshot(s.now, s.db)
  }

  ghost predicate Fresh(s: World, gap: nat) {
    Recorded(s) && CacheTrue(s.cache, s.past, s.now, gap) && ReadersTrue(s.readers, s.past, s.now)
    && AnswersTrue(s.answers, s.past, gap)
  }

  lemma HeldGrows(past: seq<Snapshot>, x: Snapshot, host: Host, value: Option<Resolution>, t: Instant)
    requires Held(past, host, value, t)
    ensures Held(past + [x], host, value, t)
  {
    var i :| 0 <= i < |past| && past[i].at == t && Resolve(past[i].db, host) == value;
    assert (past + [x])[i] == past[i];
  }

  lemma HeldNow(s: World, host: Host)
    requires Recorded(s)
    ensures Held(s.past, host, Resolve(s.db, host), s.now)
  {
  }

  /** Time passing and updates keep all that is recorded. */
  lemma PastGrows(s: World, x: Snapshot, gap: nat)
    requires Fresh(s, gap) && x.at >= s.now
    ensures CacheTrue(s.cache, s.past + [x], x.at, gap) && ReadersTrue(s.readers, s.past + [x], x.at)
    ensures AnswersTrue(s.answers, s.past + [x], gap)
  {
    forall h | h in s.cache
      ensures Held(s.past + [x], h, Some(s.cache[h].value), s.cache[h].readAt)
    {
      HeldGrows(s.past, x, h, Some(s.cache[h].value), s.cache[h].readAt);
    }
    forall r | r in s.readers && s.readers[r].Setting?
      ensures Held(s.past + [x], s.readers[r].host, Some(s.readers[r].value), s.readers[r].readAt)
    {
      HeldGrows(s.past, x, s.readers[r].host, Some(s.readers[r].value), s.readers[r].readAt);
    }
    forall a | a in s.answers
      ensures HeldWithin(s.past + [x], a, if a.value.Some? then TTL + gap else 0)
    {
      var t :| a.at - (if a.value.Some? then TTL + gap else 0) <= t <= a.at && Held(s.past, a.host, a.value, t);
      HeldGrows(s.past, x, a.host, a.value, t);
    }
  }

  lemma AnswerTrue(answers: set<Answer>, past: seq<Snapshot>, gap: nat, a: Answer, t: Instant)
    requires AnswersTrue(answers, past, gap) && Held(past, a.host, a.value, t)
    requires a.at - (if a.value.Some? then TTL + gap else 0) <= t <= a.at
    ensures AnswersTrue(answers + {a}, past, gap)
  {
  }

  lemma StepKeepsFresh(s: World, a: Action, gap: nat)
    requires Fresh(s, gap) && Enabled(s, a, gap)
    ensures Fresh(Next(s, a, gap), gap)
  {
    match a
    case Tick(elapsed) => PastGrows(s, Snapshot(s.now + elapsed, s.db), gap);
    case Change(_, u) => PastGrows(s, Snapshot(s.now, Commit(s.db, u)), gap);
    case Delete(_, _, _) =>
    case Forget(_) =>
    case Get(r, host, ok) => GetKeepsFresh(s, r, host, ok, gap);
    case Query(r) => QueryKeepsFresh(s, r, gap);
    case Set(r, ok) => SetKeepsFresh(s, r, ok, gap);
  }

  lemma GetKeepsFresh(s: World, r: nat, host: Host, ok: bool, gap: nat)
    requires Fresh(s, gap) && Enabled(s, Get(r, host, ok), gap)
    ensures Fresh(Next(s, Get(r, host, ok), gap), gap)
  {
  }

  lemma QueryKeepsFresh(s: World, r: nat, gap: nat)
    requires Fresh(s, gap) && Enabled(s, Query(r), gap)
    ensures Fresh(Next(s, Query(r), gap), gap)
  {
    var host := s.readers[r].host;
    HeldNow(s, host);
    if Resolve(s.db, host).None? {
      AnswerTrue(s.answers, s.past, gap, Answer(host, None, s.now), s.now);
    }
  }

  lemma SetKeepsFresh(s: World, r: nat, ok: bool, gap: nat)
    requires Fresh(s, gap) && Enabled(s, Set(r, ok), gap)
    ensures Fresh(Next(s, Set(r, ok), gap), gap)
  {
  }

  lemma {:induction false} RunKeepsFresh(s: World, run: seq<Action>, gap: nat)
    requires Fresh(s, gap) && Possible(s, run, gap)
    ensures Fresh(Run(s, run, gap), gap)
    decreases |run|
  {
    if run != [] {
      StepKeepsFresh(s, run[0], gap);
      RunKeepsFresh(Next(s, run[0], gap), run[1..], gap);
    }
  }

  /** At time t the host was served so; at time t it was not served at all. */
  ghost predicate ServedAt(past: seq<Snapshot>, host: Host, v: Resolution, t: Instant) {
    exists i :: 0 <= i < |past| && past[i].at == t && Serves(past[i].db, host, v)
  }

  ghost predicate UnservedAt(past: seq<Snapshot>, host: Host, t: Instant) {
    exists i :: 0 <= i < |past| && past[i].at == t && forall v :: !Serves(past[i].db, host, v)
  }

  /** In every run, with failed deletes, crashed updaters and reads that straddle updates: a positive answer given at
      time u was true of the rows, tenant status included, at some time from u - 5 min - gap to u, and a negative answer
      was true of them at the very time. */
  lemma BoundedStaleness(d: Db, run: seq<Action>, gap: nat, a: Answer)
    requires Possible(Start(d), run, gap) && a in Run(Start(d), run, gap).answers
    ensures var past := Run(Start(d), run, gap).past;
            if a.value.Some? then
              exists t :: a.at - 300_000_000_000 - gap <= t <= a.at && ServedAt(past, a.host, a.value.value, t)
            else UnservedAt(past, a.host, a.at)
  {
    RunKeepsFresh(Start(d), run, gap);
    var past := Run(Start(d), run, gap).past;
    var age := if a.value.Some? then TTL + gap else 0;
    var t :| a.at - age <= t <= a.at && Held(past, a.host, a.value, t);
    var i :| 0 <= i < |past| && past[i].at == t && Resolve(past[i].db, a.host) == a.value;
    if a.value.Some? {
      ResolveServes(past[i].db, a.host, a.value.value);
      assert ServedAt(past, a.host, a.value.value, t);
    } else {
      forall v
        ensures !Serves(past[i].db, a.host, v)
      {
        ResolveServes(past[i].db, a.host, v);
      }
    }
  }

  // ---------------------------------------------------------------- coherence

  /** Every cached entry equals the database, except those whose delete is still outstanding. */
  ghost predicate Coherent(s: World) {
    forall h :: h in s.cache ==>
                  Resolve(s.db, h) == Some(s.cache[h].value) || exists k :: k in s.deletes && h in s.deletes[k]
  }

  /** No delete fails or is forgotten, and no update touches the host of a reader between its query and its set. */
  ghost predicate Reliable(s: World, a: Action) {
    match a
    case Delete(_, _, ok) => ok
    case Forget(k) => k in s.deletes ==> s.deletes[k] == {}
    case Change(_, u) =>
      forall r :: r in s.readers && s.readers[r].Setting? ==> s.readers[r].host !in Invalidates(s.db, u)
    case _ => true
  }

  /** What waiting readers will set is the present answer. */
  ghost predicate SetsCurrent(s: World) {
    forall r :: r in s.readers && s.readers[r].Setting? ==> Resolve(s.db, s.readers[r].host) == Some(s.readers[r].value)
  }

  ghost predicate AllReliable(s: World, run: seq<Action>, gap: nat)
    requires Possible(s, run, gap)
    decreases |run|
  {
    run == [] || (Reliable(s, run[0]) && AllReliable(Next(s, run[0], gap), run[1..], gap))
  }

  lemma ChangeKeepsCoherent(s: World, k: nat, u: Update, gap: nat)
    requires Referenced(s.db) && Coherent(s) && Enabled(s, Change(k, u), gap)
    ensures Coherent(Next(s, Change(k, u), gap)) && Referenced(Commit(s.db, u))
  {
    var n := Next(s, Change(k, u), gap);
    InvalidationSuffices(s.db, u, "");
    forall h | h in n.cache
      ensures Resolve(n.db, h) == Some(n.cache[h].value) || exists j :: j in n.deletes && h in n.deletes[j]
    {
      InvalidationSuffices(s.db, u, h);
      if h in Invalidates(s.db, u) {
        assert k in n.deletes && h in n.deletes[k];
      } else if Resolve(s.db, h) != Some(s.cache[h].value) {
        var j :| j in s.deletes && h in s.deletes[j];
        assert j in n.deletes && h in n.deletes[j];
      }
    }
  }

  lemma ChangeKeepsSets(s: World, k: nat, u: Update, gap: nat)
    requires Referenced(s.db) && SetsCurrent(s) && Enabled(s, Change(k, u), gap) && Reliable(s, Change(k, u))
    ensures SetsCurrent(Next(s, Change(k, u), gap))
  {
    forall r | r in s.readers && s.readers[r].Setting?
      ensures Resolve(Commit(s.db, u), s.readers[r].host) == Some(s.readers[r].value)
    {
      InvalidationSuffices(s.db, u, s.readers[r].host);
    }
  }

  lemma DeleteKeepsCoherent(s: World, k: nat, host: Host, gap: nat)
    requires Coherent(s) && Enabled(s, Delete(k, host, true), gap)
    ensures Coherent(Next(s, Delete(k, host, true), gap))
  {
    var n := Next(s, Delete(k, host, true), gap);
    forall h | h in n.cache
      ensures Resolve(n.db, h) == Some(n.cache[h].value) || exists j :: j in n.deletes && h in n.deletes[j]
    {
      if Resolve(s.db, h) != Some(s.cache[h].value) {
        var j :| j in s.deletes && h in s.deletes[j];
        assert j in n.deletes && h in n.deletes[j];
      }
    }
  }

  /** What one set does to coherence: only the entry of its own host can spoil it. */
  lemma SetKeepsCoherentIff(s: World, r: nat, gap: nat)
    requires Coherent(s) && Enabled(s, Set(r, true), gap)
    ensures Coherent(Next(s, Set(r, true), gap)) <==>
            || Resolve(s.db, s.readers[r].host) == Some(s.readers[r].value)
            || exists k :: k in s.deletes && s.readers[r].host in s.deletes[k]
  {
  }

  lemma StepKeepsCoherent(s: World, a: Action, gap: nat)
    requires Referenced(s.db) && Coherent(s) && SetsCurrent(s) && Enabled(s, a, gap) && Reliable(s, a)
    ensures var n := Next(s, a, gap); Referenced(n.db) && Coherent(n) && SetsCurrent(n)
  {
    match a
    case Change(k, u) =>
      ChangeKeepsCoherent(s, k, u, gap);
      ChangeKeepsSets(s, k, u, gap);
    case Delete(k, host, _) => DeleteKeepsCoherent(s, k, host, gap);
    case Set(r, ok) =>
      if ok {
        SetKeepsCoherentIff(s, r, gap);
      }
    case Forget(k) =>
      var n := Next(s, a, gap);
      assert forall h, j :: j in s.deletes && h in s.deletes[j] ==> j in n.deletes && h in n.deletes[j];
    case Tick(_) =>
    case Get(_, _, _) =>
    case Query(_) =>
  }

  /** With reliable deletes and undisturbed reads every cached entry equals the database or is about to be deleted. */
  lemma {:induction false} ReliableRunsStayCoherent(s: World, run: seq<Action>, gap: nat)
    requires Referenced(s.db) && Coherent(s) && SetsCurrent(s) && Possible(s, run, gap) && AllReliable(s, run, gap)
    ensures Coherent(Run(s, run, gap))
    decreases |run|
  {
    if run != [] {
      StepKeepsCoherent(s, run[0], gap);
      ReliableRunsStayCoherent(Next(s, run[0], gap), run[1..], gap);
    }
  }

  // ---------------------------------------------------------------- reads that straddle updates

  /** No delete is outstanding. */
  ghost predicate Settled(s: World) {
    forall k :: k in s.deletes ==> s.deletes[k] == {}
  }

  /** Updates with successful deletes, by any number of updaters, and time passing. */
  predicate UpdatesOnly(run: seq<Action>) {
    forall a :: a in run ==> a.Tick? || a.Change? || (a.Delete? && a.ok)
  }

  /** The database after the updates of a run. */
  function Updated(d: Db, run: seq<Action>): Db
    decreases |run|
  {
    if run == [] then d else Updated(if run[0].Change? then Commit(d, run[0].u) else d, run[1..])
  }

  lemma {:induction false} UpdatesKeep(s: World, run: seq<Action>, gap: nat)
    requires Referenced(s.db) && Coherent(s) && Possible(s, run, gap) && UpdatesOnly(run)
    ensures var t := Run(s, run, gap);
            Coherent(t) && t.readers == s.readers && t.db == Updated(s.db, run)
    decreases |run|
  {
    if run != [] {
      var a := run[0];
      assert a in run;
      if a.Change? {
        ChangeKeepsCoherent(s, a.updater, a.u, gap);
      } else if a.Delete? {
        DeleteKeepsCoherent(s, a.updater, a.host, gap);
      }
      UpdatesKeep(Next(s, a, gap), run[1..], gap);
    }
  }

  /** A reader has read the present answer; then any updates commit and perform all their deletes; then the reader
      sets the cache. This leaves the cache coherent exactly when the updates together do not change the answer of
      the reader's host. */
  lemma StraddleIff(s: World, r: nat, run: seq<Action>, gap: nat)
    requires Referenced(s.db) && Coherent(s) && Possible(s, run, gap) && UpdatesOnly(run)
    requires r in s.readers && s.readers[r].Setting?
    requires Resolve(s.db, s.readers[r].host) == Some(s.readers[r].value)
    requires Settled(Run(s, run, gap)) && Enabled(Run(s, run, gap), Set(r, true), gap)
    ensures Coherent(Next(Run(s, run, gap), Set(r, true), gap)) <==>
            Resolve(Updated(s.db, run), s.readers[r].host) == Resolve(s.db, s.readers[r].host)
  {
    UpdatesKeep(s, run, gap);
    SetKeepsCoherentIff(Run(s, run, gap), r, gap);
  }

  /** The deletes of one updater, one after the other. */
  lemma {:induction false} DeleteAll(s: World, k: nat, gap: nat) returns (run: seq<Action>)
    requires k in s.deletes && forall j :: j in s.deletes && j != k ==> s.deletes[j] == {}
    ensures Possible(s, run, gap) && UpdatesOnly(run) && Updated(s.db, run) == s.db
    ensures Settled(Run(s, run, gap)) && Run(s, run, gap).now == s.now
    ensures var t := Run(s, run, gap);
            && t.db == s.db && t.readers == s.readers && t.answers == s.answers
            && forall h :: h in t.cache ==> h in s.cache && h !in s.deletes[k]
    decreases s.deletes[k]
  {
    run := [];
    if h :| h in s.deletes[k] {
      var a := Delete(k, h, true);
      var rest := DeleteAll(Next(s, a, gap), k, gap);
      run := [a] + rest;
      assert run[1..] == rest;
    }
  }

  /** One update between the query and the set: the cache goes stale exactly when the update changes the answer of
      the reader's host. */
  lemma StraddledUpdateIff(s: World, r: nat, k: nat, u: Update, gap: nat) returns (run: seq<Action>)
    requires Referenced(s.db) && Coherent(s) && Settled(s) && k !in s.deletes
    requires Enabled(s, Set(r, true), gap) && Resolve(s.db, s.readers[r].host) == Some(s.readers[r].value)
    ensures Possible(s, [Change(k, u)] + run, gap) && UpdatesOnly(run)
    ensures Settled(Run(s, [Change(k, u)] + run, gap)) && Enabled(Run(s, [Change(k, u)] + run, gap), Set(r, true), gap)
    ensures Coherent(Next(Run(s, [Change(k, u)] + run, gap), Set(r, true), gap)) <==>
            Resolve(Commit(s.db, u), s.readers[r].host) == Resolve(s.db, s.readers[r].host)
  {
    var t := Next(s, Change(k, u), gap);
    run := DeleteAll(t, k, gap);
    var all := [Change(k, u)] + run;
    assert all[1..] == run;
    UpdatesKeep(s, all, gap);
    StraddleIff(s, r, all, gap);
  }

  lemma {:induction false} RunThen(s: World, run: seq<Action>, a: Action, gap: nat)
    requires Possible(s, run, gap) && Enabled(Run(s, run, gap), a, gap)
    ensures Possible(s, run + [a], gap) && Run(s, run + [a], gap) == Next(Run(s, run, gap), a, gap)
    decreases |run|
  {
    var all := run + [a];
    if run == [] {
      assert all == [a] && all[1..] == [];
    } else {
      assert all[0] == run[0] && all[1..] == run[1..] + [a];
      RunThen(Next(s, run[0], gap), run[1..], a, gap);
    }
  }

  /** A database in which only this host exists, and resolves as long as `on`. */
  function OneDomain(on: bool): Db {
    Db(map[1 := true], map["h" := Domain(1, Booking, true, Verified, None, on)])
  }

  /** A read that straddles a deactivation puts the old answer back after the entry was deleted. */
  lemma StraddlingReadGoesStale(gap: nat) returns (run: seq<Action>)
    ensures Possible(Start(OneDomain(true)), run, gap) && !Coherent(Run(Start(OneDomain(true)), run, gap))
  {
    var s, h := Start(OneDomain(true)), "h";
    RunThen(s, [], Get(1, h, true), gap);
    run := [] + [Get(1, h, true)];
    RunThen(s, run, Query(1), gap);
    run := run + [Query(1)];
    var read := Run(s, run, gap);
    assert read.readers[1] == Setting(h, Resolution(1, Booking), 0) && read.now == 0 && read.cache == map[];
    run := DeactivateAndDelete(s, run, gap);
    var t := Run(s, run, gap);
    RunThen(s, run, Set(1, true), gap);
    SetKeepsCoherentIff(t, 1, gap);
    run := run + [Set(1, true)];
  }

  lemma DeactivateAndDelete(s: World, run: seq<Action>, gap: nat) returns (more: seq<Action>)
    requires Possible(s, run, gap)
    requires var t := Run(s, run, gap); t.db == OneDomain(true) && t.deletes == map[] && t.cache == map[]
    ensures Possible(s, more, gap)
    ensures var t, u := Run(s, run, gap), Run(s, more, gap);
            && u.db == OneDomain(false) && u.cache == map[] && u.now == t.now && u.readers == t.readers
            && forall k :: k in u.deletes ==> u.deletes[k] == {}
  {
    var t, h := Run(s, run, gap), "h";
    var a, b := Change(1, UDeactivate(1, h)), Delete(1, h, true);
    RunThen(s, run, a, gap);
    more := run + [a];
    var u := Run(s, more, gap);
    assert u.db == OneDomain(false) && u.deletes[1] == {h};
    RunThen(s, more, b, gap);
    more := more + [b];
  }

  // ---------------------------------------------------------------- suspension

  predicate HostOf(d: Db, tenant: Uuid, h: Host) {
    h in d.domains && d.domains[h].tenant == tenant
  }

  /** The tenant is suspended, none of its hosts is cached, and nobody is about to cache one. */
  ghost predicate Dark(s: World, tenant: Uuid) {
    && tenant in s.db.tenants && !s.db.tenants[tenant]
    && (forall h :: h in s.cache ==> !HostOf(s.db, tenant, h))
    && (forall r :: r in s.readers && s.readers[r].Setting? ==> !HostOf(s.db, tenant, s.readers[r].host))
  }

  lemma CommitKeepsHosts(d: Db, u: Update, tenant: Uuid, h: Host)
    requires tenant in d.tenants && !d.tenants[tenant] && u != UTenantStatus(tenant, true)
    ensures var e := Commit(d, u);
            tenant in e.tenants && !e.tenants[tenant] && (HostOf(e, tenant, h) <==> HostOf(d, tenant, h))
  {
  }

  lemma StepStaysDark(s: World, a: Action, gap: nat, tenant: Uuid, h: Host)
    requires Dark(s, tenant) && Enabled(s, a, gap) && !(a.Change? && a.u == UTenantStatus(tenant, true))
    ensures var n := Next(s, a, gap);
            && Dark(n, tenant) && (HostOf(n.db, tenant, h) <==> HostOf(s.db, tenant, h))
            && forall x :: x in n.answers && x !in s.answers && HostOf(s.db, tenant, x.host) ==> x.value == None
  {
    if a.Change? {
      forall g
        ensures HostOf(Commit(s.db, a.u), tenant, g) <==> HostOf(s.db, tenant, g)
      {
        CommitKeepsHosts(s.db, a.u, tenant, g);
      }
      CommitKeepsHosts(s.db, a.u, tenant, h);
    }
  }

  /** From then on, until the tenant is made active again, every lookup of one of its hosts answers that there is no
      such domain. */
  lemma {:induction false} SuspendedNeverServed(s: World, run: seq<Action>, gap: nat, tenant: Uuid, x: Answer)
    requires Dark(s, tenant) && Possible(s, run, gap)
    requires forall a :: a in run && a.Change? ==> a.u != UTenantStatus(tenant, true)
    requires x in Run(s, run, gap).answers && x !in s.answers && HostOf(s.db, tenant, x.host)
    ensures x.value == None
    decreases |run|
  {
    if run != [] {
      assert run[0] in run;
      StepStaysDark(s, run[0], gap, tenant, x.host);
      var n := Next(s, run[0], gap);
      if x !in n.answers {
        SuspendedNeverServed(n, run[1..], gap, tenant, x);
      }
    }
  }

  /** A suspension with all its deletes done, while nobody is about to cache one of the hosts, brings this about. */
  lemma SuspensionDarkens(s: World, k: nat, tenant: Uuid, gap: nat) returns (run: seq<Action>)
    requires tenant in s.db.tenants && Settled(s) && k !in s.deletes
    requires forall r :: r in s.readers && s.readers[r].Setting? ==> !HostOf(s.db, tenant, s.readers[r].host)
    ensures run != [] && run[0] == Change(k, UTenantStatus(tenant, false)) && UpdatesOnly(run)
    ensures Possible(s, run, gap) && Settled(Run(s, run, gap)) && Dark(Run(s, run, gap), tenant)
  {
    var a := Change(k, UTenantStatus(tenant, false));
    var t := Next(s, a, gap);
    var rest := DeleteAll(t, k, gap);
    run := [a] + rest;
    assert run[1..] == rest;
    var u := Run(t, rest, gap);
    assert forall h :: HostOf(u.db, tenant, h) ==> h in t.deletes[k];
  }
}
