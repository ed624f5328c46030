/**
 Tenant domains of tenant-service: the guarded statements on `tenants` and `tenant_domains`, the verification of a
 domain by a DNS record, and any number of verifiers racing each other, activation and suspension.
 */
module TenantDomains {
  import opened Wrappers

  type Uuid = nat
  type Host = string

  /** The hash of a verification value; hashing is injective, so a value is represented by its hash. */
  type Token = string

  datatype AppType = Booking | Admin
  datatype State = Waiting | Verified | Failed

  datatype Domain = Domain(tenant: Uuid, app: AppType, verified: bool, state: State, hash: Option<Token>, active: bool)

  /** Hostnames are unique and never change, so they stand for the ids of the rows. `tenants` says which tenants
      there are and whether they are active. */
  datatype Db = Db(tenants: map<Uuid, bool>, domains: map<Host, Domain>)

  // ---------------------------------------------------------------- the statements

  predicate Owns(d: Db, tenant: Uuid, host: Host) {
    host in d.domains && d.domains[host].tenant == tenant
  }

  predicate ActiveTenant(d: Db, tenant: Uuid) {
    tenant in d.tenants && d.tenants[tenant]
  }

  function CreateTenant(d: Db, tenant: Uuid): Db {
    if tenant in d.tenants then d else d.(tenants := d.tenants[tenant := true])
  }

  function SetTenantStatus(d: Db, tenant: Uuid, active: bool): Db {
    if tenant in d.tenants then d.(tenants := d.tenants[tenant := active]) else d
  }

  function CreateDomain(d: Db, tenant: Uuid, host: Host, app: AppType, hash: Token): Db {
    if !ActiveTenant(d, tenant) || host in d.domains then d
    else d.(domains := d.domains[host := Domain(tenant, app, false, Waiting, Some(hash), false)])
  }

  function MarkSucceeded(d: Db, tenant: Uuid, host: Host): Db {
    if !Owns(d, tenant, host) then d
    else d.(domains := d.domains[host := d.domains[host].(verified := true, state := Verified, hash := None)])
  }

  /** Guarded by "not verified". */
  predicate CanFail(d: Db, tenant: Uuid, host: Host) {
    Owns(d, tenant, host) && !d.domains[host].verified
  }

  function MarkFailed(d: Db, tenant: Uuid, host: Host): Db {
    if !CanFail(d, tenant, host) then d
    else d.(domains := d.domains[host := d.domains[host].(state := Failed)])
  }

  function Activate(d: Db, tenant: Uuid, host: Host): Db {
    if Owns(d, tenant, host) && ActiveTenant(d, tenant) && d.domains[host].verified then
      d.(domains := d.domains[host := d.domains[host].(active := true)])
    else d
  }

  function Deactivate(d: Db, tenant: Uuid, host: Host): Db {
    if !Owns(d, tenant, host) then d
    else d.(domains := d.domains[host := d.domains[host].(active := false)])
  }

  datatype Resolution = Resolution(tenant: Uuid, app: AppType)

  /** `resolve_verified_domain`: verified, active, on an active tenant. */
  function Resolve(d: Db, host: Host): Option<Resolution> {
    if host !in d.domains then None
    else
      var r := d.domains[host];
      if r.verified && r.active && ActiveTenant(d, r.tenant) then Some(Resolution(r.tenant, r.app)) else None
  }

  // ---------------------------------------------------------------- the statements, column by column

  /** Only the row of this host differs, and no tenant. */
  ghost predicate OnlyDomain(d: Db, d': Db, host: Host) {
    && d'.tenants == d.tenants && d'.domains.Keys == d.domains.Keys + {host}
    && forall h :: h in d.domains && h != host ==> d'.domains[h] == d.domains[h]
  }

  /** The row keeps its tenant and type. */
  ghost predicate SameDomain(a: Domain, b: Domain) {
    b.tenant == a.tenant && b.app == a.app
  }

  /** A new hostname of an active tenant starts unverified, waiting and inactive, with its hash; else nothing. */
  lemma CreateDomainStarts(d: Db, tenant: Uuid, host: Host, app: AppType, hash: Token)
    ensures var d' := CreateDomain(d, tenant, host, app, hash);
            if tenant in d.tenants && d.tenants[tenant] && host !in d.domains then
              && OnlyDomain(d, d', host)
              && var r := d'.domains[host];
              && r.tenant == tenant && r.app == app && r.hash == Some(hash)
              && !r.verified && !r.active && r.state == Waiting
            else d' == d
  {
  }

  /** Deactivation clears the flag of the tenant's own domain and nothing else. */
  lemma DeactivateClears(d: Db, tenant: Uuid, host: Host)
    ensures var d' := Deactivate(d, tenant, host);
            if host in d.domains && d.domains[host].tenant == tenant then
              && OnlyDomain(d, d', host)
              && var a, b := d.domains[host], d'.domains[host];
              && SameDomain(a, b) && !b.active && b.verified == a.verified && b.state == a.state && b.hash == a.hash
            else d' == d
  {
  }

  /** A new tenant starts active; an existing one is left alone, and so are all domains. */
  lemma CreateTenantStarts(d: Db, tenant: Uuid)
    ensures var d' := CreateTenant(d, tenant);
            && d'.domains == d.domains && d'.tenants.Keys == d.tenants.Keys + {tenant}
            && (tenant !in d.tenants ==> d'.tenants[tenant])
            && forall t :: t in d.tenants ==> d'.tenants[t] == d.tenants[t]
  {
  }

  /** A status change is of one existing tenant; no domain row changes. */
  lemma StatusOfOneTenant(d: Db, tenant: Uuid, active: bool)
    ensures var d' := SetTenantStatus(d, tenant, active);
            && d'.domains == d.domains && d'.tenants.Keys == d.tenants.Keys
            && (tenant in d.tenants ==> d'.tenants[tenant] == active)
            && forall t :: t in d.tenants && t != tenant ==> d'.tenants[t] == d.tenants[t]
  {
  }

  // ---------------------------------------------------------------- one verification

  /** What one verification does, seen on the rows: an unverified domain becomes verified exactly when an answer is its
      stored hash; a mismatch marks it failed and leaves the rest; a verified domain is left alone. */
  ghost predicate Outcome(d: Db, d': Db, reply: Reply, tenant: Uuid, host: Host, answers: seq<Token>) {
    if host !in d.domains || d.domains[host].tenant != tenant then d' == d && reply == NotFound
    else if d.domains[host].verified then d' == d && reply == Success
    else if d.domains[host].hash == None then d' == d && reply == Unavailable
    else
      && OnlyDomain(d, d', host)
      && var a, b := d.domains[host], d'.domains[host];
      && SameDomain(a, b) && b.active == a.active
      && (b.verified <==> exists i :: 0 <= i < |answers| && a.hash == Some(answers[i]))
      && (b.verified ==> reply == Success && b.state == Verified && b.hash == None)
      && (!b.verified ==> reply == Rejected && b.state == Failed && b.hash == a.hash)
  }

  datatype Reply = Success | NotFound | Unavailable | Rejected

  /** A failed lookup counts as no answers. */
  function Reaches(d: Db, tenant: Uuid, host: Host, answers: seq<Token>): (Db, Reply) {
    if !Owns(d, tenant, host) then (d, NotFound)
    else if d.domains[host].verified then (d, Success)
    else if d.domains[host].hash.None? then (d, Unavailable)
    else if d.domains[host].hash.value in answers then (MarkSucceeded(d, tenant, host), Success)
    else (MarkFailed(d, tenant, host), Rejected)
  }

  class Service {
    var db: Db

    constructor (initial: Db)
      ensures db == initial
    {
      db := initial;
    }

    /** VerifyDomain with nobody else at work. */
    method VerifyDomain(tenant: Uuid, host: Host, answers: seq<Token>) returns (reply: Reply)
      modifies this
      ensures (db, reply) == Reaches(old(db), tenant, host, answers)
      ensures Outcome(old(db), db, reply, tenant, host, answers)
    {
      if !Owns(db, tenant, host) {
        return NotFound;
      }
      var candidate := db.domains[host];
      if candidate.verified {
        return Success;
      }
      if candidate.hash.None? {
        return Unavailable;
      }
      for i := 0 to |answers|
        invariant candidate.hash.value !in answers[..i]
        invariant db == old(db)
      {
        if answers[i] == candidate.hash.value {
          db := MarkSucceeded(db, tenant, host);
          return Success;
        }
      }
      db := MarkFailed(db, tenant, host);
      return Rejected;
    }

    method ActivateDomain(tenant: Uuid, host: Host) returns (ok: bool)
      modifies this
      ensures db == Activate(old(db), tenant, host)
      ensures ok <==>
              && host in old(db).domains && old(db).domains[host].tenant == tenant && old(db).domains[host].verified
              && tenant in old(db).tenants && old(db).tenants[tenant]
      ensures if !ok then db == old(db) else
                && OnlyDomain(old(db), db, host)
                && var a, b := old(db).domains[host], db.domains[host];
                && SameDomain(a, b) && b.active && b.verified && b.state == a.state && b.hash == a.hash
    {
      if !Owns(db, tenant, host) || !db.domains[host].verified {
        return false;
      }
      ok := ActiveTenant(db, tenant);
      db := Activate(db, tenant, host);
    }
  }

  // ---------------------------------------------------------------- racing verifiers

  datatype Pc = Looking(hash: Token) | Matched | Mismatched | Rechecking | Replied(reply: Reply)
  datatype Verifier = Verifier(tenant: Uuid, host: Host, pc: Pc)
  datatype Proof = Proof(host: Host, hash: Token)

  /** `issued` and `proofs` record history: the hash each domain was registered with, and the DNS matches seen. */
  datatype Sys = Sys(db: Db, verifiers: map<nat, Verifier>, issued: map<Host, Token>, proofs: set<Proof>)

  datatype Action =
    | NewTenant(tenant: Uuid)
    | Suspend(tenant: Uuid, active: bool)
    | Register(tenant: Uuid, host: Host, app: AppType, hash: Token)
    | TurnOn(tenant: Uuid, host: Host)
    | TurnOff(tenant: Uuid, host: Host)
    | Load(v: nat, tenant: Uuid, host: Host)
    | Lookup(v: nat, answers: seq<Token>)
    | Mark(v: nat)
    | Recheck(v: nat)
    | Crash(v: nat)

  predicate Enabled(s: Sys, a: Action) {
    match a
    case Load(v, _, _) => v !in s.verifiers
    case Lookup(v, _) => v in s.verifiers && s.verifiers[v].pc.Looking?
    case Mark(v) => v in s.verifiers && (s.verifiers[v].pc.Matched? || s.verifiers[v].pc.Mismatched?)
    case Recheck(v) => v in s.verifiers && s.verifiers[v].pc.Rechecking?
    case _ => true
  }

  function To(s: Sys, v: nat, pc: Pc): Sys
    requires v in s.verifiers
  {
    s.(verifiers := s.verifiers[v := s.verifiers[v].(pc := pc)])
  }

  function FirstRead(d: Db, tenant: Uuid, host: Host): Pc {
    if !Owns(d, tenant, host) then Replied(NotFound)
    else if d.domains[host].verified then Replied(Success)
    else if d.domains[host].hash.None? then Replied(Unavailable)
    else Looking(d.domains[host].hash.value)
  }

  function Next(s: Sys, a: Action): Sys
    requires Enabled(s, a)
  {
    match a
    case NewTenant(tenant) => s.(db := CreateTenant(s.db, tenant))
    case Suspend(tenant, active) => s.(db := SetTenantStatus(s.db, tenant, active))
    case Register(tenant, host, app, hash) =>
      s.(db := CreateDomain(s.db, tenant, host, app, hash),
         issued := if ActiveTenant(s.db, tenant) && host !in s.db.domains then s.issued[host := hash] else s.issued)
    case TurnOn(tenant, host) => s.(db := Activate(s.db, tenant, host))
    case TurnOff(tenant, host) => s.(db := Deactivate(s.db, tenant, host))
    case Load(v, tenant, host) =>
      s.(verifiers := s.verifiers[v := Verifier(tenant, host, FirstRead(s.db, tenant, host))])
    case Lookup(v, answers) =>
      var w := s.verifiers[v];
      if w.pc.hash in answers then To(s, v, Matched).(proofs := s.proofs + {Proof(w.host, w.pc.hash)})
      else To(s, v, Mismatched)
    case Mark(v) =>
      var w := s.verifiers[v];
      if w.pc.Matched? then
        To(s, v, Replied(if Owns(s.db, w.tenant, w.host) then Success else NotFound))
        .(db := MarkSucceeded(s.db, w.tenant, w.host))
      else
        To(s, v, if CanFail(s.db, w.tenant, w.host) then Replied(Rejected) else Rechecking)
        .(db := MarkFailed(s.db, w.tenant, w.host))
    case Recheck(v) =>
      var w := s.verifiers[v];
      To(s, v, Replied(if Owns(s.db, w.tenant, w.host) && s.db.domains[w.host].verified then Success else NotFound))
    case Crash(v) => s.(verifiers := s.verifiers - {v})
  }

  predicate Possible(s: Sys, run: seq<Action>)
    decreases |run|
  {
    run == [] || (Enabled(s, run[0]) && Possible(Next(s, run[0]), run[1..]))
  }

  function Run(s: Sys, run: seq<Action>): Sys
    requires Possible(s, run)
    decreases |run|
  {
    if run == [] then s else Run(Next(s, run[0]), run[1..])
  }

  // ---------------------------------------------------------------- the invariant

  /** Verified exactly when the state says so; then the token hash is gone; active only if verified. A row from
      before tokens existed may have no hash without being verified. */
  predicate Sound(r: Domain) {
    (r.verified <==> r.state.Verified?) && (r.verified ==> r.hash.None?) && (r.active ==> r.verified)
  }

  predicate Legacy(r: Domain) {
    !r.verified && r.hash.None?
  }

  ghost predicate DomainsSound(d: Db) {
    forall h :: h in d.domains ==> Sound(d.domains[h])
  }

  ghost predicate HashesIssued(s: Sys) {
    forall h :: h in s.db.domains ==>
                  && (s.db.domains[h].hash.Some? ==> h in s.issued && s.issued[h] == s.db.domains[h].hash.value)
                  && (Legacy(s.db.domains[h]) ==> h !in s.issued)
  }

  /** What each verifier knows about its row. */
  ghost predicate Knows(s: Sys, w: Verifier) {
    match w.pc
    case Looking(hash) => Owns(s.db, w.tenant, w.host) && w.host in s.issued && s.issued[w.host] == hash
    case Matched => Owns(s.db, w.tenant, w.host) && w.host in s.issued && Proof(w.host, s.issued[w.host]) in s.proofs
    case Mismatched => Owns(s.db, w.tenant, w.host)
    case Rechecking => Owns(s.db, w.tenant, w.host) && s.db.domains[w.host].verified
    case Replied(reply) => reply.Success? ==> Owns(s.db, w.tenant, w.host) && s.db.domains[w.host].verified
  }

  ghost predicate VerifiersKnow(s: Sys) {
    forall v :: v in s.verifiers ==> Knows(s, s.verifiers[v])
  }

  ghost predicate Inv(s: Sys) {
    DomainsSound(s.db) && HashesIssued(s) && VerifiersKnow(s)
  }

  /** Every row of s is still in t, with the same tenant; verified rows stay verified, legacy rows stay legacy, and
      whatever was issued or proved stays so. */
  ghost predicate RowsKept(s: Sys, t: Sys) {
    forall h :: h in s.db.domains ==> RowKept(s, t, h)
  }

  ghost predicate RowKept(s: Sys, t: Sys, h: Host)
    requires h in s.db.domains
  {
    && h in t.db.domains
    && t.db.domains[h].tenant == s.db.domains[h].tenant
    && (s.db.domains[h].verified ==> t.db.domains[h].verified)
    && (Legacy(s.db.domains[h]) ==> Legacy(t.db.domains[h]))
    && (h in s.issued ==> h in t.issued && t.issued[h] == s.issued[h])
  }

  /** A DNS answer matched the hash the domain was registered with. */
  predicate Proved(s: Sys, h: Host) {
    h in s.issued && Proof(h, s.issued[h]) in s.proofs
  }

  lemma StepKeepsTable(s: Sys, a: Action)
    requires Inv(s) && Enabled(s, a)
    ensures DomainsSound(Next(s, a).db) && HashesIssued(Next(s, a))
  {
    if a.Mark? {
      assert Knows(s, s.verifiers[a.v]);
    }
  }

  lemma StepKeepsRows(s: Sys, a: Action)
    requires Inv(s) && Enabled(s, a)
    ensures RowsKept(s, Next(s, a)) && s.proofs <= Next(s, a).proofs
  {
  }

  /** A row that becomes verified in a step has its proof. */
  lemma StepVerifiesProved(s: Sys, a: Action, h: Host)
    requires Inv(s) && Enabled(s, a) && h in Next(s, a).db.domains && Next(s, a).db.domains[h].verified
    ensures h in s.db.domains && (s.db.domains[h].verified || Proved(s, h))
  {
  }

  lemma KnowsKept(s: Sys, t: Sys, w: Verifier)
    requires Knows(s, w) && RowsKept(s, t) && s.proofs <= t.proofs
    ensures Knows(t, w)
  {
  }

  /** What the verifier that moves knows afterwards. */
  lemma MoverKnows(s: Sys, a: Action, v: nat)
    requires Inv(s) && Enabled(s, a) && v in Next(s, a).verifiers
    requires (a.Load? || a.Lookup? || a.Mark? || a.Recheck?) && a.v == v
    ensures Knows(Next(s, a), Next(s, a).verifiers[v])
  {
  }

  lemma StepKeepsInv(s: Sys, a: Action)
    requires Inv(s) && Enabled(s, a)
    ensures Inv(Next(s, a))
  {
    var t := Next(s, a);
    StepKeepsTable(s, a);
    StepKeepsRows(s, a);
    forall v | v in t.verifiers
      ensures Knows(t, t.verifiers[v])
    {
      if (a.Load? || a.Lookup? || a.Mark? || a.Recheck?) && a.v == v {
        MoverKnows(s, a, v);
      } else {
        assert v in s.verifiers && t.verifiers[v] == s.verifiers[v];
        KnowsKept(s, t, s.verifiers[v]);
      }
    }
  }

  lemma RowsKeptTransitive(s: Sys, t: Sys, u: Sys)
    requires RowsKept(s, t) && RowsKept(t, u)
    ensures RowsKept(s, u)
  {
  }

  // ---------------------------------------------------------------- what every run guarantees

  /** Verified never reverts, it stays tied to the state and the hash, and active implies verified, in every run of
      racing verifiers. Legacy rows without a hash can never be verified. */
  lemma {:induction false} VerifiedNeverReverts(s: Sys, run: seq<Action>)
    requires Inv(s) && Possible(s, run)
    ensures Inv(Run(s, run)) && RowsKept(s, Run(s, run)) && s.proofs <= Run(s, run).proofs
    decreases |run|
  {
    if run != [] {
      var n := Next(s, run[0]);
      StepKeepsInv(s, run[0]);
      StepKeepsRows(s, run[0]);
      VerifiedNeverReverts(n, run[1..]);
      RowsKeptTransitive(s, n, Run(n, run[1..]));
    }
  }

  /** Without legacy rows at the start there are none later, and then verified, the state and the missing hash are
      three names for one thing. */
  lemma {:induction false} VerifiedExactly(s: Sys, run: seq<Action>, h: Host)
    requires Inv(s) && Possible(s, run) && h in Run(s, run).db.domains
    requires forall g :: g in s.db.domains ==> !Legacy(s.db.domains[g])
    ensures var r := Run(s, run).db.domains[h];
            && (r.verified <==> r.state.Verified?) && (r.verified <==> r.hash.None?) && (r.active ==> r.verified)
    decreases |run|
  {
    if run != [] {
      var n := Next(s, run[0]);
      StepKeepsInv(s, run[0]);
      forall g | g in n.db.domains
        ensures !Legacy(n.db.domains[g])
      {
        if run[0].Mark? {
          assert Knows(s, s.verifiers[run[0].v]);
        }
      }
      VerifiedExactly(n, run[1..], h);
    }
  }

  /** A domain that is verified at the end but not at the start was proved: some verifier saw a DNS answer for the
      very hash the domain was registered with. */
  lemma {:induction false} VerifiedOnlyByProof(s: Sys, run: seq<Action>, h: Host)
    requires Inv(s) && Possible(s, run) && h in Run(s, run).db.domains && Run(s, run).db.domains[h].verified
    ensures (h in s.db.domains && s.db.domains[h].verified) || Proved(Run(s, run), h)
    decreases |run|
  {
    if run != [] {
      var n := Next(s, run[0]);
      StepKeepsInv(s, run[0]);
      VerifiedOnlyByProof(n, run[1..], h);
      VerifiedNeverReverts(n, run[1..]);
      if h in n.db.domains && n.db.domains[h].verified {
        StepVerifiesProved(s, run[0], h);
        if !s.db.domains[h].verified {
          StepKeepsRows(s, run[0]);
          assert RowKept(s, n, h) && RowKept(n, Run(n, run[1..]), h);
        }
      }
    }
  }

  /** The verifier has read its row as unverified and has not replied yet. */
  predicate Undecided(s: Sys, v: nat) {
    v in s.verifiers && !s.verifiers[v].pc.Replied?
  }

  /** Once somebody has verified the domain, an undecided verifier, whatever it sees in DNS, can only report
      success. */
  lemma {:induction false} MismatchAfterSuccess(s: Sys, run: seq<Action>, v: nat)
    requires Inv(s) && Possible(s, run) && Undecided(s, v) && Crash(v) !in run
    requires s.verifiers[v].host in s.db.domains && s.db.domains[s.verifiers[v].host].verified
    ensures var t := Run(s, run);
            v in t.verifiers && (t.verifiers[v].pc.Replied? ==> t.verifiers[v].pc.reply.Success?)
    decreases |run|
  {
    if run != [] {
      var n := Next(s, run[0]);
      assert run[0] in run;
      StepKeepsInv(s, run[0]);
      UndecidedStep(s, run[0], v);
      if Undecided(n, v) {
        MismatchAfterSuccess(n, run[1..], v);
      } else {
        RepliesStay(n, run[1..], v);
      }
    }
  }

  lemma UndecidedStep(s: Sys, a: Action, v: nat)
    requires Inv(s) && Enabled(s, a) && Undecided(s, v) && a != Crash(v)
    requires s.verifiers[v].host in s.db.domains && s.db.domains[s.verifiers[v].host].verified
    ensures var n := Next(s, a);
            && v in n.verifiers && n.verifiers[v].host == s.verifiers[v].host
            && n.verifiers[v].host in n.db.domains && n.db.domains[n.verifiers[v].host].verified
            && (n.verifiers[v].pc.Replied? ==> n.verifiers[v].pc.reply.Success?)
  {
  }

  lemma {:induction false} RepliesStay(s: Sys, run: seq<Action>, v: nat)
    requires Possible(s, run) && v in s.verifiers && s.verifiers[v].pc.Replied? && Crash(v) !in run
    ensures v in Run(s, run).verifiers && Run(s, run).verifiers[v] == s.verifiers[v]
    decreases |run|
  {
    if run != [] {
      assert run[0] in run;
      RepliesStay(Next(s, run[0]), run[1..], v);
    }
  }

  // ---------------------------------------------------------------- a verifier alone is a run

  lemma Prepend(s: Sys, a: Action, run: seq<Action>)
    requires Enabled(s, a) && Possible(Next(s, a), run)
    ensures Possible(s, [a] + run) && Run(s, [a] + run) == Run(Next(s, a), run)
  {
    assert ([a] + run)[1..] == run;
  }

  /** VerifyDomain with nobody else at work is the run Load, Lookup, Mark of the racing system, as far as it gets,
      with the same reply and table; so all that is proved of runs holds of it. */
  lemma VerifyAloneIsRun(s: Sys, v: nat, tenant: Uuid, host: Host, answers: seq<Token>) returns (run: seq<Action>)
    requires v !in s.verifiers
    ensures run <= [Load(v, tenant, host), Lookup(v, answers), Mark(v)] && Possible(s, run)
    ensures var t := Run(s, run);
            && v in t.verifiers && t.verifiers[v].pc.Replied?
            && (t.db, t.verifiers[v].pc.reply) == Reaches(s.db, tenant, host, answers)
  {
    var a, b, c := Load(v, tenant, host), Lookup(v, answers), Mark(v);
    var s1 := Next(s, a);
    if s1.verifiers[v].pc.Replied? {
      Prepend(s, a, []);
      run := [a] + [];
    } else {
      var s2 := Next(s1, b);
      Prepend(s2, c, []);
      Prepend(s1, b, [c] + []);
      Prepend(s, a, [b] + ([c] + []));
      run := [a] + ([b] + ([c] + []));
    }
  }
}
