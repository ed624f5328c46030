/**
 The member API of auth-service. The role check and the update are separate steps, and the update has no role guard;
 still no run of the API changes who the owners of a tenant are, or their status.
 */
module Members {

  type Uuid = nat

  datatype Role = Owner | Manager | Barber | Receptionist
  datatype Member = Member(role: Role, active: bool)
  datatype Id = Id(tenant: Uuid, identity: Uuid)
  type Table = map<Id, Member>

  predicate StaffRole(r: Role) {
    r.Manager? || r.Barber? || r.Receptionist?
  }

  // ---------------------------------------------------------------- the statements

  /** Registration inserts a membership, or does nothing when there is one. */
  function Register(t: Table, id: Id, role: Role): Table {
    if id in t then t else t[id := Member(role, true)]
  }

  /** The trigger that refuses to change the last active owner of a tenant. */
  ghost predicate LastOwnerGuard(t: Table, id: Id, m: Member)
    requires id in t
  {
    && t[id].role.Owner? && t[id].active && (!m.role.Owner? || !m.active)
    && !exists other ::
          other in t && other.tenant == id.tenant && other != id && t[other].role.Owner? && t[other].active
  }

  /** What the update asks for: a role or a status. */
  datatype Change = SetRole(role: Role) | SetActive(active: bool)

  function Changed(m: Member, c: Change): Member {
    match c
    case SetRole(role) => m.(role := role)
    case SetActive(active) => m.(active := active)
  }

  function Update(t: Table, id: Id, c: Change): Table {
    if id in t then t[id := Changed(t[id], c)] else t
  }

  datatype Reply = Done | Forbidden | NotFound

  class Service {
    var members: Table

    constructor (initial: Table)
      ensures members == initial
    {
      members := initial;
    }

    /** ChangeMemberRole and SetMemberStatus with nobody else at work. */
    method ChangeMember(actor: Id, actorRole: Role, tenant: Uuid, target: Uuid, c: Change) returns (r: Reply)
      modifies this
      ensures r.Done? ==> members == Update(old(members), Id(tenant, target), c) && Id(tenant, target) in members
      ensures r.Done? ==>
                && members.Keys == old(members).Keys
                && (forall id :: id in members && id != Id(tenant, target) ==> members[id] == old(members)[id])
                && var a, b := old(members)[Id(tenant, target)], members[Id(tenant, target)];
                && (c.SetRole? ==> b.role == c.role && b.active == a.active)
                && (c.SetActive? ==> b.active == c.active && b.role == a.role)
      ensures r.NotFound? ==> Id(tenant, target) !in old(members)
      ensures !r.Done? ==> members == old(members)
      ensures r.Done? <==>
              && actor.tenant == tenant && actorRole.Owner? && actor.identity != target
              && (c.SetRole? ==> c.role == Manager || c.role == Barber || c.role == Receptionist)
              && Id(tenant, target) in old(members) && !old(members)[Id(tenant, target)].role.Owner?
      ensures forall id :: id in old(members) && old(members)[id].role.Owner? ==>
        id in members && members[id] == old(members)[id]
    {
      if actor.tenant != tenant || !actorRole.Owner? || actor.identity == target || (c.SetRole? && !StaffRole(c.role)) {
        return Forbidden;
      }
      var id := Id(tenant, target);
      if id !in members {
        return NotFound;
      }
      if members[id].role.Owner? {
        return Forbidden;
      }
      members := members[id := Changed(members[id], c)];
      return Done;
    }
  }

  // ---------------------------------------------------------------- interleaved calls

  /** A call that has read its target and not yet updated it. */
  datatype Call = Call(target: Id, change: Change)
  datatype Sys = Sys(members: Table, calls: map<nat, Call>)

  datatype Action =
    | Add(actor: Id, actorRole: Role, target: Id, role: Role)
    | Check(call: nat, actor: Id, actorRole: Role, target: Id, change: Change)
    | Write(call: nat)
    | Crash(call: nat)

  /** The checks each call makes before it goes on. */
  predicate Enabled(s: Sys, a: Action) {
    match a
    case Add(actor, actorRole, target, role) => actor.tenant == target.tenant && actorRole.Owner? && StaffRole(role)
    case Check(call, actor, actorRole, target, change) =>
      && call !in s.calls
      && actor.tenant == target.tenant && actorRole.Owner? && actor != target
      && (change.SetRole? ==> StaffRole(change.role))
      && target in s.members && !s.members[target].role.Owner?
    case Write(call) => call in s.calls
    case Crash(_) => true
  }

  function Next(s: Sys, a: Action): Sys
    requires Enabled(s, a)
  {
    match a
    case Add(_, _, target, role) => s.(members := Register(s.members, target, role))
    case Check(call, _, _, target, change) => s.(calls := s.calls[call := Call(target, change)])
    case Write(call) =>
      Sys(Update(s.members, s.calls[call].target, s.calls[call].change), s.calls - {call})
    case Crash(call) => s.(calls := s.calls - {call})
  }

  predicate Possible(s: Sys, run: seq<Action>)
    decreases |run|
  {
    run == [] || (Enabled(s, run[0]) && Possible(Next(s, run[0]), run[1..]))
  }

  function Run(s: Sys, run: seq<Action>): Sys
    requires Possible(s, run)
    decreases |run|
  {
    if run == [] then s else Run(Next(s, run[0]), run[1..])
  }

  function Owners(t: Table): Table {
    map id | id in t && t[id].role.Owner? :: t[id]
  }

  /** Every call that passed its check has a target that is still no owner, and asks for no owner. */
  ghost predicate ChecksHold(s: Sys) {
    forall c :: c in s.calls ==>
                  && s.calls[c].target in s.members && !s.members[s.calls[c].target].role.Owner?
                  && (s.calls[c].change.SetRole? ==> StaffRole(s.calls[c].change.role))
  }

  lemma StepKeepsOwners(s: Sys, a: Action)
    requires ChecksHold(s) && Enabled(s, a)
    ensures ChecksHold(Next(s, a)) && Owners(Next(s, a).members) == Owners(s.members)
    ensures a.Write? ==>
              var c := s.calls[a.call]; !LastOwnerGuard(s.members, c.target, Changed(s.members[c.target], c.change))
  {
  }

  /** The set of owner memberships, with their status, is the same after every run. */
  lemma {:induction false} OwnersNeverChange(s: Sys, run: seq<Action>)
    requires ChecksHold(s) && Possible(s, run)
    ensures Owners(Run(s, run).members) == Owners(s.members) && ChecksHold(Run(s, run))
    decreases |run|
  {
    if run != [] {
      StepKeepsOwners(s, run[0]);
      OwnersNeverChange(Next(s, run[0]), run[1..]);
    }
  }

  /** Registration adds an active member with the role asked for, or leaves an existing one alone. */
  lemma RegisterAdds(t: Table, id: Id, role: Role)
    ensures var u := Register(t, id, role);
            && u.Keys == t.Keys + {id} && (forall x :: x in t ==> u[x] == t[x])
            && (id !in t ==> u[id].role == role && u[id].active)
  {
  }

  /** So the last-owner trigger of the table never has to refuse an update of the API. */
  lemma TriggerNeverFires(s: Sys, run: seq<Action>, call: nat)
    requires ChecksHold(s) && Possible(s, run) && call in Run(s, run).calls
    ensures var t := Run(s, run);
            var c := t.calls[call];
            c.target in t.members && !LastOwnerGuard(t.members, c.target, Changed(t.members[c.target], c.change))
  {
    OwnersNeverChange(s, run);
  }
}
