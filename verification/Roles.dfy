/** Role assignments and the capability grants they materialise (apps/api/src/agenticqueue_api/roles.py). */
module Roles {
  import opened Base

  type Capability = int

  /** Rows are numbered in creation order. */
  datatype Assignment = Assignment(actor: int, role: int, expiresAt: Option<int>, revokedAt: Option<int>)

  datatype Grant = Grant(actor: int, capability: Capability, expiresAt: Option<int>, revokedAt: Option<int>,
    assignment: nat)

  datatype Tables = Tables(assignments: seq<Assignment>, grants: seq<Grant>)

  /** The seeded catalog: the known actors and the capabilities of each role. */
  datatype Catalog = Catalog(actors: set<int>, roles: map<int, seq<Capability>>)

  predicate Live(expiresAt: Option<int>, revokedAt: Option<int>, now: int) {
    revokedAt.None? && (expiresAt.None? || expiresAt.value > now)
  }

  predicate LiveAssignment(a: Assignment, now: int) { Live(a.expiresAt, a.revokedAt, now) }

  predicate LiveGrant(g: Grant, now: int) { Live(g.expiresAt, g.revokedAt, now) }

  /** The capabilities that assignment `a` confers at time `now`. */
  function Conferred(grants: seq<Grant>, a: nat, now: int): set<Capability> {
    set g | g in grants && g.assignment == a && LiveGrant(g, now) :: g.capability
  }

  /** The oldest live assignment of the role to the actor. */
  function FindActive(assignments: seq<Assignment>, actor: int, role: int, now: int, from: nat): (r: Option<nat>)
    requires from <= |assignments|
    ensures match r
            case Some(i) => from <= i < |assignments| && assignments[i].actor == actor && assignments[i].role == role
                            && LiveAssignment(assignments[i], now)
            case None =>
              forall i ::
                from <= i < |assignments| && assignments[i].actor == actor && assignments[i].role == role
                ==> !LiveAssignment(assignments[i], now)
    decreases |assignments| - from
  {
    if from == |assignments| then None
    else if
      assignments[from].actor == actor && assignments[from].role == role && LiveAssignment(assignments[from], now)
    then Some(from)
    else FindActive(assignments, actor, role, now, from + 1)
  }

  /** Updates every grant of the assignment that is not revoked. */
  function WithExpiry(grants: seq<Grant>, a: nat, expiresAt: Option<int>): seq<Grant> {
    seq(|grants|, i requires 0 <= i < |grants| =>
      if grants[i].assignment == a && grants[i].revokedAt.None? then grants[i].(expiresAt := expiresAt) else grants[i])
  }

  function WithRevocation(grants: seq<Grant>, a: nat, revokedAt: int): seq<Grant> {
    seq(|grants|, i requires 0 <= i < |grants| =>
      if grants[i].assignment == a && grants[i].revokedAt.None? then grants[i].(revokedAt := Some(revokedAt))
      else grants[i])
  }

  /** One new grant for each capability not already conferred. */
  function NewGrants(actor: int, a: nat, expiresAt: Option<int>, capabilities: seq<Capability>,
                     existing: set<Capability>): seq<Grant> {
    if capabilities == [] then []
    else
      var last := capabilities[|capabilities| - 1];
      NewGrants(actor, a, expiresAt, capabilities[..|capabilities| - 1], existing)
        + if last in existing then [] else [Grant(actor, last, expiresAt, None, a)]
  }

  function Synced(catalog: Catalog, t: Tables, a: nat, now: int): Tables
    requires a < |t.assignments| && t.assignments[a].role in catalog.roles
  {
    var row := t.assignments[a];
    t.(grants := t.grants
      + NewGrants(row.actor, a, row.expiresAt, catalog.roles[row.role], Conferred(t.grants, a, now)))
  }

  datatype Op =
    | Assign(actor: int, role: int, expiresAt: Option<int>)
    | Revoke(assignment: nat, revokedAt: Option<int>)
    | RevokeGrant(grant: nat)

  /** The assignment that an accepted `Assign` creates or reuses, with the tables before its grants are synced. */
  function Assigned(t: Tables, actor: int, role: int, expiresAt: Option<int>, now: int): (Tables, nat) {
    match FindActive(t.assignments, actor, role, now, 0)
    case None => (t.(assignments := t.assignments + [Assignment(actor, role, expiresAt, None)]), |t.assignments|)
    case Some(a) =>
      if t.assignments[a].expiresAt != expiresAt then
        (Tables(t.assignments[a := t.assignments[a].(expiresAt := expiresAt)], WithExpiry(t.grants, a, expiresAt)), a)
      else (t, a)
  }

  function Step(catalog: Catalog, t: Tables, op: Op, now: int): Tables {
    match op
    case Assign(actor, role, expiresAt) =>
      if actor !in catalog.actors || role !in catalog.roles then t
      else
        var (next, a) := Assigned(t, actor, role, expiresAt, now);
        Synced(catalog, next, a, now)
    case Revoke(a, revokedAt) =>
      if a >= |t.assignments| then t
      else
        var at := if revokedAt.Some? then revokedAt.value else now;
        Tables(t.assignments[a := t.assignments[a].(revokedAt := Some(at))], WithRevocation(t.grants, a, at))
    case RevokeGrant(g) =>
      if g >= |t.grants| then t else t.(grants := t.grants[g := t.grants[g].(revokedAt := Some(now))])
  }

  // ----- what the tables always say

  function RoleCapabilities(catalog: Catalog, role: int): set<Capability> {
    if role in catalog.roles then set c | c in catalog.roles[role] else {}
  }

  /** The capabilities of the grants of `a` that are not revoked, expired or not. */
  function Standing(grants: seq<Grant>, a: nat): set<Capability> {
    set g | g in grants && g.assignment == a && g.revokedAt.None? :: g.capability
  }

  /** Grants follow their assignment: they end with it, expire with it, and stay within its role. */
  ghost predicate Sound(catalog: Catalog, t: Tables) {
    && (forall g :: g in t.grants ==>
          && g.assignment < |t.assignments| && g.actor == t.assignments[g.assignment].actor
          && (g.revokedAt.None? ==>
                && t.assignments[g.assignment].revokedAt.None?
                && g.expiresAt == t.assignments[g.assignment].expiresAt
                && g.capability in RoleCapabilities(catalog, t.assignments[g.assignment].role)))
    && (forall a :: 0 <= a < |t.assignments| ==> t.assignments[a].role in catalog.roles)
  }

  /** An assignment that is not revoked has a standing grant for every capability of its role. */
  ghost predicate Complete(catalog: Catalog, t: Tables, a: nat)
    requires a < |t.assignments|
  {
    t.assignments[a].revokedAt.None? ==> RoleCapabilities(catalog, t.assignments[a].role) <= Standing(t.grants, a)
  }

  ghost predicate AllComplete(catalog: Catalog, t: Tables) {
    forall a :: 0 <= a < |t.assignments| ==> Complete(catalog, t, a)
  }

  /** No two live assignments give one actor one role. */
  ghost predicate Exclusive(t: Tables, now: int) {
    forall a, b :: 0 <= a < b < |t.assignments| && t.assignments[a].actor == t.assignments[b].actor
        && t.assignments[a].role == t.assignments[b].role
      ==> !LiveAssignment(t.assignments[a], now) || !LiveAssignment(t.assignments[b], now)
  }

  /** At every instant a live assignment confers exactly the capabilities of its role, and any other none. */
  lemma ConferredIsRole(catalog: Catalog, t: Tables, a: nat, now: int)
    requires Sound(catalog, t) && a < |t.assignments|
    ensures Conferred(t.grants, a, now)
         <= if LiveAssignment(t.assignments[a], now) then RoleCapabilities(catalog, t.assignments[a].role) else {}
    ensures Complete(catalog, t, a) ==>
              Conferred(t.grants, a, now)
              == if LiveAssignment(t.assignments[a], now) then RoleCapabilities(catalog, t.assignments[a].role) else {}
  {
    var row := t.assignments[a];
    if Complete(catalog, t, a) && LiveAssignment(row, now) {
      forall c | c in RoleCapabilities(catalog, row.role) ensures c in Conferred(t.grants, a, now) {
        var g :| g in t.grants && g.assignment == a && g.revokedAt.None? && g.capability == c;
        assert LiveGrant(g, now);
      }
    }
  }

  lemma {:induction false} NewGrantsMembers(actor: int, a: nat, expiresAt: Option<int>,
                                            capabilities: seq<Capability>, existing: set<Capability>)
    ensures forall g ::
              g in NewGrants(actor, a, expiresAt, capabilities, existing)
              <==> && g == Grant(actor, g.capability, expiresAt, None, a)
                   && g.capability in capabilities && g.capability !in existing
  {
    if capabilities == [] {
    } else {
      var init := capabilities[..|capabilities| - 1];
      NewGrantsMembers(actor, a, expiresAt, init, existing);
      assert capabilities == init + [capabilities[|capabilities| - 1]];
    }
  }

  /** Syncing leaves an assignment complete, and takes nothing away from any other. */
  lemma SyncCompletes(catalog: Catalog, t: Tables, a: nat, now: int)
    requires Sound(catalog, t) && a < |t.assignments| && t.assignments[a].revokedAt.None?
    ensures var after := Synced(catalog, t, a, now);
            && Sound(catalog, after) && Complete(catalog, after, a)
            && forall b :: 0 <= b < |t.assignments| && Complete(catalog, t, b) ==> Complete(catalog, after, b)
  {
    var row := t.assignments[a];
    var existing := Conferred(t.grants, a, now);
    var added := NewGrants(row.actor, a, row.expiresAt, catalog.roles[row.role], existing);
    var after := Synced(catalog, t, a, now);
    NewGrantsMembers(row.actor, a, row.expiresAt, catalog.roles[row.role], existing);
    forall b ensures Standing(t.grants, b) <= Standing(after.grants, b) {
      forall c | c in Standing(t.grants, b) ensures c in Standing(after.grants, b) {
        var g :| g in t.grants && g.assignment == b && g.revokedAt.None? && g.capability == c;
        assert g in after.grants;
      }
    }
    forall c | c in RoleCapabilities(catalog, row.role) ensures c in Standing(after.grants, a) {
      if c in existing {
        var g :| g in t.grants && g.assignment == a && LiveGrant(g, now) && g.capability == c;
        assert g in after.grants;
      } else {
        var g := Grant(row.actor, c, row.expiresAt, None, a);
        assert g in added && g in after.grants;
      }
    }
  }

  lemma AssignedIsSound(catalog: Catalog, t: Tables, actor: int, role: int, expiresAt: Option<int>, now: int)
    requires Sound(catalog, t) && role in catalog.roles
    ensures var (next, a) := Assigned(t, actor, role, expiresAt, now);
            && Sound(catalog, next) && a < |next.assignments|
            && next.assignments[a] == Assignment(actor, role, expiresAt, None)
            && (forall b :: 0 <= b < |t.assignments| ==>
              b < |next.assignments| && (b != a ==> next.assignments[b] == t.assignments[b]))
            && (|next.assignments| == |t.assignments| || (a == |t.assignments| && |next.assignments| == a + 1))
            && (forall b :: Standing(next.grants, b) == Standing(t.grants, b))
  {
    var (next, a) := Assigned(t, actor, role, expiresAt, now);
    forall b ensures Standing(next.grants, b) == Standing(t.grants, b) {
      forall c ensures c in Standing(next.grants, b) <==> c in Standing(t.grants, b) {
        if c in Standing(t.grants, b) {
          var i :| 0 <= i < |t.grants| && t.grants[i].assignment == b && t.grants[i].revokedAt.None?
              && t.grants[i].capability == c;
          assert next.grants[i] in next.grants;
        }
      }
    }
  }

  lemma AssignStep(catalog: Catalog, t: Tables, actor: int, role: int, expiresAt: Option<int>, now: int)
    requires Sound(catalog, t) && actor in catalog.actors && role in catalog.roles
    ensures var after := Step(catalog, t, Assign(actor, role, expiresAt), now);
            var a := Assigned(t, actor, role, expiresAt, now).1;
            && Sound(catalog, after) && a < |after.assignments| && Complete(catalog, after, a)
            && (AllComplete(catalog, t) ==> AllComplete(catalog, after))
            && (Exclusive(t, now) ==> Exclusive(after, now))
  {
    var (next, a) := Assigned(t, actor, role, expiresAt, now);
    AssignedIsSound(catalog, t, actor, role, expiresAt, now);
    SyncCompletes(catalog, next, a, now);
    if AllComplete(catalog, t) {
      forall b | 0 <= b < |next.assignments| && b != a ensures Complete(catalog, next, b) {
        assert Complete(catalog, t, b);
      }
    }
  }

  lemma RevokeStep(catalog: Catalog, t: Tables, a: nat, revokedAt: Option<int>, now: int)
    requires Sound(catalog, t) && a < |t.assignments|
    ensures var after := Step(catalog, t, Revoke(a, revokedAt), now);
            && Sound(catalog, after)
            && (AllComplete(catalog, t) ==> AllComplete(catalog, after))
            && (Exclusive(t, now) ==> Exclusive(after, now))
  {
    var after := Step(catalog, t, Revoke(a, revokedAt), now);
    forall g | g in after.grants
      ensures g.assignment < |t.assignments| && (g.revokedAt.None? ==> g.assignment != a && g in t.grants)
              && g.actor == after.assignments[g.assignment].actor
    {
      var i :| 0 <= i < |after.grants| && after.grants[i] == g;
      assert t.grants[i] in t.grants;
    }
    if AllComplete(catalog, t) {
      forall b | 0 <= b < |after.assignments| && b != a ensures Complete(catalog, after, b) {
        assert Complete(catalog, t, b);
        forall c | c in Standing(t.grants, b) ensures c in Standing(after.grants, b) {
          var i :| 0 <= i < |t.grants| && t.grants[i].assignment == b && t.grants[i].revokedAt.None?
              && t.grants[i].capability == c;
          assert after.grants[i] == t.grants[i];
        }
      }
    }
  }

  lemma RevokeGrantStep(catalog: Catalog, t: Tables, g: nat, now: int)
    requires Sound(catalog, t)
    ensures Sound(catalog, Step(catalog, t, RevokeGrant(g), now))
    ensures Exclusive(t, now) ==> Exclusive(Step(catalog, t, RevokeGrant(g), now), now)
  {
  }

  // ----- runs

  datatype Timed = Timed(op: Op, at: int)

  function Perform(catalog: Catalog, t: Tables, ops: seq<Timed>): Tables
    decreases ops
  {
    if ops == [] then t else Perform(catalog, Step(catalog, t, ops[0].op, ops[0].at), ops[1..])
  }

  /** Time moves forward from `start` over the run. */
  ghost predicate Forward(start: int, ops: seq<Timed>)
    decreases ops
  {
    ops == [] || (start <= ops[0].at && Forward(ops[0].at, ops[1..]))
  }

  function EndOf(start: int, ops: seq<Timed>): int
    decreases ops
  {
    if ops == [] then start else EndOf(ops[0].at, ops[1..])
  }

  /** As time passes assignments only end, so exclusion lasts. */
  lemma ExclusionLasts(t: Tables, now: int, later: int)
    requires Exclusive(t, now) && now <= later
    ensures Exclusive(t, later)
  {
  }

  lemma StepKeeps(catalog: Catalog, t: Tables, op: Op, now: int)
    requires Sound(catalog, t)
    ensures var after := Step(catalog, t, op, now);
            && Sound(catalog, after)
            && (Exclusive(t, now) ==> Exclusive(after, now))
            && (AllComplete(catalog, t) && !op.RevokeGrant? ==> AllComplete(catalog, after))
  {
    match op
    case Assign(actor, role, expiresAt) =>
      if actor in catalog.actors && role in catalog.roles { AssignStep(catalog, t, actor, role, expiresAt, now); }
    case Revoke(a, revokedAt) =>
      if a < |t.assignments| { RevokeStep(catalog, t, a, revokedAt, now); }
    case RevokeGrant(g) => RevokeGrantStep(catalog, t, g, now);
  }

  /** In every run with time moving forward: an assignment that is not live confers nothing, a live one nothing
      beyond its role, and no actor holds one role through two live assignments, then or later. */
  lemma {:induction false} RunsStaySound(catalog: Catalog, t: Tables, ops: seq<Timed>, start: int)
    requires Sound(catalog, t) && Exclusive(t, start) && Forward(start, ops)
    ensures Sound(catalog, Perform(catalog, t, ops)) && Exclusive(Perform(catalog, t, ops), EndOf(start, ops))
    decreases ops
  {
    if ops == [] {
    } else {
      ExclusionLasts(t, start, ops[0].at);
      StepKeeps(catalog, t, ops[0].op, ops[0].at);
      RunsStaySound(catalog, Step(catalog, t, ops[0].op, ops[0].at), ops[1..], ops[0].at);
    }
  }

  /** In every run of assignments and revocations, however expiries change, a live assignment confers exactly
      the capabilities of its role and any other none, at every instant. */
  lemma {:induction false} RunsConferExactly(catalog: Catalog, t: Tables, ops: seq<Timed>, a: nat, now: int)
    requires Sound(catalog, t) && AllComplete(catalog, t)
    requires forall i :: 0 <= i < |ops| ==> !ops[i].op.RevokeGrant?
    ensures var after := Perform(catalog, t, ops);
            a < |after.assignments| ==>
              Conferred(after.grants, a, now)
              == if LiveAssignment(after.assignments[a], now)
                 then RoleCapabilities(catalog, after.assignments[a].role) else {}
    decreases ops
  {
    if ops == [] {
      if a < |t.assignments| { ConferredIsRole(catalog, t, a, now); }
    } else {
      StepKeeps(catalog, t, ops[0].op, ops[0].at);
      assert forall i :: 0 <= i < |ops[1..]| ==> ops[1..][i] == ops[i + 1];
      RunsConferExactly(catalog, Step(catalog, t, ops[0].op, ops[0].at), ops[1..], a, now);
    }
  }

  /** Assigning a role again restores whatever grants of it were revoked one by one. */
  lemma AssignRestores(catalog: Catalog, t: Tables, actor: int, role: int, expiresAt: Option<int>, now: int, later: int)
    requires Sound(catalog, t) && actor in catalog.actors && role in catalog.roles
    ensures var after := Step(catalog, t, Assign(actor, role, expiresAt), now);
            var a := Assigned(t, actor, role, expiresAt, now).1;
            Conferred(after.grants, a, later)
            == if Live(expiresAt, None, later) then RoleCapabilities(catalog, role) else {}
  {
    AssignStep(catalog, t, actor, role, expiresAt, now);
    AssignedIsSound(catalog, t, actor, role, expiresAt, now);
    var after := Step(catalog, t, Assign(actor, role, expiresAt), now);
    ConferredIsRole(catalog, after, Assigned(t, actor, role, expiresAt, now).1, later);
  }

  // ----- what one request does

  /** The assignment is revoked, and so is every grant of it. */
  ghost predicate Ended(t: Tables, a: nat) {
    && a < |t.assignments| && t.assignments[a].revokedAt.Some?
    && forall g :: g in t.grants && g.assignment == a ==> g.revokedAt.Some?
  }

  /** A revocation stamps its assignment and each of its standing grants, and leaves every other row alone. */
  lemma RevokeEffect(catalog: Catalog, t: Tables, a: nat, revokedAt: Option<int>, now: int)
    requires a < |t.assignments|
    ensures var after := Step(catalog, t, Revoke(a, revokedAt), now);
            var at := if revokedAt == None then Some(now) else revokedAt;
            && after.assignments == t.assignments[a := t.assignments[a].(revokedAt := at)]
            && |after.grants| == |t.grants|
            && (forall i :: 0 <= i < |t.grants| ==>
                  after.grants[i] == if t.grants[i].assignment == a && t.grants[i].revokedAt == None
                                     then t.grants[i].(revokedAt := at) else t.grants[i])
            && Ended(after, a)
  {
    var after := Step(catalog, t, Revoke(a, revokedAt), now);
    forall g | g in after.grants && g.assignment == a ensures g.revokedAt.Some? {
      var i :| 0 <= i < |after.grants| && after.grants[i] == g;
    }
  }

  lemma EndedStays(catalog: Catalog, t: Tables, a: nat, op: Op, now: int)
    requires Ended(t, a)
    ensures Ended(Step(catalog, t, op, now), a)
  {
    var after := Step(catalog, t, op, now);
    match op
    case Assign(actor, role, expiresAt) =>
      if actor in catalog.actors && role in catalog.roles {
        EndedNotAssigned(catalog, t, a, actor, role, expiresAt, now);
      }
    case Revoke(b, revokedAt) =>
      if b < |t.assignments| {
        RevokeEffect(catalog, t, b, revokedAt, now);
        forall g | g in after.grants && g.assignment == a ensures g.revokedAt.Some? {
          var i :| 0 <= i < |after.grants| && after.grants[i] == g;
          assert t.grants[i] in t.grants;
        }
      }
    case RevokeGrant(_) =>
  }

  lemma EndedNotAssigned(catalog: Catalog, t: Tables, a: nat, actor: int, role: int, expiresAt: Option<int>, now: int)
    requires Ended(t, a) && actor in catalog.actors && role in catalog.roles
    ensures Ended(Step(catalog, t, Assign(actor, role, expiresAt), now), a)
  {
    var (next, b) := Assigned(t, actor, role, expiresAt, now);
    var row := next.assignments[b];
    NewGrantsMembers(row.actor, b, row.expiresAt, catalog.roles[row.role], Conferred(next.grants, b, now));
    forall g | g in next.grants && g.assignment == a ensures g.revokedAt.Some? {
      var i :| 0 <= i < |next.grants| && next.grants[i] == g;
      assert t.grants[i] in t.grants;
    }
  }

  /** Revoked is revoked: whatever is assigned, revoked or re-stamped afterwards, at whatever times, a revoked
      assignment is never live again and confers nothing at any instant. */
  lemma RevokedForGood(catalog: Catalog, t: Tables, a: nat, revokedAt: Option<int>, now: int, ops: seq<Timed>,
                       time: int)
    requires a < |t.assignments|
    ensures var after := Perform(catalog, Step(catalog, t, Revoke(a, revokedAt), now), ops);
            && a < |after.assignments| && !LiveAssignment(after.assignments[a], time)
            && Conferred(after.grants, a, time) == {}
  {
    RevokeEffect(catalog, t, a, revokedAt, now);
    EndedForGood(catalog, Step(catalog, t, Revoke(a, revokedAt), now), a, ops, time);
  }

  lemma {:induction false} EndedForGood(catalog: Catalog, t: Tables, a: nat, ops: seq<Timed>, time: int)
    requires Ended(t, a)
    ensures var after := Perform(catalog, t, ops);
            && a < |after.assignments| && !LiveAssignment(after.assignments[a], time)
            && Conferred(after.grants, a, time) == {}
    decreases ops
  {
    if ops == [] {
    } else {
      EndedStays(catalog, t, a, ops[0].op, ops[0].at);
      EndedForGood(catalog, Step(catalog, t, ops[0].op, ops[0].at), a, ops[1..], time);
    }
  }

  /** Place `a` is where a role assigned to an actor now is found: the oldest live assignment of the pair or, without
      one, a new row at the end. */
  ghost predicate PlaceOf(t: Tables, actor: int, role: int, now: int, a: nat) {
    && a <= |t.assignments| && (a < |t.assignments| ==> Gives(t.assignments[a], actor, role, now))
    && forall i :: 0 <= i < a ==> !Gives(t.assignments[i], actor, role, now)
  }

  ghost predicate Gives(row: Assignment, actor: int, role: int, now: int) {
    && row.actor == actor && row.role == role && row.revokedAt == None
    && (row.expiresAt == None || row.expiresAt.value > now)
  }

  /** An accepted assignment ends up at its place with the expiry asked for and, whatever it conferred before, confers
      exactly its role until then; every other assignment keeps its row and its grants. */
  lemma AssignEffect(catalog: Catalog, t: Tables, actor: int, role: int, expiresAt: Option<int>, now: int, time: int)
    returns (a: nat)
    requires Sound(catalog, t) && actor in catalog.actors && role in catalog.roles
    ensures a == Assigned(t, actor, role, expiresAt, now).1
    ensures var after := Step(catalog, t, Assign(actor, role, expiresAt), now);
            && PlaceOf(t, actor, role, now, a)
            && |after.assignments| == (if a < |t.assignments| then |t.assignments| else a + 1)
            && after.assignments[a] == Assignment(actor, role, expiresAt, None)
            && (forall b :: 0 <= b < |t.assignments| && b != a ==> after.assignments[b] == t.assignments[b])
            && (forall g: Grant :: g.assignment != a ==> (g in after.grants <==> g in t.grants))
            && Conferred(after.grants, a, time)
               == if expiresAt == None || expiresAt.value > time then set c | c in catalog.roles[role] else {}
  {
    a := Assigned(t, actor, role, expiresAt, now).1;
    AssignRestores(catalog, t, actor, role, expiresAt, now, time);
    AssignedIsSound(catalog, t, actor, role, expiresAt, now);
    OtherGrantsStay(catalog, t, actor, role, expiresAt, now);
    FirstIsFound(t.assignments, actor, role, now, 0);
  }

  /** An assignment grants only what is missing: no capability whose standing grant the new expiry leaves live. */
  lemma AssignGrantsMissing(catalog: Catalog, t: Tables, actor: int, role: int, expiresAt: Option<int>, now: int,
                            i: nat)
    requires Sound(catalog, t) && actor in catalog.actors && role in catalog.roles
    ensures var after := Step(catalog, t, Assign(actor, role, expiresAt), now);
            && |t.grants| <= |after.grants|
            && (|t.grants| <= i < |after.grants| ==>
                  && after.grants[i].(capability := 0, assignment := 0) == Grant(actor, 0, expiresAt, None, 0)
                  && after.grants[i].capability in catalog.roles[role]
                  && PlaceOf(t, actor, role, now, after.grants[i].assignment)
                  && (expiresAt == None || expiresAt.value > now ==>
                    forall g :: g in t.grants && g.assignment == after.grants[i].assignment && g.revokedAt == None ==>
                      g.capability != after.grants[i].capability))
  {
    var (next, a) := Assigned(t, actor, role, expiresAt, now);
    var row := next.assignments[a];
    var existing := Conferred(next.grants, a, now);
    AssignedIsSound(catalog, t, actor, role, expiresAt, now);
    NewGrantsMembers(row.actor, a, row.expiresAt, catalog.roles[role], existing);
    FirstIsFound(t.assignments, actor, role, now, 0);
    var after := Step(catalog, t, Assign(actor, role, expiresAt), now);
    if |t.grants| <= i < |after.grants| {
      var added := after.grants[i];
      assert added in NewGrants(row.actor, a, row.expiresAt, catalog.roles[role], existing);
      if expiresAt == None || expiresAt.value > now {
        forall g | g in t.grants && g.assignment == a && g.revokedAt == None ensures g.capability != added.capability {
          StandingIsConferred(catalog, next, a, now, g.capability);
          assert g.capability in Standing(t.grants, a);
        }
      }
    }
  }

  lemma StandingIsConferred(catalog: Catalog, t: Tables, a: nat, now: int, c: Capability)
    requires Sound(catalog, t) && a < |t.assignments| && Live(t.assignments[a].expiresAt, None, now)
    ensures c in Standing(t.grants, a) ==> c in Conferred(t.grants, a, now)
  {
    if c in Standing(t.grants, a) {
      var g :| g in t.grants && g.assignment == a && g.revokedAt.None? && g.capability == c;
      assert LiveGrant(g, now);
    }
  }

  lemma OtherGrantsStay(catalog: Catalog, t: Tables, actor: int, role: int, expiresAt: Option<int>, now: int)
    requires Sound(catalog, t) && actor in catalog.actors && role in catalog.roles
    ensures var after := Step(catalog, t, Assign(actor, role, expiresAt), now);
            var a := Assigned(t, actor, role, expiresAt, now).1;
            forall g: Grant :: g.assignment != a ==> (g in after.grants <==> g in t.grants)
  {
    var (next, a) := Assigned(t, actor, role, expiresAt, now);
    var row := next.assignments[a];
    NewGrantsMembers(row.actor, a, row.expiresAt, catalog.roles[row.role], Conferred(next.grants, a, now));
    forall g: Grant | g.assignment != a ensures g in next.grants <==> g in t.grants {
      if g in t.grants {
        var i :| 0 <= i < |t.grants| && t.grants[i] == g;
        assert next.grants[i] == g;
      }
    }
  }

  lemma {:induction false} FirstIsFound(assignments: seq<Assignment>, actor: int, role: int, now: int, from: nat)
    requires from <= |assignments|
    ensures var found := FindActive(assignments, actor, role, now, from);
            forall i :: from <= i < (if found.Some? then found.value else |assignments|) ==>
              !Gives(assignments[i], actor, role, now)
    decreases |assignments| - from
  {
    if from == |assignments| {
    } else {
      FirstIsFound(assignments, actor, role, now, from + 1);
    }
  }

  /** Unknown actors, roles and assignments change nothing; revoking one grant changes that grant alone. */
  lemma OtherEffects(catalog: Catalog, t: Tables, op: Op, now: int)
    requires op.Assign? ==> op.actor !in catalog.actors || op.role !in catalog.roles
    requires op.Revoke? ==> op.assignment >= |t.assignments|
    ensures Step(catalog, t, op, now)
         == if op.RevokeGrant? && op.grant < |t.grants|
            then Tables(t.assignments, t.grants[op.grant := t.grants[op.grant].(revokedAt := Some(now))]) else t
  {
  }

  // ----- the service

  class RoleBook {
    const catalog: Catalog
    var assignments: seq<Assignment>
    var grants: seq<Grant>

    ghost function State(): Tables
      reads this
    {
      Tables(assignments, grants)
    }

    constructor (catalog: Catalog)
      ensures this.catalog == catalog && State() == Tables([], [])
    {
      this.catalog := catalog;
      assignments, grants := [], [];
    }

    method SyncGrants(a: nat, now: int)
      requires a < |assignments| && assignments[a].role in catalog.roles
      modifies this`grants
      ensures State() == Synced(catalog, old(State()), a, now)
    {
      var existing := Conferred(grants, a, now);
      var row := assignments[a];
      var capabilities := catalog.roles[row.role];
      ghost var start := grants;
      for i := 0 to |capabilities|
        invariant grants == start + NewGrants(row.actor, a, row.expiresAt, capabilities[..i], existing)
      {
        assert capabilities[..i + 1][..i] == capabilities[..i];
        if capabilities[i] !in existing {
          grants := grants + [Grant(row.actor, capabilities[i], row.expiresAt, None, a)];
        }
      }
      assert capabilities[..|capabilities|] == capabilities;
    }

    /** Reuses the live assignment, moving its expiry if asked to, or creates one; then syncs its grants. */
    method AssignRole(actor: int, role: int, expiresAt: Option<int>, now: int) returns (assignment: Option<nat>)
      modifies this
      ensures State() == Step(catalog, old(State()), Assign(actor, role, expiresAt), now)
      ensures assignment == if actor in catalog.actors && role in catalog.roles
                            then Some(Assigned(old(State()), actor, role, expiresAt, now).1) else None
    {
      if actor !in catalog.actors || role !in catalog.roles {
        return None;
      }
      var active := FindActive(assignments, actor, role, now, 0);
      var a: nat;
      if active.None? {
        a := |assignments|;
        assignments := assignments + [Assignment(actor, role, expiresAt, None)];
      } else {
        a := active.value;
        if assignments[a].expiresAt != expiresAt {
          assignments := assignments[a := assignments[a].(expiresAt := expiresAt)];
          grants := WithExpiry(grants, a, expiresAt);
        }
      }
      SyncGrants(a, now);
      return Some(a);
    }

    method RevokeAssignment(a: nat, revokedAt: Option<int>, now: int) returns (found: bool)
      modifies this
      ensures State() == Step(catalog, old(State()), Revoke(a, revokedAt), now)
      ensures found <==> a < |old(assignments)|
    {
      if a >= |assignments| {
        return false;
      }
      var at := if revokedAt.Some? then revokedAt.value else now;
      assignments := assignments[a := assignments[a].(revokedAt := Some(at))];
      grants := WithRevocation(grants, a, at);
      return true;
    }
  }
}
