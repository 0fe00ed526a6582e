/** Dependency release makes progress: on an acyclic graph some unfinished task can always be worked on, and
    working on such tasks one by one finishes them all. */
module Progress {
  import opened Base
  import opened Digraph
  import opened DodReports
  import opened Transitions
  import opened Lifecycle
  import opened LifecycleTheorems
  import opened Evidence
  import Validator

  /** The dependencies in force. */
  ghost function DepArcs(edges: seq<Edge>): Arcs<Id> {
    set e | e in edges && !Superseded(e.metadata) :: (e.src, e.dst)
  }

  function Unfinished(tasks: Tasks): set<Id> {
    set id | id in tasks && tasks[id].state != Done
  }

  /** Every dependency of a task is a task, and every blocked task has one. */
  ghost predicate Grounded(edges: seq<Edge>, tasks: Tasks) {
    forall id :: id in tasks ==>
      && (tasks[id].state == Blocked ==> ActiveDeps(edges, id) != [])
      && forall d :: d in ActiveDeps(edges, id) ==> d in tasks
  }

  /** While anything is unfinished, some task is neither blocked nor done. */
  lemma SomeTaskIsOpen(edges: seq<Edge>, tasks: Tasks) returns (id: Id)
    requires Acyclic(DepArcs(edges)) && NoLostWakeup(edges, tasks) && Grounded(edges, tasks)
    requires Unfinished(tasks) != {}
    ensures id in tasks && tasks[id].state != Blocked && tasks[id].state != Done
  {
    id := AcyclicHasSink(DepArcs(edges), Unfinished(tasks));
    if tasks[id].state == Blocked {
      assert !Ready(edges, tasks, id);
      forall d | d in ActiveDeps(edges, id) ensures IsDone(tasks, d) {
        assert (id, d) in DepArcs(edges);
        assert !StaysIn(DepArcs(edges), Unfinished(tasks), id);
      }
    }
  }

  /** The policy lets a task in progress through to done. */
  predicate OpenRoad(p: Policy, tier: int) {
    && Submitted in Allowed(p, InProgress) && Validated in Allowed(p, Submitted) && Done in Allowed(p, Validated)
    && (forall c :: c in Required(p, Submitted) ==> c == RunTests)
    && (forall c :: c in Required(p, Validated) ==> c == UpdateTask)
    && (forall c :: c in Required(p, Done) ==> c == UpdateTask)
    && tier <= p.autonomyTier
  }

  lemma CodingTasksHaveAnOpenRoad(tier: int)
    requires tier <= 3
    ensures OpenRoad(CODING_TASK_POLICY, tier)
  {
  }

  /** A caller with every capability that submitting and approving ask for. */
  predicate Capable(a: Actor) {
    Holds(a, RunTests) && Holds(a, CreateArtifact) && Holds(a, UpdateTask)
  }

  /** A submission that proves the task done. */
  predicate Proves(t: Task, s: Validator.Submission) {
    Validator.HasChecks(t.contract) && Validator.IsValid(Validator.Validate(t.contract, s))
  }

  predicate Workable(t: Task, s: Validator.Submission) {
    OpenRoad(t.policy, t.contract.tier) && Proves(t, s)
  }

  /** A task that a claim by the default states can take. */
  predicate Claimable(t: Task) {
    t.state == Todo || t.state == Queued
  }

  /** One way to finish a task: claim it by the default states, submit proof, approve. Only a task that is not
      waiting to be claimed is reset first. */
  function Work(t: Task, id: Id, a: Actor, s: Validator.Submission, runId: int): seq<Event> {
    (if Claimable(t) then [] else [Event(id, Reset(a))])
      + [Event(id, ClaimNext([], InProgress, a)), Event(id, Submit(a, s, runId)), Event(id, Approve(a))]
  }

  /** Resets take an administrator; the rest does not. */
  predicate MayWork(a: Actor, t: Task) {
    Capable(a) && (Claimable(t) || a.isAdmin)
  }

  lemma WorkIsOrderly(t: Task, id: Id, a: Actor, s: Validator.Submission, runId: int)
    ensures OrderlyRun(Work(t, id, a, s, runId))
  {
  }

  lemma RoadIsOpen(t: Task, report: Option<Report>)
    requires t.state == InProgress && OpenRoad(t.policy, t.contract.tier) && report.Some? && AllChecked(report.value)
    ensures SubmittedState(t, report) == Ok(if t.policy.hitlRequired then Validated else Done)
  {
  }

  lemma SubmitGoesThrough(id: Id, t: Task, a: Actor, s: Validator.Submission, runId: int, now: int)
    requires t.state == InProgress && t.owner == Some(a.id) && Capable(a) && Workable(t, s)
    ensures var d := DecideSubmit(id, t, a, s, runId, now);
            && d.Move? && d.task.state == (if t.policy.hitlRequired then Validated else Done)
            && d.run.Some?
            && d.run.value == Run(id, now, runId, d.task.state, StoredReport(Validator.Validate(t.contract, s).report))
  {
    Validator.AcceptedReport(t.contract, s);
    RoadIsOpen(t, Validator.Validate(t.contract, s).report);
  }

  lemma ApproveGoesThrough(t: Task, a: Actor, report: Option<Report>)
    requires t.state == Validated && Capable(a) && OpenRoad(t.policy, t.contract.tier) && Passing(report)
    ensures DecideApprove(t, a, report).Move? && DecideApprove(t, a, report).task.state == Done
  {
    DonePassesIff(t.policy, Validated, Ask(t, UpdateTask, 0, report, true));
  }

  /** What a request changes on the board apart from the state of its own task. */
  ghost predicate OnlyReleases(before: Tasks, after: Tasks, id: Id) {
    && after.Keys == before.Keys
    && (forall k :: k in before && k != id ==>
      after[k] == before[k] || (before[k].state == Blocked && after[k] == Requeued(before[k])))
    && (id in before ==> after[id].contract == before[id].contract && after[id].policy == before[id].policy)
  }

  lemma StepDecides(setup: Setup, w: World, e: Event)
    requires e.id in w.tasks
    ensures Step(setup, w, e).tasks[e.id]
         == var d := Decide(w.tasks[e.id], LatestReport(setup, w.runs, e.id), w.clock + 1, e);
            if d.Move? then d.task else w.tasks[e.id]
  {
    OwnTask(setup, w, e);
  }

  lemma StepOnlyReleases(setup: Setup, w: World, e: Event)
    requires e.id in w.tasks
    ensures OnlyReleases(w.tasks, Step(setup, w, e).tasks, e.id)
  {
    StepDecides(setup, w, e);
    forall k | k in w.tasks && k != e.id { OthersOnlyReleased(setup, w, e, k); }
    var d := Decide(w.tasks[e.id], LatestReport(setup, w.runs, e.id), w.clock + 1, e);
    if d.Move? { MoveShape(w.tasks[e.id], LatestReport(setup, w.runs, e.id), w.clock + 1, e); }
  }

  /** After a reset: the task waits to be claimed and the run table is as before. */
  lemma ResetRequeues(setup: Setup, w: World, id: Id, a: Actor) returns (v: World)
    requires id in w.tasks && a.isAdmin && StoredBy(w.runs, w.clock)
    ensures v == Step(setup, w, Event(id, Reset(a)))
    ensures OnlyReleases(w.tasks, v.tasks, id) && Claimable(v.tasks[id])
    ensures v.runs == w.runs && StoredBy(v.runs, v.clock)
  {
    v := Step(setup, w, Event(id, Reset(a)));
    StepDecides(setup, w, Event(id, Reset(a)));
    StepOnlyReleases(setup, w, Event(id, Reset(a)));
  }

  /** After claiming: the task is in progress in the claimer's hands and the run table is as before. */
  lemma ClaimStarts(setup: Setup, w: World, id: Id, a: Actor) returns (v: World)
    requires id in w.tasks && Claimable(w.tasks[id]) && StoredBy(w.runs, w.clock)
    ensures v == Step(setup, w, Event(id, ClaimNext([], InProgress, a)))
    ensures OnlyReleases(w.tasks, v.tasks, id) && v.tasks[id].state == InProgress && v.tasks[id].owner == Some(a.id)
    ensures v.runs == w.runs && StoredBy(v.runs, v.clock)
  {
    v := Step(setup, w, Event(id, ClaimNext([], InProgress, a)));
    StepDecides(setup, w, Event(id, ClaimNext([], InProgress, a)));
    StepOnlyReleases(setup, w, Event(id, ClaimNext([], InProgress, a)));
  }

  lemma CarryMoves(setup: Setup, w: World, id: Id, d: Decision)
    requires id in w.tasks && d.Move? && (d.finishes ==> d.task.state == Done)
    requires d.task.contract == w.tasks[id].contract && d.task.policy == w.tasks[id].policy
    ensures var after := Carry(setup, w, id, d);
            && after.runs == RunsAfter(w.runs, d) && after.clock == w.clock
            && after.tasks[id] == (if d.task.state == Blocked then after.tasks[id] else d.task)
            && OnlyReleases(w.tasks, after.tasks, id)
  {
  }

  /** The report that submitting proof stores reads back as a passing one. */
  lemma ProofIsStored(setup: Setup, runs: seq<Run>, run: Run, t: Task, s: Validator.Submission)
    requires Proves(t, s) && StoredBy(runs, run.createdAt - 1)
        && run.report == StoredReport(Validator.Validate(t.contract, s).report)
    ensures Passing(LatestReport(setup, runs + [run], run.task))
  {
    NewRunIsLatest(runs, run, run.task);
    StoredReportReloads(t.contract, s, setup.show);
  }

  /** What an accepted submission decides. */
  ghost predicate Accepts(d: Decision, id: Id, t: Task, s: Validator.Submission, now: int) {
    && d.Move? && d.task.contract == t.contract && d.task.policy == t.policy
    && (d.task.state == Validated || d.task.state == Done) && (d.finishes ==> d.task.state == Done)
    && d.run.Some? && d.run.value.task == id && d.run.value.createdAt == now
    && d.run.value.report == StoredReport(Validator.Validate(t.contract, s).report)
  }

  lemma SubmitAccepts(id: Id, t: Task, a: Actor, s: Validator.Submission, runId: int, now: int)
    requires t.state == InProgress && t.owner == Some(a.id) && Capable(a) && Workable(t, s)
    ensures Accepts(DecideSubmit(id, t, a, s, runId, now), id, t, s, now)
  {
    SubmitGoesThrough(id, t, a, s, runId, now);
  }

  lemma AcceptedCarries(setup: Setup, w: World, id: Id, d: Decision, s: Validator.Submission) returns (v: World)
    requires id in w.tasks && StoredBy(w.runs, w.clock - 1) && Proves(w.tasks[id], s)
        && Accepts(d, id, w.tasks[id], s, w.clock)
    ensures v == Carry(setup, w, id, d)
    ensures OnlyReleases(w.tasks, v.tasks, id) && StoredBy(v.runs, v.clock)
    ensures v.tasks[id].state == Done || (v.tasks[id].state == Validated && Passing(LatestReport(setup, v.runs, id)))
  {
    ProofIsStored(setup, w.runs, d.run.value, w.tasks[id], s);
    CarryMoves(setup, w, id, d);
    v := Carry(setup, w, id, d);
  }

  /** After submitting proof: the task is done or, with its report stored, validated. */
  lemma SubmitProof(setup: Setup, w: World, id: Id, a: Actor, s: Validator.Submission, runId: int) returns (v: World)
    requires id in w.tasks && w.tasks[id].state == InProgress && w.tasks[id].owner == Some(a.id)
    requires Capable(a) && StoredBy(w.runs, w.clock)
    requires Workable(w.tasks[id], s)
    ensures v == Step(setup, w, Event(id, Submit(a, s, runId)))
    ensures OnlyReleases(w.tasks, v.tasks, id) && StoredBy(v.runs, v.clock)
    ensures v.tasks[id].state == Done || (v.tasks[id].state == Validated && Passing(LatestReport(setup, v.runs, id)))
  {
    SubmitAccepts(id, w.tasks[id], a, s, runId, w.clock + 1);
    SubmitIsDecided(setup, Ticked(w), id, a, s, runId);
    v := AcceptedCarries(setup, Ticked(w), id, DecideSubmit(id, w.tasks[id], a, s, runId, w.clock + 1), s);
  }

  lemma ApproveProof(setup: Setup, w: World, id: Id, a: Actor) returns (v: World)
    requires id in w.tasks && Capable(a) && StoredBy(w.runs, w.clock)
        && OpenRoad(w.tasks[id].policy, w.tasks[id].contract.tier)
    requires w.tasks[id].state == Done || (w.tasks[id].state == Validated && Passing(LatestReport(setup, w.runs, id)))
    ensures v == Step(setup, w, Event(id, Approve(a)))
    ensures OnlyReleases(w.tasks, v.tasks, id) && v.tasks[id].state == Done && StoredBy(v.runs, v.clock)
  {
    if w.tasks[id].state == Validated { ApproveGoesThrough(w.tasks[id], a, LatestReport(setup, w.runs, id)); }
    StepDecides(setup, w, Event(id, Approve(a)));
    StepOnlyReleases(setup, w, Event(id, Approve(a)));
    v := Step(setup, w, Event(id, Approve(a)));
  }

  lemma PerformThree(setup: Setup, w: World, a: Event, b: Event, c: Event)
    ensures Perform(setup, w, [a, b, c]) == Step(setup, Step(setup, Step(setup, w, a), b), c)
  {
    PerformOne(setup, w, a, [b, c]);
    PerformOne(setup, Step(setup, w, a), b, [c]);
    PerformOne(setup, Step(setup, Step(setup, w, a), b), c, []);
    assert [a] + [b, c] == [a, b, c] && [b] + [c] == [b, c] && [c] + [] == [c];
  }

  lemma PerformOne(setup: Setup, w: World, e: Event, rest: seq<Event>)
    ensures Perform(setup, w, [e] + rest) == Perform(setup, Step(setup, w, e), rest)
  {
    assert ([e] + rest)[1..] == rest;
  }

  lemma ReleasesCompose(a: Tasks, b: Tasks, c: Tasks, id: Id)
    requires OnlyReleases(a, b, id) && OnlyReleases(b, c, id)
    ensures OnlyReleases(a, c, id)
  {
  }

  lemma ClaimedWorkFinishes(setup: Setup, w: World, id: Id, a: Actor, s: Validator.Submission, runId: int)
    requires id in w.tasks && Claimable(w.tasks[id]) && Capable(a) && StoredBy(w.runs, w.clock)
        && Workable(w.tasks[id], s)
    ensures var after := Perform(setup, w, Work(w.tasks[id], id, a, s, runId));
            && OnlyReleases(w.tasks, after.tasks, id) && after.tasks[id].state == Done
            && StoredBy(after.runs, after.clock)
  {
    var events := Work(w.tasks[id], id, a, s, runId);
    assert events == [events[0], events[1], events[2]];
    PerformThree(setup, w, events[0], events[1], events[2]);
    var claimed := ClaimStarts(setup, w, id, a);
    var submitted := SubmitProof(setup, claimed, id, a, s, runId);
    var done := ApproveProof(setup, submitted, id, a);
    ReleasesCompose(w.tasks, claimed.tasks, submitted.tasks, id);
    ReleasesCompose(w.tasks, submitted.tasks, done.tasks, id);
  }

  /** Working on a task finishes it, from whatever state, and otherwise only releases blocked tasks. */
  lemma WorkFinishes(setup: Setup, w: World, id: Id, a: Actor, s: Validator.Submission, runId: int)
    requires id in w.tasks && MayWork(a, w.tasks[id]) && StoredBy(w.runs, w.clock) && Workable(w.tasks[id], s)
    ensures var after := Perform(setup, w, Work(w.tasks[id], id, a, s, runId));
            && OnlyReleases(w.tasks, after.tasks, id) && after.tasks[id].state == Done
            && StoredBy(after.runs, after.clock)
  {
    if Claimable(w.tasks[id]) {
      ClaimedWorkFinishes(setup, w, id, a, s, runId);
    } else {
      var reset := ResetRequeues(setup, w, id, a);
      var rest := Work(reset.tasks[id], id, a, s, runId);
      assert Work(w.tasks[id], id, a, s, runId) == [Event(id, Reset(a))] + rest;
      PerformOne(setup, w, Event(id, Reset(a)), rest);
      ClaimedWorkFinishes(setup, reset, id, a, s, runId);
      ReleasesCompose(w.tasks, reset.tasks, Perform(setup, reset, rest).tasks, id);
    }
  }

  // ----- draining the graph

  type Proofs = map<Id, Validator.Submission>

  ghost predicate AllWorkable(tasks: Tasks, proofs: Proofs) {
    forall id :: id in tasks ==> id in proofs && Workable(tasks[id], proofs[id])
  }

  /** A board from which work can go on. */
  ghost predicate Healthy(setup: Setup, w: World, proofs: Proofs) {
    && NoLostWakeup(setup.edges, w.tasks) && Grounded(setup.edges, w.tasks)
    && StoredBy(w.runs, w.clock) && AllWorkable(w.tasks, proofs)
  }

  /** Every unfinished task is blocked or waits to be claimed. */
  ghost predicate QueueOnly(tasks: Tasks) {
    forall id :: id in Unfinished(tasks) ==> tasks[id].state == Blocked || Claimable(tasks[id])
  }

  /** A task that can be worked on: neither blocked nor done. */
  predicate Open(tasks: Tasks, id: Id) {
    id in tasks && tasks[id].state != Blocked && tasks[id].state != Done
  }

  ghost function Worked(setup: Setup, w: World, id: Id, a: Actor, proofs: Proofs, runId: int): World
    requires id in w.tasks && id in proofs
  {
    Perform(setup, w, Work(w.tasks[id], id, a, proofs[id], runId))
  }

  /** `order` picks, time after time, any task that is open then and that the caller may work on. */
  ghost predicate Picks(setup: Setup, w: World, order: seq<Id>, a: Actor, proofs: Proofs)
    decreases order
  {
    order == []
    || var id := order[0];
       && Open(w.tasks, id) && id in proofs && MayWork(a, w.tasks[id])
       && Picks(setup, Worked(setup, w, id, a, proofs, |order|), order[1..], a, proofs)
  }

  ghost function AllWorked(setup: Setup, w: World, order: seq<Id>, a: Actor, proofs: Proofs): World
    requires Picks(setup, w, order, a, proofs)
    decreases order
  {
    if order == [] then w
    else AllWorked(setup, Worked(setup, w, order[0], a, proofs, |order|), order[1..], a, proofs)
  }

  /** Working on one task keeps the board healthy and leaves one unfinished task less. */
  lemma WorkShrinks(setup: Setup, w: World, id: Id, a: Actor, proofs: Proofs, runId: int)
    requires Healthy(setup, w, proofs) && id in Unfinished(w.tasks) && MayWork(a, w.tasks[id])
    ensures var after := Worked(setup, w, id, a, proofs, runId);
            && Healthy(setup, after, proofs) && Unfinished(after.tasks) == Unfinished(w.tasks) - {id}
            && (QueueOnly(w.tasks) ==> QueueOnly(after.tasks))
  {
    var events := Work(w.tasks[id], id, a, proofs[id], runId);
    var after := Perform(setup, w, events);
    WorkFinishes(setup, w, id, a, proofs[id], runId);
    WorkIsOrderly(w.tasks[id], id, a, proofs[id], runId);
    NoRunLosesWakeups(setup, w, events);
    StaysGrounded(setup.edges, w.tasks, after.tasks, id);
    StaysWorkable(w.tasks, after.tasks, id, proofs);
    OneLess(w.tasks, after.tasks, id);
  }

  lemma OneLess(before: Tasks, after: Tasks, id: Id)
    requires OnlyReleases(before, after, id) && id in after && after[id].state == Done
    ensures Unfinished(after) == Unfinished(before) - {id}
  {
    forall k ensures k in Unfinished(after) <==> k in Unfinished(before) - {id} {
      if k in before && k != id { assert after[k] == before[k] || before[k].state == Blocked; }
    }
  }

  /** From one board to the other the tasks of `order` were finished, each once and no other, and either nothing is
      unfinished now or some task is open. Waiting to be claimed remains the only way to be open. */
  ghost predicate Drained(before: Tasks, after: Tasks, order: seq<Id>) {
    && Unfinished(after) == Unfinished(before) - (set id | id in order)
    && |Unfinished(after)| + |order| == |Unfinished(before)|
    && (Unfinished(after) != {} ==> exists id :: Open(after, id))
    && (QueueOnly(before) ==> QueueOnly(after))
  }

  lemma DrainedLonger(before: Tasks, middle: Tasks, after: Tasks, order: seq<Id>)
    requires order != [] && order[0] in Unfinished(before)
    requires Unfinished(middle) == Unfinished(before) - {order[0]} && (QueueOnly(before) ==> QueueOnly(middle))
    requires Drained(middle, after, order[1..])
    ensures Drained(before, after, order)
  {
    assert order == [order[0]] + order[1..];
    assert (set k | k in order) == {order[0]} + set k | k in order[1..];
  }

  /** From any healthy board of an acyclic graph, every order of open tasks finishes one task at a time, and no order
      gets stuck: while anything is unfinished another task is open. So the orders of as many tasks as there were
      unfinished drain the graph, and where all open tasks wait to be claimed they do it without a reset. */
  lemma {:induction false} EveryOrderDrains(setup: Setup, w: World, order: seq<Id>, a: Actor, proofs: Proofs)
    requires Acyclic(DepArcs(setup.edges)) && Healthy(setup, w, proofs) && Picks(setup, w, order, a, proofs)
    ensures var after := AllWorked(setup, w, order, a, proofs);
            Healthy(setup, after, proofs) && Drained(w.tasks, after.tasks, order)
    decreases order
  {
    if order == [] {
      if Unfinished(w.tasks) != {} {
        var id := SomeTaskIsOpen(setup.edges, w.tasks);
        assert Open(w.tasks, id);
      }
    } else {
      var id := order[0];
      var next := Worked(setup, w, id, a, proofs, |order|);
      WorkShrinks(setup, w, id, a, proofs, |order|);
      EveryOrderDrains(setup, next, order[1..], a, proofs);
      DrainedLonger(w.tasks, next.tasks, AllWorked(setup, w, order, a, proofs).tasks, order);
    }
  }

  /** Such an order exists, without an administrator where all open tasks wait to be claimed. */
  lemma {:induction false} GraphDrains(setup: Setup, w: World, a: Actor, proofs: Proofs) returns (order: seq<Id>)
    requires Acyclic(DepArcs(setup.edges)) && Healthy(setup, w, proofs)
    requires Capable(a) && (a.isAdmin || QueueOnly(w.tasks))
    ensures Picks(setup, w, order, a, proofs) && |order| == |Unfinished(w.tasks)|
    ensures Unfinished(AllWorked(setup, w, order, a, proofs).tasks) == {}
    decreases |Unfinished(w.tasks)|
  {
    if Unfinished(w.tasks) == {} {
      order := [];
    } else {
      var id := SomeTaskIsOpen(setup.edges, w.tasks);
      var n := |Unfinished(w.tasks)|;
      assert id in Unfinished(w.tasks) && MayWork(a, w.tasks[id]);
      WorkShrinks(setup, w, id, a, proofs, n);
      var rest := GraphDrains(setup, Worked(setup, w, id, a, proofs, n), a, proofs);
      order := [id] + rest;
      assert order[1..] == rest && |order| == n;
    }
  }

  lemma StaysGrounded(edges: seq<Edge>, before: Tasks, after: Tasks, id: Id)
    requires Grounded(edges, before) && OnlyReleases(before, after, id) && (id in after ==> after[id].state == Done)
    ensures Grounded(edges, after)
  {
    forall k | k in after
      ensures after[k].state == Blocked ==> ActiveDeps(edges, k) != []
      ensures forall d :: d in ActiveDeps(edges, k) ==> d in after
    {
      assert k in before;
    }
  }

  lemma StaysWorkable(before: Tasks, after: Tasks, id: Id, proofs: Proofs)
    requires AllWorkable(before, proofs) && OnlyReleases(before, after, id)
    ensures AllWorkable(after, proofs)
  {
    forall k | k in after ensures k in proofs && Workable(after[k], proofs[k]) {
      assert k in before && Workable(before[k], proofs[k]);
    }
  }
}
