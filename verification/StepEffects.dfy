/** What each request does to the board, said of rows, runs and audit entries alone: who is let through, what changes
    and what does not (apps/api/src/agenticqueue_api/task_actions.py, app.py and repo/queue.py). */
module StepEffects {
  import opened Base
  import opened DodReports
  import opened Transitions
  import opened Lifecycle
  import opened LifecycleTheorems
  import Evidence
  import Validator

  // ----- release of dependents

  /** The request lets its own task through to done. A claim that names done as its target is none. */
  ghost predicate Finishes(setup: Setup, w: World, e: Event) {
    && (e.op.Submit? || e.op.Approve?)
    && e.id in w.tasks && w.tasks[e.id].state != Done && Step(setup, w, e).tasks[e.id].state == Done
  }

  /** Some edge in force leaves the task, and each one leads to finished work. */
  ghost predicate WaitsForNothing(edges: seq<Edge>, tasks: Tasks, k: Id) {
    && (exists e :: e in edges && e.src == k && !Superseded(e.metadata))
    && (forall e :: e in edges && e.src == k && !Superseded(e.metadata) ==>
          e.dst in tasks && tasks[e.dst].state == Done)
  }

  ghost predicate DependsOn(edges: seq<Edge>, k: Id, id: Id) {
    exists e :: e in edges && e.src == k && e.dst == id
  }

  /** Any one of four marks takes an edge out of force; nothing else in its metadata does. */
  lemma SupersededMarks(metadata: map<string, Json>, mark: Json)
    ensures Truthy(mark) ==>
              Superseded(metadata["superseded_at" := mark]) && Superseded(metadata["superseded_by" := mark])
    ensures Superseded(metadata["status" := Text("superseded")]) && Superseded(metadata["is_active" := Bool(false)])
    ensures !Truthy(mark) && mark != Bool(false) ==>
              !Superseded(metadata["superseded_at" := mark]["superseded_by" := mark]["status" := mark]
                                  ["is_active" := mark])
  {
  }

  lemma DecidesToFinish(setup: Setup, w: World, e: Event)
    ensures var d := DecisionFor(setup, Ticked(w), e); d.Move? && d.finishes <==> Finishes(setup, w, e)
  {
    var d := DecisionFor(setup, Ticked(w), e);
    if e.id in w.tasks { OwnTask(setup, w, e); }
    if d.Move? { MoveShape(w.tasks[e.id], LatestReport(setup, w.runs, e.id), Ticked(w).clock, e); }
  }

  lemma ReadyIffWaitsForNothing(edges: seq<Edge>, tasks: Tasks, k: Id)
    requires k in tasks && tasks[k].state == Blocked
    ensures Ready(edges, tasks, k) <==> WaitsForNothing(edges, tasks, k)
  {
    var deps := ActiveDeps(edges, k);
    if WaitsForNothing(edges, tasks, k) {
      var e :| e in edges && e.src == k && !Superseded(e.metadata);
      assert e.dst in deps;
      forall d | d in deps ensures IsDone(tasks, d) {
        var f :| f in edges && f.src == k && f.dst == d && !Superseded(f.metadata);
      }
    }
    if Ready(edges, tasks, k) {
      assert deps[0] in deps;
      forall e | e in edges && e.src == k && !Superseded(e.metadata) ensures IsDone(tasks, e.dst) {
        assert e.dst in deps;
      }
    }
  }

  /** Exactly which tasks a request changes besides its own: the blocked dependents of the task it finishes that
      wait for nothing else. They go back to the queue, owned by no one. */
  lemma ReleasedIff(setup: Setup, w: World, e: Event, k: Id)
    requires k in w.tasks && k != e.id
    ensures var after := Step(setup, w, e).tasks;
            && k in after
            && (after[k] != w.tasks[k]
                <==> && Finishes(setup, w, e) && w.tasks[k].state == Blocked
                     && DependsOn(setup.edges, k, e.id) && WaitsForNothing(setup.edges, after, k))
            && (after[k] != w.tasks[k] ==> after[k] == w.tasks[k].(state := Queued, owner := None, claimedAt := None))
  {
    var d, after := DecisionFor(setup, Ticked(w), e), Step(setup, w, e).tasks;
    DecidesToFinish(setup, w, e);
    if d.Move? && d.finishes {
      var tasks := w.tasks[e.id := d.task];
      var released := Released(setup.edges, tasks, Dependents(setup.edges, e.id));
      assert after == Unblocked(tasks, released);
      assert forall id :: IsDone(after, id) <==> IsDone(tasks, id);
      if w.tasks[k].state == Blocked { ReadyIffWaitsForNothing(setup.edges, tasks, k); }
      assert k in released <==> DependsOn(setup.edges, k, e.id) && Ready(setup.edges, tasks, k);
      assert WaitsForNothing(setup.edges, tasks, k) <==> WaitsForNothing(setup.edges, after, k);
    }
  }

  // ----- the audit log

  /** The request appends one release for each task it woke, each once, and then its own entries. */
  ghost predicate Logs(before: World, after: World, own: seq<Entry>) {
    && |after.audit| >= |before.audit| + |own|
    && var n := |after.audit| - |own|;
       var woken := after.audit[|before.audit|..n];
       && after.audit[..|before.audit|] == before.audit && after.audit[n..] == own
       && (forall i :: 0 <= i < |woken| ==> woken[i].action == JobUnblocked)
       && (forall i, j :: 0 <= i < j < |woken| ==> woken[i] != woken[j])
       && (forall k :: Entry(k, JobUnblocked) in woken <==> Woken(before.tasks, after.tasks, k))
  }

  ghost predicate Woken(before: Tasks, after: Tasks, k: Id) {
    k in before && k in after && before[k].state == Blocked && after[k].state == Queued
  }

  ghost predicate Once(ids: seq<Id>) {
    forall i, j :: 0 <= i < j < |ids| ==> ids[i] != ids[j]
  }

  lemma {:induction false} ReleasedOnce(edges: seq<Edge>, tasks: Tasks, dependents: seq<Id>)
    requires Once(dependents)
    ensures Once(Released(edges, tasks, dependents))
    decreases |dependents|
  {
    if dependents == [] {
    } else {
      var init, last := dependents[..|dependents| - 1], dependents[|dependents| - 1];
      ReleasedOnce(edges, tasks, init);
      var before := Released(edges, tasks, init);
      assert last !in init && last !in before;
    }
  }

  lemma EntriesOf(ids: seq<Id>)
    requires Once(ids)
    ensures var log := Entries(ids, JobUnblocked);
            && (forall i :: 0 <= i < |log| ==> log[i].action == JobUnblocked)
            && (forall i, j :: 0 <= i < j < |log| ==> log[i] != log[j])
            && (forall k :: Entry(k, JobUnblocked) in log <==> k in ids)
  {
    var log := Entries(ids, JobUnblocked);
    forall k | k in ids ensures Entry(k, JobUnblocked) in log {
      var i :| 0 <= i < |ids| && ids[i] == k;
      assert log[i] == Entry(k, JobUnblocked);
    }
  }

  lemma LogsFrom(before: World, after: World, ids: seq<Id>, own: seq<Entry>)
    requires Once(ids)
    requires after.audit == before.audit + Entries(ids, JobUnblocked) + own
    requires forall k :: k in ids <==> Woken(before.tasks, after.tasks, k)
    ensures Logs(before, after, own)
  {
    EntriesOf(ids);
    assert after.audit[|before.audit|..|after.audit| - |own|] == Entries(ids, JobUnblocked);
  }

  lemma CarriedLog(setup: Setup, w: World, id: Id, d: Decision)
    requires id in w.tasks && w.tasks[id].state != Blocked && d.Move? && (d.finishes ==> d.task.state == Done)
    ensures Logs(w, Carry(setup, w, id, d), Repeated(id, d.actions))
  {
    var tasks := w.tasks[id := d.task];
    var released := if d.finishes then Released(setup.edges, tasks, Dependents(setup.edges, id)) else [];
    if d.finishes { ReleasedOnce(setup.edges, tasks, Dependents(setup.edges, id)); }
    WokenAreReleased(w.tasks, id, d.task, released);
    LogsFrom(w, Carry(setup, w, id, d), released, Repeated(id, d.actions));
  }

  lemma WokenAreReleased(tasks: Tasks, id: Id, t: Task, released: seq<Id>)
    requires id in tasks && tasks[id].state != Blocked
    requires forall k :: k in released ==> k in tasks && k != id && tasks[k].state == Blocked
    ensures forall k :: k in released <==> Woken(tasks, Unblocked(tasks[id := t], released), k)
  {
  }

  /** A decision that finishes nothing changes one row and adds one run at most. */
  lemma CarriedAlone(setup: Setup, w: World, id: Id, d: Decision)
    requires id in w.tasks && d.Move? && !d.finishes
    ensures Carry(setup, w, id, d)
         == World(w.tasks[id := d.task], w.runs + (if d.run.Some? then [d.run.value] else []),
                  w.audit + Repeated(id, d.actions), w.clock)
  {
    var tasks := w.tasks[id := d.task];
    assert Unblocked(tasks, []) == tasks;
    assert w.audit + Entries([], JobUnblocked) == w.audit;
  }

  // ----- who is let through

  /** Administrators and holders of the admin capability, or of each capability asked for. */
  predicate Permits(actor: Actor, asked: set<Capability>) {
    actor.isAdmin || Admin in actor.held || asked <= actor.held
  }

  /** The policy lists the change, asks for no other capability for it, and trusts the task's tier. */
  ghost predicate Opens(t: Task, from: TaskState, target: TaskState, asked: Capability) {
    && from in t.policy.transitions && target in t.policy.transitions[from]
    && (target in t.policy.required ==> forall c :: c in t.policy.required[target] ==> c == asked)
    && t.contract.tier <= t.policy.autonomyTier
  }

  ghost predicate Proven(report: Option<Report>) {
    report.Some? && forall item :: item in report.value.checklist ==> item.state == Checked
  }

  lemma JudgedIff(t: Task, from: TaskState, target: TaskState, asked: Capability, attempts: nat,
                  report: Option<Report>, human: bool)
    requires Listed(from) && Listed(target) && from != Blocked
    ensures var judged := Judge(t, from, target, Ask(t, asked, attempts, report, human));
            judged.Ok? <==>
              && Opens(t, from, target, asked)
              && (target == Done ==> (t.policy.hitlRequired ==> human) && Proven(report))
    ensures Judge(t, from, target, Ask(t, asked, attempts, report, human)).Ok? ==>
              var judged := Judge(t, from, target, Ask(t, asked, attempts, report, human)).value;
              && judged.state == target
              && judged.attempts == (if from == Rejected && target == Queued then attempts + 1 else attempts)
              && (judged.escalation == Some(MaxRetriesExceeded)
                  <==> from == Rejected && target == Queued && attempts + 1 >= t.policy.maxRetries)
  {
    var r := Ask(t, asked, attempts, report, human);
    PassesIff(t.policy, from, target, r);
    if Passes(t.policy, from, target, r) { EscalatesIff(t.policy, from, target, r); }
  }

  /** The status of a change that the engine stops: a conflict where the policy lists it, an error where not. */
  lemma JudgedStatus(t: Task, from: TaskState, target: TaskState, r: Request)
    requires Judge(t, from, target, r).Err?
    ensures Judge(t, from, target, r).error
         == if Listed(from) && Listed(target) && from in t.policy.transitions && target in t.policy.transitions[from]
            then 409 else 500
  {
    UnjudgedIff(t.policy, from, target, r);
  }

  // ----- submissions

  /** The caller may submit this task. */
  ghost predicate MaySubmit(t: Task, actor: Actor) {
    && t.state == InProgress && (actor.isAdmin || t.owner == Some(actor.id))
    && Permits(actor, {RunTests, CreateArtifact, UpdateTask})
  }

  /** The policy takes a submission with this report to validated or, without human review, on to done. */
  ghost predicate Passable(t: Task, report: Option<Report>) {
    && Opens(t, InProgress, Submitted, RunTests) && Opens(t, Submitted, Validated, UpdateTask)
    && (!t.policy.hitlRequired ==> Opens(t, Validated, Done, UpdateTask) && Proven(report))
  }

  lemma PassableIff(t: Task, report: Option<Report>)
    requires t.state == InProgress
    ensures SubmittedState(t, report).Ok? <==> Passable(t, report)
    ensures Passable(t, report) ==>
              SubmittedState(t, report) == Ok(if t.policy.hitlRequired then Validated else Done)
  {
    JudgedIff(t, InProgress, Submitted, RunTests, 0, None, false);
    JudgedIff(t, Submitted, Validated, UpdateTask, 0, report, false);
    JudgedIff(t, Validated, Done, UpdateTask, 0, report, false);
  }

  lemma SubmitRefused(setup: Setup, w: World, e: Event)
    requires e.op.Submit? && (e.id in w.tasks ==> !MaySubmit(w.tasks[e.id], e.op.actor))
    ensures Step(setup, w, e) == w.(clock := w.clock + 1)
  {
  }

  /** The row of a task after one more failure: back in the queue without an owner or, at the maximum, in the dead
      letter queue. */
  function AfterFailure(t: Task, failure: Failure): Task {
    Task(if t.attempts + 1 >= t.policy.maxRetries then Dlq else Queued, t.attempts + 1, Some(failure), None, None,
         t.contract, t.policy)
  }

  function FailureEntries(id: Id, t: Task, action: Action): seq<Entry> {
    if t.attempts + 1 >= t.policy.maxRetries then [Entry(id, action), Entry(id, JobDlqEntered)] else [Entry(id, action)]
  }

  /** A permitted submission with issues costs one attempt, and nothing else happens but the audit entries. */
  lemma SubmitFails(setup: Setup, w: World, e: Event)
    requires e.op.Submit? && e.id in w.tasks && MaySubmit(w.tasks[e.id], e.op.actor)
    requires Validator.Validate(w.tasks[e.id].contract, e.op.submission).errors != []
    ensures var t := w.tasks[e.id];
            && DecisionFor(setup, Ticked(w), e).status == 422
            && Step(setup, w, e) == World(w.tasks[e.id := AfterFailure(t, ValidationFailed)], w.runs,
                                          w.audit + FailureEntries(e.id, t, JobFailed), w.clock + 1)
  {
    var now := Ticked(w);
    var d := FailureIsDecided(setup, now, e);
    FailureCarried(setup, w, now, e.id, JobFailed, d);
  }

  lemma FailureIsDecided(setup: Setup, w: World, e: Event) returns (d: Decision)
    requires e.op.Submit? && e.id in w.tasks && MaySubmit(w.tasks[e.id], e.op.actor)
    requires Validator.Validate(w.tasks[e.id].contract, e.op.submission).errors != []
    ensures d == DecisionFor(setup, w, e)
    ensures var t := w.tasks[e.id];
            d == Move(422, AfterFailure(t, ValidationFailed), None,
                      [JobFailed] + (if t.attempts + 1 >= t.policy.maxRetries then [JobDlqEntered] else []), false)
  {
    d := DecisionFor(setup, w, e);
  }

  lemma FailureCarried(setup: Setup, w: World, now: World, id: Id, action: Action, d: Decision)
    requires now == Ticked(w) && id in now.tasks && d.Move? && !d.finishes && d.run == None
    requires var t := now.tasks[id];
             d.actions == [action] + if t.attempts + 1 >= t.policy.maxRetries then [JobDlqEntered] else []
    ensures Carry(setup, now, id, d)
         == World(w.tasks[id := d.task], w.runs, w.audit + FailureEntries(id, w.tasks[id], action), w.clock + 1)
  {
    CarriedAlone(setup, now, id, d);
    assert Repeated(id, d.actions) == FailureEntries(id, w.tasks[id], action);
    assert w.runs + [] == w.runs;
  }

  function PassedState(t: Task): TaskState {
    if t.policy.hitlRequired then Validated else Done
  }

  function PassedActions(t: Task): seq<Action> {
    if t.policy.hitlRequired then [JobSubmitted] else [JobSubmitted, JobApproved(false)]
  }

  function PassedRun(id: Id, t: Task, report: Option<Report>, runId: int, now: int): Run {
    Run(id, now, runId, PassedState(t), if report.None? then Null else EncodeReport(report.value))
  }

  /** What the engine decides about a submission that its validation leaves without issues. */
  ghost predicate Follows(d: Decision, id: Id, t: Task, report: Option<Report>, runId: int, now: int) {
    match SubmittedState(t, report)
    case Err(status) => d == Refuse(status)
    case Ok(state) =>
      d == Move(200, t.(state := state, owner := None, claimedAt := None),
                Some(Run(id, now, runId, state, StoredReport(report))),
                [JobSubmitted] + (if t.policy.hitlRequired then [] else [JobApproved(false)]), state == Done)
  }

  lemma PassUnfolds(id: Id, t: Task, actor: Actor, s: Validator.Submission, runId: int, now: int)
    requires t.state == InProgress && (actor.isAdmin || t.owner == Some(actor.id))
    requires Holds(actor, RunTests) && Holds(actor, CreateArtifact) && Holds(actor, UpdateTask)
    requires Validator.Validate(t.contract, s).errors == []
    ensures Follows(DecideSubmit(id, t, actor, s, runId, now), id, t, Validator.Validate(t.contract, s).report, runId,
                    now)
  {
  }

  lemma PassDecision(id: Id, t: Task, report: Option<Report>, runId: int, now: int, d: Decision)
    requires t.state == InProgress
    requires Follows(d, id, t, report, runId, now)
    ensures if !Passable(t, report) then d.Refuse?
            else d == Move(200, t.(state := PassedState(t), owner := None, claimedAt := None),
                           Some(PassedRun(id, t, report, runId, now)), PassedActions(t), PassedState(t) == Done)
  {
    PassableIff(t, report);
    assert [JobSubmitted] + [JobApproved(false)] == [JobSubmitted, JobApproved(false)];
    assert [JobSubmitted] + [] == [JobSubmitted];
  }

  /** The submission took the task as far as the policy lets it and stored its run, or the policy stopped it and
      nothing changed. */
  ghost predicate Passed(w: World, after: World, id: Id, report: Option<Report>, runId: int)
    requires id in w.tasks
  {
    var t := w.tasks[id];
    if !Passable(t, report) then after == w.(clock := w.clock + 1)
    else
      && id in after.tasks && after.tasks[id] == t.(state := PassedState(t), owner := None, claimedAt := None)
      && after.runs == w.runs + [PassedRun(id, t, report, runId, w.clock + 1)]
      && after.clock == w.clock + 1
      && Logs(w, after, Repeated(id, PassedActions(t)))
  }

  lemma CarriedFields(setup: Setup, w: World, id: Id, d: Decision)
    requires id in w.tasks && w.tasks[id].state != Blocked && d.Move? && (d.finishes ==> d.task.state == Done)
    ensures var after := Carry(setup, w, id, d);
            && id in after.tasks && after.tasks[id] == d.task && after.clock == w.clock
            && after.runs == w.runs + (if d.run.Some? then [d.run.value] else [])
            && Logs(w, after, Repeated(id, d.actions))
  {
    CarriedLog(setup, w, id, d);
  }

  lemma FollowingPasses(setup: Setup, w: World, now: World, id: Id, report: Option<Report>, runId: int, d: Decision)
    requires now == Ticked(w) && id in now.tasks && now.tasks[id].state == InProgress
    requires Follows(d, id, now.tasks[id], report, runId, now.clock)
    ensures Passed(w, Carry(setup, now, id, d), id, report, runId)
  {
    PassDecision(id, now.tasks[id], report, runId, now.clock, d);
    if d.Move? { CarriedFields(setup, now, id, d); }
  }

  lemma CarriedOut(setup: Setup, w: World, now: World, e: Event, report: Option<Report>, runId: int, d: Decision)
    requires now == Ticked(w) && e.id in now.tasks && now.tasks[e.id].state == InProgress
    requires d == DecisionFor(setup, now, e) && Follows(d, e.id, now.tasks[e.id], report, runId, now.clock)
    ensures Passed(w, Step(setup, w, e), e.id, report, runId)
  {
    FollowingPasses(setup, w, now, e.id, report, runId, d);
  }

  lemma PassIsDecided(setup: Setup, w: World, e: Event) returns (d: Decision, v: Validator.Validation)
    requires e.op.Submit? && e.id in w.tasks && MaySubmit(w.tasks[e.id], e.op.actor)
    requires Validator.Validate(w.tasks[e.id].contract, e.op.submission).errors == []
    ensures d == DecisionFor(setup, w, e) && v == Validator.Validate(w.tasks[e.id].contract, e.op.submission)
    ensures Follows(d, e.id, w.tasks[e.id], v.report, e.op.runId, w.clock)
  {
    Evidence.SubmitIsDecided(setup, w, e.id, e.op.actor, e.op.submission, e.op.runId);
    PassUnfolds(e.id, w.tasks[e.id], e.op.actor, e.op.submission, e.op.runId, w.clock);
    d, v := DecisionFor(setup, w, e), Validator.Validate(w.tasks[e.id].contract, e.op.submission);
  }

  /** A permitted submission without issues. */
  lemma SubmitPasses(setup: Setup, w: World, e: Event)
    requires e.op.Submit? && e.id in w.tasks && MaySubmit(w.tasks[e.id], e.op.actor)
    requires Validator.Validate(w.tasks[e.id].contract, e.op.submission).errors == []
    ensures Passed(w, Step(setup, w, e), e.id, Validator.Validate(w.tasks[e.id].contract, e.op.submission).report,
                   e.op.runId)
  {
    var now := Ticked(w);
    assert now.tasks == w.tasks;
    var d, v := PassIsDecided(setup, now, e);
    CarriedOut(setup, w, now, e, v.report, e.op.runId, d);
  }

  // ----- approval and rejection

  /** Caller, policy and stored report are all in favour of finishing a validated task. */
  ghost predicate MayApprove(t: Task, actor: Actor, report: Option<Report>) {
    t.state == Validated && Permits(actor, {UpdateTask}) && Opens(t, Validated, Done, UpdateTask) && Proven(report)
  }

  lemma ApprovalIsDecided(setup: Setup, w: World, e: Event) returns (d: Decision)
    requires e.op.Approve? && e.id in w.tasks
    ensures d == DecisionFor(setup, w, e)
    ensures var t := w.tasks[e.id];
            if !MayApprove(t, e.op.actor, LatestReport(setup, w.runs, e.id)) then d.Refuse?
            else d == Move(200, t.(state := Done, owner := None, claimedAt := None), None, [JobApproved(true)], true)
  {
    var t, report := w.tasks[e.id], LatestReport(setup, w.runs, e.id);
    Evidence.ApproveIsDecided(setup, w, e.id, e.op.actor);
    JudgedIff(t, Validated, Done, UpdateTask, 0, report, true);
    d := DecideApprove(t, e.op.actor, report);
  }

  /** An approval finishes its task, clears the claim, stores nothing and logs itself after the tasks it wakes, or
      changes nothing. */
  lemma ApproveEffect(setup: Setup, w: World, e: Event)
    requires e.op.Approve?
    ensures var after := Step(setup, w, e);
            if e.id in w.tasks && MayApprove(w.tasks[e.id], e.op.actor, LatestReport(setup, w.runs, e.id)) then
              && e.id in after.tasks
              && after.tasks[e.id] == w.tasks[e.id].(state := Done, owner := None, claimedAt := None)
              && after.runs == w.runs && after.clock == w.clock + 1
              && Logs(w, after, [Entry(e.id, JobApproved(true))])
            else after == w.(clock := w.clock + 1)
  {
    if e.id in w.tasks {
      var now := Ticked(w);
      var d := ApprovalIsDecided(setup, now, e);
      if d.Move? {
        CarriedFields(setup, now, e.id, d);
        assert Repeated(e.id, d.actions) == [Entry(e.id, JobApproved(true))];
      }
    }
  }

  ghost predicate MayReject(t: Task, actor: Actor) {
    && t.state == Validated && Permits(actor, {UpdateTask})
    && Opens(t, Validated, Rejected, UpdateTask) && Opens(t, Rejected, Queued, UpdateTask)
  }

  lemma RejectionIsDecided(setup: Setup, w: World, e: Event) returns (d: Decision)
    requires e.op.Reject? && e.id in w.tasks
    ensures d == DecisionFor(setup, w, e)
    ensures var t := w.tasks[e.id];
            if !MayReject(t, e.op.actor) then d.Refuse?
            else d == Move(200, AfterFailure(t, ReviewRejected), None,
                           [JobRejected] + (if t.attempts + 1 >= t.policy.maxRetries then [JobDlqEntered] else []),
                           false)
  {
    var t := w.tasks[e.id];
    JudgedIff(t, Validated, Rejected, UpdateTask, 0, None, false);
    JudgedIff(t, Rejected, Queued, UpdateTask, t.attempts, None, false);
    d := DecisionFor(setup, w, e);
  }

  /** A rejection costs one attempt as a failed validation does, or changes nothing. */
  lemma RejectEffect(setup: Setup, w: World, e: Event)
    requires e.op.Reject?
    ensures var after := Step(setup, w, e);
            if e.id in w.tasks && MayReject(w.tasks[e.id], e.op.actor) then
              after == World(w.tasks[e.id := AfterFailure(w.tasks[e.id], ReviewRejected)], w.runs,
                             w.audit + FailureEntries(e.id, w.tasks[e.id], JobRejected), w.clock + 1)
            else after == w.(clock := w.clock + 1)
  {
    if e.id in w.tasks {
      var now := Ticked(w);
      var d := RejectionIsDecided(setup, now, e);
      if d.Move? { FailureCarried(setup, w, now, e.id, JobRejected, d); }
    }
  }

  // ----- claims, resets and run rows

  /** A claim takes a task in a state asked for, todo or queued by default, and records owner and time. */
  lemma ClaimEffect(setup: Setup, w: World, e: Event)
    requires e.op.ClaimNext? || e.op.ClaimTask?
    ensures var asked := if e.op.ClaimNext? && e.op.states != [] then e.op.states else [Todo, Queued];
            var target := if e.op.ClaimNext? then e.op.target else Claimed;
            Step(setup, w, e)
            == if e.id in w.tasks && w.tasks[e.id].state in asked
               then World(w.tasks[e.id := w.tasks[e.id].(state := target, owner := Some(e.op.actor.id),
                                                          claimedAt := Some(w.clock + 1))],
                          w.runs, w.audit, w.clock + 1)
               else w.(clock := w.clock + 1)
  {
    var d := DecisionFor(setup, Ticked(w), e);
    if d.Move? {
      CarriedAlone(setup, Ticked(w), e.id, d);
      assert w.audit + [] == w.audit && w.runs + [] == w.runs;
    }
  }

  /** A claim ends by its owner's release or by an administrator; only the administrator's unlock is logged. */
  lemma EndOfClaimEffect(setup: Setup, w: World, e: Event)
    requires e.op.Release? || e.op.Unlock?
    ensures var mayEnd := e.op.actor.isAdmin
              || (e.op.Release? && e.id in w.tasks && w.tasks[e.id].owner == Some(e.op.actor.id));
            Step(setup, w, e)
            == if mayEnd && e.id in w.tasks && (w.tasks[e.id].state == Claimed || w.tasks[e.id].state == InProgress)
               then World(w.tasks[e.id := w.tasks[e.id].(state := Todo, owner := None, claimedAt := None)], w.runs,
                          w.audit + (if e.op.Unlock? then [Entry(e.id, EscrowForceUnlocked)] else []), w.clock + 1)
               else w.(clock := w.clock + 1)
  {
    var d := DecisionFor(setup, Ticked(w), e);
    if d.Move? {
      CarriedAlone(setup, Ticked(w), e.id, d);
      assert w.audit + [] == w.audit && w.runs + [] == w.runs;
    }
  }

  /** Whatever state a task is in, an administrator's reset leaves it as if it had never been claimed or failed. */
  lemma ResetEffect(setup: Setup, w: World, e: Event)
    requires e.op.Reset?
    ensures Step(setup, w, e)
         == if e.op.actor.isAdmin && e.id in w.tasks
            then World(w.tasks[e.id := Task(Queued, 0, None, None, None, w.tasks[e.id].contract, w.tasks[e.id].policy)],
                       w.runs, w.audit + [Entry(e.id, JobReset)], w.clock + 1)
            else w.(clock := w.clock + 1)
  {
    var d := DecisionFor(setup, Ticked(w), e);
    if d.Move? {
      CarriedAlone(setup, Ticked(w), e.id, d);
      assert w.runs + [] == w.runs;
    }
  }

  /** A run row is stored as its caller gives it, and touches no task. */
  lemma StoreRunEffect(setup: Setup, w: World, e: Event)
    requires e.op.StoreRun?
    ensures var stored := && Permits(e.op.actor, {RunTests}) && e.id in w.tasks
                          && forall r :: r in w.runs ==> r.id != e.op.runId;
            Step(setup, w, e)
            == if stored
               then World(w.tasks, w.runs + [Run(e.id, e.op.createdAt, e.op.runId, e.op.status, e.op.report)], w.audit,
                          w.clock + 1)
               else w.(clock := w.clock + 1)
  {
    var d := DecisionFor(setup, Ticked(w), e);
    if d.Move? {
      CarriedAlone(setup, Ticked(w), e.id, d);
      assert w.audit + [] == w.audit;
      assert w.tasks[e.id := d.task] == w.tasks;
    }
  }

  /** The status of a request that the engine does not get to judge. */
  lemma RefusalStatus(setup: Setup, w: World, e: Event)
    requires e.id in w.tasks
    ensures var t, status, actor := w.tasks[e.id], DecisionFor(setup, Ticked(w), e).status, e.op.actor;
            match e.op
            case ClaimNext(states, _, _) => states != [] && t.state !in states ==> status == 404
            case ClaimTask(_) => t.state != Todo && t.state != Queued ==> status == 409
            case Release(_) => t.state != Claimed && t.state != InProgress ==> status == 404
            case Unlock(_) =>
              if !actor.isAdmin then status == 403 else t.state != Claimed && t.state != InProgress ==> status == 404
            case StoreRun(_, runId, _, _, _) =>
              if !Permits(actor, {RunTests}) then status == 403
              else (exists r :: r in w.runs && r.id == runId) ==> status == 409
            case Submit(_, _, _) =>
              if t.state != InProgress || (!actor.isAdmin && t.owner != Some(actor.id)) then status == 409
              else !Permits(actor, {RunTests, CreateArtifact, UpdateTask}) ==> status == 403
            case Approve(_) =>
              if t.state != Validated then status == 409
              else if !Permits(actor, {UpdateTask}) then status == 403
              else LatestReport(setup, w.runs, e.id) == None ==> status == 409
            case Reject(_) =>
              if t.state != Validated then status == 409 else !Permits(actor, {UpdateTask}) ==> status == 403
            case Reset(_) => !actor.isAdmin ==> status == 403
  {
  }
}
