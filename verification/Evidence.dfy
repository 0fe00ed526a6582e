/** The evidence behind approval and completion: a stored report that reopens the approval guard, and a human
    approval where the policy asks for one. */
module Evidence {
  import opened Base
  import opened DodReports
  import opened Dod
  import opened Transitions
  import opened Lifecycle
  import opened LifecycleTheorems
  import Validator

  // ----- the latest run

  /** Every run was stored by this time. */
  ghost predicate StoredBy(runs: seq<Run>, time: int) {
    forall i :: 0 <= i < |runs| ==> runs[i].createdAt <= time
  }

  lemma {:induction false} LatestIsStored(runs: seq<Run>, id: Id)
    ensures LatestRun(runs, id).Some? ==> LatestRun(runs, id).value in runs && LatestRun(runs, id).value.task == id
  {
    if runs == [] {
    } else {
      LatestIsStored(runs[..|runs| - 1], id);
    }
  }

  /** The latest run of a task is the one created last, the one with the greatest id among those. */
  lemma {:induction false} LatestRunIsNewest(runs: seq<Run>, id: Id)
    ensures LatestRun(runs, id) == None <==> forall r :: r in runs ==> r.task != id
    ensures match LatestRun(runs, id)
            case None => true
            case Some(latest) =>
              forall r :: r in runs && r.task == id ==>
                r.createdAt < latest.createdAt || (r.createdAt == latest.createdAt && r.id <= latest.id)
  {
    LatestIsStored(runs, id);
    if runs == [] {
    } else {
      LatestRunIsNewest(runs[..|runs| - 1], id);
      assert runs == runs[..|runs| - 1] + [runs[|runs| - 1]];
    }
  }

  /** A run is its task's latest when it is newer than the latest before it, and never another task's. */
  lemma StoredRun(runs: seq<Run>, run: Run, id: Id)
    ensures LatestRun(runs + [run], id)
         == var before := LatestRun(runs, id);
            if run.task == id && (before.None? || Newer(run, before.value)) then Some(run) else before
  {
    assert (runs + [run])[..|runs|] == runs;
  }

  /** A run stored later than all others is its task's latest, and no other task's. */
  lemma NewRunIsLatest(runs: seq<Run>, run: Run, id: Id)
    requires StoredBy(runs, run.createdAt - 1)
    ensures LatestRun(runs + [run], id) == if run.task == id then Some(run) else LatestRun(runs, id)
  {
    StoredRun(runs, run, id);
    LatestIsStored(runs, id);
  }

  // ----- human approval

  function NextApproval(approved: bool, entry: Entry, id: Id): bool {
    if entry.task != id then approved
    else if entry.action == JobApproved(true) then true
    else if entry.action == JobReset then false
    else approved
  }

  function ApprovalAfter(approved: bool, audit: seq<Entry>, id: Id): bool
    decreases audit
  {
    if audit == [] then approved else ApprovalAfter(NextApproval(approved, audit[0], id), audit[1..], id)
  }

  /** The audit log shows a human approval of the task since its last reset. */
  function HumanApproved(audit: seq<Entry>, id: Id): bool { ApprovalAfter(false, audit, id) }

  lemma {:induction false} ApprovalConcat(approved: bool, a: seq<Entry>, b: seq<Entry>, id: Id)
    ensures ApprovalAfter(approved, a + b, id) == ApprovalAfter(ApprovalAfter(approved, a, id), b, id)
    decreases a
  {
    if a == [] {
      assert a + b == b;
    } else {
      ApprovalConcat(NextApproval(approved, a[0], id), a[1..], b, id);
      assert (a + b)[1..] == a[1..] + b;
    }
  }

  lemma {:induction false} ApprovalUnmoved(approved: bool, audit: seq<Entry>, id: Id)
    requires forall i :: 0 <= i < |audit| ==>
               audit[i].task != id || (audit[i].action != JobReset && audit[i].action != JobApproved(true))
    ensures ApprovalAfter(approved, audit, id) == approved
    decreases audit
  {
    if audit == [] {
    } else {
      assert forall i :: 0 <= i < |audit[1..]| ==> audit[1..][i] == audit[i + 1];
      ApprovalUnmoved(approved, audit[1..], id);
    }
  }

  // ----- what a task's state rests on

  ghost predicate Passing(report: Option<Report>) {
    report.Some? && AllChecked(report.value) && Sturdy(report.value)
  }

  /** A validated task rests on a passing stored report exactly when its contract declares checks; a finished
      one always does, and on a human approval where its policy asks for one. */
  ghost predicate Supported(t: Task, report: Option<Report>, approved: bool) {
    && (t.state == Validated ==> if Validator.HasChecks(t.contract) then Passing(report) else report == None)
    && (t.state == Done ==> Validator.HasChecks(t.contract) && Passing(report) && (t.policy.hitlRequired ==> approved))
  }

  ghost predicate AllSupported(setup: Setup, w: World) {
    && StoredBy(w.runs, w.clock)
    && forall id :: id in w.tasks ==>
         Supported(w.tasks[id], LatestReport(setup, w.runs, id), HumanApproved(w.audit, id))
  }

  lemma StoredReportReloads(c: Contract, s: Validator.Submission, show: Json -> string)
    requires Validator.IsValid(Validator.Validate(c, s))
    ensures var report := Validator.Validate(c, s).report;
            && DecodeReport(StoredReport(report), show) == report
            && (if Validator.HasChecks(c) then Passing(report) else report == None)
  {
    Validator.AcceptedReport(c, s);
    var report := Validator.Validate(c, s).report;
    if report.Some? { ReportRoundTrip(report.value, show); }
  }

  function RunsAfter(runs: seq<Run>, d: Decision): seq<Run>
    requires d.Move?
  {
    if d.run.Some? then runs + [d.run.value] else runs
  }

  /** A decision, if it moves its task, leaves it supported, and stores no run but its task's own, and none that
      lies in the future. */
  ghost predicate Settles(setup: Setup, runs: seq<Run>, approved: bool, now: int, id: Id, d: Decision) {
    d.Move? ==>
      && (d.run.Some? ==> d.run.value.task == id && d.run.value.createdAt <= now)
      && Supported(d.task, LatestReport(setup, RunsAfter(runs, d), id),
                   ApprovalAfter(approved, Repeated(id, d.actions), id))
  }

  lemma SubmitSettles(setup: Setup, runs: seq<Run>, approved: bool, now: int, id: Id, t: Task,
                      actor: Actor, submission: Validator.Submission, runId: int)
    requires StoredBy(runs, now - 1)
    ensures Settles(setup, runs, approved, now, id, DecideSubmit(id, t, actor, submission, runId, now))
  {
    var d := DecideSubmit(id, t, actor, submission, runId, now);
    var v := Validator.Validate(t.contract, submission);
    if d.Move? {
      if Validator.IsValid(v) {
        SubmittedStates(t, v.report);
        StoredReportReloads(t.contract, submission, setup.show);
        NewRunIsLatest(runs, d.run.value, id);
      } else {
        assert d.task == Failed(t) && d.run == None;
      }
    }
  }

  lemma ApproveSettles(setup: Setup, runs: seq<Run>, approved: bool, now: int, id: Id, t: Task, actor: Actor)
    requires Supported(t, LatestReport(setup, runs, id), approved)
    ensures Settles(setup, runs, approved, now, id, DecideApprove(t, actor, LatestReport(setup, runs, id)))
  {
    var report := LatestReport(setup, runs, id);
    var d := DecideApprove(t, actor, report);
    if d.Move? {
      DonePassesIff(t.policy, t.state, Ask(t, UpdateTask, 0, report, true));
      assert Repeated(id, d.actions) == [Entry(id, JobApproved(true))];
      assert ApprovalAfter(NextApproval(approved, Entry(id, JobApproved(true)), id), [], id);
    }
  }

  lemma RejectSettles(setup: Setup, runs: seq<Run>, approved: bool, now: int, id: Id, t: Task, actor: Actor)
    ensures Settles(setup, runs, approved, now, id, DecideReject(t, actor))
  {
  }

  /** A caller's run does no harm when it is not of the future and, if its task is validated or done, either is not
      newer than the latest run or carries a report as good as the contract asks for. */
  ghost predicate Harmless(setup: Setup, runs: seq<Run>, now: int, t: Task, e: Event)
    requires e.op.StoreRun?
  {
    var run := Run(e.id, e.op.createdAt, e.op.runId, e.op.status, e.op.report);
    var before, report := LatestRun(runs, e.id), DecodeReport(run.report, setup.show);
    && run.createdAt <= now
    && (t.state == Validated || t.state == Done ==>
          || (before.Some? && !Newer(run, before.value))
          || (if Validator.HasChecks(t.contract) then Passing(report) else report == None))
  }

  lemma HarmlessSettles(setup: Setup, runs: seq<Run>, approved: bool, now: int, t: Task, e: Event)
    requires e.op.StoreRun? && Holds(e.op.actor, RunTests)
    requires StoredBy(runs, now - 1) && Supported(t, LatestReport(setup, runs, e.id), approved)
    ensures Settles(setup, runs, approved, now, e.id, Decide(t, LatestReport(setup, runs, e.id), now, e))
       <==> Harmless(setup, runs, now, t, e)
  {
    var run := Run(e.id, e.op.createdAt, e.op.runId, e.op.status, e.op.report);
    StoredRun(runs, run, e.id);
    assert Repeated(e.id, []) == [];
  }

  lemma DecisionSettles(setup: Setup, runs: seq<Run>, approved: bool, now: int, t: Task, e: Event)
    requires StoredBy(runs, now - 1) && Supported(t, LatestReport(setup, runs, e.id), approved)
    requires e.op.ClaimNext? ==> KeepsEvidence(e.op.states, e.op.target)
    requires e.op.StoreRun? && Holds(e.op.actor, RunTests) ==> Harmless(setup, runs, now, t, e)
    ensures Settles(setup, runs, approved, now, e.id, Decide(t, LatestReport(setup, runs, e.id), now, e))
  {
    match e.op
    case StoreRun(actor, _, _, _, _) =>
      if Holds(actor, RunTests) { HarmlessSettles(setup, runs, approved, now, t, e); }
    case Submit(actor, submission, runId) =>
      SubmitSettles(setup, runs, approved, now, e.id, t, actor, submission, runId);
    case Approve(actor) => ApproveSettles(setup, runs, approved, now, e.id, t, actor);
    case Reject(actor) => RejectSettles(setup, runs, approved, now, e.id, t, actor);
    case ClaimNext(_, _, _) => assert Repeated(e.id, []) == [];
    case _ =>
  }

  lemma CarriedTask(setup: Setup, w: World, id: Id, d: Decision, k: Id)
    requires id in w.tasks && k in w.tasks && d.Move? && (d.finishes ==> d.task.state == Done)
    ensures Carry(setup, w, id, d).tasks.Keys == w.tasks.Keys
    ensures var t := Carry(setup, w, id, d).tasks[k];
            t == (if k == id then d.task else w.tasks[k]) || t.state == Queued
  {
  }

  /** Carrying out a decision changes the evidence of its own task alone. */
  lemma CarriedEvidence(setup: Setup, w: World, id: Id, d: Decision, k: Id)
    requires d.Move? && (d.run.Some? ==> d.run.value.task == id)
    ensures var after := Carry(setup, w, id, d);
            && after.runs == RunsAfter(w.runs, d)
            && (k != id ==> LatestReport(setup, after.runs, k) == LatestReport(setup, w.runs, k))
            && HumanApproved(after.audit, k)
               == if k == id then ApprovalAfter(HumanApproved(w.audit, id), Repeated(id, d.actions), id)
                 else HumanApproved(w.audit, k)
  {
    var tasks := w.tasks[id := d.task];
    var released := if d.finishes then Released(setup.edges, tasks, Dependents(setup.edges, id)) else [];
    AuditOf(w.audit, released, id, d.actions, k);
    if k != id {
      ApprovalUnmoved(HumanApproved(w.audit, k), Repeated(id, d.actions), k);
      if d.run.Some? { StoredRun(w.runs, d.run.value, k); }
    }
  }

  lemma AuditOf(audit: seq<Entry>, released: seq<Id>, id: Id, actions: seq<Action>, k: Id)
    ensures HumanApproved(audit + Entries(released, JobUnblocked) + Repeated(id, actions), k)
         == ApprovalAfter(HumanApproved(audit, k), Repeated(id, actions), k)
  {
    var unblocked := Entries(released, JobUnblocked);
    ApprovalConcat(false, audit + unblocked, Repeated(id, actions), k);
    ApprovalConcat(false, audit, unblocked, k);
    ApprovalUnmoved(HumanApproved(audit, k), unblocked, k);
  }

  lemma CarriedRuns(setup: Setup, w: World, id: Id, d: Decision)
    requires id in w.tasks && d.Move? && StoredBy(w.runs, w.clock - 1)
        && (d.run.Some? ==> d.run.value.createdAt <= w.clock)
    ensures var after := Carry(setup, w, id, d); StoredBy(after.runs, after.clock) && after.tasks.Keys == w.tasks.Keys
  {
  }

  lemma CarriedSupport(setup: Setup, w: World, id: Id, d: Decision, k: Id)
    requires id in w.tasks && k in w.tasks && d.Move? && (d.finishes ==> d.task.state == Done)
    requires Supported(w.tasks[k], LatestReport(setup, w.runs, k), HumanApproved(w.audit, k))
    requires Settles(setup, w.runs, HumanApproved(w.audit, id), w.clock, id, d)
    ensures var after := Carry(setup, w, id, d);
            && after.tasks.Keys == w.tasks.Keys
            && Supported(after.tasks[k], LatestReport(setup, after.runs, k), HumanApproved(after.audit, k))
  {
    CarriedTask(setup, w, id, d, k);
    CarriedEvidence(setup, w, id, d, k);
  }

  /** Carrying out a decision that settles its task leaves every other task resting on what it rested on. */
  lemma CarrySupported(setup: Setup, w: World, id: Id, d: Decision)
    requires id in w.tasks && StoredBy(w.runs, w.clock - 1)
    requires forall k :: k in w.tasks ==>
        Supported(w.tasks[k], LatestReport(setup, w.runs, k), HumanApproved(w.audit, k))
    requires Settles(setup, w.runs, HumanApproved(w.audit, id), w.clock, id, d)
    requires d.Move? && d.finishes ==> d.task.state == Done
    ensures AllSupported(setup, Carry(setup, w, id, d))
  {
    if d.Move? {
      CarriedRuns(setup, w, id, d);
      forall k | k in w.tasks { CarriedSupport(setup, w, id, d, k); }
    }
  }

  lemma SupportStep(setup: Setup, w: World, e: Event)
    requires AllSupported(setup, w)
    requires e.op.ClaimNext? ==> KeepsEvidence(e.op.states, e.op.target)
    requires e.op.StoreRun? ==> StoresHarmlessly(setup, w, e)
    ensures AllSupported(setup, Step(setup, w, e))
  {
    var now := Ticked(w);
    var d := DecisionFor(setup, now, e);
    if d.Move? {
      DecisionSettles(setup, w.runs, HumanApproved(w.audit, e.id), now.clock, w.tasks[e.id], e);
      MoveShape(w.tasks[e.id], LatestReport(setup, w.runs, e.id), now.clock, e);
      CarrySupported(setup, now, e.id, d);
    }
  }

  /** The request is refused or its run does no harm. */
  ghost predicate StoresHarmlessly(setup: Setup, w: World, e: Event)
    requires e.op.StoreRun?
  {
    DecisionFor(setup, Ticked(w), e).Refuse? || Harmless(setup, w.runs, w.clock + 1, w.tasks[e.id], e)
  }

  /** Exactly when storing a run through the generic endpoint keeps every validated and finished task supported. */
  lemma StoredRunKeepsEvidenceIff(setup: Setup, w: World, e: Event)
    requires AllSupported(setup, w) && e.op.StoreRun?
    ensures AllSupported(setup, Step(setup, w, e)) <==> StoresHarmlessly(setup, w, e)
  {
    if StoresHarmlessly(setup, w, e) {
      SupportStep(setup, w, e);
    } else {
      var now := Ticked(w);
      var d := DecisionFor(setup, now, e);
      HarmlessSettles(setup, w.runs, HumanApproved(w.audit, e.id), now.clock, w.tasks[e.id], e);
      CarriedTask(setup, now, e.id, d, e.id);
      CarriedEvidence(setup, now, e.id, d, e.id);
      assert d.run.value in Step(setup, w, e).runs;
    }
  }

  /** Every run that callers store along the way does no harm when it is stored. */
  ghost predicate HarmlessAlong(setup: Setup, w: World, events: seq<Event>)
    decreases events
  {
    events == [] || ((events[0].op.StoreRun? ==> StoresHarmlessly(setup, w, events[0]))
                     && HarmlessAlong(setup, Step(setup, w, events[0]), events[1..]))
  }

  /** No orderly run finishes a task without a stored, passing report, nor without a human approval since its
      last reset when its policy asks for one. */
  lemma {:induction false} NothingFinishesUnsupported(setup: Setup, w: World, events: seq<Event>)
    requires AllSupported(setup, w) && OrderlyRun(events) && HarmlessAlong(setup, w, events)
    ensures AllSupported(setup, Perform(setup, w, events))
    decreases events
  {
    if events == [] {
    } else {
      assert Orderly(events[0]);
      SupportStep(setup, w, events[0]);
      assert forall i :: 0 <= i < |events[1..]| ==> events[1..][i] == events[i + 1];
      NothingFinishesUnsupported(setup, Step(setup, w, events[0]), events[1..]);
    }
  }

  /** In every board such a run reaches, approving a validated task succeeds exactly when its contract declares
      checks and the caller and the rest of the policy allow it: the stored report never stands in the way,
      and a task validated without declared checks can never be approved. */
  lemma ApprovalOpensIff(setup: Setup, w: World, events: seq<Event>, id: Id, actor: Actor)
    requires AllSupported(setup, w) && OrderlyRun(events) && HarmlessAlong(setup, w, events)
    requires var reached := Perform(setup, w, events); id in reached.tasks && reached.tasks[id].state == Validated
    ensures var reached := Perform(setup, w, events);
            var t := reached.tasks[id];
            Step(setup, reached, Event(id, Approve(actor))).tasks[id].state == Done
            <==> && Validator.HasChecks(t.contract) && Holds(actor, UpdateTask)
                 && MayFinish(t.policy, Validated, Ask(t, UpdateTask, 0, None, true))
  {
    NothingFinishesUnsupported(setup, w, events);
    var reached := Perform(setup, w, events);
    var t, report := reached.tasks[id], LatestReport(setup, reached.runs, id);
    ApproveMovesIff(t, actor, report);
    OwnTask(setup, reached, Event(id, Approve(actor)));
    ApproveIsDecided(setup, Ticked(reached), id, actor);
  }

  lemma ApproveMovesIff(t: Task, actor: Actor, report: Option<Report>)
    requires t.state == Validated && (report.Some? ==> AllChecked(report.value))
    ensures var d := DecideApprove(t, actor, report);
            && (d.Move? ==> d.task.state == Done)
            && (d.Move? <==> && report.Some? && Holds(actor, UpdateTask)
                             && MayFinish(t.policy, Validated, Ask(t, UpdateTask, 0, None, true)))
  {
    DonePassesIff(t.policy, t.state, Ask(t, UpdateTask, 0, report, true));
  }

  lemma ApproveIsDecided(setup: Setup, w: World, id: Id, actor: Actor)
    requires id in w.tasks
    ensures DecisionFor(setup, w, Event(id, Approve(actor)))
         == DecideApprove(w.tasks[id], actor, LatestReport(setup, w.runs, id))
  {
    var e := Event(id, Approve(actor));
    var d := Decide(w.tasks[id], LatestReport(setup, w.runs, id), w.clock, e);
    assert DecisionFor(setup, w, e) == d;
  }

  // ----- without declared checks

  /** A submission the engine may take as far as validated. */
  predicate Acceptable(t: Task, a: Actor, s: Validator.Submission) {
    && t.state == InProgress && (a.isAdmin || t.owner == Some(a.id))
    && Holds(a, RunTests) && Holds(a, CreateArtifact) && Holds(a, UpdateTask)
    && Validator.IsValid(Validator.Validate(t.contract, s))
    && SubmittedState(t, Validator.Validate(t.contract, s).report) == Ok(Validated)
  }

  lemma UncheckedDecision(id: Id, t: Task, a: Actor, s: Validator.Submission, runId: int, now: int)
    requires Acceptable(t, a, s) && !Validator.HasChecks(t.contract)
    ensures var d := DecideSubmit(id, t, a, s, runId, now);
            && d.Move? && d.task.state == Validated && !d.finishes
            && d.run == Some(Run(id, now, runId, Validated, Null))
            && d.task.contract == t.contract && d.task.policy == t.policy
  {
  }

  lemma NoReportNoApproval(setup: Setup, w: World, id: Id, b: Actor)
    requires id in w.tasks && w.tasks[id].state == Validated && LatestReport(setup, w.runs, id) == None
    ensures DecisionFor(setup, Ticked(w), Event(id, Approve(b))) == Refuse(if Holds(b, UpdateTask) then 409 else 403)
    ensures Step(setup, w, Event(id, Approve(b))).tasks == w.tasks
  {
  }

  lemma SubmitIsDecided(setup: Setup, w: World, id: Id, a: Actor, s: Validator.Submission, runId: int)
    requires id in w.tasks
    ensures DecisionFor(setup, w, Event(id, Submit(a, s, runId))) == DecideSubmit(id, w.tasks[id], a, s, runId, w.clock)
  {
    var e := Event(id, Submit(a, s, runId));
    var d := Decide(w.tasks[id], LatestReport(setup, w.runs, id), w.clock, e);
    assert DecisionFor(setup, w, e) == d;
  }

  lemma UncheckedSubmits(setup: Setup, w: World, id: Id, a: Actor, s: Validator.Submission, runId: int)
    returns (after: World)
    requires id in w.tasks && StoredBy(w.runs, w.clock)
    requires Acceptable(w.tasks[id], a, s) && !Validator.HasChecks(w.tasks[id].contract)
    ensures after == Step(setup, w, Event(id, Submit(a, s, runId)))
    ensures id in after.tasks && after.tasks[id].state == Validated && LatestReport(setup, after.runs, id) == None
    ensures after.tasks[id].contract == w.tasks[id].contract && after.tasks[id].policy == w.tasks[id].policy
    ensures after.runs == w.runs + [Run(id, w.clock + 1, runId, Validated, Null)] && after.clock == w.clock + 1
  {
    var d := UncheckedIsDecided(setup, Ticked(w), id, a, s, runId);
    after := SubmittedWithoutReport(setup, w, Event(id, Submit(a, s, runId)), d);
  }

  lemma UncheckedIsDecided(setup: Setup, w: World, id: Id, a: Actor, s: Validator.Submission, runId: int)
    returns (d: Decision)
    requires id in w.tasks && Acceptable(w.tasks[id], a, s) && !Validator.HasChecks(w.tasks[id].contract)
    ensures d == DecisionFor(setup, w, Event(id, Submit(a, s, runId)))
    ensures d.Move? && d.task.state == Validated && !d.finishes
    ensures d.run == Some(Run(id, w.clock, runId, Validated, Null))
    ensures d.task.contract == w.tasks[id].contract && d.task.policy == w.tasks[id].policy
  {
    UncheckedDecision(id, w.tasks[id], a, s, runId, w.clock);
    SubmitIsDecided(setup, w, id, a, s, runId);
    d := DecisionFor(setup, w, Event(id, Submit(a, s, runId)));
  }

  /** Whenever a task without declared checks is accepted up to validated, no one can approve it afterwards. */
  lemma UncheckedGetsStuck(setup: Setup, w: World, id: Id, a: Actor, s: Validator.Submission, runId: int, b: Actor)
    requires id in w.tasks && StoredBy(w.runs, w.clock)
    requires Acceptable(w.tasks[id], a, s) && !Validator.HasChecks(w.tasks[id].contract)
    ensures var submitted := Step(setup, w, Event(id, Submit(a, s, runId)));
            && id in submitted.tasks && submitted.tasks[id].state == Validated
            && DecisionFor(setup, Ticked(submitted), Event(id, Approve(b)))
              == Refuse(if Holds(b, UpdateTask) then 409 else 403)
            && Step(setup, submitted, Event(id, Approve(b))).tasks == submitted.tasks
  {
    var submitted := UncheckedSubmits(setup, w, id, a, s, runId);
    NoReportNoApproval(setup, submitted, id, b);
  }

  lemma SubmittedWithoutReport(setup: Setup, w: World, e: Event, d: Decision) returns (after: World)
    requires e.id in w.tasks && StoredBy(w.runs, w.clock) && d == DecisionFor(setup, Ticked(w), e)
    requires d.Move? && d.task.state == Validated && !d.finishes
    requires d.run.Some? && d.run.value.task == e.id
    requires d.run.value.createdAt == w.clock + 1 && d.run.value.report == Null
    ensures after == Step(setup, w, e)
    ensures e.id in after.tasks && after.tasks[e.id] == d.task && LatestReport(setup, after.runs, e.id) == None
    ensures after.runs == w.runs + [d.run.value] && after.clock == w.clock + 1
  {
    CarriedTask(setup, Ticked(w), e.id, d, e.id);
    NewRunIsLatest(w.runs, d.run.value, e.id);
    after := Carry(setup, Ticked(w), e.id, d);
  }

  // ----- what a stored run can do

  /** The run that a caller stores with the present as its creation time is its task's latest; no task changes. */
  lemma StoredNow(setup: Setup, w: World, id: Id, c: Actor, runId: int, status: TaskState, report: Json)
    requires id in w.tasks && StoredBy(w.runs, w.clock)
    requires Holds(c, RunTests) && forall r :: r in w.runs ==> r.id != runId
    ensures var after := Step(setup, w, Event(id, StoreRun(c, runId, w.clock + 1, status, report)));
            && after.tasks == w.tasks && StoredBy(after.runs, after.clock)
            && LatestReport(setup, after.runs, id) == DecodeReport(report, setup.show)
  {
    var run := Run(id, w.clock + 1, runId, status, report);
    NewRunIsLatest(w.runs, run, id);
    assert Step(setup, w, Event(id, StoreRun(c, runId, w.clock + 1, status, report))).runs == w.runs + [run];
  }

  function Approvals(id: Id, approvers: seq<Actor>): seq<Event> {
    seq(|approvers|, i requires 0 <= i < |approvers| => Event(id, Approve(approvers[i])))
  }

  lemma {:induction false} NoReportNoApprovals(setup: Setup, w: World, id: Id, approvers: seq<Actor>)
    requires id in w.tasks && w.tasks[id].state == Validated && LatestReport(setup, w.runs, id) == None
    ensures Perform(setup, w, Approvals(id, approvers)).tasks == w.tasks
    decreases approvers
  {
    if approvers == [] {
    } else {
      NoReportNoApproval(setup, w, id, approvers[0]);
      var next := Step(setup, w, Event(id, Approve(approvers[0])));
      NoReportNoApprovals(setup, next, id, approvers[1..]);
      assert Approvals(id, approvers)[1..] == Approvals(id, approvers[1..]);
    }
  }

  /** A run without a report, stored for any validated task, makes every approval after it fail, whoever asks. */
  lemma StoredRunBlocksApproval(setup: Setup, w: World, id: Id, c: Actor, runId: int, status: TaskState,
                                approvers: seq<Actor>)
    requires id in w.tasks && w.tasks[id].state == Validated && StoredBy(w.runs, w.clock)
    requires Holds(c, RunTests) && forall r :: r in w.runs ==> r.id != runId
    ensures var after := Step(setup, w, Event(id, StoreRun(c, runId, w.clock + 1, status, Null)));
            Perform(setup, after, Approvals(id, approvers)).tasks == w.tasks
  {
    StoredNow(setup, w, id, c, runId, status, Null);
    NoReportNoApprovals(setup, Step(setup, w, Event(id, StoreRun(c, runId, w.clock + 1, status, Null))), id, approvers);
  }

  /** Storing a run row with this report and approving finishes the task. */
  ghost predicate OpensByStoredRun(setup: Setup, w: World, id: Id, c: Actor, runId: int, status: TaskState,
                                   report: Report, b: Actor) {
    var store := Event(id, StoreRun(c, runId, w.clock + 1, status, EncodeReport(report)));
    IsDone(Step(setup, Step(setup, w, store), Event(id, Approve(b))).tasks, id)
  }

  /** A run with any passing report, stored for any validated task under the shipped policy, opens its approval,
      whether or not its contract declares checks and whatever they returned. */
  lemma StoredRunOpensApproval(setup: Setup, w: World, id: Id, c: Actor, runId: int, status: TaskState,
                               report: Report, b: Actor)
    requires id in w.tasks && w.tasks[id].state == Validated && StoredBy(w.runs, w.clock)
    requires w.tasks[id].policy == CODING_TASK_POLICY && w.tasks[id].contract.tier <= CODING_TASK_POLICY.autonomyTier
    requires Holds(c, RunTests) && (forall r :: r in w.runs ==> r.id != runId)
    requires Sturdy(report) && AllChecked(report) && Holds(b, UpdateTask)
    ensures OpensByStoredRun(setup, w, id, c, runId, status, report, b)
  {
    StoredNow(setup, w, id, c, runId, status, EncodeReport(report));
    ReportRoundTrip(report, setup.show);
    ShippedPolicyFinishes(w.tasks[id]);
    var after := Step(setup, w, Event(id, StoreRun(c, runId, w.clock + 1, status, EncodeReport(report))));
    PassingReportOpens(setup, after, id, report, b);
  }

  lemma PassingReportOpens(setup: Setup, w: World, id: Id, report: Report, b: Actor)
    requires id in w.tasks && w.tasks[id].state == Validated && LatestReport(setup, w.runs, id) == Some(report)
    requires AllChecked(report) && Holds(b, UpdateTask)
    requires MayFinish(w.tasks[id].policy, Validated, Ask(w.tasks[id], UpdateTask, 0, None, true))
    ensures IsDone(Step(setup, w, Event(id, Approve(b))).tasks, id)
  {
    ApproveMovesIff(w.tasks[id], b, Some(report));
    ApproveIsDecided(setup, Ticked(w), id, b);
    OwnTask(setup, w, Event(id, Approve(b)));
  }

  /** In particular it opens the approval of a task without declared checks, which no one could approve before. */
  lemma StoredRunFrees(setup: Setup, w: World, id: Id, a: Actor, s: Validator.Submission, runId: int,
                       c: Actor, otherId: int, status: TaskState, report: Report, b: Actor)
    returns (submitted: World)
    requires id in w.tasks && StoredBy(w.runs, w.clock)
    requires Acceptable(w.tasks[id], a, s) && !Validator.HasChecks(w.tasks[id].contract)
    requires w.tasks[id].policy == CODING_TASK_POLICY && w.tasks[id].contract.tier <= CODING_TASK_POLICY.autonomyTier
    requires Holds(c, RunTests) && otherId != runId && (forall r :: r in w.runs ==> r.id != otherId)
    requires Sturdy(report) && AllChecked(report) && Holds(b, UpdateTask)
    ensures submitted == Step(setup, w, Event(id, Submit(a, s, runId)))
    ensures OpensByStoredRun(setup, submitted, id, c, otherId, status, report, b)
  {
    submitted := UncheckedSubmits(setup, w, id, a, s, runId);
    StoredRunAfter(setup, w, submitted, id, runId, c, otherId, status, report, b);
  }

  lemma StoredRunAfter(setup: Setup, w: World, submitted: World, id: Id, runId: int, c: Actor, otherId: int,
                       status: TaskState, report: Report, b: Actor)
    requires id in submitted.tasks && submitted.tasks[id].state == Validated && StoredBy(w.runs, w.clock)
    requires submitted.runs == w.runs + [Run(id, w.clock + 1, runId, Validated, Null)] && submitted.clock == w.clock + 1
    requires submitted.tasks[id].policy == CODING_TASK_POLICY
    requires submitted.tasks[id].contract.tier <= CODING_TASK_POLICY.autonomyTier
    requires Holds(c, RunTests) && otherId != runId && (forall r :: r in w.runs ==> r.id != otherId)
    requires Sturdy(report) && AllChecked(report) && Holds(b, UpdateTask)
    ensures OpensByStoredRun(setup, submitted, id, c, otherId, status, report, b)
  {
    StoredRunOpensApproval(setup, submitted, id, c, otherId, status, report, b);
  }

  lemma ShippedPolicyFinishes(t: Task)
    requires t.policy == CODING_TASK_POLICY && t.contract.tier <= CODING_TASK_POLICY.autonomyTier
    ensures MayFinish(t.policy, Validated, Ask(t, UpdateTask, 0, None, true))
  {
  }

  /** Exactly which claim parameters keep every validated and finished task supported. */
  lemma ClaimKeepsEvidenceIff(states: seq<TaskState>, target: TaskState, actor: Actor, setup: Setup)
    ensures KeepsEvidence(states, target)
       <==> forall w: World, id: Id :: AllSupported(setup, w) ==>
              AllSupported(setup, Step(setup, w, Event(id, ClaimNext(states, target, actor))))
  {
    if KeepsEvidence(states, target) {
      forall w: World, id: Id | AllSupported(setup, w)
        ensures AllSupported(setup, Step(setup, w, Event(id, ClaimNext(states, target, actor))))
      {
        SupportStep(setup, w, Event(id, ClaimNext(states, target, actor)));
      }
    } else {
      var s :| s in ClaimStates(states) && s != Done && s != target && (target == Done || target == Validated);
      UnsupportedClaim(s, states, target, actor, setup);
    }
  }

  lemma UnsupportedClaim(s: TaskState, states: seq<TaskState>, target: TaskState, actor: Actor, setup: Setup)
    requires s in ClaimStates(states) && s != Done && s != target && (target == Done || target == Validated)
    ensures exists w: World, id: Id :: AllSupported(setup, w)
              && !AllSupported(setup, Step(setup, w, Event(id, ClaimNext(states, target, actor))))
  {
    var contract := if target == Done then NO_CONTRACT else NO_CONTRACT.(fields := map["dod_checks" := Null]);
    var w := Lone(Bare(s).(contract := contract));
    var e := Event(1, ClaimNext(states, target, actor));
    OwnTask(setup, w, e);
    assert LatestReport(setup, w.runs, 1) == None;
    var after := Step(setup, w, e);
    assert after.runs == [] && LatestReport(setup, after.runs, 1) == None;
    assert !Supported(after.tasks[1], None, HumanApproved(after.audit, 1));
    assert AllSupported(setup, w) && !AllSupported(setup, after);
  }
}
