/** The request handlers as they update task rows in place; each is the lifecycle step of its request
    (apps/api/src/agenticqueue_api/task_actions.py, app.py and repo/queue.py). */
module TaskBoard {
  import opened Base
  import opened DodReports
  import opened Transitions
  import opened Lifecycle
  import Validator

  /** Releasing some dependents changes neither what is done nor whether another is ready. */
  lemma ReadyUnaffected(edges: seq<Edge>, tasks: Tasks, released: seq<Id>, id: Id)
    requires forall d :: d in released ==> Ready(edges, tasks, d)
    requires id !in released
    ensures Ready(edges, Unblocked(tasks, released), id) <==> Ready(edges, tasks, id)
  {
    var after := Unblocked(tasks, released);
    forall d ensures IsDone(after, d) <==> IsDone(tasks, d) {
      if d in tasks && d in released { assert Ready(edges, tasks, d); }
    }
  }

  lemma UnblockOneMore(tasks: Tasks, released: seq<Id>, id: Id)
    requires id in tasks && id !in released
    ensures Unblocked(tasks, released + [id]) == Unblocked(tasks, released)[id := Requeued(tasks[id])]
    ensures Entries(released + [id], JobUnblocked) == Entries(released, JobUnblocked) + [Entry(id, JobUnblocked)]
  {
  }

  lemma ReleasedOneMore(edges: seq<Edge>, tasks: Tasks, dependents: seq<Id>, i: nat)
    requires i < |dependents| && forall j, k :: 0 <= j < k < |dependents| ==> dependents[j] != dependents[k]
    ensures Released(edges, tasks, dependents[..i + 1])
         == Released(edges, tasks, dependents[..i]) + if Ready(edges, tasks, dependents[i]) then [dependents[i]] else []
    ensures var released, id := Released(edges, tasks, dependents[..i]), dependents[i];
            && Ready(edges, Unblocked(tasks, released), id) == Ready(edges, tasks, id)
            && (Ready(edges, tasks, id) ==>
                  && Unblocked(tasks, released + [id])
                    == Unblocked(tasks, released)[id := Requeued(Unblocked(tasks, released)[id])]
                  && Entries(released + [id], JobUnblocked)
                    == Entries(released, JobUnblocked) + [Entry(id, JobUnblocked)])
  {
    assert dependents[..i + 1][..i] == dependents[..i];
    var released, id := Released(edges, tasks, dependents[..i]), dependents[i];
    ReadyUnaffected(edges, tasks, released, id);
    if Ready(edges, tasks, id) { UnblockOneMore(tasks, released, id); }
  }

  class TaskBoard {
    const setup: Setup
    var tasks: Tasks
    var runs: seq<Run>
    var audit: seq<Entry>
    var clock: int

    ghost function Board(): World
      reads this
    {
      World(tasks, runs, audit, clock)
    }

    constructor (setup: Setup, tasks: Tasks, clock: int)
      ensures this.setup == setup && Board() == World(tasks, [], [], clock)
    {
      this.setup, this.tasks, this.clock := setup, tasks, clock;
      runs, audit := [], [];
    }

    method Tick()
      modifies this`clock
      ensures Board() == Ticked(old(Board()))
    {
      clock := clock + 1;
    }

    method Log(id: Id, action: Action)
      modifies this`audit
      ensures audit == old(audit) + [Entry(id, action)]
    {
      audit := audit + [Entry(id, action)];
    }

    /** Releases, one after another, the blocked dependents whose active dependencies are all done. */
    method UnblockReadyDependents(completed: Id) returns (unblocked: seq<Id>)
      modifies this`tasks, this`audit
      ensures unblocked == Released(setup.edges, old(tasks), Dependents(setup.edges, completed))
      ensures tasks == Unblocked(old(tasks), unblocked)
      ensures audit == old(audit) + Entries(unblocked, JobUnblocked)
    {
      var dependents := Dependents(setup.edges, completed);
      unblocked := [];
      assert tasks == Unblocked(tasks, []);
      for i := 0 to |dependents|
        invariant unblocked == Released(setup.edges, old(tasks), dependents[..i])
        invariant tasks == Unblocked(old(tasks), unblocked)
        invariant audit == old(audit) + Entries(unblocked, JobUnblocked)
      {
        var id := dependents[i];
        ReleasedOneMore(setup.edges, old(tasks), dependents, i);
        var ready := ReleaseIfReady(id);
        if ready {
          unblocked := unblocked + [id];
        }
      }
      assert dependents[..|dependents|] == dependents;
    }

    method ReleaseIfReady(id: Id) returns (ready: bool)
      modifies this`tasks, this`audit
      ensures ready <==> Ready(setup.edges, old(tasks), id)
      ensures tasks == if ready then old(tasks)[id := Requeued(old(tasks)[id])] else old(tasks)
      ensures audit == old(audit) + if ready then [Entry(id, JobUnblocked)] else []
    {
      if id !in tasks || tasks[id].state != Blocked {
        return false;
      }
      var dependencies := ActiveDeps(setup.edges, id);
      if dependencies == [] {
        return false;
      }
      if exists d :: d in dependencies && !IsDone(tasks, d) {
        return false;
      }
      tasks := tasks[id := tasks[id].(state := Queued, owner := None, claimedAt := None)];
      Log(id, JobUnblocked);
      return true;
    }

    /** Uses up an attempt and requeues the task, or sends it to the dead letter queue. */
    method RecordTaskFailure(id: Id, maxAttempts: int)
      requires id in tasks && maxAttempts == tasks[id].policy.maxRetries
      modifies this`tasks, this`audit
      ensures tasks == old(tasks)[id := Failed(old(tasks)[id])]
      ensures audit == old(audit) + Repeated(id, FailureActions(tasks[id]))
    {
      var next := tasks[id].attempts + 1;
      tasks := tasks[id := tasks[id].(attempts := next, lastFailure := Some(ValidationFailed),
                                      state := if next >= maxAttempts then Dlq else Queued,
                                      owner := None, claimedAt := None)];
      Log(id, JobFailed);
      if tasks[id].state == Dlq {
        Log(id, JobDlqEntered);
      }
    }

    method SubmitTask(id: Id, actor: Actor, submission: Validator.Submission, runId: int) returns (status: int)
      modifies this
      ensures Board() == Step(setup, old(Board()), Event(id, Submit(actor, submission, runId)))
      ensures status == DecisionFor(setup, Ticked(old(Board())), Event(id, Submit(actor, submission, runId))).status
    {
      Tick();
      if id !in tasks {
        return 404;
      }
      var task := tasks[id];
      if task.state != InProgress {
        return 409;
      }
      if !actor.isAdmin && task.owner != Some(actor.id) {
        return 409;
      }
      if !Holds(actor, RunTests) || !Holds(actor, CreateArtifact) || !Holds(actor, UpdateTask) {
        return 403;
      }
      status := SubmitChecked(id, actor, submission, runId);
    }

    /** The part of a submission that runs once the caller may submit. */
    method SubmitChecked(id: Id, actor: Actor, submission: Validator.Submission, runId: int) returns (status: int)
      requires id in tasks && tasks[id].state == InProgress && (actor.isAdmin || tasks[id].owner == Some(actor.id))
      requires Holds(actor, RunTests) && Holds(actor, CreateArtifact) && Holds(actor, UpdateTask)
      modifies this`tasks, this`runs, this`audit
      ensures var d := DecideSubmit(id, old(tasks[id]), actor, submission, runId, clock);
              Board() == Carry(setup, old(Board()), id, d) && status == d.status
    {
      var task := tasks[id];
      var validation := Validator.ValidateSubmission(task.contract, submission);
      if validation.errors != [] {
        RecordTaskFailure(id, task.policy.maxRetries);
        NothingReleased(tasks);
        assert runs + [] == runs;
        return 422;
      }
      var outcome := SubmittedState(task, validation.report);
      if outcome.Err? {
        return outcome.error;
      }
      AcceptSubmission(id, outcome.value, validation.report, runId);
      return 200;
    }

    /** Stores the run of an accepted submission, moves its task and, when that finishes it, releases dependents. */
    method AcceptSubmission(id: Id, state: TaskState, report: Option<Report>, runId: int)
      requires id in tasks
      modifies this`tasks, this`runs, this`audit
      ensures var t := old(tasks[id]);
              Board() == Carry(setup, old(Board()), id,
                Move(200, t.(state := state, owner := None, claimedAt := None),
                     Some(Run(id, clock, runId, state, StoredReport(report))),
                     [JobSubmitted] + (if t.policy.hitlRequired then [] else [JobApproved(false)]), state == Done))
    {
      var task := tasks[id];
      runs := runs + [Run(id, clock, runId, state, StoredReport(report))];
      tasks := tasks[id := task.(state := state, owner := None, claimedAt := None)];
      NothingReleased(tasks);
      if state == Done {
        var _ := UnblockReadyDependents(id);
      }
      Log(id, JobSubmitted);
      if !task.policy.hitlRequired {
        Log(id, JobApproved(false));
      }
    }

    method ApproveTask(id: Id, actor: Actor) returns (status: int)
      modifies this
      ensures Board() == Step(setup, old(Board()), Event(id, Approve(actor)))
      ensures status == DecisionFor(setup, Ticked(old(Board())), Event(id, Approve(actor))).status
    {
      Tick();
      if id !in tasks {
        return 404;
      }
      var task := tasks[id];
      if task.state != Validated {
        return 409;
      }
      if !Holds(actor, UpdateTask) {
        return 403;
      }
      var report := LatestReport(setup, runs, id);
      if report.None? {
        return 409;
      }
      var outcome := Judge(task, task.state, Done, Ask(task, UpdateTask, 0, report, true));
      if outcome.Err? {
        return outcome.error;
      }
      tasks := tasks[id := task.(state := outcome.value.state, owner := None, claimedAt := None)];
      var _ := UnblockReadyDependents(id);
      Log(id, JobApproved(true));
      assert runs + [] == runs;
      return 200;
    }

    method RejectTask(id: Id, actor: Actor) returns (status: int)
      modifies this
      ensures Board() == Step(setup, old(Board()), Event(id, Reject(actor)))
      ensures status == DecisionFor(setup, Ticked(old(Board())), Event(id, Reject(actor))).status
    {
      Tick();
      if id !in tasks {
        return 404;
      }
      var task := tasks[id];
      if task.state != Validated {
        return 409;
      }
      if !Holds(actor, UpdateTask) {
        return 403;
      }
      var rejected := Judge(task, task.state, Rejected, Ask(task, UpdateTask, 0, None, false));
      if rejected.Err? {
        return rejected.error;
      }
      var requeued := Judge(task, rejected.value.state, Queued, Ask(task, UpdateTask, task.attempts, None, false));
      if requeued.Err? {
        return requeued.error;
      }
      RecordRejection(id, requeued.value);
      return 200;
    }

    /** Requeues the rejected task with the attempt counted, or sends it to the dead letter queue. */
    method RecordRejection(id: Id, requeued: Transition)
      requires id in tasks
      modifies this`tasks, this`audit
      ensures var state := if requeued.escalation == Some(MaxRetriesExceeded) then Dlq else requeued.state;
              Board() == Carry(setup, old(Board()), id,
                Move(200, old(tasks[id]).(attempts := requeued.attempts, lastFailure := Some(ReviewRejected),
                                          state := state,
                                          owner := None, claimedAt := None),
                     None, [JobRejected] + (if state == Dlq then [JobDlqEntered] else []), false))
    {
      var state := if requeued.escalation == Some(MaxRetriesExceeded) then Dlq else requeued.state;
      tasks := tasks[id := tasks[id].(attempts := requeued.attempts, lastFailure := Some(ReviewRejected),
                                      state := state,
                                      owner := None, claimedAt := None)];
      Log(id, JobRejected);
      if state == Dlq {
        Log(id, JobDlqEntered);
      }
      NothingReleased(tasks);
      assert runs + [] == runs;
    }

    method ResetTask(id: Id, actor: Actor) returns (status: int)
      modifies this
      ensures Board() == Step(setup, old(Board()), Event(id, Reset(actor)))
      ensures status == DecisionFor(setup, Ticked(old(Board())), Event(id, Reset(actor))).status
    {
      Tick();
      if !actor.isAdmin {
        return 403;
      }
      if id !in tasks {
        return 404;
      }
      tasks := tasks[id := tasks[id].(state := Queued, attempts := 0, lastFailure := None, owner := None,
                                      claimedAt := None)];
      Log(id, JobReset);
      NothingReleased(tasks);
      assert runs + [] == runs;
      return 200;
    }

    /** Claims the given task when its state is among those asked for. */
    method ClaimNextTask(id: Id, states: seq<TaskState>, target: TaskState, actor: Actor) returns (status: int)
      modifies this
      ensures Board() == Step(setup, old(Board()), Event(id, ClaimNext(states, target, actor)))
      ensures status == DecisionFor(setup, Ticked(old(Board())), Event(id, ClaimNext(states, target, actor))).status
    {
      Tick();
      if id !in tasks || tasks[id].state !in ClaimStates(states) {
        return 404;
      }
      tasks := tasks[id := tasks[id].(state := target, owner := Some(actor.id), claimedAt := Some(clock))];
      NothingReleased(tasks);
      assert runs + [] == runs;
      return 200;
    }

    /** Claims the given task from the default states. */
    method ClaimTask(id: Id, actor: Actor) returns (status: int)
      modifies this
      ensures Board() == Step(setup, old(Board()), Event(id, Op.ClaimTask(actor)))
      ensures status == DecisionFor(setup, Ticked(old(Board())), Event(id, Op.ClaimTask(actor))).status
    {
      Tick();
      if id !in tasks {
        return 404;
      }
      if tasks[id].state != Todo && tasks[id].state != Queued {
        return 409;
      }
      tasks := tasks[id := tasks[id].(state := Claimed, owner := Some(actor.id), claimedAt := Some(clock))];
      NothingReleased(tasks);
      assert runs + [] == runs;
      return 200;
    }

    /** An administrator takes a claim away from whoever holds it. */
    method UnlockEscrow(id: Id, actor: Actor) returns (status: int)
      modifies this
      ensures Board() == Step(setup, old(Board()), Event(id, Unlock(actor)))
      ensures status == DecisionFor(setup, Ticked(old(Board())), Event(id, Unlock(actor))).status
    {
      Tick();
      if !actor.isAdmin {
        return 403;
      }
      if id !in tasks || (tasks[id].state != Claimed && tasks[id].state != InProgress) {
        return 404;
      }
      tasks := tasks[id := tasks[id].(state := Todo, owner := None, claimedAt := None)];
      Log(id, EscrowForceUnlocked);
      NothingReleased(tasks);
      assert runs + [] == runs;
      return 200;
    }

    /** The generic endpoint for run rows takes the creation time and the report from its caller. */
    method CreateRun(id: Id, actor: Actor, runId: int, createdAt: int, state: TaskState, report: Json)
      returns (status: int)
      modifies this
      ensures Board() == Step(setup, old(Board()), Event(id, StoreRun(actor, runId, createdAt, state, report)))
      ensures status == DecisionFor(setup, Ticked(old(Board())),
          Event(id, StoreRun(actor, runId, createdAt, state, report))).status
    {
      Tick();
      if !Holds(actor, RunTests) {
        return 403;
      }
      if id !in tasks || exists r :: r in runs && r.id == runId {
        return 409;
      }
      runs := runs + [Run(id, createdAt, runId, state, report)];
      NothingReleased(tasks);
      return 201;
    }

    method ReleaseTask(id: Id, actor: Actor) returns (status: int)
      modifies this
      ensures Board() == Step(setup, old(Board()), Event(id, Release(actor)))
      ensures status == DecisionFor(setup, Ticked(old(Board())), Event(id, Release(actor))).status
    {
      Tick();
      if id !in tasks || (tasks[id].state != Claimed && tasks[id].state != InProgress)
         || (!actor.isAdmin && tasks[id].owner != Some(actor.id)) {
        return 404;
      }
      tasks := tasks[id := tasks[id].(state := Todo, owner := None, claimedAt := None)];
      NothingReleased(tasks);
      assert runs + [] == runs;
      return 200;
    }
  }

  lemma NothingReleased(tasks: Tasks)
    ensures Unblocked(tasks, []) == tasks && Entries([], JobUnblocked) == []
  {
  }
}
