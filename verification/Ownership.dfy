/** Who holds a task: ownership goes with the two working states, and only its owner or an administrator ends it. */
module Ownership {
  import opened Base
  import DodReports
  import opened Transitions
  import opened Lifecycle
  import opened LifecycleTheorems
  import Validator

  const WORKING := [Claimed, InProgress]

  /** A task has an owner, and the time it was claimed, exactly while it is being worked on. */
  predicate WellOwned(t: Task) {
    && (t.owner.Some? <==> t.state in WORKING)
    && (t.claimedAt.Some? <==> t.state in WORKING)
  }

  ghost predicate AllWellOwned(tasks: Tasks) {
    forall id :: id in tasks ==> WellOwned(tasks[id])
  }

  lemma DecisionWellOwned(t: Task, report: Option<DodReports.Report>, now: int, e: Event)
    requires WellOwned(t) && (e.op.ClaimNext? ==> e.op.target in WORKING)
    ensures var d := Decide(t, report, now, e); d.Move? ==> WellOwned(d.task)
  {
    match e.op
    case Submit(actor, submission, runId) => SubmitEndsClaim(e.id, t, actor, submission, runId, now);
    case Approve(actor) => ApproveEndsClaim(t, actor, report);
    case Reject(actor) => RejectEndsClaim(t, actor);
    case _ =>
  }

  predicate Unclaimed(t: Task) {
    t.owner == None && t.claimedAt == None && t.state !in WORKING
  }

  lemma SubmitEndsClaim(id: Id, t: Task, actor: Actor, submission: Validator.Submission, runId: int, now: int)
    ensures var d := DecideSubmit(id, t, actor, submission, runId, now); d.Move? ==> Unclaimed(d.task)
  {
    var d := DecideSubmit(id, t, actor, submission, runId, now);
    if d.Move? {
      var v := Validator.Validate(t.contract, submission);
      if Validator.IsValid(v) {
        SubmittedStates(t, v.report);
      } else {
        assert d.task == Failed(t);
      }
    }
  }

  lemma ApproveEndsClaim(t: Task, actor: Actor, report: Option<DodReports.Report>)
    ensures var d := DecideApprove(t, actor, report); d.Move? ==> Unclaimed(d.task)
  {
    if DecideApprove(t, actor, report).Move? { ApproveShape(t, actor, report); }
  }

  lemma RejectEndsClaim(t: Task, actor: Actor)
    ensures var d := DecideReject(t, actor); d.Move? ==> Unclaimed(d.task)
  {
    if DecideReject(t, actor).Move? { RejectShape(t, actor); }
  }

  lemma OwnershipStep(setup: Setup, w: World, e: Event)
    requires AllWellOwned(w.tasks) && (e.op.ClaimNext? ==> e.op.target in WORKING)
    ensures AllWellOwned(Step(setup, w, e).tasks)
  {
    var after := Step(setup, w, e).tasks;
    forall id | id in after ensures WellOwned(after[id]) {
      if id == e.id {
        OwnTask(setup, w, e);
        DecisionWellOwned(w.tasks[id], LatestReport(setup, w.runs, id), w.clock + 1, e);
      } else {
        OthersOnlyReleased(setup, w, e, id);
      }
    }
  }

  /** Over every run whose claims lead to a working state, a task has an owner exactly while it is worked on. */
  lemma {:induction false} OwnershipHolds(setup: Setup, w: World, events: seq<Event>)
    requires AllWellOwned(w.tasks)
    requires forall i :: 0 <= i < |events| && events[i].op.ClaimNext? ==> events[i].op.target in WORKING
    ensures AllWellOwned(Perform(setup, w, events).tasks)
    decreases events
  {
    if events == [] {
    } else {
      OwnershipStep(setup, w, events[0]);
      assert forall i :: 0 <= i < |events[1..]| ==> events[1..][i] == events[i + 1];
      OwnershipHolds(setup, Step(setup, w, events[0]), events[1..]);
    }
  }

  /** The ways to lose a task that `owner` holds: its own or an administrator's request, or a claim that asks
      for tasks already being worked on. */
  predicate MayEnd(t: Task, owner: Id, op: Op) {
    match op
    case ClaimNext(states, _, _) => t.state in ClaimStates(states)
    case Release(actor) => actor.isAdmin || actor.id == owner
    case Unlock(actor) => actor.isAdmin
    case Submit(actor, _, _) => actor.isAdmin || actor.id == owner
    case Reset(actor) => actor.isAdmin
    case _ => false
  }

  /** Nobody else takes a task away from its owner; the default claims never do. */
  lemma OwnerKeepsTask(setup: Setup, w: World, e: Event, id: Id, owner: Id)
    requires id in w.tasks && WellOwned(w.tasks[id]) && w.tasks[id].owner == Some(owner)
    requires Step(setup, w, e).tasks[id].owner != Some(owner)
    ensures e.id == id && MayEnd(w.tasks[id], owner, e.op)
    ensures e.op.ClaimNext? ==> e.op.states != []
  {
    if e.id == id { OwnTask(setup, w, e); } else { OthersOnlyReleased(setup, w, e, id); }
  }

  /** Exactly which claim targets keep ownership and working states together on every board. */
  lemma ClaimKeepsOwnershipIff(states: seq<TaskState>, target: TaskState, actor: Actor, setup: Setup)
    ensures target in WORKING
       <==> forall w: World, id: Id :: AllWellOwned(w.tasks) ==>
              AllWellOwned(Step(setup, w, Event(id, ClaimNext(states, target, actor))).tasks)
  {
    var e := Event(1, ClaimNext(states, target, actor));
    if target in WORKING {
      forall w: World, id: Id | AllWellOwned(w.tasks)
        ensures AllWellOwned(Step(setup, w, Event(id, ClaimNext(states, target, actor))).tasks)
      {
        OwnershipStep(setup, w, Event(id, ClaimNext(states, target, actor)));
      }
    } else {
      var s := ClaimStates(states)[0];
      var t := if s in WORKING then Bare(s).(owner := Some(0), claimedAt := Some(0)) else Bare(s);
      assert AllWellOwned(Lone(t).tasks);
      OwnTask(setup, Lone(t), e);
      assert !WellOwned(Step(setup, Lone(t), e).tasks[1]);
    }
  }
}
