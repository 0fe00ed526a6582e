/** What a step of the task lifecycle changes, which claims keep its guarantees, and that no run loses a wake-up. */
module LifecycleTheorems {
  import opened Base
  import opened DodReports
  import opened Dod
  import opened Transitions
  import opened Lifecycle
  import Validator

  // ----- the shape of a step

  /** The state a request leaves its task in. Only a claim can set an arbitrary one. */
  lemma MoveShape(t: Task, report: Option<Report>, now: int, e: Event)
    requires Decide(t, report, now, e).Move?
    ensures var d := Decide(t, report, now, e);
            && d.task.contract == t.contract && d.task.policy == t.policy
            && (d.finishes ==> d.task.state == Done)
            && (e.op.ClaimNext? ==> t.state in ClaimStates(e.op.states) && d.task.state == e.op.target)
            && (e.op.StoreRun? ==> d.task == t)
            && (!e.op.ClaimNext? && !e.op.StoreRun? && !d.finishes ==>
              d.task.state in [Claimed, Todo, Queued, Dlq, Validated])
  {
    match e.op
    case Submit(actor, submission, runId) => SubmitShape(e.id, t, actor, submission, runId, now);
    case Approve(actor) => ApproveShape(t, actor, report);
    case Reject(actor) => RejectShape(t, actor);
    case _ =>
  }

  lemma SubmitShape(id: Id, t: Task, actor: Actor, submission: Validator.Submission, runId: int, now: int)
    requires DecideSubmit(id, t, actor, submission, runId, now).Move?
    ensures var d := DecideSubmit(id, t, actor, submission, runId, now);
            && d.task.contract == t.contract && d.task.policy == t.policy
            && if d.finishes then d.task.state == Done else d.task.state in [Queued, Dlq, Validated]
  {
    var v := Validator.Validate(t.contract, submission);
    if Validator.IsValid(v) { SubmittedStates(t, v.report); }
  }

  lemma ApproveShape(t: Task, actor: Actor, report: Option<Report>)
    requires DecideApprove(t, actor, report).Move?
    ensures var d := DecideApprove(t, actor, report);
            d.task.contract == t.contract && d.task.policy == t.policy && d.finishes && d.task.state == Done
  {
  }

  lemma RejectShape(t: Task, actor: Actor)
    requires DecideReject(t, actor).Move?
    ensures var d := DecideReject(t, actor);
            d.task.contract == t.contract && d.task.policy == t.policy && !d.finishes && d.task.state in [Queued, Dlq]
  {
  }

  lemma SubmittedStates(t: Task, report: Option<Report>)
    requires SubmittedState(t, report).Ok?
    ensures SubmittedState(t, report).value == if t.policy.hitlRequired then Validated else Done
    ensures !t.policy.hitlRequired ==> report.Some? && AllChecked(report.value)
  {
  }

  /** A step touches its own task; any other task changes only by being released from blocked to queued. */
  lemma OthersOnlyReleased(setup: Setup, w: World, e: Event, id: Id)
    requires id in w.tasks && id != e.id
    ensures var after := Step(setup, w, e).tasks;
            && after.Keys == w.tasks.Keys
            && (after[id] == w.tasks[id] || (w.tasks[id].state == Blocked && after[id] == Requeued(w.tasks[id])))
  {
  }

  lemma OwnTask(setup: Setup, w: World, e: Event)
    requires e.id in w.tasks
    ensures var d := DecisionFor(setup, Ticked(w), e);
            Step(setup, w, e).tasks[e.id] == if d.Refuse? then w.tasks[e.id] else d.task
  {
    var d := DecisionFor(setup, Ticked(w), e);
    if d.Move? {
      MoveShape(w.tasks[e.id], LatestReport(setup, w.runs, e.id), Ticked(w).clock, e);
    }
  }

  /** "todo", which a release writes, is no state of the transition engine: only a claim of released tasks and a
      reset move such a task on. */
  lemma TodoMovesOnlyBy(setup: Setup, w: World, e: Event, id: Id)
    requires id in w.tasks && w.tasks[id].state == Todo && Step(setup, w, e).tasks[id] != w.tasks[id]
    ensures e.id == id
    ensures match e.op
            case ClaimNext(states, _, _) => Todo in ClaimStates(states)
            case ClaimTask(_) => true
            case Reset(actor) => actor.isAdmin
            case _ => false
    ensures forall target, r :: ApplyTransition(w.tasks[id].policy, Todo, target, r) == Err(UnknownState)
  {
    if e.id == id { OwnTask(setup, w, e); } else { OthersOnlyReleased(setup, w, e, id); }
  }

  // ----- claims

  /** Claims that cannot create a lost wake-up: they neither block nor finish a task, or change no state. */
  predicate KeepsWakeups(states: seq<TaskState>, target: TaskState) {
    (target != Blocked && target != Done) || forall s :: s in ClaimStates(states) ==> s == target
  }

  /** Claims that leave the dead letter queue alone. */
  predicate KeepsDeadLetters(states: seq<TaskState>, target: TaskState) {
    if target == Dlq then forall s :: s in ClaimStates(states) ==> s == Dlq else Dlq !in ClaimStates(states)
  }

  /** Claims that do not bring a task among the validated or finished ones. */
  predicate KeepsEvidence(states: seq<TaskState>, target: TaskState) {
    && (target == Done ==> forall s :: s in ClaimStates(states) ==> s == Done)
    && (target == Validated ==> forall s :: s in ClaimStates(states) ==> s == Validated || s == Done)
  }

  /** The claim endpoint takes its states from the caller; an orderly run picks them within these guards.
      The defaults, todo or queued to claimed, are. */
  predicate Orderly(e: Event) {
    e.op.ClaimNext? ==>
      && KeepsWakeups(e.op.states, e.op.target)
      && KeepsDeadLetters(e.op.states, e.op.target)
      && KeepsEvidence(e.op.states, e.op.target)
  }

  predicate OrderlyRun(events: seq<Event>) {
    forall i :: 0 <= i < |events| ==> Orderly(events[i])
  }

  // ----- no lost wake-up

  /** No blocked task has active dependencies that are all done. */
  ghost predicate NoLostWakeup(edges: seq<Edge>, tasks: Tasks) {
    forall id :: !Ready(edges, tasks, id)
  }

  /** Moving one task cannot make another ready unless it finishes. */
  lemma ReadyNeedsFinish(edges: seq<Edge>, tasks: Tasks, id: Id, t: Task, b: Id)
    requires NoLostWakeup(edges, tasks) && id in tasks && Ready(edges, tasks[id := t], b)
    requires t.state == Blocked ==> t.state == tasks[id].state
    ensures t.state == Done && tasks[id].state != Done && b in Dependents(edges, id)
  {
    var after := tasks[id := t];
    assert !Ready(edges, tasks, b);
    assert forall d :: IsDone(after, d) ==> IsDone(tasks, d) || d == id;
    assert tasks[id].state == Done || t.state != Done ==> forall d :: IsDone(after, d) ==> IsDone(tasks, d);
  }

  lemma ReleaseKeepsNoLostWakeup(edges: seq<Edge>, tasks: Tasks, released: seq<Id>)
    requires forall b :: Ready(edges, tasks, b) <==> b in released
    ensures NoLostWakeup(edges, Unblocked(tasks, released))
  {
    var after := Unblocked(tasks, released);
    assert forall d :: IsDone(after, d) ==> IsDone(tasks, d);
    assert forall b :: Ready(edges, after, b) ==> Ready(edges, tasks, b);
  }

  lemma WakeupStep(setup: Setup, w: World, e: Event)
    requires NoLostWakeup(setup.edges, w.tasks)
    requires e.op.ClaimNext? ==> KeepsWakeups(e.op.states, e.op.target)
    ensures NoLostWakeup(setup.edges, Step(setup, w, e).tasks)
  {
    var d := DecisionFor(setup, Ticked(w), e);
    if d.Move? {
      MoveShape(w.tasks[e.id], LatestReport(setup, w.runs, e.id), Ticked(w).clock, e);
      var tasks := w.tasks[e.id := d.task];
      var released := if d.finishes then Released(setup.edges, tasks, Dependents(setup.edges, e.id)) else [];
      forall b ensures Ready(setup.edges, tasks, b) <==> b in released {
        if Ready(setup.edges, tasks, b) { ReadyNeedsFinish(setup.edges, w.tasks, e.id, d.task, b); }
      }
      ReleaseKeepsNoLostWakeup(setup.edges, tasks, released);
    }
  }

  /** No run loses a wake-up, on any dependency graph. */
  lemma {:induction false} NoRunLosesWakeups(setup: Setup, w: World, events: seq<Event>)
    requires NoLostWakeup(setup.edges, w.tasks) && OrderlyRun(events)
    ensures NoLostWakeup(setup.edges, Perform(setup, w, events).tasks)
    decreases events
  {
    if events == [] {
    } else {
      assert Orderly(events[0]);
      WakeupStep(setup, w, events[0]);
      assert forall i :: 0 <= i < |events[1..]| ==> events[1..][i] == events[i + 1];
      NoRunLosesWakeups(setup, Step(setup, w, events[0]), events[1..]);
    }
  }

  const NO_CONTRACT := Contract(map[], [], 1)
  const NO_POLICY := Policy(true, 1, map[], map[], 3, 24, NeedsGhostTriage)

  function Bare(state: TaskState): Task {
    Task(state, 0, None, None, None, NO_CONTRACT, NO_POLICY)
  }

  function Lone(t: Task): World { World(map[1 := t], [], [], 0) }

  /** A board on which the claim of `id` from state `s` to `target` makes task 1 wait for finished work. */
  function WakeupTrap(s: TaskState, target: TaskState): (World, Id) {
    if target == Blocked then (World(map[1 := Bare(s), 2 := Bare(Done)], [], [], 0), 1)
    else (World(map[1 := Bare(Blocked), 2 := Bare(s)], [], [], 0), 2)
  }

  const ONE_EDGE := [Edge(1, 2, map[])]

  lemma OneEdgeDeps(id: Id)
    ensures ActiveDeps(ONE_EDGE, id) == if id == 1 then [2] else []
  {
    assert !Superseded(map[]);
    assert ONE_EDGE[..0] == [];
    assert ActiveDeps(ONE_EDGE[..0], id) == [];
  }

  lemma TrapIsSet(s: TaskState, target: TaskState)
    requires s != target && (target == Blocked || target == Done)
    ensures NoLostWakeup(ONE_EDGE, WakeupTrap(s, target).0.tasks)
  {
    var tasks := WakeupTrap(s, target).0.tasks;
    forall b ensures !Ready(ONE_EDGE, tasks, b) {
      OneEdgeDeps(b);
      if b == 1 { assert 2 in ActiveDeps(ONE_EDGE, 1); }
    }
  }

  lemma TrapSprings(s: TaskState, states: seq<TaskState>, target: TaskState, actor: Actor, show: Json -> string)
    requires s in ClaimStates(states) && s != target && (target == Blocked || target == Done)
    ensures var (w, id) := WakeupTrap(s, target);
            !NoLostWakeup(ONE_EDGE, Step(Setup(ONE_EDGE, show), w, Event(id, ClaimNext(states, target, actor))).tasks)
  {
    var (w, id) := WakeupTrap(s, target);
    var setup, e := Setup(ONE_EDGE, show), Event(id, ClaimNext(states, target, actor));
    OwnTask(setup, w, e);
    OthersOnlyReleased(setup, w, e, 3 - id);
    var after := Step(setup, w, e).tasks;
    assert after[1].state == Blocked && after[2].state == Done;
    OneEdgeDeps(1);
    assert Ready(ONE_EDGE, after, 1);
  }

  /** Exactly which claim parameters keep the wake-up property on every board and graph. */
  lemma ClaimKeepsWakeupsIff(states: seq<TaskState>, target: TaskState, actor: Actor, show: Json -> string)
    ensures KeepsWakeups(states, target)
       <==> forall edges: seq<Edge>, w: World, id: Id :: NoLostWakeup(edges, w.tasks) ==>
              NoLostWakeup(edges, Step(Setup(edges, show), w, Event(id, ClaimNext(states, target, actor))).tasks)
  {
    if KeepsWakeups(states, target) {
      forall edges: seq<Edge>, w: World, id: Id | NoLostWakeup(edges, w.tasks)
        ensures NoLostWakeup(edges, Step(Setup(edges, show), w, Event(id, ClaimNext(states, target, actor))).tasks)
      {
        WakeupStep(Setup(edges, show), w, Event(id, ClaimNext(states, target, actor)));
      }
    } else {
      var s :| s in ClaimStates(states) && s != target;
      TrapIsSet(s, target);
      TrapSprings(s, states, target, actor, show);
      var (w, id) := WakeupTrap(s, target);
      assert NoLostWakeup(ONE_EDGE, w.tasks);
    }
  }
}
