/** The task lifecycle as a state machine: what each request does to the board of tasks, runs and audit rows
    (apps/api/src/agenticqueue_api/task_actions.py, app.py and repo/queue.py).
    Every request is one transaction; the clock moves forward with each. */
module Lifecycle {
  import opened Base
  import opened DodReports
  import opened Dod
  import opened Transitions
  import Validator

  type Id = int

  // ----- the board

  /** One DEPENDS_ON edge between tasks: `src` waits for `dst`. Edges are listed in creation order. */
  datatype Edge = Edge(src: Id, dst: Id, metadata: map<string, Json>)

  datatype Failure = ValidationFailed | ReviewRejected

  /** One task row with its contract and the policy in effect for it. */
  datatype Task = Task(
    state: TaskState, attempts: nat, lastFailure: Option<Failure>, owner: Option<Id>, claimedAt: Option<int>,
    contract: Contract, policy: Policy)

  /** One run row; `report` is the stored "dod_report" of its details. */
  datatype Run = Run(task: Id, createdAt: int, id: int, status: TaskState, report: Json)

  datatype Action =
    | JobFailed | JobDlqEntered | JobUnblocked | JobSubmitted | JobApproved(human: bool)
    | JobRejected | JobReset | EscrowForceUnlocked

  datatype Entry = Entry(task: Id, action: Action)

  type Tasks = map<Id, Task>

  datatype World = World(tasks: Tasks, runs: seq<Run>, audit: seq<Entry>, clock: int)

  /** What stays fixed over a run: the dependency edges, and Python's `str` on stored notes. */
  datatype Setup = Setup(edges: seq<Edge>, show: Json -> string)

  /** A caller with the capabilities it holds in the scope of the task. */
  datatype Actor = Actor(id: Id, isAdmin: bool, held: set<Capability>)

  datatype Op =
    | ClaimNext(states: seq<TaskState>, target: TaskState, actor: Actor)
    | ClaimTask(actor: Actor)
    | Release(actor: Actor)
    | Unlock(actor: Actor)
    | StoreRun(actor: Actor, runId: int, createdAt: int, status: TaskState, report: Json)
    | Submit(actor: Actor, submission: Validator.Submission, runId: int)
    | Approve(actor: Actor)
    | Reject(actor: Actor)
    | Reset(actor: Actor)

  datatype Event = Event(id: Id, op: Op)

  /** Administrators need no grant, and a grant of the admin capability stands for any other. */
  predicate Holds(actor: Actor, c: Capability) {
    actor.isAdmin || c in actor.held || Admin in actor.held
  }

  // ----- dependencies

  predicate Superseded(metadata: map<string, Json>) {
    || Truthy(Field(metadata, "superseded_at"))
    || Truthy(Field(metadata, "superseded_by"))
    || Field(metadata, "status") == Text("superseded")
    || Field(metadata, "is_active") == Bool(false)
  }

  /** The targets of the edges of `id` that are still in force. */
  function ActiveDeps(edges: seq<Edge>, id: Id): (r: seq<Id>)
    ensures forall d :: d in r <==> exists e :: e in edges && e.src == id && e.dst == d && !Superseded(e.metadata)
  {
    if edges == [] then []
    else
      var last := edges[|edges| - 1];
      assert edges == edges[..|edges| - 1] + [last];
      ActiveDeps(edges[..|edges| - 1], id) + if last.src == id && !Superseded(last.metadata) then [last.dst] else []
  }

  /** The sources of all edges into `id`, superseded ones too, each once in order of first appearance. */
  function Dependents(edges: seq<Edge>, id: Id): (r: seq<Id>)
    ensures forall s :: s in r <==> exists e :: e in edges && e.src == s && e.dst == id
    ensures forall i, j :: 0 <= i < j < |r| ==> r[i] != r[j]
  {
    if edges == [] then []
    else
      var last := edges[|edges| - 1];
      assert edges == edges[..|edges| - 1] + [last];
      var before := Dependents(edges[..|edges| - 1], id);
      if last.dst == id && last.src !in before then before + [last.src] else before
  }

  predicate IsDone(tasks: Tasks, id: Id) {
    id in tasks && tasks[id].state == Done
  }

  /** A blocked task with active dependencies, all of them done. */
  predicate Ready(edges: seq<Edge>, tasks: Tasks, id: Id) {
    && id in tasks && tasks[id].state == Blocked
    && ActiveDeps(edges, id) != []
    && forall d :: d in ActiveDeps(edges, id) ==> IsDone(tasks, d)
  }

  function Requeued(t: Task): Task {
    t.(state := Queued, owner := None, claimedAt := None)
  }

  /** The dependents that finishing `id` releases, in edge order. */
  function Released(edges: seq<Edge>, tasks: Tasks, dependents: seq<Id>): (r: seq<Id>)
    ensures forall d :: d in r <==> d in dependents && Ready(edges, tasks, d)
  {
    if dependents == [] then []
    else
      var last := dependents[|dependents| - 1];
      assert dependents == dependents[..|dependents| - 1] + [last];
      Released(edges, tasks, dependents[..|dependents| - 1]) + if Ready(edges, tasks, last) then [last] else []
  }

  function Unblocked(tasks: Tasks, released: seq<Id>): Tasks {
    map id | id in tasks :: if id in released then Requeued(tasks[id]) else tasks[id]
  }

  function Entries(ids: seq<Id>, action: Action): seq<Entry> {
    seq(|ids|, i requires 0 <= i < |ids| => Entry(ids[i], action))
  }

  // ----- runs

  /** Newest first by creation time, then id. */
  predicate Newer(a: Run, b: Run) {
    a.createdAt > b.createdAt || (a.createdAt == b.createdAt && a.id > b.id)
  }

  function LatestRun(runs: seq<Run>, id: Id): Option<Run> {
    if runs == [] then None
    else
      var last := runs[|runs| - 1];
      var before := LatestRun(runs[..|runs| - 1], id);
      if last.task == id && (before.None? || Newer(last, before.value)) then Some(last) else before
  }

  function LatestReport(setup: Setup, runs: seq<Run>, id: Id): Option<Report> {
    match LatestRun(runs, id)
    case None => None
    case Some(run) => DecodeReport(run.report, setup.show)
  }

  // ----- one request on one task

  /** What a request decides about its task: refused, or the new row, the run to store and the audit actions.
      A finishing request also releases dependents. */
  datatype Decision =
    | Refuse(status: int)
    | Move(status: int, task: Task, run: Option<Run>, actions: seq<Action>, finishes: bool)

  function ClaimStates(states: seq<TaskState>): seq<TaskState> {
    if states == [] then [Todo, Queued] else states
  }

  function TakenClaim(t: Task, states: seq<TaskState>, target: TaskState, owner: Id, now: int): Option<Task> {
    if t.state in ClaimStates(states) then Some(t.(state := target, owner := Some(owner), claimedAt := Some(now)))
    else None
  }

  function ReleasedClaim(t: Task, expected: Option<Id>): Option<Task> {
    if t.state in [Claimed, InProgress] && (expected.None? || t.owner == expected)
    then Some(t.(state := Todo, owner := None, claimedAt := None)) else None
  }

  /** A failed validation uses up one attempt and goes back to the queue, or to the dead letter queue. */
  function Failed(t: Task): Task {
    t.(attempts := t.attempts + 1, lastFailure := Some(ValidationFailed),
       state := if t.attempts + 1 >= t.policy.maxRetries then Dlq else Queued, owner := None, claimedAt := None)
  }

  function FailureActions(t: Task): seq<Action> {
    [JobFailed] + if t.state == Dlq then [JobDlqEntered] else []
  }

  function Ask(t: Task, held: Capability, attempts: nat, report: Option<Report>, human: bool): Request {
    Request({held}, attempts, report, None, human, t.contract.tier)
  }

  function Judge(t: Task, from: TaskState, target: TaskState, r: Request): Result<Transition, int> {
    match ApplyTransition(t.policy, from, target, r)
    case Err(_) => Err(500)
    case Ok(transition) => if transition.blockedBy.Some? then Err(409) else Ok(transition)
  }

  /** The state in which an accepted submission leaves its task: validated, or done without human review. */
  function SubmittedState(t: Task, report: Option<Report>): Result<TaskState, int> {
    match Judge(t, t.state, Submitted, Ask(t, RunTests, 0, None, false))
    case Err(status) => Err(status)
    case Ok(submitted) =>
      match Judge(t, submitted.state, Validated, Ask(t, UpdateTask, 0, report, false))
      case Err(status) => Err(status)
      case Ok(validated) =>
        if t.policy.hitlRequired then Ok(validated.state)
        else
          match Judge(t, validated.state, Done, Ask(t, UpdateTask, 0, report, false))
          case Err(status) => Err(status)
          case Ok(approved) => Ok(approved.state)
  }

  function StoredReport(report: Option<Report>): Json {
    if report.None? then Null else EncodeReport(report.value)
  }

  function DecideSubmit(id: Id, t: Task, actor: Actor, submission: Validator.Submission, runId: int, now: int)
    : Decision
  {
    if t.state != InProgress then Refuse(409)
    else if !actor.isAdmin && t.owner != Some(actor.id) then Refuse(409)
    else if !Holds(actor, RunTests) || !Holds(actor, CreateArtifact) || !Holds(actor, UpdateTask) then Refuse(403)
    else
      var v := Validator.Validate(t.contract, submission);
      if !Validator.IsValid(v) then Move(422, Failed(t), None, FailureActions(Failed(t)), false)
      else
        match SubmittedState(t, v.report)
        case Err(status) => Refuse(status)
        case Ok(state) =>
          Move(200, t.(state := state, owner := None, claimedAt := None),
               Some(Run(id, now, runId, state, StoredReport(v.report))),
               [JobSubmitted] + (if t.policy.hitlRequired then [] else [JobApproved(false)]), state == Done)
  }

  function DecideApprove(t: Task, actor: Actor, report: Option<Report>): Decision {
    if t.state != Validated then Refuse(409)
    else if !Holds(actor, UpdateTask) then Refuse(403)
    else if report.None? then Refuse(409)
    else
      match Judge(t, t.state, Done, Ask(t, UpdateTask, 0, report, true))
      case Err(status) => Refuse(status)
      case Ok(approved) =>
        Move(200, t.(state := approved.state, owner := None, claimedAt := None), None, [JobApproved(true)], true)
  }

  function DecideReject(t: Task, actor: Actor): Decision {
    if t.state != Validated then Refuse(409)
    else if !Holds(actor, UpdateTask) then Refuse(403)
    else
      match Judge(t, t.state, Rejected, Ask(t, UpdateTask, 0, None, false))
      case Err(status) => Refuse(status)
      case Ok(rejected) =>
        match Judge(t, rejected.state, Queued, Ask(t, UpdateTask, t.attempts, None, false))
        case Err(status) => Refuse(status)
        case Ok(requeued) =>
          var state := if requeued.escalation == Some(MaxRetriesExceeded) then Dlq else requeued.state;
          Move(200, t.(attempts := requeued.attempts, lastFailure := Some(ReviewRejected), state := state,
                       owner := None, claimedAt := None),
               None, [JobRejected] + (if state == Dlq then [JobDlqEntered] else []), false)
  }

  function MoveOrRefuse(task: Option<Task>, actions: seq<Action>, status: int): Decision {
    if task.Some? then Move(200, task.value, None, actions, false) else Refuse(status)
  }

  function Decide(t: Task, report: Option<Report>, now: int, e: Event): Decision {
    match e.op
    case ClaimNext(states, target, actor) => MoveOrRefuse(TakenClaim(t, states, target, actor.id, now), [], 404)
    case ClaimTask(actor) => MoveOrRefuse(TakenClaim(t, [], Claimed, actor.id, now), [], 409)
    case Release(actor) => MoveOrRefuse(ReleasedClaim(t, if actor.isAdmin then None else Some(actor.id)), [], 404)
    case Unlock(actor) =>
      if !actor.isAdmin then Refuse(403) else MoveOrRefuse(ReleasedClaim(t, None), [EscrowForceUnlocked], 404)
    case StoreRun(actor, runId, createdAt, status, report) =>
      if !Holds(actor, RunTests) then Refuse(403)
      else Move(201, t, Some(Run(e.id, createdAt, runId, status, report)), [], false)
    case Submit(actor, submission, runId) => DecideSubmit(e.id, t, actor, submission, runId, now)
    case Approve(actor) => DecideApprove(t, actor, report)
    case Reject(actor) => DecideReject(t, actor)
    case Reset(actor) =>
      if !actor.isAdmin then Refuse(403)
      else Move(200, t.(state := Queued, attempts := 0, lastFailure := None, owner := None, claimedAt := None),
                None, [JobReset], false)
  }

  // ----- one request on the board

  function Repeated(id: Id, actions: seq<Action>): seq<Entry> {
    seq(|actions|, i requires 0 <= i < |actions| => Entry(id, actions[i]))
  }

  function Carry(setup: Setup, w: World, id: Id, d: Decision): World {
    if d.Refuse? then w
    else
      var tasks := w.tasks[id := d.task];
      var released := if d.finishes then Released(setup.edges, tasks, Dependents(setup.edges, id)) else [];
      World(Unblocked(tasks, released),
            w.runs + (if d.run.Some? then [d.run.value] else []),
            w.audit + Entries(released, JobUnblocked) + Repeated(id, d.actions),
            w.clock)
  }

  function Ticked(w: World): World { w.(clock := w.clock + 1) }

  /** Who may ask is settled before the task is looked for, and a run needs its task and an id of its own. */
  function DecisionFor(setup: Setup, w: World, e: Event): Decision {
    if (e.op.Reset? || e.op.Unlock?) && !e.op.actor.isAdmin then Refuse(403)
    else if e.op.StoreRun? && !Holds(e.op.actor, RunTests) then Refuse(403)
    else if e.op.StoreRun? && (e.id !in w.tasks || exists r :: r in w.runs && r.id == e.op.runId) then Refuse(409)
    else if e.id !in w.tasks then Refuse(404)
    else Decide(w.tasks[e.id], LatestReport(setup, w.runs, e.id), w.clock, e)
  }

  function Step(setup: Setup, w: World, e: Event): World {
    Carry(setup, Ticked(w), e.id, DecisionFor(setup, Ticked(w), e))
  }

  function Perform(setup: Setup, w: World, events: seq<Event>): World
    decreases events
  {
    if events == [] then w else Perform(setup, Step(setup, w, events[0]), events[1..])
  }
}
