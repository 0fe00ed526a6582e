/** Concrete coding tasks, with every contract field that task_types/coding-task.schema.json requires, under the
    shipped policy. */
module CodingTasks {
  import opened Base
  import opened Digraph
  import opened DodReports
  import opened Dod
  import opened Transitions
  import opened Lifecycle
  import opened LifecycleTheorems
  import opened Evidence
  import opened Progress
  import Texts
  import Validator

  const CONTRACT_FIELDS: map<string, Json> := map[
    "repo" := Text("agenticqueue"), "branch" := Text("main"), "file_scope" := Array([Text("apps/api")]),
    "surface_area" := Array([Text("api")]), "spec" := Text("Make it work."),
    "dod_checklist" := Array([Text("It works")]), "autonomy_tier" := Integer(1),
    "output" := Object(map[
      "diff_url" := Text("pending"), "test_report" := Text("pending"),
      "artifacts" := Array([Object(map["kind" := Text("diff"), "uri" := Text("pending")])]), "learnings" := Array([])])]

  const CHECK := Object(map["item" := Text("It works"), "type" := Text("path_exists"), "path" := Text("README.md")])

  const UNCHECKED_CONTRACT := Contract(CONTRACT_FIELDS, ["It works"], 1)

  const CHECKED_CONTRACT := Contract(CONTRACT_FIELDS["dod_checks" := Array([CHECK])], ["It works"], 1)

  function TaskOf(state: TaskState, contract: Contract): Task {
    Task(state, 0, None, None, None, contract, CODING_TASK_POLICY)
  }

  function EvidencedSubmission(handler: Handler): Validator.Submission {
    Validator.Wellformed(false, 0, 0, [Validator.DodResult("It works", Validator.Passed, 1, None)], handler)
  }

  lemma OneItem(c: Contract, handler: Handler)
    requires c == UNCHECKED_CONTRACT || c == CHECKED_CONTRACT
    ensures Statements(ResolveItems(c)) == ["It works"]
    ensures Validator.DodIssuesOf(ResolveItems(c), EvidencedSubmission(handler).dodResults) == []
  {
    var items := ResolveItems(c);
    assert Field(c.fields, "dod_items") == Null;
    assert |items| == 1 && items[0].statement == "It works" && items[0].dodId[0] == 'l';
    SingleItemAnswered(items[0], "It works");
    assert items == [items[0]];
  }

  /** Evidence filed under the statement of the only item leaves no issue. */
  lemma SingleItemAnswered(item: DodItem, statement: string)
    requires item.statement == statement && item.dodId != statement
    ensures Validator.DodIssuesOf([item], [Validator.DodResult(statement, Validator.Passed, 1, None)]) == []
  {
    var items, results := [item], [Validator.DodResult(statement, Validator.Passed, 1, None)];
    assert Validator.ById(items[..0], statement) == None;
    assert Validator.ById(items, statement) == None && Validator.ByStatement(items, statement) == Some(item);
    assert results[0] in results && Validator.Answered(items, results, item.dodId);
    Validator.NoDodIssuesIff(items, results);
  }

  // ----- a task without declared checks

  const UNCHECKED := TaskOf(InProgress, UNCHECKED_CONTRACT).(owner := Some(1), claimedAt := Some(0))

  lemma UncheckedIsAcceptable(a: Actor, handler: Handler)
    requires a.id == 1 && Capable(a)
    ensures Acceptable(UNCHECKED, a, EvidencedSubmission(handler)) && !Validator.HasChecks(UNCHECKED.contract)
  {
    OneItem(UNCHECKED.contract, handler);
    Validator.ValidIff(UNCHECKED.contract, EvidencedSubmission(handler));
    Validator.AcceptedReport(UNCHECKED.contract, EvidencedSubmission(handler));
    ShippedPolicyValidates(UNCHECKED);
  }

  lemma ShippedPolicyValidates(t: Task)
    requires t.state == InProgress && t.policy == CODING_TASK_POLICY
    requires t.contract.tier <= CODING_TASK_POLICY.autonomyTier
    ensures SubmittedState(t, None) == Ok(Validated)
  {
  }

  /** With evidence for its only item the task is accepted and becomes validated, and then no one can approve it. */
  lemma UncheckedIsStuck(setup: Setup, a: Actor, handler: Handler, runId: int, b: Actor)
    requires a.id == 1 && Capable(a)
    ensures var submitted := Step(setup, Lone(UNCHECKED), Event(1, Submit(a, EvidencedSubmission(handler), runId)));
            && 1 in submitted.tasks && submitted.tasks[1].state == Validated
            && Step(setup, submitted, Event(1, Approve(b))).tasks == submitted.tasks
  {
    UncheckedIsAcceptable(a, handler);
    UncheckedGetsStuck(setup, Lone(UNCHECKED), 1, a, EvidencedSubmission(handler), runId, b);
  }

  const ONE_CHECKED := Summarize([ChecklistItem("It works", Checked, "")])

  lemma OneCheckedPasses()
    ensures Sturdy(ONE_CHECKED) && AllChecked(ONE_CHECKED)
  {
    assert !Texts.Blank("It works");
  }

  /** Until someone stores a run row with a passing report for it: then the same approval succeeds. */
  lemma StoredRunFreesUnchecked(setup: Setup, a: Actor, handler: Handler, runId: int, c: Actor, otherId: int,
                                status: TaskState, b: Actor)
    requires a.id == 1 && Capable(a) && Holds(c, RunTests) && otherId != runId && Holds(b, UpdateTask)
    ensures var e := Event(1, Submit(a, EvidencedSubmission(handler), runId));
            OpensByStoredRun(setup, Step(setup, Lone(UNCHECKED), e), 1, c, otherId, status, ONE_CHECKED, b)
  {
    UncheckedIsAcceptable(a, handler);
    OneCheckedPasses();
    var _ := StoredRunFrees(setup, Lone(UNCHECKED), 1, a, EvidencedSubmission(handler), runId, c, otherId, status,
                            ONE_CHECKED, b);
  }

  // ----- a board that drains

  const CHECKING: Handler := (d: Definition) => Some((Checked, ""))

  lemma ProofOfWork(state: TaskState)
    ensures Workable(TaskOf(state, CHECKED_CONTRACT), EvidencedSubmission(CHECKING))
  {
    CheckedSubmissionIsValid(CHECKED_CONTRACT, EvidencedSubmission(CHECKING));
    CodingTasksHaveAnOpenRoad(1);
  }

  lemma CheckedSubmissionIsValid(c: Contract, s: Validator.Submission)
    requires c == CHECKED_CONTRACT && s == EvidencedSubmission(CHECKING)
    ensures Validator.HasChecks(c) && Validator.IsValid(Validator.Validate(c, s))
  {
    EveryItemChecked(c);
    OneItem(c, CHECKING);
    Validator.ValidIff(c, s);
  }

  lemma EveryItemChecked(c: Contract)
    requires c == CHECKED_CONTRACT
    ensures DodRun(c, CHECKING).Some? && EveryChecked(DodRun(c, CHECKING).value.checklist)
  {
    var results := [CheckResult("It works", Checked, "")];
    OneItem(c, CHECKING);
    DeclaredCheckPasses();
    assert RunChecks(RawChecks(c), CHECKING).value == results;
    assert forall s :: s in Statements(ResolveItems(c)) ==> Named(results, s);
    AllCheckedIff(c, CHECKING);
  }

  lemma DeclaredCheckPasses()
    ensures RawChecks(CHECKED_CONTRACT) == [CHECK]
    ensures RunChecks([CHECK], CHECKING) == Some([CheckResult("It works", Checked, "")])
    ensures DodRun(CHECKED_CONTRACT, CHECKING).Some?
    ensures Named([CheckResult("It works", Checked, "")], "It works")
  {
    assert NonEmptyText(Text("It works")) == Some("It works");
    assert NonEmptyText(Text("path_exists")) == Some("path_exists");
    assert Coerce(CHECK) == Some(Definition("It works", "path_exists", CHECK.fields));
    assert RunCheck(CHECK, CHECKING) == Some(CheckResult("It works", Checked, ""));
    assert [CHECK][0] == CHECK && RunChecks([CHECK][1..], CHECKING) == Some([]);
    assert [CheckResult("It works", Checked, "")] + [] == [CheckResult("It works", Checked, "")];
  }

  /** A board of two tasks that can be proved done, the first blocked on the second. */
  ghost predicate OneWaitsForOther(w: World, proofs: Proofs) {
    && w.tasks.Keys == {1, 2} == proofs.Keys && w.tasks[1].state == Blocked && w.tasks[2].state == Queued
    && w.runs == [] && Workable(w.tasks[1], proofs[1]) && Workable(w.tasks[2], proofs[2])
  }

  function BoardOf(first: Task, second: Task): World {
    World(map[1 := first, 2 := second], [], [], 0)
  }

  function ProofsOf(s: Validator.Submission): Proofs {
    map[1 := s, 2 := s]
  }

  lemma BoardEntries(w: World, proofs: Proofs, first: Task, second: Task, s: Validator.Submission)
    requires w == BoardOf(first, second) && proofs == ProofsOf(s)
    ensures w.tasks.Keys == {1, 2} == proofs.Keys && w.runs == []
    ensures w.tasks[1] == first && w.tasks[2] == second && proofs[1] == s && proofs[2] == s
  {
  }

  lemma BothWorkable(w: World, proofs: Proofs, first: Task, second: Task, s: Validator.Submission)
    requires w == BoardOf(first, second) && proofs == ProofsOf(s)
    requires Workable(first, s) && Workable(second, s) && first.state == Blocked && second.state == Queued
    ensures OneWaitsForOther(w, proofs)
  {
    BoardEntries(w, proofs, first, second, s);
  }

  /** The concrete coding task makes up such a board. */
  lemma TwoCodingTasks()
    ensures OneWaitsForOther(BoardOf(TaskOf(Blocked, CHECKED_CONTRACT), TaskOf(Queued, CHECKED_CONTRACT)),
                             ProofsOf(EvidencedSubmission(CHECKING)))
  {
    var first, second := TaskOf(Blocked, CHECKED_CONTRACT), TaskOf(Queued, CHECKED_CONTRACT);
    var s := EvidencedSubmission(CHECKING);
    ProofOfWork(Blocked);
    ProofOfWork(Queued);
    BothWorkable(BoardOf(first, second), ProofsOf(s), first, second, s);
  }

  /** Such a board is healthy and its graph has no cycle, so a capable caller drains it without an administrator: in
      two completions, although only one task is open at first. */
  lemma TwoTasksDrain(setup: Setup, w: World, proofs: Proofs, a: Actor) returns (order: seq<Id>)
    requires setup.edges == ONE_EDGE && OneWaitsForOther(w, proofs) && Capable(a)
    ensures Healthy(setup, w, proofs) && QueueOnly(w.tasks) && Acyclic(DepArcs(setup.edges))
    ensures |order| == 2 && order[0] != 1 && Picks(setup, w, order, a, proofs)
    ensures Unfinished(AllWorked(setup, w, order, a, proofs).tasks) == {}
  {
    TwoTasksAreHealthy(setup, w, proofs);
    OneEdgeIsAcyclic();
    order := GraphDrains(setup, w, a, proofs);
    FirstPickIsOpen(setup, w, order, a, proofs);
  }

  lemma TwoTasksAreHealthy(setup: Setup, w: World, proofs: Proofs)
    requires setup.edges == ONE_EDGE && OneWaitsForOther(w, proofs)
    ensures Healthy(setup, w, proofs) && QueueOnly(w.tasks) && |Unfinished(w.tasks)| == 2 && !Open(w.tasks, 1)
  {
    BothOnTheQueue(w.tasks);
    AllOfTwo(w.tasks, proofs);
  }

  lemma AllOfTwo(tasks: Tasks, proofs: Proofs)
    requires tasks.Keys == {1, 2} == proofs.Keys
    requires Workable(tasks[1], proofs[1]) && Workable(tasks[2], proofs[2])
    ensures AllWorkable(tasks, proofs)
  {
  }

  lemma BothOnTheQueue(tasks: Tasks)
    requires tasks.Keys == {1, 2} && tasks[1].state == Blocked && tasks[2].state == Queued
    ensures NoLostWakeup(ONE_EDGE, tasks) && Grounded(ONE_EDGE, tasks)
    ensures QueueOnly(tasks) && |Unfinished(tasks)| == 2 && !Open(tasks, 1)
  {
    BlockedOnOpenIsNotLost(tasks);
    OneEdgeIsGrounded(tasks);
    assert Unfinished(tasks) == {1, 2};
  }

  lemma FirstPickIsOpen(setup: Setup, w: World, order: seq<Id>, a: Actor, proofs: Proofs)
    requires order != [] && Picks(setup, w, order, a, proofs)
    ensures Open(w.tasks, order[0])
  {
  }

  lemma BlockedOnOpenIsNotLost(tasks: Tasks)
    requires 2 in tasks && tasks[2].state != Done
    ensures NoLostWakeup(ONE_EDGE, tasks)
  {
    forall id ensures !Ready(ONE_EDGE, tasks, id) {
      OneEdgeDeps(id);
      if id == 1 { assert 2 in ActiveDeps(ONE_EDGE, 1); }
    }
  }

  lemma OneEdgeIsGrounded(tasks: Tasks)
    requires tasks.Keys == {1, 2} && tasks[2].state != Blocked
    ensures Grounded(ONE_EDGE, tasks)
  {
    OneEdgeDeps(1);
    OneEdgeDeps(2);
  }

  lemma OneEdgeIsAcyclic()
    ensures Acyclic(DepArcs(ONE_EDGE))
  {
    forall x, y | (x, y) in DepArcs(ONE_EDGE) ensures x == 1 && y == 2 {
    }
    ClimbingIsAcyclic(DepArcs(ONE_EDGE), map[1 := 0, 2 := 1]);
  }
}
