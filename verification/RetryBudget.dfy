/** The retry budget that failed validations and reviewer rejections share. */
module RetryBudget {
  import opened Base
  import opened DodReports
  import opened Transitions
  import opened Lifecycle
  import opened LifecycleTheorems
  import Validator

  /** Attempts stay below the maximum, and reach it exactly in the dead letter queue. */
  predicate WithinBudget(t: Task) {
    && t.policy.maxRetries >= 1
    && if t.state == Dlq then t.attempts == t.policy.maxRetries else t.attempts < t.policy.maxRetries
  }

  ghost predicate AllWithinBudget(tasks: Tasks) {
    forall id :: id in tasks ==> WithinBudget(tasks[id])
  }

  /** What every surface reports as remaining is exactly what is left, and nothing is left only in the queue. */
  lemma RemainingIsExact(t: Task)
    requires WithinBudget(t)
    ensures RemainingAttempts(t.attempts, t.policy.maxRetries) == t.policy.maxRetries - t.attempts
    ensures RemainingAttempts(t.attempts, t.policy.maxRetries) == 0 <==> t.state == Dlq
  {
  }

  /** The change one audit action makes to the failures counted since the last reset. */
  function NextTally(n: nat, entry: Entry, id: Id): nat {
    if entry.task != id then n
    else if entry.action == JobReset then 0
    else if entry.action == JobFailed || entry.action == JobRejected then n + 1
    else n
  }

  function Tally(n: nat, audit: seq<Entry>, id: Id): nat
    decreases audit
  {
    if audit == [] then n else Tally(NextTally(n, audit[0], id), audit[1..], id)
  }

  /** Failed validations and rejections of a task since it was last reset, as the audit log tells. */
  function FailuresSinceReset(audit: seq<Entry>, id: Id): nat { Tally(0, audit, id) }

  lemma {:induction false} TallyConcat(n: nat, a: seq<Entry>, b: seq<Entry>, id: Id)
    ensures Tally(n, a + b, id) == Tally(Tally(n, a, id), b, id)
    decreases a
  {
    if a == [] {
      assert a + b == b;
    } else {
      TallyConcat(NextTally(n, a[0], id), a[1..], b, id);
      assert (a + b)[1..] == a[1..] + b;
    }
  }

  lemma {:induction false} TallyUnmoved(n: nat, audit: seq<Entry>, id: Id)
    requires forall i :: 0 <= i < |audit| ==> audit[i].task != id || audit[i].action == JobUnblocked
    ensures Tally(n, audit, id) == n
    decreases audit
  {
    if audit == [] {
    } else {
      assert forall i :: 0 <= i < |audit[1..]| ==> audit[1..][i] == audit[i + 1];
      TallyUnmoved(n, audit[1..], id);
    }
  }

  ghost predicate KeepsBudget(t: Task, d: Decision, id: Id) {
    d.Move? ==> WithinBudget(d.task) && Tally(t.attempts, Repeated(id, d.actions), id) == d.task.attempts
  }

  /** A submission either counts one failure or is accepted without counting any. */
  ghost predicate CountsOneFailureOrNone(t: Task, d: Decision) {
    d.Move? ==>
      || (d.task == Failed(t) && d.actions == FailureActions(Failed(t)))
      || (d.task.attempts == t.attempts && d.task.policy == t.policy && d.task.state in [Validated, Done]
          && d.actions == [JobSubmitted] + (if t.policy.hitlRequired then [] else [JobApproved(false)]))
  }

  lemma SubmitCounts(id: Id, t: Task, actor: Actor, submission: Validator.Submission, runId: int, now: int)
    ensures var d := DecideSubmit(id, t, actor, submission, runId, now);
            CountsOneFailureOrNone(t, d) && (d.Move? ==> t.state == InProgress)
  {
    var v := Validator.Validate(t.contract, submission);
    var d := DecideSubmit(id, t, actor, submission, runId, now);
    if d.Move? {
      if Validator.IsValid(v) {
        SubmittedStates(t, v.report);
      } else {
        assert d.task == Failed(t);
      }
    }
  }

  lemma SubmitWithinBudget(t: Task, d: Decision, id: Id)
    requires WithinBudget(t) && CountsOneFailureOrNone(t, d) && (d.Move? ==> t.state == InProgress)
    ensures KeepsBudget(t, d, id)
  {
    if d.Move? { TallyShort(t.attempts, Repeated(id, d.actions), id); }
  }

  lemma RejectWithinBudget(id: Id, t: Task, actor: Actor)
    requires WithinBudget(t)
    ensures KeepsBudget(t, DecideReject(t, actor), id)
  {
    var d := DecideReject(t, actor);
    if d.Move? { TallyShort(t.attempts, Repeated(id, d.actions), id); }
  }

  /** One request keeps its task within budget and counts in the audit log what it counts in the row. */
  lemma MoveWithinBudget(t: Task, report: Option<Report>, now: int, e: Event)
    requires WithinBudget(t)
    requires e.op.ClaimNext? ==> KeepsDeadLetters(e.op.states, e.op.target)
    ensures KeepsBudget(t, Decide(t, report, now, e), e.id)
  {
    match e.op
    case Submit(actor, submission, runId) =>
      SubmitCounts(e.id, t, actor, submission, runId, now);
      SubmitWithinBudget(t, DecideSubmit(e.id, t, actor, submission, runId, now), e.id);
    case Reject(actor) => RejectWithinBudget(e.id, t, actor);
    case _ =>
      var d := Decide(t, report, now, e);
      if d.Move? { TallyShort(t.attempts, Repeated(e.id, d.actions), e.id); }
  }

  lemma TallyShort(n: nat, audit: seq<Entry>, id: Id)
    requires |audit| <= 2
    ensures Tally(n, audit, id)
         == if |audit| == 0 then n
            else if |audit| == 1 then NextTally(n, audit[0], id)
            else NextTally(NextTally(n, audit[0], id), audit[1], id)
  {
    if |audit| >= 1 {
      var m := NextTally(n, audit[0], id);
      assert Tally(n, audit, id) == Tally(m, audit[1..], id);
      if |audit| == 2 {
        assert Tally(m, audit[1..], id) == Tally(NextTally(m, audit[1..][0], id), audit[1..][1..], id);
      }
    }
  }

  /** Every task within budget, and every row agreeing with the audit log. */
  ghost predicate Accounted(w: World) {
    && AllWithinBudget(w.tasks)
    && forall id :: id in w.tasks ==> FailuresSinceReset(w.audit, id) == w.tasks[id].attempts
  }

  lemma BudgetStep(setup: Setup, w: World, e: Event)
    requires Accounted(w)
    requires e.op.ClaimNext? ==> KeepsDeadLetters(e.op.states, e.op.target)
    ensures Accounted(Step(setup, w, e))
  {
    var d := DecisionFor(setup, Ticked(w), e);
    if d.Move? {
      var after := Step(setup, w, e);
      MoveWithinBudget(w.tasks[e.id], LatestReport(setup, w.runs, e.id), Ticked(w).clock, e);
      var tasks := w.tasks[e.id := d.task];
      var released := if d.finishes then Released(setup.edges, tasks, Dependents(setup.edges, e.id)) else [];
      var unblocked, own := Entries(released, JobUnblocked), Repeated(e.id, d.actions);
      OwnTask(setup, w, e);
      forall id | id in after.tasks
        ensures WithinBudget(after.tasks[id]) && FailuresSinceReset(after.audit, id) == after.tasks[id].attempts
      {
        TallyConcat(0, w.audit + unblocked, own, id);
        TallyConcat(0, w.audit, unblocked, id);
        TallyUnmoved(FailuresSinceReset(w.audit, id), unblocked, id);
        if id != e.id {
          OthersOnlyReleased(setup, w, e, id);
          TallyUnmoved(FailuresSinceReset(w.audit, id), own, id);
        }
      }
    }
  }

  /** Over every orderly run the budget holds, and between two resets a task fails validation or is rejected
      at most as often as its policy allows. */
  lemma {:induction false} BudgetHolds(setup: Setup, w: World, events: seq<Event>)
    requires Accounted(w) && OrderlyRun(events)
    ensures Accounted(Perform(setup, w, events))
    ensures var after := Perform(setup, w, events);
            forall id :: id in after.tasks ==> FailuresSinceReset(after.audit, id) <= after.tasks[id].policy.maxRetries
    decreases events
  {
    if events == [] {
    } else {
      assert Orderly(events[0]);
      BudgetStep(setup, w, events[0]);
      assert forall i :: 0 <= i < |events[1..]| ==> events[1..][i] == events[i + 1];
      BudgetHolds(setup, Step(setup, w, events[0]), events[1..]);
    }
  }

  /** A task leaves the dead letter queue only by a reset, or by a claim that names the queue. */
  lemma OnlyResetLeavesDeadLetters(setup: Setup, w: World, e: Event, id: Id)
    requires id in w.tasks && w.tasks[id].state == Dlq && Step(setup, w, e).tasks[id].state != Dlq
    ensures e.id == id && (e.op.Reset? || (e.op.ClaimNext? && Dlq in ClaimStates(e.op.states)))
  {
    if e.id == id { OwnTask(setup, w, e); } else { OthersOnlyReleased(setup, w, e, id); }
  }

  /** Exactly which claim parameters keep every task within its budget. */
  lemma ClaimKeepsBudgetIff(states: seq<TaskState>, target: TaskState, actor: Actor, setup: Setup)
    ensures KeepsDeadLetters(states, target)
       <==> forall w: World, id: Id :: AllWithinBudget(w.tasks) ==>
              AllWithinBudget(Step(setup, w, Event(id, ClaimNext(states, target, actor))).tasks)
  {
    if KeepsDeadLetters(states, target) {
      forall w: World, id: Id | AllWithinBudget(w.tasks)
        ensures AllWithinBudget(Step(setup, w, Event(id, ClaimNext(states, target, actor))).tasks)
      {
        var e := Event(id, ClaimNext(states, target, actor));
        var after := Step(setup, w, e).tasks;
        forall k | k in after ensures WithinBudget(after[k]) {
          if k == id { OwnTask(setup, w, e); } else { OthersOnlyReleased(setup, w, e, k); }
        }
      }
    } else {
      var s :| s in ClaimStates(states) && (s == Dlq <==> target != Dlq);
      var t := Bare(s).(attempts := if s == Dlq then 3 else 0);
      var e := Event(1, ClaimNext(states, target, actor));
      assert AllWithinBudget(Lone(t).tasks);
      OwnTask(setup, Lone(t), e);
      assert !WithinBudget(Step(setup, Lone(t), e).tasks[1]);
    }
  }
}
