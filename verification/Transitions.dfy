/** The transition engine: one requested state change judged against policy and guards
    (apps/api/src/agenticqueue_api/transitions.py and task_retry.py). */
module Transitions {
  import opened Base
  import opened Texts
  import opened DodReports

  /** A stored task state. `Todo` is the text "todo" that a released claim carries; it and `Unlisted` are not
      members of the state enumeration. */
  datatype TaskState =
    | Queued | Claimed | InProgress | Submitted | Validated | Done | Rejected | Dlq | Blocked | Parked
    | NeedsGhostTriage | Todo | Unlisted(name: string)

  predicate Listed(state: TaskState) { !state.Todo? && !state.Unlisted? }

  datatype Capability = ReadRepo | WriteBranch | RunTests | UpdateTask | CreateArtifact | Admin
    | OtherCapability(name: string)

  datatype Policy = Policy(
    hitlRequired: bool, autonomyTier: int, transitions: map<TaskState, seq<TaskState>>,
    required: map<TaskState, seq<Capability>>, maxRetries: int, blockedHours: int, escalationTarget: TaskState)

  /** The policy shipped for coding tasks (task_types/coding-task.policy.yaml). */
  const CODING_TASK_POLICY := Policy(
    true, 3,
    map[Queued := [Claimed, Parked], Claimed := [InProgress, Blocked, Parked],
        InProgress := [Submitted, Blocked, Parked],
        Submitted := [Validated, Rejected, Blocked, Parked], Validated := [Done, Rejected, Blocked, Parked],
        Rejected := [Queued, Blocked, Parked], Blocked := [Queued, NeedsGhostTriage, Parked], Parked := [Queued]],
    map[Claimed := [ReadRepo], InProgress := [WriteBranch], Submitted := [RunTests], Done := [UpdateTask]],
    3, 24, NeedsGhostTriage)

  datatype Guard = CapabilityGuard | PolicyGuard | DodGuard

  datatype Escalation = MaxRetriesExceeded | BlockedTooLong

  datatype Transition = Transition(
    from: TaskState, requested: TaskState, state: TaskState, attempts: nat,
    blockedBy: Option<Guard>, escalation: Option<Escalation>)

  /** The two ways a request is not even judged. */
  datatype Invalid = UnknownState | NotAllowed

  /** What a caller hands over besides the states. */
  datatype Request = Request(
    held: set<Capability>, attempts: nat, report: Option<Report>, blockedFor: Option<real>, humanApproved: bool,
    tier: int)

  function Allowed(policy: Policy, from: TaskState): seq<TaskState> {
    if from in policy.transitions then policy.transitions[from] else []
  }

  function Required(policy: Policy, target: TaskState): seq<Capability> {
    if target in policy.required then policy.required[target] else []
  }

  predicate AllChecked(report: Report) {
    forall i :: 0 <= i < |report.checklist| ==> report.checklist[i].state == Checked
  }

  function ApplyTransition(policy: Policy, from: TaskState, target: TaskState, r: Request)
    : Result<Transition, Invalid>
  {
    if !Listed(from) || !Listed(target) then Err(UnknownState)
    else if target !in Allowed(policy, from) then Err(NotAllowed)
    else if exists c :: c in Required(policy, target) && c !in r.held then Ok(Stopped(from, target, r, CapabilityGuard))
    else if r.tier > policy.autonomyTier then Ok(Stopped(from, target, r, PolicyGuard))
    else if target == Done && policy.hitlRequired && !r.humanApproved then Ok(Stopped(from, target, r, PolicyGuard))
    else if target == Done && (r.report.None? || !AllChecked(r.report.value)) then
      Ok(Stopped(from, target, r, DodGuard))
    else if from == Blocked && target == policy.escalationTarget
         && (r.blockedFor.None? || r.blockedFor.value < policy.blockedHours as real) then
      Ok(Stopped(from, target, r, PolicyGuard))
    else
      var requeued := from == Rejected && target == Queued;
      var attempts := if requeued then r.attempts + 1 else r.attempts;
      var escalation :=
        if from == Blocked && target == policy.escalationTarget then Some(BlockedTooLong)
        else if requeued && attempts >= policy.maxRetries then Some(MaxRetriesExceeded)
        else None;
      Ok(Transition(from, target, target, attempts, None, escalation))
  }

  function Stopped(from: TaskState, target: TaskState, r: Request, guard: Guard): Transition {
    Transition(from, target, from, r.attempts, Some(guard), None)
  }

  predicate Passes(policy: Policy, from: TaskState, target: TaskState, r: Request) {
    var t := ApplyTransition(policy, from, target, r);
    t.Ok? && t.value.blockedBy.None?
  }

  /** Everything but the DoD guard is in favour of finishing. */
  predicate MayFinish(policy: Policy, from: TaskState, r: Request) {
    && Listed(from) && Done in Allowed(policy, from)
    && (forall c :: c in Required(policy, Done) ==> c in r.held)
    && r.tier <= policy.autonomyTier
    && (policy.hitlRequired ==> r.humanApproved)
    && !(from == Blocked && policy.escalationTarget == Done
         && (r.blockedFor.None? || r.blockedFor.value < policy.blockedHours as real))
  }

  /** The capabilities that the target asks for are at hand. */
  predicate Equipped(policy: Policy, target: TaskState, r: Request) {
    target in policy.required ==> forall c :: c in policy.required[target] ==> c in r.held
  }

  /** Leaving blocked for the escalation target takes the full waiting time. */
  predicate WaitedEnough(policy: Policy, from: TaskState, target: TaskState, r: Request) {
    from == Blocked && target == policy.escalationTarget ==>
      r.blockedFor.Some? && r.blockedFor.value >= policy.blockedHours as real
  }

  predicate Evidenced(target: TaskState, r: Request) {
    target == Done ==> r.report.Some? && forall item :: item in r.report.value.checklist ==> item.state == Checked
  }

  predicate Trusted(policy: Policy, target: TaskState, r: Request) {
    r.tier <= policy.autonomyTier && (target == Done && policy.hitlRequired ==> r.humanApproved)
  }

  lemma EvidencedIff(r: Request)
    ensures Evidenced(Done, r) <==> r.report.Some? && AllChecked(r.report.value)
  {
    if Evidenced(Done, r) {
      var checklist := r.report.value.checklist;
      assert forall i :: 0 <= i < |checklist| ==> checklist[i] in checklist;
    }
  }

  lemma EquippedIff(policy: Policy, target: TaskState, r: Request)
    ensures Equipped(policy, target, r) <==> !exists c :: c in Required(policy, target) && c !in r.held
  {
  }

  /** The guard reported: a missing capability first, then tier and human approval, then the report, and the waiting
      time last. */
  lemma FirstGuard(policy: Policy, from: TaskState, target: TaskState, r: Request)
    requires ApplyTransition(policy, from, target, r).Ok?
    ensures ApplyTransition(policy, from, target, r).value.blockedBy
         == if !Equipped(policy, target, r) then Some(CapabilityGuard)
            else if !Trusted(policy, target, r) then Some(PolicyGuard)
            else if !Evidenced(target, r) then Some(DodGuard)
            else if !WaitedEnough(policy, from, target, r) then Some(PolicyGuard)
            else None
  {
    EquippedIff(policy, target, r);
    EvidencedIff(r);
  }

  /** Which requests are not judged at all: between states that are no task states, or that the policy does not list. */
  lemma UnjudgedIff(policy: Policy, from: TaskState, target: TaskState, r: Request)
    ensures ApplyTransition(policy, from, target, r).Ok?
       <==> Listed(from) && Listed(target) && from in policy.transitions && target in policy.transitions[from]
    ensures ApplyTransition(policy, from, target, r) == Err(UnknownState) <==> !Listed(from) || !Listed(target)
  {
  }

  /** Exactly which changes pass, between any two states. */
  lemma PassesIff(policy: Policy, from: TaskState, target: TaskState, r: Request)
    ensures Passes(policy, from, target, r)
       <==> && Listed(from) && Listed(target) && from in policy.transitions && target in policy.transitions[from]
            && Equipped(policy, target, r) && Trusted(policy, target, r) && Evidenced(target, r)
            && WaitedEnough(policy, from, target, r)
  {
    UnjudgedIff(policy, from, target, r);
    if ApplyTransition(policy, from, target, r).Ok? { FirstGuard(policy, from, target, r); }
  }

  /** A passing change escalates in two cases only: a task leaves blocked for the escalation target, or a requeue after
      rejection uses up the retries. */
  lemma EscalatesIff(policy: Policy, from: TaskState, target: TaskState, r: Request)
    requires Passes(policy, from, target, r)
    ensures var escalation := ApplyTransition(policy, from, target, r).value.escalation;
            && (escalation == Some(BlockedTooLong) <==> from == Blocked && target == policy.escalationTarget)
            && (escalation == Some(MaxRetriesExceeded)
                <==> from == Rejected && target == Queued && r.attempts + 1 >= policy.maxRetries)
  {
  }

  /** A task is let into done exactly when nothing else stands against it, a human approved it where policy
      asks for one, and a report without an unchecked item is at hand. */
  lemma DonePassesIff(policy: Policy, from: TaskState, r: Request)
    ensures Passes(policy, from, Done, r)
       <==> MayFinish(policy, from, r) && r.report.Some? && AllChecked(r.report.value)
  {
  }

  /** A guard that fires keeps the state and the attempt count; a passing request takes the requested state,
      and only a requeue after rejection counts an attempt. */
  lemma TransitionEffect(policy: Policy, from: TaskState, target: TaskState, r: Request)
    requires ApplyTransition(policy, from, target, r).Ok?
    ensures var t := ApplyTransition(policy, from, target, r).value;
            if t.blockedBy.Some? then t.state == from && t.attempts == r.attempts && t.escalation.None?
            else t.state == target && t.attempts == r.attempts + (if from == Rejected && target == Queued then 1 else 0)
  {
  }

  // ----- the retry budget of a policy

  /** The per-task-type override in a policy body, as stored. */
  function ResolveMaxAttempts(overrides: Json, taskType: string, default: int): int {
    if !overrides.Object? then default
    else
      match Field(overrides.fields, taskType)
      case Integer(k) => if k >= 1 then k else default
      case Text(text) =>
        var digits := Strip(text);
        if IsDigits(digits) && Numeral(digits) >= 1 then Numeral(digits) else default
      case _ => default
  }

  /** The budget is at least one attempt whenever the default is, and resolving an already resolved budget
      against the same body changes nothing: every surface reports the same maximum. */
  lemma ResolvedBudget(overrides: Json, taskType: string, default: int)
    ensures default >= 1 ==> ResolveMaxAttempts(overrides, taskType, default) >= 1
    ensures var resolved := ResolveMaxAttempts(overrides, taskType, default);
            ResolveMaxAttempts(overrides, taskType, resolved) == resolved
  {
  }

  /** An override of at least one attempt is what resolves, written as a number or as digits with white space around. */
  lemma OverrideResolves(fields: map<string, Json>, taskType: string, default: int, k: nat, before: string,
                         after: string)
    requires k >= 1
    requires forall i :: 0 <= i < |before| ==> IsSpace(before[i])
    requires forall i :: 0 <= i < |after| ==> IsSpace(after[i])
    ensures ResolveMaxAttempts(Object(fields[taskType := Integer(k)]), taskType, default) == k
    ensures ResolveMaxAttempts(Object(fields[taskType := Text(before + Decimal(k) + after)]), taskType, default) == k
  {
    NumeralOfDecimal(k);
    var digits := Decimal(k);
    assert '0' <= digits[0] <= '9' && '0' <= digits[|digits| - 1] <= '9';
    StripPadded(before, digits, after);
  }

  /** Anything else leaves the default: no overrides, none for the type, one below 1, or one that is no number. */
  lemma OnlyOverridesResolve(overrides: Json, taskType: string, default: int)
    ensures var resolved := ResolveMaxAttempts(overrides, taskType, default);
            resolved != default ==>
              && resolved >= 1 && overrides.Object? && taskType in overrides.fields
              && var value := overrides.fields[taskType];
                 || value == Integer(resolved)
                 || (value.Text? && IsDigits(Strip(value.text)) && Numeral(Strip(value.text)) == resolved)
  {
  }

  function RemainingAttempts(attempts: int, maxAttempts: int): int {
    if maxAttempts - attempts > 0 then maxAttempts - attempts else 0
  }
}
