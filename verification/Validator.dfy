/** Submission validation (apps/api/src/agenticqueue_api/validator.py). */
module Validator {
  import opened Base
  import opened Texts
  import opened DodReports
  import opened Dod

  datatype Status = Passed | Failed | Blocked | NotApplicable

  /** One submitted result: its reference, status, number of evidence pointers and failure reason. */
  datatype DodResult = DodResult(dodId: string, status: Status, evidence: nat, reason: Option<string>)

  /** A payload as the schema layer leaves it. A malformed one comes with its first issue and the number of
      further ones; a well-formed one with the number of JSON schema issues of its output. */
  datatype Submission =
    | Malformed(furtherIssues: nat)
    | Wellformed(retrySignal: bool, schemaIssues: nat, learnings: nat, dodResults: seq<DodResult>, handler: Handler)

  datatype Issue =
    | Payload | Schema | LearningsRequired
    | UnknownId(index: nat) | EvidenceRequired(index: nat) | ReasonRequired(index: nat) | ResultMissing(dodId: string)
    | ChecksInvalid | ItemNotChecked(index: nat)

  datatype Validation = Validation(errors: seq<Issue>, report: Option<Report>)

  predicate IsValid(v: Validation) { v.errors == [] }

  // ----- submitted results

  /** The last item with this id, as a dictionary built from the list keeps it. */
  function ById(items: seq<DodItem>, id: string): Option<DodItem> {
    if items == [] then None
    else if items[|items| - 1].dodId == id then Some(items[|items| - 1])
    else ById(items[..|items| - 1], id)
  }

  function ByStatement(items: seq<DodItem>, text: string): Option<DodItem> {
    if items == [] then None
    else if items[|items| - 1].statement == text then Some(items[|items| - 1])
    else ByStatement(items[..|items| - 1], text)
  }

  /** A result refers to an item by its id or, failing that, by its statement. */
  function Match(items: seq<DodItem>, id: string): Option<DodItem> {
    if ById(items, id).Some? then ById(items, id) else ByStatement(items, id)
  }

  function ResultIssues(items: seq<DodItem>, result: DodResult, index: nat): seq<Issue> {
    if Match(items, result.dodId).None? then [UnknownId(index)]
    else if result.status == Passed then (if result.evidence == 0 then [EvidenceRequired(index)] else [])
    else if result.reason.None? || Blank(result.reason.value) then [ReasonRequired(index)]
    else []
  }

  function AllResultIssues(items: seq<DodItem>, results: seq<DodResult>): seq<Issue> {
    if results == [] then []
    else
      var last := |results| - 1;
      AllResultIssues(items, results[..last]) + ResultIssues(items, results[last], last)
  }

  /** The ids of the items that results refer to. */
  function SeenIds(items: seq<DodItem>, results: seq<DodResult>): set<string> {
    if results == [] then {}
    else
      var last := |results| - 1;
      var matched := Match(items, results[last].dodId);
      SeenIds(items, results[..last]) + if matched.Some? then {matched.value.dodId} else {}
  }

  predicate UnknownSeen(items: seq<DodItem>, results: seq<DodResult>) {
    if results == [] then false
    else
      var last := |results| - 1;
      UnknownSeen(items, results[..last]) || Match(items, results[last].dodId).None?
  }

  function Missing(items: seq<DodItem>, seen: set<string>): seq<Issue> {
    if items == [] then []
    else (if items[0].dodId in seen then [] else [ResultMissing(items[0].dodId)]) + Missing(items[1..], seen)
  }

  function DodIssuesOf(items: seq<DodItem>, results: seq<DodResult>): seq<Issue> {
    if items == [] then []
    else
      AllResultIssues(items, results)
        + if UnknownSeen(items, results) then [] else Missing(items, SeenIds(items, results))
  }

  method SubmittedIssues(items: seq<DodItem>, results: seq<DodResult>)
    returns (issues: seq<Issue>, seen: set<string>, unknownSeen: bool)
    ensures issues == AllResultIssues(items, results)
    ensures seen == SeenIds(items, results) && unknownSeen == UnknownSeen(items, results)
  {
    issues, seen, unknownSeen := [], {}, false;
    for i := 0 to |results|
      invariant issues == AllResultIssues(items, results[..i])
      invariant seen == SeenIds(items, results[..i]) && unknownSeen == UnknownSeen(items, results[..i])
    {
      assert results[..i + 1][..i] == results[..i];
      issues := issues + ResultIssues(items, results[i], i);
      var matched := Match(items, results[i].dodId);
      if matched.None? {
        unknownSeen := true;
      } else {
        seen := seen + {matched.value.dodId};
      }
    }
    assert results[..|results|] == results;
  }

  method MissingIssues(items: seq<DodItem>, seen: set<string>) returns (missing: seq<Issue>)
    ensures missing == Missing(items, seen)
  {
    missing := [];
    assert items[0..] == items;
    for i := 0 to |items|
      invariant Missing(items, seen) == missing + Missing(items[i..], seen)
    {
      assert items[i..][1..] == items[i + 1..];
      if items[i].dodId !in seen {
        missing := missing + [ResultMissing(items[i].dodId)];
      }
    }
  }

  method DodIssues(items: seq<DodItem>, results: seq<DodResult>) returns (issues: seq<Issue>)
    ensures issues == DodIssuesOf(items, results)
  {
    if items == [] {
      return [];
    }
    var seen, unknownSeen;
    issues, seen, unknownSeen := SubmittedIssues(items, results);
    var missing: seq<Issue> := [];
    if !unknownSeen {
      missing := MissingIssues(items, seen);
    }
    issues := issues + missing;
  }

  /** A result is in order when it refers to a known item and proves a pass or explains anything else. */
  predicate InOrder(items: seq<DodItem>, r: DodResult) {
    && Match(items, r.dodId).Some?
    && if r.status == Passed then r.evidence > 0 else r.reason.Some? && !Blank(r.reason.value)
  }

  lemma {:induction false} NoResultIssuesIff(items: seq<DodItem>, results: seq<DodResult>)
    ensures AllResultIssues(items, results) == [] <==> forall r :: r in results ==> InOrder(items, r)
  {
    if results == [] {
    } else {
      var init, last := results[..|results| - 1], results[|results| - 1];
      NoResultIssuesIff(items, init);
      NoIssueIff(items, last, |init|);
      assert results == init + [last];
    }
  }

  lemma NoIssueIff(items: seq<DodItem>, r: DodResult, index: nat)
    ensures ResultIssues(items, r, index) == [] <==> InOrder(items, r)
  {
  }

  lemma {:induction false} NothingMissingIff(items: seq<DodItem>, seen: set<string>)
    ensures Missing(items, seen) == [] <==> forall item :: item in items ==> item.dodId in seen
  {
    if items == [] {
    } else {
      NothingMissingIff(items[1..], seen);
      assert items == [items[0]] + items[1..];
    }
  }

  lemma {:induction false} SeenMeaning(items: seq<DodItem>, results: seq<DodResult>)
    ensures forall id :: id in SeenIds(items, results)
              <==> exists r :: r in results && Match(items, r.dodId).Some? && Match(items, r.dodId).value.dodId == id
    ensures UnknownSeen(items, results) <==> exists r :: r in results && Match(items, r.dodId).None?
  {
    if results == [] {
    } else {
      var init, last := results[..|results| - 1], results[|results| - 1];
      SeenMeaning(items, init);
      assert results == init + [last];
      assert last in results;
    }
  }

  /** Some result refers to the item of this id. */
  ghost predicate Answered(items: seq<DodItem>, results: seq<DodResult>, id: string) {
    exists r :: r in results && Match(items, r.dodId).Some? && Match(items, r.dodId).value.dodId == id
  }

  /** The results raise no issue exactly when each is in order and every item of the contract has one. */
  lemma NoDodIssuesIff(items: seq<DodItem>, results: seq<DodResult>)
    ensures DodIssuesOf(items, results) == []
       <==> items == [] || ((forall r :: r in results ==> InOrder(items, r))
                            && forall item :: item in items ==> Answered(items, results, item.dodId))
  {
    NoResultIssuesIff(items, results);
    SeenMeaning(items, results);
    NothingMissingIff(items, SeenIds(items, results));
  }

  // ----- which issues are raised

  lemma {:induction false} LastById(items: seq<DodItem>, id: string) returns (place: nat)
    ensures match ById(items, id)
            case None => forall item :: item in items ==> item.dodId != id
            case Some(item) =>
              && place < |items| && items[place] == item && item.dodId == id
              && forall j :: place < j < |items| ==> items[j].dodId != id
  {
    if items == [] {
      place := 0;
    } else {
      var init, last := items[..|items| - 1], items[|items| - 1];
      place := LastById(init, id);
      assert items == init + [last];
      if last.dodId == id { place := |init|; }
    }
  }

  lemma {:induction false} LastByStatement(items: seq<DodItem>, text: string) returns (place: nat)
    ensures match ByStatement(items, text)
            case None => forall item :: item in items ==> item.statement != text
            case Some(item) =>
              && place < |items| && items[place] == item && item.statement == text
              && forall j :: place < j < |items| ==> items[j].statement != text
  {
    if items == [] {
      place := 0;
    } else {
      var init, last := items[..|items| - 1], items[|items| - 1];
      place := LastByStatement(init, text);
      assert items == init + [last];
      if last.statement == text { place := |init|; }
    }
  }

  /** A reference finds the last item with that id; only where no item has it, the last with that statement. */
  lemma MatchFinds(items: seq<DodItem>, id: string) returns (place: nat)
    ensures match Match(items, id)
            case None => forall item :: item in items ==> item.dodId != id && item.statement != id
            case Some(item) =>
              && place < |items| && items[place] == item
              && if exists other :: other in items && other.dodId == id then
                   item.dodId == id && forall j :: place < j < |items| ==> items[j].dodId != id
                 else item.statement == id && forall j :: place < j < |items| ==> items[j].statement != id
  {
    place := LastById(items, id);
    if ById(items, id) == None {
      place := LastByStatement(items, id);
    } else {
      assert items[place] in items;
    }
  }

  ghost predicate RaisesFor(items: seq<DodItem>, results: seq<DodResult>, issue: Issue) {
    match issue
    case UnknownId(i) => i < |results| && Match(items, results[i].dodId) == None
    case EvidenceRequired(i) =>
      i < |results| && Match(items, results[i].dodId).Some? && results[i].status == Passed && results[i].evidence == 0
    case ReasonRequired(i) =>
      && i < |results| && Match(items, results[i].dodId).Some? && results[i].status != Passed
      && (results[i].reason == None || Blank(results[i].reason.value))
    case _ => false
  }

  lemma {:induction false} ResultIssuesAre(items: seq<DodItem>, results: seq<DodResult>, issue: Issue)
    ensures issue in AllResultIssues(items, results) <==> RaisesFor(items, results, issue)
    decreases |results|
  {
    if results == [] {
    } else {
      var last := |results| - 1;
      ResultIssuesAre(items, results[..last], issue);
      assert issue in ResultIssues(items, results[last], last)
        <==> RaisesFor(items, results, issue) && !RaisesFor(items, results[..last], issue);
    }
  }

  lemma {:induction false} MissingAre(items: seq<DodItem>, seen: set<string>, issue: Issue)
    ensures issue in Missing(items, seen)
       <==> issue.ResultMissing? && issue.dodId !in seen && exists item :: item in items && item.dodId == issue.dodId
  {
    if items == [] {
    } else {
      MissingAre(items[1..], seen, issue);
      assert items == [items[0]] + items[1..];
      assert forall item :: item in items <==> item == items[0] || item in items[1..];
    }
  }

  /** Exactly which issues the results of a contract with items raise: per result an unknown reference, a pass without
      evidence or anything else without a reason; and, once all references are known, each item without a result. */
  lemma DodIssuesAre(items: seq<DodItem>, results: seq<DodResult>, issue: Issue)
    requires items != []
    ensures issue in DodIssuesOf(items, results)
       <==> || RaisesFor(items, results, issue)
            || (issue.ResultMissing? && (forall r :: r in results ==> Match(items, r.dodId).Some?)
                && (exists item :: item in items && item.dodId == issue.dodId)
                && !Answered(items, results, issue.dodId))
  {
    ResultIssuesAre(items, results, issue);
    SeenMeaning(items, results);
    MissingAre(items, SeenIds(items, results), issue);
  }

  // ----- the verdict

  function NotCheckedFrom(checklist: seq<ChecklistItem>, index: nat): seq<Issue>
    requires index <= |checklist|
    decreases |checklist| - index
  {
    if index == |checklist| then []
    else
      var issues := if checklist[index].state == Checked then [] else [ItemNotChecked(index)];
      issues + NotCheckedFrom(checklist, index + 1)
  }

  lemma {:induction false} NotCheckedNone(checklist: seq<ChecklistItem>, index: nat)
    requires index <= |checklist|
    ensures NotCheckedFrom(checklist, index) == []
        <==> forall i :: index <= i < |checklist| ==> checklist[i].state == Checked
    decreases |checklist| - index
  {
    if index == |checklist| {
    } else {
      NotCheckedNone(checklist, index + 1);
    }
  }

  function Repeat(issue: Issue, n: nat): seq<Issue> {
    seq(n, i requires 0 <= i < n => issue)
  }

  predicate HasChecks(c: Contract) { "dod_checks" in c.fields }

  function CheckIssues(c: Contract, handler: Handler): seq<Issue> {
    if !HasChecks(c) then []
    else
      match DodRun(c, handler)
      case None => [ChecksInvalid]
      case Some(report) => NotCheckedFrom(report.checklist, 0)
  }

  function Validate(c: Contract, s: Submission): Validation {
    match s
    case Malformed(further) => Validation([Payload] + Repeat(Payload, further), None)
    case Wellformed(retrySignal, schemaIssues, learnings, dodResults, handler) =>
      Validation(Repeat(Schema, schemaIssues)
                   + (if retrySignal && learnings == 0 then [LearningsRequired] else [])
                   + DodIssuesOf(ResolveItems(c), dodResults)
                   + CheckIssues(c, handler),
                 if HasChecks(c) then DodRun(c, handler) else None)
  }

  method ValidateSubmission(c: Contract, s: Submission) returns (v: Validation)
    ensures v == Validate(c, s)
  {
    if s.Malformed? {
      return Validation([Payload] + Repeat(Payload, s.furtherIssues), None);
    }
    var issues := Repeat(Schema, s.schemaIssues)
      + (if s.retrySignal && s.learnings == 0 then [LearningsRequired] else []);
    var dodIssues := DodIssues(ResolveItems(c), s.dodResults);
    var checkIssues, report := CheckReport(c, s.handler);
    v := Validation(issues + dodIssues + checkIssues, report);
  }

  method CheckReport(c: Contract, handler: Handler) returns (issues: seq<Issue>, report: Option<Report>)
    ensures issues == CheckIssues(c, handler) && report == if HasChecks(c) then DodRun(c, handler) else None
  {
    issues, report := [], None;
    if HasChecks(c) {
      report := RunDodChecks(c, handler);
      if report.None? {
        issues := [ChecksInvalid];
      } else {
        issues := OpenItems(report.value.checklist);
      }
    }
  }

  method OpenItems(checklist: seq<ChecklistItem>) returns (issues: seq<Issue>)
    ensures issues == NotCheckedFrom(checklist, 0)
  {
    issues := [];
    for i := 0 to |checklist|
      invariant NotCheckedFrom(checklist, 0) == issues + NotCheckedFrom(checklist, i)
    {
      if checklist[i].state != Checked {
        issues := issues + [ItemNotChecked(i)];
      }
    }
  }

  /** A well-formed submission is accepted exactly when its output meets the schema, a failure comes with a
      learning, the results are complete, and every declared check and every statement is checked. */
  lemma ValidIff(c: Contract, s: Submission)
    requires s.Wellformed?
    ensures IsValid(Validate(c, s))
       <==> && s.schemaIssues == 0
            && (s.retrySignal ==> s.learnings > 0)
            && DodIssuesOf(ResolveItems(c), s.dodResults) == []
            && (HasChecks(c) ==> DodRun(c, s.handler).Some? && EveryChecked(DodRun(c, s.handler).value.checklist))
  {
    if DodRun(c, s.handler).Some? { NotCheckedNone(DodRun(c, s.handler).value.checklist, 0); }
    assert Repeat(Schema, s.schemaIssues) == [] <==> s.schemaIssues == 0;
  }

  lemma {:induction false} NotCheckedAre(checklist: seq<ChecklistItem>, index: nat, issue: Issue)
    requires index <= |checklist|
    ensures issue in NotCheckedFrom(checklist, index)
       <==> issue.ItemNotChecked? && index <= issue.index < |checklist| && checklist[issue.index].state != Checked
    decreases |checklist| - index
  {
    if index == |checklist| {
    } else {
      NotCheckedAre(checklist, index + 1, issue);
    }
  }

  lemma CheckIssuesAre(c: Contract, handler: Handler, issue: Issue)
    ensures issue in CheckIssues(c, handler)
       <==> && "dod_checks" in c.fields
            && match DodRun(c, handler)
               case None => issue == ChecksInvalid
               case Some(report) =>
                 && issue.ItemNotChecked?
                 && issue.index < |report.checklist| && report.checklist[issue.index].state != Checked
  {
    if DodRun(c, handler).Some? { NotCheckedAre(DodRun(c, handler).value.checklist, 0, issue); }
  }

  lemma RepeatedIs(issue: Issue, n: nat, other: Issue)
    ensures |Repeat(issue, n)| == n && (other in Repeat(issue, n) <==> n > 0 && other == issue)
  {
    if n > 0 { assert Repeat(issue, n)[0] == issue; }
  }

  /** Exactly which issues a well-formed submission gets besides those of its results, and the report they come with. */
  lemma IssuesAre(c: Contract, s: Submission, issue: Issue)
    requires s.Wellformed?
    ensures Validate(c, s).report == if "dod_checks" in c.fields then DodRun(c, s.handler) else None
    ensures issue in Validate(c, s).errors
       <==> match issue
            case Payload => false
            case Schema => s.schemaIssues > 0
            case LearningsRequired => s.retrySignal && s.learnings == 0
            case ChecksInvalid => "dod_checks" in c.fields && DodRun(c, s.handler) == None
            case ItemNotChecked(i) =>
              && "dod_checks" in c.fields && DodRun(c, s.handler).Some?
              && var checklist := DodRun(c, s.handler).value.checklist; i < |checklist| && checklist[i].state != Checked
            case _ => issue in DodIssuesOf(ResolveItems(c), s.dodResults)
  {
    var dod, checks := DodIssuesOf(ResolveItems(c), s.dodResults), CheckIssues(c, s.handler);
    RepeatedIs(Schema, s.schemaIssues, issue);
    CheckIssuesAre(c, s.handler, issue);
    if issue in dod { OnlyDodIssues(ResolveItems(c), s.dodResults, issue); }
    assert issue in Validate(c, s).errors
      <==> || issue in Repeat(Schema, s.schemaIssues)
           || (s.retrySignal && s.learnings == 0 && issue == LearningsRequired)
           || issue in dod || issue in checks;
  }

  /** A malformed one gets its payload issues alone, and no report. */
  lemma MalformedIssues(c: Contract, further: nat)
    ensures var v := Validate(c, Malformed(further));
            |v.errors| == further + 1 && v.report == None && forall issue :: issue in v.errors <==> issue == Payload
  {
    RepeatedIs(Payload, further, Payload);
    assert Validate(c, Malformed(further)).errors[0] == Payload;
  }

  lemma OnlyDodIssues(items: seq<DodItem>, results: seq<DodResult>, issue: Issue)
    requires issue in DodIssuesOf(items, results)
    ensures !issue.Payload? && !issue.Schema? && !issue.LearningsRequired? && !issue.ChecksInvalid?
    ensures !issue.ItemNotChecked?
  {
    DodIssuesAre(items, results, issue);
  }

  /** An accepted submission of a task with declared checks carries a report that is all checked and survives
      storage; without declared checks it carries none. */
  lemma AcceptedReport(c: Contract, s: Submission)
    requires IsValid(Validate(c, s))
    ensures var report := Validate(c, s).report;
            if HasChecks(c) then report.Some? && EveryChecked(report.value.checklist) && Sturdy(report.value)
            else report == None
  {
    assert s.Wellformed?;
    ValidIff(c, s);
    if HasChecks(c) { CheckedReportIsSturdy(c, s.handler); }
  }
}
