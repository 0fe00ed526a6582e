/** Declarative definition-of-done checks: resolving the items of a contract, running its checks, and
    aggregating the results (apps/api/src/agenticqueue_api/dod.py). */
module Dod {
  import opened Base
  import opened Texts
  import opened DodReports

  /** The parts of a task that decide its definition of done. */
  datatype Contract = Contract(fields: map<string, Json>, definitionOfDone: seq<string>, tier: int)

  datatype DodItem = DodItem(dodId: string, statement: string)

  function NonEmptyText(value: Json): Option<string> {
    if value.Text? && !Blank(value.text) then Some(Strip(value.text)) else None
  }

  /** A structured item counts only with all five proof fields. */
  function StructuredItem(raw: Json): Option<DodItem> {
    if !raw.Object? then None
    else
      match (NonEmptyText(Field(raw.fields, "id")), NonEmptyText(Field(raw.fields, "statement")))
      case (Some(dodId), Some(statement)) =>
        if NonEmptyText(Field(raw.fields, "verification_method")).Some?
           && NonEmptyText(Field(raw.fields, "evidence_required")).Some?
           && NonEmptyText(Field(raw.fields, "acceptance_threshold")).Some?
        then Some(DodItem(dodId, statement)) else None
      case _ => None
  }

  function StructuredItems(raw: seq<Json>): seq<DodItem> {
    if raw == [] then []
    else if StructuredItem(raw[0]).Some? then [StructuredItem(raw[0]).value] + StructuredItems(raw[1..])
    else StructuredItems(raw[1..])
  }

  function ChecklistTexts(raw: seq<Json>): seq<string> {
    if raw == [] then []
    else if NonEmptyText(raw[0]).Some? then [NonEmptyText(raw[0]).value] + ChecklistTexts(raw[1..])
    else ChecklistTexts(raw[1..])
  }

  function LegacyItems(statements: seq<string>): seq<DodItem> {
    seq(|statements|, i requires 0 <= i < |statements| => DodItem("legacy-" + Decimal(i + 1), statements[i]))
  }

  /** Structured items when there are any, else the legacy statements of the task or its contract. */
  function ResolveItems(c: Contract): seq<DodItem> {
    var raw := Field(c.fields, "dod_items");
    var structured := if raw.Array? then StructuredItems(raw.items) else [];
    if structured != [] then structured
    else if c.definitionOfDone != [] then LegacyItems(c.definitionOfDone)
    else
      var legacy := Field(c.fields, "dod_checklist");
      LegacyItems(if legacy.Array? then ChecklistTexts(legacy.items) else [])
  }

  function Statements(items: seq<DodItem>): (r: seq<string>)
    ensures |r| == |items| && forall i :: 0 <= i < |items| ==> r[i] == items[i].statement
  {
    seq(|items|, i requires 0 <= i < |items| => items[i].statement)
  }

  // ----- which items a contract has

  ghost predicate HasText(fields: map<string, Json>, name: string) {
    name in fields && fields[name].Text? && Strip(fields[name].text) != ""
  }

  /** An item with all five proof fields. */
  ghost predicate Complete(raw: Json) {
    && raw.Object?
    && HasText(raw.fields, "id") && HasText(raw.fields, "statement") && HasText(raw.fields, "verification_method")
    && HasText(raw.fields, "evidence_required") && HasText(raw.fields, "acceptance_threshold")
  }

  ghost function ItemOf(raw: Json): DodItem
    requires Complete(raw)
  {
    DodItem(Strip(raw.fields["id"].text), Strip(raw.fields["statement"].text))
  }

  lemma CompleteIff(raw: Json)
    ensures StructuredItem(raw) == if Complete(raw) then Some(ItemOf(raw)) else None
  {
  }

  /** Structured items are picked one by one, in order: the complete ones, stripped, and no others. */
  lemma {:induction false} StructuredOneMore(raw: seq<Json>, last: Json)
    ensures StructuredItems(raw + [last]) == StructuredItems(raw) + if Complete(last) then [ItemOf(last)] else []
  {
    CompleteIff(last);
    if raw == [] {
      assert [] + [last] == [last] && [last][1..] == [];
    } else {
      StructuredOneMore(raw[1..], last);
      assert (raw + [last])[1..] == raw[1..] + [last];
    }
  }

  /** So are the nonblank texts of a checklist. */
  lemma {:induction false} TextsOneMore(raw: seq<Json>, last: Json)
    ensures ChecklistTexts(raw + [last])
         == ChecklistTexts(raw) + if last.Text? && Strip(last.text) != "" then [Strip(last.text)] else []
  {
    if raw == [] {
      assert [] + [last] == [last] && [last][1..] == [];
    } else {
      TextsOneMore(raw[1..], last);
      assert (raw + [last])[1..] == raw[1..] + [last];
    }
  }

  lemma {:induction false} SomeComplete(raw: seq<Json>)
    ensures StructuredItems(raw) != [] <==> exists item :: item in raw && Complete(item)
  {
    if raw == [] {
    } else {
      SomeComplete(raw[1..]);
      CompleteIff(raw[0]);
      assert raw == [raw[0]] + raw[1..];
      assert forall item :: item in raw <==> item == raw[0] || item in raw[1..];
    }
  }

  function ListOf(fields: map<string, Json>, name: string): seq<Json> {
    if name in fields && fields[name].Array? then fields[name].items else []
  }

  ghost predicate AreLegacy(items: seq<DodItem>, statements: seq<string>) {
    && |items| == |statements|
    && forall i :: 0 <= i < |items| ==> items[i] == DodItem("legacy-" + Decimal(i + 1), statements[i])
  }

  /** The items of a contract are its structured ones where a single one is complete. Only without one are they the
      statements of the task, or else the texts of the checklist, numbered from one. */
  lemma ResolvedItems(c: Contract)
    ensures var raw, legacy := ListOf(c.fields, "dod_items"), ListOf(c.fields, "dod_checklist");
            if exists item :: item in raw && Complete(item) then ResolveItems(c) == StructuredItems(raw)
            else if c.definitionOfDone != [] then AreLegacy(ResolveItems(c), c.definitionOfDone)
            else AreLegacy(ResolveItems(c), ChecklistTexts(legacy))
  {
    SomeComplete(ListOf(c.fields, "dod_items"));
  }

  // ----- checks

  datatype Definition = Definition(item: string, checkType: string, fields: map<string, Json>)

  /** The outcome of one check handler; it names the item the check was declared for. */
  datatype CheckResult = CheckResult(item: string, state: ItemState, note: string)

  /** What the handler of a check returns, or nothing when the check type is unknown or the handler objects. */
  type Handler = Definition -> Option<(ItemState, string)>

  function Coerce(raw: Json): Option<Definition> {
    if !raw.Object? then None
    else
      match (NonEmptyText(Field(raw.fields, "item")), NonEmptyText(Field(raw.fields, "type")))
      case (Some(item), Some(checkType)) =>
        if checkType == "shell" || !PositiveTimeout(raw.fields) then None
        else Some(Definition(item, checkType, raw.fields))
      case _ => None
  }

  predicate PositiveTimeout(fields: map<string, Json>) {
    "timeout_seconds" !in fields
    || match fields["timeout_seconds"]
       case Integer(k) => k > 0
       case Number(n) => n > 0.0
       case Bool(b) => b
       case _ => false
  }

  /** One declared check run by its handler; nothing when the declaration is invalid. */
  function RunCheck(raw: Json, handler: Handler): Option<CheckResult> {
    match Coerce(raw)
    case None => None
    case Some(d) =>
      match handler(d)
      case None => None
      case Some((state, note)) => Some(CheckResult(d.item, state, note))
  }

  function RunChecks(raw: seq<Json>, handler: Handler): Option<seq<CheckResult>> {
    if raw == [] then Some([])
    else
      match (RunCheck(raw[0], handler), RunChecks(raw[1..], handler))
      case (Some(first), Some(rest)) => Some([first] + rest)
      case _ => None
  }

  /** What a declared check must be for its handler to be asked at all. */
  ghost predicate Declared(raw: Json) {
    && raw.Object? && HasText(raw.fields, "item") && HasText(raw.fields, "type")
    && Strip(raw.fields["type"].text) != "shell"
    && ("timeout_seconds" in raw.fields ==>
          var timeout := raw.fields["timeout_seconds"];
          || timeout == Bool(true) || (timeout.Integer? && timeout.k > 0) || (timeout.Number? && timeout.n > 0.0))
  }

  function Declaration(raw: Json): Definition
    requires Declared(raw)
  {
    Definition(Strip(raw.fields["item"].text), Strip(raw.fields["type"].text), raw.fields)
  }

  lemma RunsIff(raw: Json, handler: Handler)
    ensures RunCheck(raw, handler).Some? <==> Declared(raw) && handler(Declaration(raw)).Some?
    ensures RunCheck(raw, handler).Some? ==>
              var outcome := handler(Declaration(raw)).value;
              RunCheck(raw, handler).value == CheckResult(Declaration(raw).item, outcome.0, outcome.1)
  {
  }

  /** A run has a result for each declared check, in order, and none at all if a single one is not in order or its
      handler objects: no report comes of a run with an invalid check. */
  lemma {:induction false} RunsAllOrNone(raw: seq<Json>, handler: Handler)
    ensures RunChecks(raw, handler).Some?
       <==> forall k :: 0 <= k < |raw| ==> Declared(raw[k]) && handler(Declaration(raw[k])).Some?
    ensures RunChecks(raw, handler).Some? ==>
              var results := RunChecks(raw, handler).value;
              && |results| == |raw|
              && forall k :: 0 <= k < |raw| ==>
                   var outcome := handler(Declaration(raw[k])).value;
                   results[k] == CheckResult(Declaration(raw[k]).item, outcome.0, outcome.1)
  {
    if raw == [] {
    } else {
      RunsIff(raw[0], handler);
      RunsAllOrNone(raw[1..], handler);
      assert forall k :: 1 <= k < |raw| ==> raw[k] == raw[1..][k - 1];
    }
  }

  // ----- aggregation

  function ResultsFor(results: seq<CheckResult>, item: string): seq<CheckResult> {
    if results == [] then []
    else if results[|results| - 1].item == item then
      ResultsFor(results[..|results| - 1], item) + [results[|results| - 1]]
    else ResultsFor(results[..|results| - 1], item)
  }

  /** The items named by the results, each once, in order of first appearance. */
  function SeenItems(results: seq<CheckResult>): seq<string> {
    if results == [] then []
    else
      var seen := SeenItems(results[..|results| - 1]);
      var item := results[|results| - 1].item;
      if item in seen then seen else seen + [item]
  }

  function AppendNew(ordered: seq<string>, seen: seq<string>): seq<string>
    decreases seen
  {
    if seen == [] then ordered
    else AppendNew(if seen[0] in ordered then ordered else ordered + [seen[0]], seen[1..])
  }

  function CountState(results: seq<CheckResult>, state: ItemState): (n: nat)
    ensures n <= |results|
    ensures n == |results| <==> forall i :: 0 <= i < |results| ==> results[i].state == state
  {
    if results == [] then 0
    else
      assert forall i :: 1 <= i < |results| ==> results[i] == results[1..][i - 1];
      (if results[0].state == state then 1 else 0) + CountState(results[1..], state)
  }

  function Notes(results: seq<CheckResult>): string {
    if results == [] then ""
    else if |results| == 1 then results[0].note
    else results[0].note + "; " + Notes(results[1..])
  }

  function Aggregate(item: string, results: seq<CheckResult>): ChecklistItem {
    if results == [] then
      ChecklistItem(item, UncheckedBlocked, "No declarative checks configured for this DoD item.")
    else
      var checked := CountState(results, Checked);
      var blocked := CountState(results, UncheckedBlocked);
      var unmet := CountState(results, UncheckedUnmet);
      var state :=
        if checked == |results| then Checked
        else if checked > 0 then Partial
        else if blocked > 0 && unmet == 0 then UncheckedBlocked
        else UncheckedUnmet;
      ChecklistItem(item, state, Decimal(checked) + "/" + Decimal(|results|) + " checks passed. " + Notes(results))
  }

  function OrderedItems(c: Contract, results: seq<CheckResult>): seq<string> {
    AppendNew(Statements(ResolveItems(c)), SeenItems(results))
  }

  function Checklist(items: seq<string>, results: seq<CheckResult>): (r: seq<ChecklistItem>)
    ensures |r| == |items|
    ensures forall i :: 0 <= i < |items| ==> r[i] == Aggregate(items[i], ResultsFor(results, items[i]))
  {
    seq(|items|, i requires 0 <= i < |items| => Aggregate(items[i], ResultsFor(results, items[i])))
  }

  function RawChecks(c: Contract): seq<Json> {
    var raw := Field(c.fields, "dod_checks");
    if raw.Array? then raw.items else []
  }

  /** The report of a run, or nothing when the declared checks are empty or invalid. */
  function DodRun(c: Contract, handler: Handler): Option<Report> {
    if RawChecks(c) == [] then None
    else
      match RunChecks(RawChecks(c), handler)
      case None => None
      case Some(results) => Some(Summarize(Checklist(OrderedItems(c, results), results)))
  }

  /** The results so far, by item, and the items in order of first appearance. */
  ghost predicate GroupsOf(results: seq<CheckResult>, grouped: map<string, seq<CheckResult>>, seenOrder: seq<string>) {
    && seenOrder == SeenItems(results)
    && (forall item :: item in grouped <==> item in seenOrder)
    && (forall item :: ResultsFor(results, item) == if item in grouped then grouped[item] else [])
  }

  lemma GroupOneMore(results: seq<CheckResult>, grouped: map<string, seq<CheckResult>>, seenOrder: seq<string>,
                     result: CheckResult)
    requires GroupsOf(results, grouped, seenOrder)
    ensures GroupsOf(results + [result],
                     grouped[result.item := (if result.item in grouped then grouped[result.item] else []) + [result]],
                     if result.item in grouped then seenOrder else seenOrder + [result.item])
  {
    assert (results + [result])[..|results|] == results;
  }

  function Prepended(before: seq<CheckResult>, rest: Option<seq<CheckResult>>): Option<seq<CheckResult>> {
    match rest
    case None => None
    case Some(after) => Some(before + after)
  }

  lemma RunOneMore(before: seq<CheckResult>, raw: seq<Json>, handler: Handler)
    requires raw != []
    ensures Prepended(before, RunChecks(raw, handler))
         == match RunCheck(raw[0], handler)
            case None => None
            case Some(result) => Prepended(before + [result], RunChecks(raw[1..], handler))
  {
    var rest := RunChecks(raw[1..], handler);
    if rest.Some? && RunCheck(raw[0], handler).Some? {
      var result := RunCheck(raw[0], handler).value;
      assert before + ([result] + rest.value) == before + [result] + rest.value;
    }
  }

  /** Runs the checks in turn, grouping their results by item as they come in. */
  method GroupResults(raw: seq<Json>, handler: Handler)
    returns (ok: bool, grouped: map<string, seq<CheckResult>>, seenOrder: seq<string>)
    ensures ok <==> RunChecks(raw, handler).Some?
    ensures ok ==> GroupsOf(RunChecks(raw, handler).value, grouped, seenOrder)
  {
    ghost var results := [];
    grouped, seenOrder := map[], [];
    assert raw[0..] == raw;
    assert RunChecks(raw, handler).Some? ==> [] + RunChecks(raw, handler).value == RunChecks(raw, handler).value;
    for i := 0 to |raw|
      invariant GroupsOf(results, grouped, seenOrder)
      invariant RunChecks(raw, handler) == Prepended(results, RunChecks(raw[i..], handler))
    {
      RunOneMore(results, raw[i..], handler);
      assert raw[i..][1..] == raw[i + 1..];
      var outcome := RunCheck(raw[i], handler);
      if outcome.None? {
        ok := false;
        return;
      }
      var result := outcome.value;
      GroupOneMore(results, grouped, seenOrder, result);
      if result.item !in grouped {
        seenOrder := seenOrder + [result.item];
      }
      grouped := grouped[result.item := (if result.item in grouped then grouped[result.item] else []) + [result]];
      results := results + [result];
    }
    ok := true;
    assert results + [] == results;
  }

  /** Runs every declared check and aggregates the results item by item. */
  method RunDodChecks(c: Contract, handler: Handler) returns (report: Option<Report>)
    ensures report == DodRun(c, handler)
  {
    var raw := RawChecks(c);
    if raw == [] {
      return None;
    }
    var ok, grouped, seenOrder := GroupResults(raw, handler);
    if !ok {
      return None;
    }
    var ordered := AddUnlisted(Statements(ResolveItems(c)), seenOrder);
    var checklist := AggregateAll(ordered, grouped, seenOrder, RunChecks(raw, handler).value);
    report := Some(Summarize(checklist));
  }

  method AddUnlisted(statements: seq<string>, seenOrder: seq<string>) returns (ordered: seq<string>)
    ensures ordered == AppendNew(statements, seenOrder)
  {
    ordered := statements;
    assert seenOrder[0..] == seenOrder;
    for i := 0 to |seenOrder|
      invariant AppendNew(ordered, seenOrder[i..]) == AppendNew(statements, seenOrder)
    {
      assert seenOrder[i..][1..] == seenOrder[i + 1..];
      if seenOrder[i] !in ordered {
        ordered := ordered + [seenOrder[i]];
      }
    }
  }

  method AggregateAll(ordered: seq<string>, grouped: map<string, seq<CheckResult>>, ghost seenOrder: seq<string>,
                      ghost results: seq<CheckResult>)
    returns (checklist: seq<ChecklistItem>)
    requires GroupsOf(results, grouped, seenOrder)
    ensures checklist == Checklist(ordered, results)
  {
    checklist := [];
    for i := 0 to |ordered|
      invariant |checklist| == i
      invariant forall j :: 0 <= j < i ==> checklist[j] == Aggregate(ordered[j], ResultsFor(results, ordered[j]))
    {
      checklist := checklist + [Aggregate(ordered[i], if ordered[i] in grouped then grouped[ordered[i]] else [])];
    }
  }

  // ----- what a report says

  ghost predicate Named(results: seq<CheckResult>, item: string) {
    exists r :: r in results && r.item == item
  }

  lemma {:induction false} ResultsForMembers(results: seq<CheckResult>, item: string)
    ensures forall r :: r in ResultsFor(results, item) <==> r in results && r.item == item
  {
    if results == [] {
    } else {
      var init, last := results[..|results| - 1], results[|results| - 1];
      ResultsForMembers(init, item);
      assert results == init + [last];
    }
  }

  lemma {:induction false} SeenMembers(results: seq<CheckResult>)
    ensures forall item :: item in SeenItems(results) <==> Named(results, item)
    ensures forall i, j :: 0 <= i < j < |SeenItems(results)| ==> SeenItems(results)[i] != SeenItems(results)[j]
  {
    if results == [] {
    } else {
      var init, last := results[..|results| - 1], results[|results| - 1];
      SeenMembers(init);
      assert results == init + [last];
    }
  }

  lemma {:induction false} AppendNewMembers(ordered: seq<string>, seen: seq<string>)
    ensures forall item :: item in AppendNew(ordered, seen) <==> item in ordered || item in seen
    ensures (forall i, j :: 0 <= i < j < |ordered| ==> ordered[i] != ordered[j]) ==>
            forall i, j :: 0 <= i < j < |AppendNew(ordered, seen)| ==>
                AppendNew(ordered, seen)[i] != AppendNew(ordered, seen)[j]
    decreases |seen|
  {
    if seen == [] {
    } else {
      AppendNewMembers(if seen[0] in ordered then ordered else ordered + [seen[0]], seen[1..]);
    }
  }

  lemma {:induction false} SeenGrows(a: seq<CheckResult>, b: seq<CheckResult>)
    ensures SeenItems(a) <= SeenItems(a + b)
    decreases |b|
  {
    if b == [] {
      assert a + b == a;
    } else {
      var init := b[..|b| - 1];
      SeenGrows(a, init);
      assert (a + b)[..|a + b| - 1] == a + init;
    }
  }

  lemma {:induction false} AppendNewGrows(ordered: seq<string>, a: seq<string>, b: seq<string>)
    ensures ordered <= AppendNew(ordered, a) <= AppendNew(ordered, a + b)
    decreases |a|, |b|
  {
    if a == [] {
      assert a + b == b;
      if b != [] {
        var next := if b[0] in ordered then ordered else ordered + [b[0]];
        AppendNewGrows(next, [], b[1..]);
        assert [] + b[1..] == b[1..];
      }
    } else {
      AppendNewGrows(if a[0] in ordered then ordered else ordered + [a[0]], a[1..], b);
      assert (a + b)[1..] == a[1..] + b;
    }
  }

  /** The items of a checklist in order: first the statements of the contract, then what results name besides, in order
      of first appearance: further results only add at the end. */
  lemma ChecklistOrder(c: Contract, a: seq<CheckResult>, b: seq<CheckResult>)
    ensures Statements(ResolveItems(c)) <= OrderedItems(c, a) <= OrderedItems(c, a + b)
    ensures forall item ::
              item in OrderedItems(c, a) <==> item in Statements(ResolveItems(c)) || Named(a, item)
  {
    SeenGrows(a, b);
    var before, after := SeenItems(a), SeenItems(a + b);
    assert after == before + after[|before|..];
    AppendNewGrows(Statements(ResolveItems(c)), before, after[|before|..]);
    OrderedMembers(c, a);
  }

  /** Results of an item are aggregated in the order in which they came. */
  lemma {:induction false} ResultsConcat(a: seq<CheckResult>, b: seq<CheckResult>, item: string)
    ensures ResultsFor(a + b, item) == ResultsFor(a, item) + ResultsFor(b, item)
    decreases |b|
  {
    if b == [] {
      assert a + b == a;
    } else {
      ResultsConcat(a, b[..|b| - 1], item);
      assert (a + b)[..|a + b| - 1] == a + b[..|b| - 1];
    }
  }

  lemma OrderedMembers(c: Contract, results: seq<CheckResult>)
    ensures forall item ::
              item in OrderedItems(c, results) <==> item in Statements(ResolveItems(c)) || Named(results, item)
  {
    SeenMembers(results);
    AppendNewMembers(Statements(ResolveItems(c)), SeenItems(results));
  }

  /** Some check names the item, and every check that does returns checked. */
  ghost predicate FullyChecked(results: seq<CheckResult>, item: string) {
    Named(results, item) && forall r :: r in results && r.item == item ==> r.state == Checked
  }

  lemma AggregateChecked(results: seq<CheckResult>, item: string)
    ensures Aggregate(item, ResultsFor(results, item)).state == Checked <==> FullyChecked(results, item)
  {
    var mine := ResultsFor(results, item);
    ResultsForMembers(results, item);
    if Named(results, item) {
      var r :| r in results && r.item == item;
      assert r in mine;
    }
    if mine != [] { assert mine[0] in mine; }
    assert (forall i :: 0 <= i < |mine| ==> mine[i].state == Checked) <==> forall r :: r in mine ==> r.state == Checked;
  }

  lemma {:induction false} CountedState(results: seq<CheckResult>, state: ItemState)
    ensures CountState(results, state) > 0 <==> exists r :: r in results && r.state == state
  {
    if results == [] {
    } else {
      CountedState(results[1..], state);
      assert results == [results[0]] + results[1..];
      assert forall r :: r in results <==> r == results[0] || r in results[1..];
    }
  }

  /** Some check that names the item returns this state. */
  ghost predicate Returned(results: seq<CheckResult>, item: string, state: ItemState) {
    exists r :: r in results && r.item == item && r.state == state
  }

  /** The state of an item: checked or partial as all or some of its checks pass; without a pass, blocked when nothing
      names it or when some check is blocked and none unmet; unmet otherwise. */
  lemma AggregateStates(results: seq<CheckResult>, item: string)
    ensures var state := Aggregate(item, ResultsFor(results, item)).state;
            var all := Named(results, item) && forall r :: r in results && r.item == item ==> r.state == Checked;
            && (state == Checked <==> all)
            && (state == Partial <==> Returned(results, item, Checked) && !all)
            && (state == UncheckedBlocked
                <==> || !Named(results, item)
                     || (!Returned(results, item, Checked) && Returned(results, item, UncheckedBlocked)
                         && !Returned(results, item, UncheckedUnmet)))
  {
    var mine := ResultsFor(results, item);
    ResultsForMembers(results, item);
    AggregateChecked(results, item);
    CountedState(mine, Checked);
    CountedState(mine, UncheckedBlocked);
    CountedState(mine, UncheckedUnmet);
    if Named(results, item) {
      var r :| r in results && r.item == item;
      assert r in mine;
    }
    if mine != [] { assert mine[0] in mine; }
  }

  ghost predicate EveryChecked(checklist: seq<ChecklistItem>) {
    forall i :: 0 <= i < |checklist| ==> checklist[i].state == Checked
  }

  lemma ChecklistChecked(items: seq<string>, results: seq<CheckResult>)
    ensures EveryChecked(Checklist(items, results)) <==> forall item :: item in items ==> FullyChecked(results, item)
  {
    var checklist := Checklist(items, results);
    forall i | 0 <= i < |items| ensures checklist[i].state == Checked <==> FullyChecked(results, items[i]) {
      AggregateChecked(results, items[i]);
    }
    if EveryChecked(checklist) {
      forall item | item in items ensures FullyChecked(results, item) {
        var k :| 0 <= k < |items| && items[k] == item;
        assert checklist[k].state == Checked;
      }
    }
  }

  /** A checklist is all checked exactly when every declared check returns checked and every statement of the
      contract is named by at least one check. */
  lemma AllCheckedIff(c: Contract, handler: Handler)
    requires DodRun(c, handler).Some?
    ensures var results := RunChecks(RawChecks(c), handler).value;
            EveryChecked(DodRun(c, handler).value.checklist)
            <==> (forall r :: r in results ==> r.state == Checked)
                 && (forall s :: s in Statements(ResolveItems(c)) ==> Named(results, s))
  {
    var results := RunChecks(RawChecks(c), handler).value;
    OrderedMembers(c, results);
    ChecklistChecked(OrderedItems(c, results), results);
    if forall item :: item in OrderedItems(c, results) ==> FullyChecked(results, item) {
      forall r | r in results ensures r.state == Checked {
        assert Named(results, r.item);
      }
    }
  }

  /** How many results the items of a checklist aggregate between them. */
  ghost function Aggregated(items: seq<string>, results: seq<CheckResult>): nat {
    if items == [] then 0 else |ResultsFor(results, items[0])| + Aggregated(items[1..], results)
  }

  lemma {:induction false} AggregatedStep(items: seq<string>, init: seq<CheckResult>, last: CheckResult)
    requires forall i, j :: 0 <= i < j < |items| ==> items[i] != items[j]
    ensures Aggregated(items, init + [last]) == Aggregated(items, init) + if last.item in items then 1 else 0
  {
    if items == [] {
    } else {
      AggregatedStep(items[1..], init, last);
      assert (init + [last])[..|init|] == init;
      assert last.item == items[0] ==> last.item !in items[1..];
    }
  }

  lemma {:induction false} AggregatedNothing(items: seq<string>)
    ensures Aggregated(items, []) == 0
  {
    if items == [] {
    } else {
      AggregatedNothing(items[1..]);
    }
  }

  lemma {:induction false} AggregatedAll(items: seq<string>, results: seq<CheckResult>)
    requires forall i, j :: 0 <= i < j < |items| ==> items[i] != items[j]
    requires forall r :: r in results ==> r.item in items
    ensures Aggregated(items, results) == |results|
    decreases |results|
  {
    if results == [] {
      AggregatedNothing(items);
    } else {
      var init, last := results[..|results| - 1], results[|results| - 1];
      assert results == init + [last];
      AggregatedAll(items, init);
      AggregatedStep(items, init, last);
    }
  }

  /** With distinct statements every check result is aggregated into exactly one checklist item. */
  lemma EveryResultCountedOnce(c: Contract, results: seq<CheckResult>)
    requires var s := Statements(ResolveItems(c)); forall i, j :: 0 <= i < j < |s| ==> s[i] != s[j]
    ensures var items := OrderedItems(c, results);
            && (forall i, j :: 0 <= i < j < |items| ==> items[i] != items[j])
            && Aggregated(items, results) == |results|
  {
    OrderedMembers(c, results);
    AppendNewMembers(Statements(ResolveItems(c)), SeenItems(results));
    forall r | r in results ensures r.item in OrderedItems(c, results) {
      assert Named(results, r.item);
    }
    AggregatedAll(OrderedItems(c, results), results);
  }

  lemma {:induction false} ResultItemsNotBlank(raw: seq<Json>, handler: Handler)
    requires RunChecks(raw, handler).Some?
    ensures var results := RunChecks(raw, handler).value;
            |results| == |raw| && forall r :: r in results ==> !Blank(r.item)
  {
    if raw == [] {
    } else {
      ResultItemsNotBlank(raw[1..], handler);
      var item := Field(raw[0].fields, "item");
      StripAgain(item.text);
    }
  }

  /** A report without an unchecked item survives storage: it is not empty, and a blank statement, which no
      check can name, would have been left unchecked. */
  lemma CheckedReportIsSturdy(c: Contract, handler: Handler)
    requires DodRun(c, handler).Some?
    requires EveryChecked(DodRun(c, handler).value.checklist)
    ensures Sturdy(DodRun(c, handler).value)
  {
    var results := RunChecks(RawChecks(c), handler).value;
    var items := OrderedItems(c, results);
    AllCheckedIff(c, handler);
    OrderedMembers(c, results);
    ResultItemsNotBlank(RawChecks(c), handler);
    assert results[0] in results && Named(results, results[0].item);
    assert results[0].item in items;
    forall i | 0 <= i < |items| ensures !Blank(items[i]) {
      assert items[i] in items && Named(results, items[i]);
    }
  }
}
