/** Definition-of-done reports and the shape in which a run stores them
    (apps/api/src/agenticqueue_api/dod.py and task_actions.py). */
module DodReports {
  import opened Base
  import opened Texts

  datatype ItemState = Checked | Partial | UncheckedBlocked | UncheckedUnmet

  datatype ChecklistItem = ChecklistItem(item: string, state: ItemState, note: string)

  datatype Report = Report(checklist: seq<ChecklistItem>, checked: nat, partial: nat, blocked: nat, unmet: nat)

  function Count(checklist: seq<ChecklistItem>, state: ItemState): nat {
    if checklist == [] then 0
    else (if checklist[0].state == state then 1 else 0) + Count(checklist[1..], state)
  }

  function Summarize(checklist: seq<ChecklistItem>): Report {
    Report(checklist, Count(checklist, Checked), Count(checklist, Partial),
           Count(checklist, UncheckedBlocked), Count(checklist, UncheckedUnmet))
  }

  ghost function Places(checklist: seq<ChecklistItem>, state: ItemState): set<nat> {
    set i: nat | i < |checklist| && checklist[i].state == state
  }

  lemma {:induction false} CountAppend(a: seq<ChecklistItem>, last: ChecklistItem, state: ItemState)
    ensures Count(a + [last], state) == Count(a, state) + if last.state == state then 1 else 0
  {
    if a == [] {
      assert [] + [last] == [last] && [last][1..] == [];
    } else {
      CountAppend(a[1..], last, state);
      assert (a + [last])[1..] == a[1..] + [last];
    }
  }

  lemma PlacesAppend(a: seq<ChecklistItem>, last: ChecklistItem, state: ItemState)
    ensures |Places(a + [last], state)| == |Places(a, state)| + if last.state == state then 1 else 0
  {
    var all := a + [last];
    assert forall i :: 0 <= i < |a| ==> all[i] == a[i];
    assert Places(all, state) == Places(a, state) + if last.state == state then {|a|} else {};
    assert |a| !in Places(a, state);
  }

  lemma {:induction false} CountIs(checklist: seq<ChecklistItem>, state: ItemState)
    ensures Count(checklist, state) == |Places(checklist, state)|
    decreases |checklist|
  {
    if checklist == [] {
    } else {
      var init, last := checklist[..|checklist| - 1], checklist[|checklist| - 1];
      CountIs(init, state);
      CountAppend(init, last, state);
      PlacesAppend(init, last, state);
      assert checklist == init + [last];
    }
  }

  /** Each count of a summary is the number of items in that state. */
  lemma CountsAre(checklist: seq<ChecklistItem>)
    ensures var r := Summarize(checklist);
            && r.checked == |Places(checklist, Checked)| && r.partial == |Places(checklist, Partial)|
            && r.blocked == |Places(checklist, UncheckedBlocked)| && r.unmet == |Places(checklist, UncheckedUnmet)|
  {
    CountIs(checklist, Checked);
    CountIs(checklist, Partial);
    CountIs(checklist, UncheckedBlocked);
    CountIs(checklist, UncheckedUnmet);
  }

  /** The four counts of a summary always add up to the length of its checklist. */
  lemma {:induction false} CountsAddUp(checklist: seq<ChecklistItem>)
    ensures var r := Summarize(checklist); r.checked + r.partial + r.blocked + r.unmet == |checklist|
  {
    if checklist == [] {
    } else {
      CountsAddUp(checklist[1..]);
    }
  }

  lemma {:induction false} CountedAllChecked(checklist: seq<ChecklistItem>)
    ensures Count(checklist, Checked) <= |checklist|
    ensures Count(checklist, Checked) == |checklist|
        <==> forall i :: 0 <= i < |checklist| ==> checklist[i].state == Checked
  {
    if checklist == [] {
    } else {
      CountedAllChecked(checklist[1..]);
      assert forall i :: 1 <= i < |checklist| ==> checklist[i] == checklist[1..][i - 1];
    }
  }

  // ----- the stored shape

  function StateText(state: ItemState): string {
    match state
    case Checked => "checked"
    case Partial => "partial"
    case UncheckedBlocked => "unchecked_blocked"
    case UncheckedUnmet => "unchecked_unmet"
  }

  function StateOf(text: string): Option<ItemState> {
    if text == "checked" then Some(Checked)
    else if text == "partial" then Some(Partial)
    else if text == "unchecked_blocked" then Some(UncheckedBlocked)
    else if text == "unchecked_unmet" then Some(UncheckedUnmet)
    else None
  }

  function EncodeItem(item: ChecklistItem): Json {
    Object(map["item" := Text(item.item), "state" := Text(StateText(item.state)), "note" := Text(item.note)])
  }

  function EncodeItems(items: seq<ChecklistItem>): seq<Json> {
    if items == [] then [] else [EncodeItem(items[0])] + EncodeItems(items[1..])
  }

  /** The view of a report as dumped into the details of a run. */
  function EncodeReport(r: Report): Json {
    Object(map["checklist" := Array(EncodeItems(r.checklist)),
               "checked_count" := Integer(r.checked), "partial_count" := Integer(r.partial),
               "unchecked_blocked_count" := Integer(r.blocked), "unchecked_unmet_count" := Integer(r.unmet)])
  }

  /** One stored item; `show` is Python's `str` on a note that is no string. */
  function DecodeItem(value: Json, show: Json -> string): Option<ChecklistItem> {
    if !value.Object? then None
    else
      var item, state := Field(value.fields, "item"), Field(value.fields, "state");
      var note := if "note" in value.fields then value.fields["note"] else Text("");
      if !item.Text? || Blank(item.text) || !state.Text? || StateOf(state.text).None? then None
      else Some(ChecklistItem(item.text, StateOf(state.text).value, if note.Text? then note.text else show(note)))
  }

  function DecodeItems(values: seq<Json>, show: Json -> string): Option<seq<ChecklistItem>> {
    if values == [] then Some([])
    else
      match (DecodeItem(values[0], show), DecodeItems(values[1..], show))
      case (Some(item), Some(rest)) => Some([item] + rest)
      case _ => None
  }

  /** Reading a report back: counts are recomputed, and anything malformed or empty is no report. */
  function DecodeReport(value: Json, show: Json -> string): Option<Report> {
    if !value.Object? then None
    else
      var checklist := Field(value.fields, "checklist");
      if !checklist.Array? || checklist.items == [] then None
      else
        match DecodeItems(checklist.items, show)
        case Some(items) => Some(Summarize(items))
        case None => None
  }

  /** A report that survives storage: some item, no blank item, and counts that tally. */
  ghost predicate Sturdy(r: Report) {
    && r.checklist != []
    && (forall i :: 0 <= i < |r.checklist| ==> !Blank(r.checklist[i].item))
    && r == Summarize(r.checklist)
  }

  lemma ItemRoundTrip(item: ChecklistItem, show: Json -> string)
    ensures DecodeItem(EncodeItem(item), show) == if Blank(item.item) then None else Some(item)
  {
    assert StateOf(StateText(item.state)) == Some(item.state);
  }

  lemma {:induction false} ItemsRoundTrip(items: seq<ChecklistItem>, show: Json -> string)
    ensures DecodeItems(EncodeItems(items), show)
         == if forall i :: 0 <= i < |items| ==> !Blank(items[i].item) then Some(items) else None
  {
    if items == [] {
    } else {
      ItemRoundTrip(items[0], show);
      ItemsRoundTrip(items[1..], show);
      assert EncodeItems(items)[1..] == EncodeItems(items[1..]);
      assert items == [items[0]] + items[1..];
    }
  }

  /** Storing and reloading gives back the same report exactly when the report is sturdy. */
  lemma ReportRoundTrip(r: Report, show: Json -> string)
    ensures DecodeReport(EncodeReport(r), show) == Some(r) <==> Sturdy(r)
  {
    ItemsRoundTrip(r.checklist, show);
    assert EncodeReport(r).fields["checklist"] == Array(EncodeItems(r.checklist));
    if r.checklist != [] { assert EncodeItems(r.checklist) != []; }
  }

  /** Whatever is stored, a report read back is sturdy. */
  lemma {:induction false} DecodedItemsNotBlank(values: seq<Json>, show: Json -> string)
    requires DecodeItems(values, show).Some?
    ensures var items := DecodeItems(values, show).value;
            |items| == |values| && forall i :: 0 <= i < |items| ==> !Blank(items[i].item)
  {
    if values == [] {
    } else {
      DecodedItemsNotBlank(values[1..], show);
    }
  }

  lemma DecodedIsSturdy(value: Json, show: Json -> string)
    requires DecodeReport(value, show).Some?
    ensures Sturdy(DecodeReport(value, show).value)
  {
    DecodedItemsNotBlank(Field(value.fields, "checklist").items, show);
  }
}
