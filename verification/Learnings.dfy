/** The learning ledger: draft review with deduplication, and the supersede and expire lifecycle
    (apps/api/src/agenticqueue_api/learnings/draft.py, dedupe.py and lifecycle.py). */
module Learnings {
  import opened Base
  import opened Texts
  import opened Digraph

  datatype Scope = TaskScope | ProjectScope | GlobalScope

  datatype Status = Active | Superseded | Expired

  datatype Confidence = Tentative | Confirmed | Validated

  /** The fields of a learning that review and lifecycle read or change. `text` is its title and action rule. */
  datatype Learning = Learning(
    text: string, scope: Scope, status: Status, embedding: int, evidence: seq<string>,
    confidence: Confidence, reviewDate: Option<int>)

  datatype DraftStatus = Pending | ConfirmedDraft | RejectedDraft

  datatype Payload = Payload(text: string, scope: Scope, evidence: seq<string>, confidence: Confidence, reviewDate: int)

  datatype Draft = Draft(status: DraftStatus, payload: Payload, reason: Option<string>, confirmed: Option<nat>)

  /** `newer` replaces `older`. */
  datatype Replacement = Replacement(older: nat, newer: nat, reason: string)

  /** The ledger. Learnings are numbered in creation order; edges are listed in creation order. */
  datatype Ledger = Ledger(
    drafts: map<int, Draft>, learnings: seq<Learning>, related: seq<(nat, nat)>, replacements: seq<Replacement>)

  /** The embedder and the similarity of two embeddings, with the threshold above which texts count as equal. */
  datatype Dedupe = Dedupe(embed: string -> int, similarity: (int, int) -> real, threshold: real)

  datatype Error = NotFound | NotPending | Stale | NoSuggestion | BlankReason | SameLearning | NotActive
    | AlreadyExpired | AlreadyReplaced

  // ----- dedupe

  predicate Candidate(d: Dedupe, learning: Learning, scope: Scope, embedding: int) {
    learning.scope == scope && learning.status == Active && d.similarity(embedding, learning.embedding) >= d.threshold
  }

  /** Among the first `n` learnings the most similar candidate, the earliest on a tie. */
  function Best(d: Dedupe, learnings: seq<Learning>, scope: Scope, embedding: int, n: nat): Option<nat>
    requires n <= |learnings|
  {
    if n == 0 then None
    else
      var before := Best(d, learnings, scope, embedding, n - 1);
      if !Candidate(d, learnings[n - 1], scope, embedding) then before
      else if before.Some? && before.value < |learnings|
           && d.similarity(embedding, learnings[n - 1].embedding)
             <= d.similarity(embedding, learnings[before.value].embedding)
      then before
      else Some(n - 1)
  }

  /** The suggestion is the most similar active learning of the scope, the earliest among equals; there is none
      exactly when no active learning of the scope reaches the threshold. */
  lemma {:induction false} BestIsBest(d: Dedupe, learnings: seq<Learning>, scope: Scope, embedding: int, n: nat)
    requires n <= |learnings|
    ensures match Best(d, learnings, scope, embedding, n)
            case None => forall i :: 0 <= i < n ==> !Candidate(d, learnings[i], scope, embedding)
            case Some(b) =>
              && b < n && Candidate(d, learnings[b], scope, embedding)
              && (forall i :: 0 <= i < n && Candidate(d, learnings[i], scope, embedding) ==>
                    d.similarity(embedding, learnings[i].embedding) <= d.similarity(embedding, learnings[b].embedding))
              && (forall i :: 0 <= i < b && Candidate(d, learnings[i], scope, embedding) ==>
                    d.similarity(embedding, learnings[i].embedding) < d.similarity(embedding, learnings[b].embedding))
  {
    if n == 0 {
    } else {
      BestIsBest(d, learnings, scope, embedding, n - 1);
    }
  }

  /** There is a suggestion exactly when some active learning of the scope reaches the threshold, and it is one. */
  lemma SuggestedIff(d: Dedupe, learnings: seq<Learning>, scope: Scope, embedding: int)
    ensures var best := Best(d, learnings, scope, embedding, |learnings|);
            && (best == None <==> forall x :: x in learnings && x.scope == scope && x.status == Active ==>
                  d.similarity(embedding, x.embedding) < d.threshold)
            && (best.Some? ==>
                  && best.value < |learnings|
                  && learnings[best.value].scope == scope && learnings[best.value].status == Active
                  && d.similarity(embedding, learnings[best.value].embedding) >= d.threshold)
  {
    BestIsBest(d, learnings, scope, embedding, |learnings|);
    var best := Best(d, learnings, scope, embedding, |learnings|);
    if best.Some? { assert learnings[best.value] in learnings; }
  }

  method Suggest(d: Dedupe, learnings: seq<Learning>, payload: Payload) returns (match_: Option<nat>)
    ensures match_ == Best(d, learnings, payload.scope, d.embed(payload.text), |learnings|)
  {
    var embedding := d.embed(payload.text);
    match_ := None;
    var bestSimilarity := 0.0;
    for i := 0 to |learnings|
      invariant match_ == Best(d, learnings, payload.scope, embedding, i)
      invariant match_.Some? ==>
          match_.value < i && bestSimilarity == d.similarity(embedding, learnings[match_.value].embedding)
    {
      if learnings[i].scope == payload.scope && learnings[i].status == Active {
        var similarity := d.similarity(embedding, learnings[i].embedding);
        if similarity >= d.threshold && (match_.None? || similarity > bestSimilarity) {
          match_, bestSimilarity := Some(i), similarity;
        }
      }
    }
  }

  // ----- merging

  function MergedEvidence(merged: seq<string>, incoming: seq<string>): seq<string>
    decreases incoming
  {
    if incoming == [] then merged
    else
      var item := Strip(incoming[0]);
      MergedEvidence(if item == "" || item in merged then merged else merged + [item], incoming[1..])
  }

  lemma MergedOneMore(merged: seq<string>, all: seq<string>, i: nat)
    requires i < |all|
    ensures var item := Strip(all[i]);
            MergedEvidence(merged, all[i..])
            == MergedEvidence(if item == "" || item in merged then merged else merged + [item], all[i + 1..])
  {
    assert all[i..][1..] == all[i + 1..];
  }

  method MergeEvidence(existing: seq<string>, incoming: seq<string>) returns (merged: seq<string>)
    ensures merged == MergedEvidence([], existing + incoming)
  {
    merged := [];
    var seen: set<string> := {};
    var all := existing + incoming;
    assert all[0..] == all;
    for i := 0 to |all|
      invariant MergedEvidence(merged, all[i..]) == MergedEvidence([], all)
      invariant forall x :: x in seen <==> x in merged
    {
      MergedOneMore(merged, all, i);
      var item := Strip(all[i]);
      if item != "" && item !in seen {
        seen := seen + {item};
        merged := merged + [item];
      }
    }
  }

  /** Merging loses no evidence, invents none, and lists nothing twice. */
  lemma {:induction false} MergedMembers(merged: seq<string>, incoming: seq<string>)
    requires forall i, j :: 0 <= i < j < |merged| ==> merged[i] != merged[j]
    ensures var r := MergedEvidence(merged, incoming);
            && (forall x :: x in r <==> x in merged || (x != "" && exists e :: e in incoming && Strip(e) == x))
            && (forall i, j :: 0 <= i < j < |r| ==> r[i] != r[j])
            && merged <= r
    decreases incoming
  {
    if incoming == [] {
    } else {
      var item := Strip(incoming[0]);
      MergedMembers(if item == "" || item in merged then merged else merged + [item], incoming[1..]);
      assert incoming == [incoming[0]] + incoming[1..];
      assert forall e :: e in incoming <==> e == incoming[0] || e in incoming[1..];
    }
  }

  function Tier(c: Confidence): nat {
    match c case Tentative => 0 case Confirmed => 1 case Validated => 2
  }

  function OfTier(n: nat): Confidence {
    if n == 0 then Tentative else if n == 1 then Confirmed else Validated
  }

  /** One tier above the better of the two, up to the top. */
  function PromoteConfidence(current: Confidence, incoming: Confidence): (r: Confidence)
    ensures Tier(r) >= Tier(current) && Tier(r) >= Tier(incoming)
    ensures Tier(r) == Tier(current) ==> current == Validated
  {
    var better := if Tier(current) < Tier(incoming) then Tier(incoming) else Tier(current);
    OfTier(if better + 1 < 2 then better + 1 else 2)
  }

  function LaterReview(current: Option<int>, incoming: int): int {
    if current.None? || incoming > current.value then incoming else current.value
  }

  function Merged(existing: Learning, payload: Payload): Learning {
    existing.(evidence := MergedEvidence([], existing.evidence + payload.evidence),
              confidence := PromoteConfidence(existing.confidence, payload.confidence),
              reviewDate := Some(LaterReview(existing.reviewDate, payload.reviewDate)))
  }

  // ----- steps

  /** An explicit answer to a dedupe suggestion. */
  datatype Answer = Answer(accept: bool, matched: nat)

  datatype Op =
    | Edit(draft: int, payload: Payload)
    | RejectDraft(draft: int, reason: string)
    | Confirm(draft: int, answer: Option<Answer>)
    | Supersede(older: nat, newer: nat, reason: string)
    | Expire(learning: nat, reason: string)

  function PendingDraft(l: Ledger, id: int): Result<Draft, Error> {
    if id !in l.drafts then Err(NotFound)
    else if l.drafts[id].status != Pending then Err(NotPending)
    else Ok(l.drafts[id])
  }

  function Settled(l: Ledger, id: int, learning: nat): Ledger
    requires id in l.drafts
  {
    l.(drafts := l.drafts[id := l.drafts[id].(status := ConfirmedDraft, confirmed := Some(learning), reason := None)])
  }

  function NewLearning(d: Dedupe, p: Payload): Learning {
    Learning(p.text, p.scope, Active, d.embed(p.text), p.evidence, p.confidence, Some(p.reviewDate))
  }

  function Relate(related: seq<(nat, nat)>, a: nat, b: nat): seq<(nat, nat)> {
    if (a, b) in related || (b, a) in related then related else related + [(a, b)]
  }

  /** Confirming a draft: a suggestion waits for an answer, an accepted one merges, a rejected one or none
      creates a learning, and a rejection is kept as an edge to the suggested learning. */
  function ConfirmDraft(d: Dedupe, l: Ledger, id: int, answer: Option<Answer>): Result<Ledger, Error> {
    match PendingDraft(l, id)
    case Err(e) => Err(e)
    case Ok(draft) =>
      var fresh_ := l.(learnings := l.learnings + [NewLearning(d, draft.payload)]);
      match Best(d, l.learnings, draft.payload.scope, d.embed(draft.payload.text), |l.learnings|)
      case None => if answer.Some? then Err(NoSuggestion) else Ok(Settled(fresh_, id, |l.learnings|))
      case Some(b) =>
        if answer.None? then Ok(l)
        else if answer.value.matched != b || b >= |l.learnings| then Err(Stale)
        else if answer.value.accept then
          Ok(Settled(l.(learnings := l.learnings[b := Merged(l.learnings[b], draft.payload)]), id, b))
        else Ok(Settled(fresh_.(related := Relate(l.related, |l.learnings|, b)), id, |l.learnings|))
  }

  function ReplacementOf(replacements: seq<Replacement>, older: nat): Option<nat> {
    if replacements == [] then None
    else if replacements[0].older == older then Some(replacements[0].newer)
    else ReplacementOf(replacements[1..], older)
  }

  /** An existing edge keeps its place and takes the new reason. */
  function WithEdge(replacements: seq<Replacement>, older: nat, newer: nat, reason: string): seq<Replacement> {
    if replacements == [] then [Replacement(older, newer, reason)]
    else if replacements[0].older == older && replacements[0].newer == newer then
      [replacements[0].(reason := reason)] + replacements[1..]
    else [replacements[0]] + WithEdge(replacements[1..], older, newer, reason)
  }

  function SupersedeLearning(l: Ledger, older: nat, newer: nat, reason: string): Result<Ledger, Error> {
    if Blank(reason) then Err(BlankReason)
    else if older == newer then Err(SameLearning)
    else if older >= |l.learnings| || newer >= |l.learnings| then Err(NotFound)
    else if l.learnings[newer].status != Active then Err(NotActive)
    else if l.learnings[older].status == Expired then Err(AlreadyExpired)
    else
      var existing := ReplacementOf(l.replacements, older);
      if existing.Some? && existing.value != newer then Err(AlreadyReplaced)
      else Ok(l.(learnings := l.learnings[older := l.learnings[older].(status := Superseded)],
                 replacements := WithEdge(l.replacements, older, newer, Strip(reason))))
  }

  function Attempt(d: Dedupe, l: Ledger, op: Op): Result<Ledger, Error> {
    match op
    case Edit(id, payload) =>
      (match PendingDraft(l, id)
       case Err(e) => Err(e)
       case Ok(draft) => Ok(l.(drafts := l.drafts[id := draft.(payload := payload)])))
    case RejectDraft(id, reason) =>
      (match PendingDraft(l, id)
       case Err(e) => Err(e)
       case Ok(draft) => Ok(l.(drafts := l.drafts[id := draft.(status := RejectedDraft, reason := Some(reason))])))
    case Confirm(id, answer) => ConfirmDraft(d, l, id, answer)
    case Supersede(older, newer, reason) => SupersedeLearning(l, older, newer, reason)
    case Expire(learning, reason) =>
      if Blank(reason) then Err(BlankReason)
      else if learning >= |l.learnings| then Err(NotFound)
      else Ok(l.(learnings := l.learnings[learning := l.learnings[learning].(status := Expired)]))
  }

  /** A request that fails changes nothing. */
  function Apply(d: Dedupe, l: Ledger, op: Op): Ledger {
    match Attempt(d, l, op) case Ok(next) => next case Err(_) => l
  }

  function ApplyAll(d: Dedupe, l: Ledger, ops: seq<Op>): Ledger
    decreases ops
  {
    if ops == [] then l else ApplyAll(d, Apply(d, l, ops[0]), ops[1..])
  }

  // ----- what one request does

  ghost predicate Listed(items: seq<string>, x: string) {
    x != "" && exists item :: item in items && Strip(item) == x
  }

  /** The evidence holds exactly the stripped nonblank items of both lists, each once. */
  ghost predicate HoldsBoth(evidence: seq<string>, existing: seq<string>, incoming: seq<string>) {
    && (forall x :: x in evidence <==> Listed(existing, x) || Listed(incoming, x))
    && (forall i, j :: 0 <= i < j < |evidence| ==> evidence[i] != evidence[j])
  }

  lemma MergedHoldsBoth(existing: seq<string>, incoming: seq<string>)
    ensures HoldsBoth(MergedEvidence([], existing + incoming), existing, incoming)
  {
    var all := existing + incoming;
    MergedMembers([], all);
    forall x ensures x in MergedEvidence([], all) <==> Listed(existing, x) || Listed(incoming, x) {
      assert Listed(all, x) <==> Listed(existing, x) || Listed(incoming, x);
    }
  }

  /** The draft is confirmed into the learning; its payload and every other draft stay as they were. */
  ghost predicate ConfirmedInto(l: Ledger, next: Ledger, id: int, learning: nat) {
    && id in l.drafts && next.drafts.Keys == l.drafts.Keys
    && next.drafts[id] == Draft(ConfirmedDraft, l.drafts[id].payload, None, Some(learning))
    && forall k :: k in l.drafts && k != id ==> next.drafts[k] == l.drafts[k]
  }

  /** An accepted confirmation loses nothing of its draft: the matched learning holds the evidence of both, one tier
      more of confidence than the better of the two and the later review date; no learning is added, and no other
      part of the ledger changes but the draft. */
  lemma AcceptedConfirmation(d: Dedupe, l: Ledger, id: int, matched: nat)
    requires id in l.drafts && l.drafts[id].status == Pending
    requires var p := l.drafts[id].payload;
             Best(d, l.learnings, p.scope, d.embed(p.text), |l.learnings|) == Some(matched)
    ensures var p, next := l.drafts[id].payload, Apply(d, l, Confirm(id, Some(Answer(true, matched))));
            && matched < |l.learnings| == |next.learnings| && ConfirmedInto(l, next, id, matched)
            && next.related == l.related && next.replacements == l.replacements
            && (forall i :: 0 <= i < |l.learnings| && i != matched ==> next.learnings[i] == l.learnings[i])
            && var (was, now) := (l.learnings[matched], next.learnings[matched]);
               && HoldsBoth(now.evidence, was.evidence, p.evidence)
               && Tier(now.confidence) == Least(Greatest(Tier(was.confidence), Tier(p.confidence)) + 1, Tier(Validated))
               && now.reviewDate
                  == Some(if was.reviewDate == None then p.reviewDate else Greatest(was.reviewDate.value, p.reviewDate))
               && now.text == was.text && now.scope == was.scope && now.status == was.status
               && now.embedding == was.embedding
  {
    var p := l.drafts[id].payload;
    BestIsBest(d, l.learnings, p.scope, d.embed(p.text), |l.learnings|);
    MergedHoldsBoth(l.learnings[matched].evidence, p.evidence);
  }

  function Greatest(a: int, b: int): int { if a < b then b else a }

  function Least(a: int, b: int): int { if a < b then a else b }

  /** Every other outcome of a confirmation. Without a candidate and without an answer the draft becomes a learning of
      its own; with a candidate it waits for an answer, and a rejected merge adds the learning and one edge between
      the two. Anything else is refused and changes nothing. */
  lemma OtherConfirmations(d: Dedupe, l: Ledger, id: int, answer: Option<Answer>)
    requires id in l.drafts && l.drafts[id].status == Pending && (answer.Some? ==> !answer.value.accept)
    ensures var p, next := l.drafts[id].payload, Apply(d, l, Confirm(id, answer));
            var best := Best(d, l.learnings, p.scope, d.embed(p.text), |l.learnings|);
            if (if answer == None then best == None else best == Some(answer.value.matched)) then
              && next.learnings == l.learnings + [Learning(p.text, p.scope, Active, d.embed(p.text), p.evidence,
                                                           p.confidence, Some(p.reviewDate))]
              && ConfirmedInto(l, next, id, |l.learnings|) && next.replacements == l.replacements
              && (forall e :: e in next.related
                    <==> e in l.related
                         || (answer.Some? && e == (|l.learnings|, answer.value.matched)
                             && (answer.value.matched, |l.learnings|) !in l.related))
            else next == l
  {
    var p := l.drafts[id].payload;
    BestIsBest(d, l.learnings, p.scope, d.embed(p.text), |l.learnings|);
  }

  /** An answer that names another learning than the suggested one, or none, is refused, and so is any request on a
      draft that is missing or settled. */
  lemma RefusedRequests(d: Dedupe, l: Ledger, op: Op)
    requires op.Edit? || op.RejectDraft? || op.Confirm?
    ensures op.draft !in l.drafts ==> Attempt(d, l, op) == Err(NotFound) && Apply(d, l, op) == l
    ensures op.draft in l.drafts && l.drafts[op.draft].status != Pending ==>
              Attempt(d, l, op) == Err(NotPending) && Apply(d, l, op) == l
    ensures op.Confirm? && op.answer.Some? && op.draft in l.drafts && l.drafts[op.draft].status == Pending ==>
              var p := l.drafts[op.draft].payload;
              match Best(d, l.learnings, p.scope, d.embed(p.text), |l.learnings|)
              case None => Attempt(d, l, op) == Err(NoSuggestion) && Apply(d, l, op) == l
              case Some(b) =>
                op.answer.value.matched != b ==> Attempt(d, l, op) == Err(Stale) && Apply(d, l, op) == l
  {
  }

  /** Editing replaces the payload of a pending draft, rejecting settles it; neither touches anything else. */
  lemma DraftEffect(d: Dedupe, l: Ledger, op: Op)
    requires (op.Edit? || op.RejectDraft?) && op.draft in l.drafts && l.drafts[op.draft].status == Pending
    ensures var next, was := Apply(d, l, op), l.drafts[op.draft];
            && next.learnings == l.learnings && next.related == l.related && next.replacements == l.replacements
            && next.drafts
               == l.drafts[op.draft := if op.Edit? then Draft(Pending, op.payload, was.reason, was.confirmed)
                                       else Draft(RejectedDraft, was.payload, Some(op.reason), was.confirmed)]
  {
  }

  // ----- no unnoticed duplicates

  predicate Alike(d: Dedupe, a: Learning, b: Learning) {
    && a.status == Active && b.status == Active && a.scope == b.scope
    && d.similarity(a.embedding, b.embedding) >= d.threshold
  }

  /** The later learning was created against an explicit rejection of a merge, which left an edge. */
  ghost predicate RejectedMerge(l: Ledger, later: nat) {
    exists m :: (later, m) in l.related
  }

  ghost predicate Deduplicated(d: Dedupe, l: Ledger) {
    && (forall e :: e in l.related ==> e.0 < |l.learnings| && e.1 < |l.learnings|)
    && (forall i, j :: 0 <= i < j < |l.learnings| && Alike(d, l.learnings[i], l.learnings[j]) ==> RejectedMerge(l, j))
  }

  ghost predicate Symmetric(d: Dedupe) {
    forall x, y :: d.similarity(x, y) == d.similarity(y, x)
  }

  /** A step that adds no learning makes none active, alike or unrelated that was not. */
  ghost predicate OnlySettles(l: Ledger, next: Ledger) {
    && |next.learnings| == |l.learnings| && next.related == l.related
    && forall i :: 0 <= i < |l.learnings| ==>
         && next.learnings[i].scope == l.learnings[i].scope && next.learnings[i].embedding == l.learnings[i].embedding
         && (next.learnings[i].status == Active ==> l.learnings[i].status == Active)
  }

  lemma SettlingKeepsDeduplicated(d: Dedupe, l: Ledger, next: Ledger)
    requires Deduplicated(d, l) && OnlySettles(l, next)
    ensures Deduplicated(d, next)
  {
    forall i, j | 0 <= i < j < |next.learnings| && Alike(d, next.learnings[i], next.learnings[j])
      ensures RejectedMerge(next, j)
    {
      assert Alike(d, l.learnings[i], l.learnings[j]);
      var m :| (j, m) in l.related;
      assert (j, m) in next.related;
    }
  }

  /** A new learning is unlike every active one, or carries the edge of a rejected merge. */
  lemma CreatingKeepsDeduplicated(d: Dedupe, l: Ledger, p: Payload, rejected: Option<nat>)
    requires Symmetric(d) && Deduplicated(d, l)
    requires rejected.Some? ==> rejected.value < |l.learnings|
    requires rejected.None? ==> Best(d, l.learnings, p.scope, d.embed(p.text), |l.learnings|) == None
    ensures var related := if rejected.Some? then Relate(l.related, |l.learnings|, rejected.value) else l.related;
            Deduplicated(d, l.(learnings := l.learnings + [NewLearning(d, p)], related := related))
  {
    var n := |l.learnings|;
    var related := if rejected.Some? then Relate(l.related, n, rejected.value) else l.related;
    var next := l.(learnings := l.learnings + [NewLearning(d, p)], related := related);
    if rejected.Some? { assert (n, rejected.value) in related; }
    BestIsBest(d, l.learnings, p.scope, d.embed(p.text), n);
    forall i, j | 0 <= i < j < |next.learnings| && Alike(d, next.learnings[i], next.learnings[j])
      ensures RejectedMerge(next, j)
    {
      if j < n {
        assert Alike(d, l.learnings[i], l.learnings[j]);
        var m :| (j, m) in l.related;
        assert (j, m) in next.related;
      } else if rejected.None? {
        assert Candidate(d, l.learnings[i], p.scope, d.embed(p.text));
      }
    }
  }

  lemma ConfirmKeepsDeduplicated(d: Dedupe, l: Ledger, id: int, answer: Option<Answer>)
    requires Symmetric(d) && Deduplicated(d, l) && ConfirmDraft(d, l, id, answer).Ok?
    ensures Deduplicated(d, ConfirmDraft(d, l, id, answer).value)
  {
    var p := l.drafts[id].payload;
    var best := Best(d, l.learnings, p.scope, d.embed(p.text), |l.learnings|);
    BestIsBest(d, l.learnings, p.scope, d.embed(p.text), |l.learnings|);
    var next := ConfirmDraft(d, l, id, answer).value;
    if best.None? {
      CreatingKeepsDeduplicated(d, l, p, None);
      SettlingKeepsDeduplicated(d, l.(learnings := l.learnings + [NewLearning(d, p)]), next);
    } else if answer.Some? && !answer.value.accept {
      CreatingKeepsDeduplicated(d, l, p, best);
    } else {
      SettlingKeepsDeduplicated(d, l, next);
    }
  }

  lemma DeduplicatedStep(d: Dedupe, l: Ledger, op: Op)
    requires Symmetric(d) && Deduplicated(d, l)
    ensures Deduplicated(d, Apply(d, l, op))
  {
    if op.Confirm? {
      if ConfirmDraft(d, l, op.draft, op.answer).Ok? { ConfirmKeepsDeduplicated(d, l, op.draft, op.answer); }
    } else {
      SettlingKeepsDeduplicated(d, l, Apply(d, l, op));
    }
  }

  /** In every run of draft review, superseding and expiring, of two active learnings of one scope that are
      similar to the threshold the later one was created by an explicit rejection of a merge. */
  lemma {:induction false} NoUnnoticedDuplicates(d: Dedupe, l: Ledger, ops: seq<Op>)
    requires Symmetric(d) && Deduplicated(d, l)
    ensures Deduplicated(d, ApplyAll(d, l, ops))
    decreases ops
  {
    if ops == [] {
    } else {
      DeduplicatedStep(d, l, ops[0]);
      NoUnnoticedDuplicates(d, Apply(d, l, ops[0]), ops[1..]);
    }
  }

  /** A draft is settled once: confirmed or rejected, it never changes again. */
  lemma {:induction false} SettledDraftsStay(d: Dedupe, l: Ledger, ops: seq<Op>, id: int)
    requires id in l.drafts && l.drafts[id].status != Pending
    ensures var after := ApplyAll(d, l, ops); id in after.drafts && after.drafts[id] == l.drafts[id]
    decreases ops
  {
    if ops == [] {
    } else {
      SettledDraftsStay(d, Apply(d, l, ops[0]), ops[1..], id);
    }
  }

  // ----- replacements

  ghost function PairsOf(replacements: seq<Replacement>): Arcs<nat> {
    set r | r in replacements :: (r.older, r.newer)
  }

  ghost function ReplacementArcs(l: Ledger): Arcs<nat> { PairsOf(l.replacements) }

  /** Each learning is replaced at most once, never while active, and chains follow the order of the edges. */
  ghost predicate Linear(l: Ledger) {
    && (forall i :: 0 <= i < |l.replacements| ==>
          && l.replacements[i].older < |l.learnings| && l.replacements[i].newer < |l.learnings|
          && l.replacements[i].older != l.replacements[i].newer
          && l.learnings[l.replacements[i].older].status != Active)
    && (forall i, j :: 0 <= i < j < |l.replacements| ==> l.replacements[i].older != l.replacements[j].older)
    && (forall i, j ::
          && 0 <= i < |l.replacements| && 0 <= j < |l.replacements|
          && l.replacements[i].newer == l.replacements[j].older
          ==> i < j)
  }

  lemma {:induction false} ReplacementFound(replacements: seq<Replacement>, older: nat)
    ensures match ReplacementOf(replacements, older)
            case None => forall i :: 0 <= i < |replacements| ==> replacements[i].older != older
            case Some(newer) =>
              exists i :: 0 <= i < |replacements| && replacements[i].older == older && replacements[i].newer == newer
  {
    if replacements == [] {
    } else {
      ReplacementFound(replacements[1..], older);
      if replacements[0].older != older && ReplacementOf(replacements[1..], older).Some? {
        var newer := ReplacementOf(replacements[1..], older).value;
        var i :| 0 <= i < |replacements[1..]| && replacements[1..][i].older == older
            && replacements[1..][i].newer == newer;
        assert replacements[i + 1].older == older && replacements[i + 1].newer == newer;
      }
      assert forall i :: 1 <= i < |replacements| ==> replacements[i] == replacements[1..][i - 1];
    }
  }

  /** Adding an edge that exists changes only its reason; otherwise it goes to the end. */
  lemma {:induction false} EdgeAdded(replacements: seq<Replacement>, older: nat, newer: nat, reason: string)
    ensures var after := WithEdge(replacements, older, newer, reason);
            var there :=
              exists i :: 0 <= i < |replacements| && replacements[i].older == older && replacements[i].newer == newer;
            && |after| == |replacements| + (if there then 0 else 1)
            && (forall i :: 0 <= i < |replacements| ==>
              after[i].older == replacements[i].older && after[i].newer == replacements[i].newer)
            && (!there ==> after[|replacements|] == Replacement(older, newer, reason))
  {
    if replacements == [] || (replacements[0].older == older && replacements[0].newer == newer) {
    } else {
      var rest := replacements[1..];
      EdgeAdded(rest, older, newer, reason);
      assert forall i :: 0 <= i < |rest| ==> rest[i] == replacements[i + 1];
    }
  }

  /** Learnings that stop being active, or keep their status, disturb no replacement. */
  lemma StatusesKeepLinear(l: Ledger, next: Ledger)
    requires Linear(l) && |next.learnings| >= |l.learnings| && |next.replacements| == |l.replacements|
    requires forall i :: 0 <= i < |l.learnings| && next.learnings[i].status == Active ==>
        l.learnings[i].status == Active
    requires forall i :: 0 <= i < |l.replacements| ==>
               next.replacements[i].older == l.replacements[i].older
                 && next.replacements[i].newer == l.replacements[i].newer
    ensures Linear(next)
  {
  }

  /** A new edge from an unreplaced learning, no longer active, to one that is active extends the chains. */
  lemma NewEdgeKeepsLinear(l: Ledger, r: Replacement)
    requires Linear(l) && r.older < |l.learnings| && r.newer < |l.learnings| && r.older != r.newer
    requires l.learnings[r.older].status != Active && l.learnings[r.newer].status == Active
    requires forall i :: 0 <= i < |l.replacements| ==> l.replacements[i].older != r.older
    ensures Linear(l.(replacements := l.replacements + [r]))
  {
  }

  lemma SupersedeKeepsLinear(l: Ledger, older: nat, newer: nat, reason: string)
    requires Linear(l) && SupersedeLearning(l, older, newer, reason).Ok?
    ensures Linear(SupersedeLearning(l, older, newer, reason).value)
  {
    var next := SupersedeLearning(l, older, newer, reason).value;
    var marked := l.(learnings := next.learnings);
    StatusesKeepLinear(l, marked);
    ReplacementFound(l.replacements, older);
    EdgeAdded(l.replacements, older, newer, Strip(reason));
    if |next.replacements| == |l.replacements| {
      StatusesKeepLinear(marked, next);
    } else {
      var r := Replacement(older, newer, Strip(reason));
      NewEdgeKeepsLinear(marked, r);
      StatusesKeepLinear(marked.(replacements := l.replacements + [r]), next);
    }
  }

  lemma LinearStep(d: Dedupe, l: Ledger, op: Op)
    requires Linear(l)
    ensures Linear(Apply(d, l, op))
  {
    if !op.Supersede? {
      if op.Confirm? { BestIsBestNow(d, l, op.draft); }
      StatusesKeepLinear(l, Apply(d, l, op));
    } else if SupersedeLearning(l, op.older, op.newer, op.reason).Ok? {
      SupersedeKeepsLinear(l, op.older, op.newer, op.reason);
    }
  }

  lemma BestIsBestNow(d: Dedupe, l: Ledger, id: int)
    ensures id in l.drafts ==>
              var p := l.drafts[id].payload;
              var best := Best(d, l.learnings, p.scope, d.embed(p.text), |l.learnings|);
              best.Some? ==> best.value < |l.learnings|
  {
    if id in l.drafts {
      var p := l.drafts[id].payload;
      BestIsBest(d, l.learnings, p.scope, d.embed(p.text), |l.learnings|);
    }
  }

  /** Over every run from a ledger without replacements, the replacements stay linear. */
  lemma {:induction false} ReplacementsStayLinear(d: Dedupe, l: Ledger, ops: seq<Op>)
    requires Linear(l)
    ensures Linear(ApplyAll(d, l, ops))
    decreases ops
  {
    if ops == [] {
    } else {
      LinearStep(d, l, ops[0]);
      ReplacementsStayLinear(d, Apply(d, l, ops[0]), ops[1..]);
    }
  }

  /** The place of the edge that replaces a learning, or the number of edges. */
  ghost function EdgePlace(replacements: seq<Replacement>, id: nat, from: nat): (k: nat)
    requires from <= |replacements|
    ensures from <= k <= |replacements|
    ensures k < |replacements| ==> replacements[k].older == id
    ensures forall i :: from <= i < k ==> replacements[i].older != id
    decreases |replacements| - from
  {
    if from == |replacements| || replacements[from].older == id then from else EdgePlace(replacements, id, from + 1)
  }

  /** No cycle of replacements ever forms. */
  lemma LinearIsAcyclic(l: Ledger)
    requires Linear(l)
    ensures Acyclic(ReplacementArcs(l))
  {
    var column: map<nat, int> := map id: nat | 0 <= id < |l.learnings| :: EdgePlace(l.replacements, id, 0);
    forall a, b | (a, b) in ReplacementArcs(l) ensures a in column && b in column && column[a] < column[b] {
      var r :| r in l.replacements && (r.older, r.newer) == (a, b);
      var i :| 0 <= i < |l.replacements| && l.replacements[i] == r;
      assert column[a] == i;
      assert column[b] < |l.replacements| ==> l.replacements[i].newer == l.replacements[column[b]].older;
    }
    ClimbingIsAcyclic(ReplacementArcs(l), column);
  }

  /** Follows replacements to the end of the chain, looking at edges from place `from` on. */
  ghost function Current(l: Ledger, id: nat, from: nat): nat
    requires from <= |l.replacements|
    decreases |l.replacements| - from
  {
    var k := EdgePlace(l.replacements, id, from);
    if k == |l.replacements| then id else Current(l, l.replacements[k].newer, k + 1)
  }

  /** Following replacements ends in one learning that nothing replaces, reached over the edges alone. */
  lemma {:induction false} ChainsEnd(l: Ledger, id: nat, from: nat)
    requires Linear(l) && from <= |l.replacements|
    requires forall i :: 0 <= i < from ==> l.replacements[i].older != id
    ensures var end := Current(l, id, from);
            && ReplacementOf(l.replacements, end) == None
            && (end == id || Reaches(ReplacementArcs(l), id, end))
    decreases |l.replacements| - from
  {
    var k := EdgePlace(l.replacements, id, from);
    if k == |l.replacements| {
      ReplacementFound(l.replacements, id);
    } else {
      var next := l.replacements[k].newer;
      assert l.replacements[k] in l.replacements && (id, next) in ReplacementArcs(l);
      ChainsEnd(l, next, k + 1);
      ArcReaches(ReplacementArcs(l), id, next);
      if Current(l, next, k + 1) != next { ReachesTrans(ReplacementArcs(l), id, next, Current(l, next, k + 1)); }
    }
  }

  /** What a run of supersede and expire leaves: each learning has at most one replacement, a replaced one is
      never active, there is no cycle, and every chain ends in an unreplaced learning. */
  lemma ReplacementForest(d: Dedupe, l: Ledger, ops: seq<Op>, id: nat)
    requires l.replacements == []
    ensures var after := ApplyAll(d, l, ops);
            && Acyclic(ReplacementArcs(after))
            && (forall a, b, c :: (a, b) in ReplacementArcs(after) && (a, c) in ReplacementArcs(after) ==> b == c)
            && (forall a, b :: (a, b) in ReplacementArcs(after) ==>
              a < |after.learnings| && after.learnings[a].status != Active)
            && ReplacementOf(after.replacements, Current(after, id, 0)) == None
  {
    ReplacementsStayLinear(d, l, ops);
    var after := ApplyAll(d, l, ops);
    LinearIsAcyclic(after);
    ChainsEnd(after, id, 0);
  }

  // ----- what superseding and expiring do

  ghost predicate OnlyReplacedBy(l: Ledger, older: nat, newer: nat) {
    forall r :: r in l.replacements && r.older == older ==> r.newer == newer
  }

  /** Superseding is accepted for two known learnings, the newer active, the older neither expired nor replaced by
      another. */
  lemma SupersedeAcceptedIff(d: Dedupe, l: Ledger, older: nat, newer: nat, reason: string)
    requires Linear(l)
    ensures Attempt(d, l, Supersede(older, newer, reason)).Ok?
       <==> && Strip(reason) != "" && older != newer && older < |l.learnings| && newer < |l.learnings|
            && l.learnings[newer].status == Active && l.learnings[older].status != Expired
            && OnlyReplacedBy(l, older, newer)
    ensures Attempt(d, l, Supersede(older, newer, reason)).Err? ==> Apply(d, l, Supersede(older, newer, reason)) == l
  {
    ReplacedByIff(l, older, newer);
  }

  lemma ReplacedByIff(l: Ledger, older: nat, newer: nat)
    requires forall i, j :: 0 <= i < j < |l.replacements| ==> l.replacements[i].older != l.replacements[j].older
    ensures ReplacementOf(l.replacements, older) == None || ReplacementOf(l.replacements, older) == Some(newer)
       <==> OnlyReplacedBy(l, older, newer)
  {
    ReplacementFound(l.replacements, older);
    var existing := ReplacementOf(l.replacements, older);
    if existing.Some? {
      var i :| 0 <= i < |l.replacements| && l.replacements[i].older == older
          && l.replacements[i].newer == existing.value;
      assert l.replacements[i] in l.replacements;
      forall r | r in l.replacements && r.older == older ensures r.newer == existing.value {
        var j :| 0 <= j < |l.replacements| && l.replacements[j] == r;
      }
    }
  }

  /** It marks the older learning and adds the edge to the newer one, unless that is there already; the edge carries
      the stripped reason. Nothing else changes. */
  lemma SupersedeEffect(d: Dedupe, l: Ledger, older: nat, newer: nat, reason: string)
    requires Attempt(d, l, Supersede(older, newer, reason)).Ok?
    ensures var next := Apply(d, l, Supersede(older, newer, reason));
            && next.learnings == l.learnings[older := l.learnings[older].(status := Superseded)]
            && next.drafts == l.drafts && next.related == l.related
            && ReplacementArcs(next) == ReplacementArcs(l) + {(older, newer)}
            && Replacement(older, newer, Strip(reason)) in next.replacements
  {
    EdgeArcs(l.replacements, older, newer, Strip(reason));
  }

  lemma PairsSplit(first: Replacement, rest: seq<Replacement>)
    ensures PairsOf([first] + rest) == {(first.older, first.newer)} + PairsOf(rest)
  {
  }

  lemma {:induction false} EdgeArcs(replacements: seq<Replacement>, older: nat, newer: nat, reason: string)
    ensures var after := WithEdge(replacements, older, newer, reason);
            Replacement(older, newer, reason) in after && PairsOf(after) == PairsOf(replacements) + {(older, newer)}
  {
    if replacements == [] {
      PairsSplit(Replacement(older, newer, reason), []);
      assert [Replacement(older, newer, reason)] + [] == [Replacement(older, newer, reason)];
    } else {
      var first, rest := replacements[0], replacements[1..];
      assert replacements == [first] + rest;
      PairsSplit(first, rest);
      if first.older == older && first.newer == newer {
        PairsSplit(first.(reason := reason), rest);
      } else {
        EdgeArcs(rest, older, newer, reason);
        PairsSplit(first, WithEdge(rest, older, newer, reason));
      }
    }
  }

  /** Expiring marks a known learning, whatever its status, for any reason that is not blank. */
  lemma ExpireEffect(d: Dedupe, l: Ledger, id: nat, reason: string)
    ensures Apply(d, l, Expire(id, reason))
         == if Strip(reason) != "" && id < |l.learnings|
            then Ledger(l.drafts, l.learnings[id := l.learnings[id].(status := Expired)], l.related, l.replacements)
            else l
  {
  }

  // ----- promotion

  function NextScope(scope: Scope): Option<Scope> {
    match scope case TaskScope => Some(ProjectScope) case ProjectScope => Some(GlobalScope) case GlobalScope => None
  }

  /** Promotion moves an active learning one scope up without asking the deduplicator. */
  function Promoted(l: Ledger, id: nat): Ledger
    requires id < |l.learnings| && l.learnings[id].scope != GlobalScope
  {
    l.(learnings := l.learnings[id := l.learnings[id].(scope := NextScope(l.learnings[id].scope).value)])
  }

  /** Promotion can bring two like learnings together unnoticed: it keeps the ledger deduplicated exactly when
      every learning it meets in the new scope was, like the later of the two, created by a rejected merge. */
  lemma PromotionKeepsDeduplicatedIff(d: Dedupe, l: Ledger, id: nat)
    requires Symmetric(d) && Deduplicated(d, l)
    requires id < |l.learnings| && l.learnings[id].scope != GlobalScope && l.learnings[id].status == Active
    ensures Deduplicated(d, Promoted(l, id))
       <==> forall i ::
              && 0 <= i < |l.learnings| && i != id
              && Candidate(d, l.learnings[i], Promoted(l, id).learnings[id].scope, l.learnings[id].embedding)
              ==> RejectedMerge(l, if i < id then id else i)
  {
    var next := Promoted(l, id);
    forall i | 0 <= i < |l.learnings| && i != id
      ensures Candidate(d, l.learnings[i], next.learnings[id].scope, l.learnings[id].embedding)
         <==> if i < id then Alike(d, next.learnings[i], next.learnings[id])
           else Alike(d, next.learnings[id], next.learnings[i])
    {
      assert d.similarity(l.learnings[id].embedding, l.learnings[i].embedding)
          == d.similarity(l.learnings[i].embedding, l.learnings[id].embedding);
    }
    assert forall k :: RejectedMerge(next, k) <==> RejectedMerge(l, k);
    assert forall i, j :: 0 <= i < j < |l.learnings| && i != id && j != id ==>
             (Alike(d, next.learnings[i], next.learnings[j]) <==> Alike(d, l.learnings[i], l.learnings[j]));
  }

  const DRAFTED := Payload("t", TaskScope, ["e"], Tentative, 0)

  /** Two pending drafts of one text, at task and at project scope. */
  const TWO_DRAFTS := Ledger(
    map[1 := Draft(Pending, DRAFTED, None, None), 2 := Draft(Pending, DRAFTED.(scope := ProjectScope), None, None)],
    [], [], [])

  lemma ConfirmTwoDrafts(d: Dedupe)
    ensures var l := ApplyAll(d, TWO_DRAFTS, [Confirm(1, None), Confirm(2, None)]);
            l.learnings == [NewLearning(d, DRAFTED), NewLearning(d, DRAFTED.(scope := ProjectScope))] && l.related == []
  {
    var first := Apply(d, TWO_DRAFTS, Confirm(1, None));
    assert first.learnings == [NewLearning(d, DRAFTED)] && first.drafts[2] == TWO_DRAFTS.drafts[2];
    assert Best(d, first.learnings, ProjectScope, d.embed("t"), 1) == None;
    var second := Apply(d, first, Confirm(2, None));
    assert second.learnings == first.learnings + [NewLearning(d, DRAFTED.(scope := ProjectScope))];
    assert [Confirm(1, None), Confirm(2, None)][1..] == [Confirm(2, None)] && [Confirm(2, None)][1..] == [];
  }

  /** Confirming the two drafts leaves a deduplicated ledger; promoting the first learning then breaks it. */
  lemma PromotionCanDuplicate(d: Dedupe)
    requires Symmetric(d) && d.similarity(d.embed("t"), d.embed("t")) >= d.threshold
    ensures var l := ApplyAll(d, TWO_DRAFTS, [Confirm(1, None), Confirm(2, None)]);
            && |l.learnings| == 2 && l.learnings[0].scope == TaskScope && l.learnings[0].status == Active
            && Deduplicated(d, l) && !Deduplicated(d, Promoted(l, 0))
  {
    ConfirmTwoDrafts(d);
    var next := Promoted(ApplyAll(d, TWO_DRAFTS, [Confirm(1, None), Confirm(2, None)]), 0);
    assert Alike(d, next.learnings[0], next.learnings[1]) && !RejectedMerge(next, 1);
  }
}
