/** The review and lifecycle services as they update the ledger in place
    (apps/api/src/agenticqueue_api/learnings/draft.py, dedupe.py and lifecycle.py). */
module LearningLedger {
  import opened Base
  import opened Texts
  import opened Learnings

  /** The first edge between the two learnings takes the new reason; without one the edge is appended. */
  lemma {:induction false} EdgeGoesTo(replacements: seq<Replacement>, older: nat, newer: nat, reason: string, i: nat)
    requires i <= |replacements|
    requires forall j :: 0 <= j < i ==> !(replacements[j].older == older && replacements[j].newer == newer)
    requires i < |replacements| ==> replacements[i].older == older && replacements[i].newer == newer
    ensures WithEdge(replacements, older, newer, reason)
         == if i < |replacements| then replacements[i := replacements[i].(reason := reason)]
            else replacements + [Replacement(older, newer, reason)]
    decreases i
  {
    if i == 0 {
    } else {
      EdgeGoesTo(replacements[1..], older, newer, reason, i - 1);
      assert replacements == [replacements[0]] + replacements[1..];
    }
  }

  function ErrorOf(outcome: Result<Ledger, Error>): Option<Error> {
    match outcome case Ok(_) => None case Err(e) => Some(e)
  }

  class LearningLedger {
    const dedupe: Dedupe
    var drafts: map<int, Draft>
    var learnings: seq<Learning>
    var related: seq<(nat, nat)>
    var replacements: seq<Replacement>

    ghost function State(): Ledger
      reads this
    {
      Ledger(drafts, learnings, related, replacements)
    }

    constructor (dedupe: Dedupe)
      ensures this.dedupe == dedupe && State() == Ledger(map[], [], [], [])
    {
      this.dedupe := dedupe;
      drafts, learnings, related, replacements := map[], [], [], [];
    }

    /** Why a draft cannot be changed any more, if it cannot. */
    function RequirePending(id: int): Option<Error>
      reads this
    {
      if id !in drafts then Some(NotFound) else if drafts[id].status != Pending then Some(NotPending) else None
    }

    method EditDraft(id: int, payload: Payload) returns (error: Option<Error>)
      modifies this
      ensures State() == Apply(dedupe, old(State()), Edit(id, payload))
      ensures error == ErrorOf(Attempt(dedupe, old(State()), Edit(id, payload)))
    {
      error := RequirePending(id);
      if error.None? {
        drafts := drafts[id := drafts[id].(payload := payload)];
      }
    }

    method RejectDraft(id: int, reason: string) returns (error: Option<Error>)
      modifies this
      ensures State() == Apply(dedupe, old(State()), Op.RejectDraft(id, reason))
      ensures error == ErrorOf(Attempt(dedupe, old(State()), Op.RejectDraft(id, reason)))
    {
      error := RequirePending(id);
      if error.None? {
        drafts := drafts[id := drafts[id].(status := RejectedDraft, reason := Some(reason))];
      }
    }

    method MarkConfirmed(id: int, learning: nat)
      requires id in drafts
      modifies this`drafts
      ensures State() == Settled(old(State()), id, learning)
    {
      drafts := drafts[id := drafts[id].(status := ConfirmedDraft, confirmed := Some(learning), reason := None)];
    }

    method CreateLearning(payload: Payload) returns (id: nat)
      modifies this`learnings
      ensures id == |old(learnings)| && learnings == old(learnings) + [NewLearning(dedupe, payload)]
    {
      id := |learnings|;
      learnings := learnings + [
        Learning(payload.text, payload.scope, Active, dedupe.embed(payload.text), payload.evidence,
                                         payload.confidence, Some(payload.reviewDate))];
    }

    method MergeIntoExisting(id: nat, payload: Payload)
      requires id < |learnings|
      modifies this`learnings
      ensures learnings == old(learnings)[id := Merged(old(learnings)[id], payload)]
    {
      var existing := learnings[id];
      var evidence := MergeEvidence(existing.evidence, payload.evidence);
      learnings := learnings[id := existing.(
        evidence := evidence, confidence := PromoteConfidence(existing.confidence, payload.confidence),
        reviewDate := Some(LaterReview(existing.reviewDate, payload.reviewDate)))];
    }

    method CreateRelatedEdge(a: nat, b: nat)
      modifies this`related
      ensures related == Relate(old(related), a, b)
    {
      if (a, b) !in related && (b, a) !in related {
        related := related + [(a, b)];
      }
    }

    /** Confirms a draft, or answers with the learning it should be merged with. */
    method ConfirmDraft(id: int, answer: Option<Answer>) returns (error: Option<Error>, suggestion: Option<nat>)
      modifies this
      ensures State() == Apply(dedupe, old(State()), Confirm(id, answer))
      ensures error == ErrorOf(Attempt(dedupe, old(State()), Confirm(id, answer)))
      ensures suggestion.Some? ==> State() == old(State())
    {
      suggestion := None;
      error := RequirePending(id);
      if error.Some? {
        return;
      }
      var payload := drafts[id].payload;
      var best := Suggest(dedupe, learnings, payload);
      BestIsBest(dedupe, learnings, payload.scope, dedupe.embed(payload.text), |learnings|);
      if best.None? && answer.Some? {
        return Some(NoSuggestion), None;
      }
      if best.Some? {
        if answer.None? {
          return None, best;
        }
        if answer.value.matched != best.value {
          return Some(Stale), None;
        }
        if answer.value.accept {
          MergeIntoExisting(best.value, payload);
          MarkConfirmed(id, best.value);
          return;
        }
      }
      var created := CreateLearning(payload);
      if best.Some? {
        CreateRelatedEdge(created, best.value);
      }
      MarkConfirmed(id, created);
    }

    method EnsureSupersedesEdge(older: nat, newer: nat, reason: string)
      modifies this`replacements
      ensures replacements == WithEdge(old(replacements), older, newer, reason)
    {
      for i := 0 to |replacements|
        invariant replacements == old(replacements)
        invariant forall j :: 0 <= j < i ==> !(replacements[j].older == older && replacements[j].newer == newer)
      {
        if replacements[i].older == older && replacements[i].newer == newer {
          EdgeGoesTo(replacements, older, newer, reason, i);
          replacements := replacements[i := replacements[i].(reason := reason)];
          return;
        }
      }
      EdgeGoesTo(replacements, older, newer, reason, |replacements|);
      replacements := replacements + [Replacement(older, newer, reason)];
    }

    method Supersede(older: nat, newer: nat, reason: string) returns (error: Option<Error>)
      modifies this
      ensures State() == Apply(dedupe, old(State()), Op.Supersede(older, newer, reason))
      ensures error == ErrorOf(Attempt(dedupe, old(State()), Op.Supersede(older, newer, reason)))
    {
      if Blank(reason) {
        return Some(BlankReason);
      }
      if older == newer {
        return Some(SameLearning);
      }
      if older >= |learnings| || newer >= |learnings| {
        return Some(NotFound);
      }
      if learnings[newer].status != Active {
        return Some(NotActive);
      }
      if learnings[older].status == Expired {
        return Some(AlreadyExpired);
      }
      var existing := ReplacementOf(replacements, older);
      if existing.Some? && existing.value != newer {
        return Some(AlreadyReplaced);
      }
      learnings := learnings[older := learnings[older].(status := Superseded)];
      EnsureSupersedesEdge(older, newer, Strip(reason));
      return None;
    }

    method ExpireLearning(id: nat, reason: string) returns (error: Option<Error>)
      modifies this
      ensures State() == Apply(dedupe, old(State()), Expire(id, reason))
      ensures error == ErrorOf(Attempt(dedupe, old(State()), Expire(id, reason)))
    {
      if Blank(reason) {
        return Some(BlankReason);
      }
      if id >= |learnings| {
        return Some(NotFound);
      }
      learnings := learnings[id := learnings[id].(status := Expired)];
      return None;
    }
  }
}
