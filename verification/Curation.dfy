/** Combining a revision with the package it revises. */
module Curation {
  import opened Contracts
  import opened Ordering
  import opened Wrappers

  datatype CombineError = RevisionScope | FrozenDraft | RevisionDecisions | MissingDecision

  /** The draft a dictionary keyed by note id gives for the note. */
  function FindDraft(drafts: seq<DraftNote>, id: string): Option<DraftNote> {
    if drafts == [] then None
    else
      var last := drafts[|drafts| - 1];
      if last.noteId == id then Some(last) else FindDraft(drafts[..|drafts| - 1], id)
  }

  function FindDecision(decisions: seq<CurationDecision>, id: string): Option<CurationDecision> {
    if decisions == [] then None
    else
      var last := decisions[|decisions| - 1];
      if last.noteId == id then Some(last) else FindDecision(decisions[..|decisions| - 1], id)
  }

  /** Every approved hash is the hash of that note in the package. */
  predicate Frozen(approved: map<string, string>, drafts: seq<DraftNote>) {
    forall id | id in approved ::
      FindDraft(drafts, id).Some? && FindDraft(drafts, id).value.hash == approved[id]
  }

  predicate EveryDraftDecided(package: DraftPackage) {
    forall d | d in package.drafts :: d.noteId in DecisionIds(package.decisions)
  }

  function Replaced(drafts: seq<DraftNote>, candidates: seq<DraftNote>): (r: seq<DraftNote>)
    ensures |r| == |drafts|
  {
    seq(|drafts|, i requires 0 <= i < |drafts| =>
      var found := FindDraft(candidates, drafts[i].noteId);
      if found.Some? then found.value else drafts[i])
  }

  function Redecided(
    drafts: seq<DraftNote>, previous: seq<CurationDecision>, candidates: seq<CurationDecision>)
    : (r: seq<CurationDecision>)
    requires forall d | d in drafts :: FindDecision(previous, d.noteId).Some?
    ensures |r| == |drafts|
  {
    seq(|drafts|, i requires 0 <= i < |drafts| =>
      var found := FindDecision(candidates, drafts[i].noteId);
      if found.Some? then found.value else FindDecision(previous, drafts[i].noteId).value)
  }

  /** The candidate must cover exactly the blocked notes, approved notes must still have their
      approved hash, and every blocked note needs a decision; the previous decision of every note
      is looked up even where it is then replaced. */
  function CombineRevision(
    approved: map<string, string>, previous: DraftPackage, blocked: seq<string>, candidate: DraftPackage)
    : Result<DraftPackage, CombineError>
  {
    if Items(DraftIds(candidate.drafts)) != Items(blocked) then Failure(RevisionScope)
    else if !Frozen(approved, previous.drafts) then Failure(FrozenDraft)
    else if exists id | id in blocked :: id !in DecisionIds(candidate.decisions) then Failure(RevisionDecisions)
    else if exists d | d in previous.drafts :: FindDecision(previous.decisions, d.noteId).None? then
      Failure(MissingDecision)
    else
      Success(DraftPackage(
                previous.runId,
                Replaced(previous.drafts, candidate.drafts),
                Redecided(previous.drafts, previous.decisions, candidate.decisions),
                if candidate.retrieval != [] then candidate.retrieval else previous.retrieval))
  }

  // ----- Lookups -----

  lemma {:induction false} FindDraftFinds(drafts: seq<DraftNote>, id: string)
    ensures FindDraft(drafts, id).Some? <==> id in DraftIds(drafts)
    ensures FindDraft(drafts, id).Some? ==>
              FindDraft(drafts, id).value in drafts && FindDraft(drafts, id).value.noteId == id
  {
    if drafts != [] {
      var last := |drafts| - 1;
      FindDraftFinds(drafts[..last], id);
      assert DraftIds(drafts) == DraftIds(drafts[..last]) + [drafts[last].noteId];
    }
  }

  /** With unique note ids the dictionary entry of a draft is that draft. */
  lemma {:induction false} FindDraftAt(drafts: seq<DraftNote>, i: nat)
    requires UniqueDrafts(drafts) && i < |drafts|
    ensures FindDraft(drafts, drafts[i].noteId) == Some(drafts[i])
  {
    if i < |drafts| - 1 {
      FindDraftAt(drafts[..|drafts| - 1], i);
    }
  }

  lemma {:induction false} FindDecisionFinds(decisions: seq<CurationDecision>, id: string)
    ensures FindDecision(decisions, id).Some? <==> id in DecisionIds(decisions)
    ensures FindDecision(decisions, id).Some? ==> FindDecision(decisions, id).value.noteId == id
  {
    if decisions != [] {
      var last := |decisions| - 1;
      FindDecisionFinds(decisions[..last], id);
      assert decisions == decisions[..last] + [decisions[last]];
    }
  }

  // ----- What combining keeps -----

  /** The note ids keep their order, so they stay unique. */
  lemma ReplacedKeepsIds(drafts: seq<DraftNote>, candidates: seq<DraftNote>)
    ensures DraftIds(Replaced(drafts, candidates)) == DraftIds(drafts)
    ensures UniqueDrafts(drafts) ==> UniqueDrafts(Replaced(drafts, candidates))
  {
    var r := Replaced(drafts, candidates);
    forall i | 0 <= i < |drafts| ensures r[i].noteId == drafts[i].noteId {
      FindDraftFinds(candidates, drafts[i].noteId);
    }
  }

  /** A note outside the candidate keeps its draft; a note of the candidate gets the new one. */
  lemma ReplacedNote(drafts: seq<DraftNote>, candidates: seq<DraftNote>, id: string)
    requires UniqueDrafts(drafts) && id in DraftIds(drafts)
    ensures FindDraft(Replaced(drafts, candidates), id)
         == if id in DraftIds(candidates) then FindDraft(candidates, id) else FindDraft(drafts, id)
  {
    hide FindDraft;
    var i :| 0 <= i < |drafts| && DraftIds(drafts)[i] == id;
    ReplacedKeepsIds(drafts, candidates);
    var r := Replaced(drafts, candidates);
    assert r[i].noteId == DraftIds(r)[i];
    FindDraftAt(drafts, i);
    FindDraftAt(r, i);
    FindDraftFinds(candidates, id);
  }

  lemma CombineKeeps(
    approved: map<string, string>, previous: DraftPackage, blocked: seq<string>, candidate: DraftPackage)
    requires CombineRevision(approved, previous, blocked, candidate).Success? && UniqueDrafts(previous.drafts)
    ensures var package := CombineRevision(approved, previous, blocked, candidate).value;
      && DraftIds(package.drafts) == DraftIds(previous.drafts) && UniqueDrafts(package.drafts)
      && EveryDraftDecided(package) && package.runId == previous.runId
  {
    hide UniqueDrafts, FindDecision, FindDraft;
    var package := CombineRevision(approved, previous, blocked, candidate).value;
    ReplacedKeepsIds(previous.drafts, candidate.drafts);
    forall i | 0 <= i < |package.drafts|
      ensures package.drafts[i].noteId in DecisionIds(package.decisions)
    {
      assert package.drafts[i].noteId == DraftIds(package.drafts)[i] == previous.drafts[i].noteId;
      FindDecisionFinds(candidate.decisions, previous.drafts[i].noteId);
      FindDecisionFinds(previous.decisions, previous.drafts[i].noteId);
      assert package.decisions[i].noteId == package.drafts[i].noteId;
      assert package.decisions[i] in package.decisions;
    }
  }

  lemma CombineFreezes(
    approved: map<string, string>, previous: DraftPackage, blocked: seq<string>, candidate: DraftPackage)
    requires CombineRevision(approved, previous, blocked, candidate).Success? && UniqueDrafts(previous.drafts)
    requires forall id | id in approved :: id !in blocked
    ensures Frozen(approved, CombineRevision(approved, previous, blocked, candidate).value.drafts)
  {
    hide UniqueDrafts, FindDecision, FindDraft, Replaced, Redecided;
    forall id | id in approved
      ensures var d := FindDraft(Replaced(previous.drafts, candidate.drafts), id);
        d.Some? && d.value.hash == approved[id]
    {
      FindDraftFinds(previous.drafts, id);
      ReplacedNote(previous.drafts, candidate.drafts, id);
      assert id in Items(blocked) <==> id in blocked;
      assert id in Items(DraftIds(candidate.drafts)) <==> id in DraftIds(candidate.drafts);
    }
  }

  // ----- What combining accepts and gives -----

  /** A revision is accepted exactly when it covers the blocked notes and no other, every approved
      note still has a draft with the approved hash, and every blocked note and every note of the
      previous package has a decision there. */
  lemma CombineAcceptedIff(
    approved: map<string, string>, previous: DraftPackage, blocked: seq<string>, candidate: DraftPackage)
    requires UniqueDrafts(previous.drafts)
    ensures CombineRevision(approved, previous, blocked, candidate).Success? <==>
      && (forall id :: id in DraftIds(candidate.drafts) <==> id in blocked)
      && (forall id | id in approved ::
            exists d | d in previous.drafts :: d.noteId == id && d.hash == approved[id])
      && (forall id | id in blocked :: id in DecisionIds(candidate.decisions))
      && (forall d | d in previous.drafts :: d.noteId in DecisionIds(previous.decisions))
  {
    hide FindDraft, FindDecision, DecisionIds, UniqueDrafts, Replaced, Redecided, DraftIds;
    SameItemsIff(DraftIds(candidate.drafts), blocked);
    FrozenIff(approved, previous.drafts);
    forall d | d in previous.drafts
      ensures FindDecision(previous.decisions, d.noteId).None? <==> d.noteId !in DecisionIds(previous.decisions)
    {
      FindDecisionFinds(previous.decisions, d.noteId);
    }
  }

  /** Why a revision is refused: for its scope, or else for an approved note without the approved hash,
      or else for a blocked note that it does not decide, or else for a previous note never decided. */
  lemma CombineRefusalIs(
    approved: map<string, string>, previous: DraftPackage, blocked: seq<string>, candidate: DraftPackage)
    requires UniqueDrafts(previous.drafts)
    requires CombineRevision(approved, previous, blocked, candidate).Failure?
    ensures var error := CombineRevision(approved, previous, blocked, candidate).error;
      var covers := forall id :: id in DraftIds(candidate.drafts) <==> id in blocked;
      var frozen := forall id | id in approved ::
        exists d | d in previous.drafts :: d.noteId == id && d.hash == approved[id];
      var decides := forall id | id in blocked :: id in DecisionIds(candidate.decisions);
      && (error == RevisionScope <==> !covers)
      && (error == FrozenDraft <==> covers && !frozen)
      && (error == RevisionDecisions <==> covers && frozen && !decides)
      && (error == MissingDecision <==> covers && frozen && decides)
  {
    hide FindDraft, FindDecision, DecisionIds, UniqueDrafts, Replaced, Redecided, DraftIds;
    SameItemsIff(DraftIds(candidate.drafts), blocked);
    FrozenIff(approved, previous.drafts);
  }

  lemma SameItemsIff(a: seq<string>, b: seq<string>)
    ensures Items(a) == Items(b) <==> forall id :: id in a <==> id in b
  {
    assert forall id :: id in a <==> id in Items(a);
    assert forall id :: id in b <==> id in Items(b);
  }

  lemma FrozenIff(approved: map<string, string>, drafts: seq<DraftNote>)
    requires UniqueDrafts(drafts)
    ensures Frozen(approved, drafts) <==>
      forall id | id in approved :: exists d | d in drafts :: d.noteId == id && d.hash == approved[id]
  {
    hide FindDraft;
    forall id | id in approved
      ensures (FindDraft(drafts, id).Some? && FindDraft(drafts, id).value.hash == approved[id]) <==>
        exists d | d in drafts :: d.noteId == id && d.hash == approved[id]
    {
      FindDraftFinds(drafts, id);
      if d :| d in drafts && d.noteId == id && d.hash == approved[id] {
        var i :| 0 <= i < |drafts| && drafts[i] == d;
        FindDraftAt(drafts, i);
      }
    }
  }

  /** The decision that counts for its note: no later one is about the same note. */
  ghost predicate IsLastDecision(decisions: seq<CurationDecision>, d: CurationDecision) {
    exists i | 0 <= i < |decisions| ::
      decisions[i] == d && forall k | i < k < |decisions| :: decisions[k].noteId != d.noteId
  }

  lemma {:induction false} FoundIsLast(decisions: seq<CurationDecision>, id: string)
    requires FindDecision(decisions, id).Some?
    ensures IsLastDecision(decisions, FindDecision(decisions, id).value)
  {
    var last := |decisions| - 1;
    if decisions[last].noteId != id {
      FoundIsLast(decisions[..last], id);
      FindDecisionFinds(decisions[..last], id);
      var d := FindDecision(decisions, id).value;
      var i :| 0 <= i < last && decisions[..last][i] == d
        && forall k | i < k < last :: decisions[..last][k].noteId != d.noteId;
      assert decisions[i] == d;
      forall k | i < k < |decisions| ensures decisions[k].noteId != d.noteId {
        if k < last {
          assert decisions[..last][k] == decisions[k];
        }
      }
    }
  }

  /** Position by position, for the note at that position of the previous package: the candidate's
      draft or, if it has none, the previous one; the candidate's last decision, whether the note was
      blocked or not, or the previous one. The retrieval references are the candidate's, if any. */
  lemma CombinedNote(
    approved: map<string, string>, previous: DraftPackage, blocked: seq<string>, candidate: DraftPackage, i: nat)
    requires CombineRevision(approved, previous, blocked, candidate).Success?
    requires UniqueDrafts(candidate.drafts) && i < |previous.drafts|
    ensures var package := CombineRevision(approved, previous, blocked, candidate).value;
      var id := previous.drafts[i].noteId;
      && |package.drafts| == |package.decisions| == |previous.drafts|
      && package.drafts[i].noteId == package.decisions[i].noteId == id
      && (if id in blocked then package.drafts[i] in candidate.drafts else package.drafts[i] == previous.drafts[i])
      && IsLastDecision(
           if id in DecisionIds(candidate.decisions) then candidate.decisions else previous.decisions,
           package.decisions[i])
      && package.retrieval == (if candidate.retrieval == [] then previous.retrieval else candidate.retrieval)
  {
    hide FindDraft, FindDecision, IsLastDecision, DecisionIds, Frozen;
    var id := previous.drafts[i].noteId;
    SameItemsIff(DraftIds(candidate.drafts), blocked);
    FindDraftFinds(candidate.drafts, id);
    FindDecisionFinds(candidate.decisions, id);
    FindDecisionFinds(previous.decisions, id);
    if FindDecision(candidate.decisions, id).Some? {
      FoundIsLast(candidate.decisions, id);
    } else {
      FoundIsLast(previous.decisions, id);
    }
  }

  /** Unlike its draft, the decision of a note that is not blocked is not frozen: an accepted revision
      can decide it anew, whether it was approved or not. */
  lemma OtherDecisionsCanChange(
    approved: map<string, string>, previous: DraftPackage, blocked: seq<string>, i: nat, action: CurationAction)
    returns (candidate: DraftPackage)
    requires UniqueDrafts(previous.drafts) && EveryDraftDecided(previous) && Frozen(approved, previous.drafts)
    requires forall id | id in blocked :: id in DraftIds(previous.drafts)
    requires i < |previous.drafts| && previous.drafts[i].noteId !in blocked
    ensures ValidPackage(candidate)
    ensures CombineRevision(approved, previous, blocked, candidate).Success?
    ensures var package := CombineRevision(approved, previous, blocked, candidate).value;
      package.drafts[i] == previous.drafts[i] && package.decisions[i].action == action
  {
    hide FindDraft, FindDecision, DecisionIds, UniqueDrafts, Replaced, Redecided, DraftIds, Rewritten, Frozen,
      IsLastDecision, CombineRevision;
    var drafts := Rewritten(previous.drafts, blocked, "");
    RewrittenCovers(previous.drafts, blocked, "");
    var id := previous.drafts[i].noteId;
    var decisions := DecisionsFor(drafts) + [CurationDecision(id, action, "again")];
    candidate := DraftPackage(previous.runId, drafts, decisions, []);
    FrozenIff(approved, previous.drafts);
    EveryDraftHasDecision(drafts, decisions);
    CombineAcceptedIff(approved, previous, blocked, candidate);
    CombinedNote(approved, previous, blocked, candidate, i);
    LastIsLast(DecisionsFor(drafts), CurationDecision(id, action, "again"));
  }

  lemma EveryDraftHasDecision(drafts: seq<DraftNote>, decisions: seq<CurationDecision>)
    requires DecisionsFor(drafts) <= decisions
    ensures forall id | id in DraftIds(drafts) :: id in DecisionIds(decisions)
  {
    forall id | id in DraftIds(drafts) ensures id in DecisionIds(decisions) {
      var k :| 0 <= k < |drafts| && DraftIds(drafts)[k] == id;
      assert decisions[k] == DecisionsFor(drafts)[k] && decisions[k] in decisions;
    }
  }

  /** Nothing but an appended decision is the last about its note. */
  lemma LastIsLast(decisions: seq<CurationDecision>, d: CurationDecision)
    ensures d.noteId in DecisionIds(decisions + [d])
    ensures forall e | IsLastDecision(decisions + [d], e) && e.noteId == d.noteId :: e == d
  {
    var all := decisions + [d];
    assert all[|decisions|] == d && d in all;
    forall e | IsLastDecision(all, e) && e.noteId == d.noteId ensures e == d {
      var i :| 0 <= i < |all| && all[i] == e && forall k | i < k < |all| :: all[k].noteId != e.noteId;
    }
  }

  // ----- When approvals survive -----

  /** The drafts of the blocked notes with another hash, and a decision for each. */
  function Rewritten(drafts: seq<DraftNote>, blocked: seq<string>, hash: string): seq<DraftNote> {
    if drafts == [] then []
    else
      var rest, last := Rewritten(drafts[..|drafts| - 1], blocked, hash), drafts[|drafts| - 1];
      if last.noteId in blocked then rest + [last.(hash := hash)] else rest
  }

  function OtherHash(hash: string): (other: string)
    ensures other != hash && |other| == 64
  {
    var zeros, ones := seq(64, _ => '0'), seq(64, _ => '1');
    assert zeros[0] != ones[0];
    if hash == zeros then ones else zeros
  }

  function DecisionsFor(drafts: seq<DraftNote>): seq<CurationDecision> {
    seq(|drafts|, i requires 0 <= i < |drafts| => CurationDecision(drafts[i].noteId, Create, "revised"))
  }

  lemma {:induction false} RewrittenCovers(drafts: seq<DraftNote>, blocked: seq<string>, hash: string)
    ensures forall id :: id in DraftIds(Rewritten(drafts, blocked, hash)) <==> id in DraftIds(drafts) && id in blocked
    ensures forall d | d in Rewritten(drafts, blocked, hash) :: d.hash == hash
    ensures UniqueDrafts(drafts) ==> UniqueDrafts(Rewritten(drafts, blocked, hash))
  {
    var revised := Rewritten(drafts, blocked, hash);
    if drafts != [] {
      var last := |drafts| - 1;
      var rest := Rewritten(drafts[..last], blocked, hash);
      RewrittenCovers(drafts[..last], blocked, hash);
      assert DraftIds(drafts) == DraftIds(drafts[..last]) + [drafts[last].noteId];
      assert drafts[last].noteId in blocked ==> DraftIds(revised) == DraftIds(rest) + [drafts[last].noteId];
      assert UniqueDrafts(drafts) ==> UniqueDrafts(drafts[..last]);
      assert UniqueDrafts(drafts) ==> drafts[last].noteId !in DraftIds(drafts[..last]);
      assert forall i | 0 <= i < |rest| :: rest[i].noteId in DraftIds(rest) by {
        assert forall i | 0 <= i < |rest| :: DraftIds(rest)[i] == rest[i].noteId;
      }
    }
  }

  ghost predicate ApprovalsAlwaysSurvive(
    approved: map<string, string>, previous: DraftPackage, blocked: seq<string>)
  {
    forall candidate: DraftPackage |
      ValidPackage(candidate) && CombineRevision(approved, previous, blocked, candidate).Success? ::
      Frozen(approved, CombineRevision(approved, previous, blocked, candidate).value.drafts)
  }

  /** Approved hashes survive every valid revision exactly when no approved note is blocked. */
  lemma ApprovalsSurviveIff(
    approved: map<string, string>, previous: DraftPackage, blocked: seq<string>)
    requires UniqueDrafts(previous.drafts) && EveryDraftDecided(previous) && Frozen(approved, previous.drafts)
    requires forall id | id in blocked :: id in DraftIds(previous.drafts)
    ensures ApprovalsAlwaysSurvive(approved, previous, blocked) <==> forall id | id in approved :: id !in blocked
  {
    hide UniqueDrafts, FindDraft, FindDecision, Replaced, Redecided, DraftIds, CombineRevision;
    if id :| id in approved && id in blocked {
      ApprovalIsLost(approved, previous, blocked, id);
    } else {
      forall candidate: DraftPackage | CombineRevision(approved, previous, blocked, candidate).Success?
        ensures Frozen(approved, CombineRevision(approved, previous, blocked, candidate).value.drafts)
      {
        CombineFreezes(approved, previous, blocked, candidate);
      }
    }
  }

  /** A revision that rewrites a blocked note is accepted although the note was approved. */
  lemma ApprovalIsLost(
    approved: map<string, string>, previous: DraftPackage, blocked: seq<string>, id: string)
    requires UniqueDrafts(previous.drafts) && EveryDraftDecided(previous) && Frozen(approved, previous.drafts)
    requires forall id | id in blocked :: id in DraftIds(previous.drafts)
    requires id in approved && id in blocked
    ensures !ApprovalsAlwaysSurvive(approved, previous, blocked)
  {
    hide UniqueDrafts, FindDraft, FindDecision, Replaced, Redecided, DraftIds, Rewritten;
    var hash := OtherHash(approved[id]);
    var drafts := Rewritten(previous.drafts, blocked, hash);
    RewrittenCovers(previous.drafts, blocked, hash);
    var candidate := DraftPackage(previous.runId, drafts, DecisionsFor(drafts), []);
    RewritingIsAccepted(approved, previous, blocked, candidate);
    var package := CombineRevision(approved, previous, blocked, candidate).value;
    ReplacedNote(previous.drafts, drafts, id);
    FindDraftFinds(drafts, id);
    assert FindDraft(package.drafts, id) == FindDraft(drafts, id);
    assert FindDraft(drafts, id).value.hash == hash;
    assert !Frozen(approved, package.drafts);
  }

  lemma RewritingIsAccepted(
    approved: map<string, string>, previous: DraftPackage, blocked: seq<string>, candidate: DraftPackage)
    requires EveryDraftDecided(previous) && Frozen(approved, previous.drafts)
    requires forall id :: id in DraftIds(candidate.drafts) <==> id in blocked
    requires candidate.decisions == DecisionsFor(candidate.drafts)
    ensures CombineRevision(approved, previous, blocked, candidate).Success?
  {
    hide FindDraft, FindDecision, Frozen, Replaced, Redecided;
    assert Items(DraftIds(candidate.drafts)) == Items(blocked);
    forall id | id in blocked ensures id in DecisionIds(candidate.decisions) {
      var i :| 0 <= i < |candidate.drafts| && DraftIds(candidate.drafts)[i] == id;
      assert candidate.decisions[i] in candidate.decisions && candidate.decisions[i].noteId == id;
    }
    forall d | d in previous.drafts ensures FindDecision(previous.decisions, d.noteId).Some? {
      FindDecisionFinds(previous.decisions, d.noteId);
    }
  }
}
