/** The validated values the agents exchange, with the rules their contracts enforce. */
module Contracts {

  datatype CurationAction = Create | Merge | Defer | Discard

  datatype DraftStatus = Ready | PartiallyReady | EnrichmentRequired | Rejected

  datatype Recommendation = RecommendReady | RecommendPartial | RecommendEnrichment | RecommendRejection

  datatype DraftNote = DraftNote(
    noteId: string, title: string, sections: seq<(string, string)>, claims: seq<string>,
    action: CurationAction, hash: string)

  datatype CurationDecision = CurationDecision(noteId: string, action: CurationAction, rationale: string)

  datatype DraftPackage = DraftPackage(
    runId: string, drafts: seq<DraftNote>, decisions: seq<CurationDecision>, retrieval: seq<string>)

  datatype NoteReview = NoteReview(
    noteId: string, reviewedHash: string, status: DraftStatus, issues: seq<string>,
    requiredChanges: seq<string>, eligible: bool)

  datatype ReviewPackage = ReviewPackage(
    runId: string, reviews: seq<NoteReview>, blocked: seq<string>, approved: map<string, string>,
    recommendation: Recommendation)

  function DraftIds(drafts: seq<DraftNote>): (ids: seq<string>)
    ensures |ids| == |drafts|
  {
    seq(|drafts|, i requires 0 <= i < |drafts| => drafts[i].noteId)
  }

  function DecisionIds(decisions: seq<CurationDecision>): set<string> {
    set d | d in decisions :: d.noteId
  }

  function ReviewIds(reviews: seq<NoteReview>): set<string> {
    set r | r in reviews :: r.noteId
  }

  predicate UniqueDrafts(drafts: seq<DraftNote>) {
    forall i, j | 0 <= i < j < |drafts| :: drafts[i].noteId != drafts[j].noteId
  }

  predicate ValidPackage(package: DraftPackage) {
    UniqueDrafts(package.drafts)
  }

  /** The last review of a note, as a dictionary keyed by note id keeps it. */
  function LastReview(reviews: seq<NoteReview>, noteId: string): (r: NoteReview)
    requires noteId in ReviewIds(reviews)
    ensures r in reviews && r.noteId == noteId
  {
    var last := |reviews| - 1;
    if reviews[last].noteId == noteId then reviews[last] else LastReview(reviews[..last], noteId)
  }

  /** Blocked notes are reviewed; an approved hash is the reviewed hash of an eligible note. */
  predicate ValidReview(review: ReviewPackage) {
    && (forall id | id in review.blocked :: id in ReviewIds(review.reviews))
    && (forall id | id in review.approved ::
          (id in ReviewIds(review.reviews)
           && LastReview(review.reviews, id).reviewedHash == review.approved[id]
           && LastReview(review.reviews, id).eligible))
  }

  /** The contract does not rule out a note that is both approved and blocked. */
  predicate NeverBoth(review: ReviewPackage) {
    forall id | id in review.blocked :: id !in review.approved
  }
}
