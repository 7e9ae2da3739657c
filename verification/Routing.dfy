/** The review policy: what a review decides, and when a revision makes no progress. */
module Routing {
  import opened Contracts
  import opened Ordering
  import opened Wrappers

  /** The hashed payload; the hash is taken to be injective. */
  datatype Fingerprint = Fingerprint(
    blocked: seq<string>, issues: map<string, (seq<string>, seq<string>)>)

  /** The dictionary of sorted issues and changes of the blocked notes; later reviews overwrite. */
  function IssueMap(reviews: seq<NoteReview>, blocked: set<string>): map<string, (seq<string>, seq<string>)> {
    if reviews == [] then map[]
    else
      var rest, last := IssueMap(reviews[..|reviews| - 1], blocked), reviews[|reviews| - 1];
      if last.noteId in blocked then rest[last.noteId := (Sort(last.issues), Sort(last.requiredChanges))]
      else rest
  }

  function IssueFingerprint(review: ReviewPackage): Fingerprint {
    Fingerprint(SortedItems(review.blocked), IssueMap(review.reviews, Items(review.blocked)))
  }

  /** Two reviews ask for the same things: the same notes are blocked, and each for the same
      issues and required changes, in any order but as often. */
  ghost predicate SameComplaints(a: ReviewPackage, b: ReviewPackage)
    requires ValidReview(a) && ValidReview(b)
  {
    && Items(a.blocked) == Items(b.blocked)
    && forall id | id in a.blocked && id in b.blocked ::
         var ra, rb := LastReview(a.reviews, id), LastReview(b.reviews, id);
         && multiset(ra.issues) == multiset(rb.issues)
         && multiset(ra.requiredChanges) == multiset(rb.requiredChanges)
  }

  lemma {:induction false} IssueMapOf(reviews: seq<NoteReview>, blocked: set<string>, id: string)
    ensures id in IssueMap(reviews, blocked) <==> id in blocked && id in ReviewIds(reviews)
    ensures id in blocked && id in ReviewIds(reviews) ==>
              var r := LastReview(reviews, id);
              IssueMap(reviews, blocked)[id] == (Sort(r.issues), Sort(r.requiredChanges))
  {
    hide Sort;
    if reviews != [] {
      var last := |reviews| - 1;
      IssueMapOf(reviews[..last], blocked, id);
      assert reviews == reviews[..last] + [reviews[last]];
      assert id in ReviewIds(reviews) <==> id in ReviewIds(reviews[..last]) || id == reviews[last].noteId;
    }
  }

  /** Fingerprints are equal exactly when the complaints are, so reordering issues, changes, reviews
      or blocked ids is never progress, and any other change is. */
  lemma FingerprintsEqualIff(a: ReviewPackage, b: ReviewPackage)
    requires ValidReview(a) && ValidReview(b)
    ensures IssueFingerprint(a) == IssueFingerprint(b) <==> SameComplaints(a, b)
  {
    hide Sort, SortedItems, IssueMap, LastReview, Items;
    SortedItemsEqualIffSameSet(a.blocked, b.blocked);
    var ma, mb := IssueMap(a.reviews, Items(a.blocked)), IssueMap(b.reviews, Items(b.blocked));
    if Items(a.blocked) == Items(b.blocked) {
      assert forall id :: id in a.blocked <==> id in b.blocked by { ItemsAreMembers(a.blocked, b.blocked); }
      forall id ensures id in ma <==> id in a.blocked {
        BlockedIssues(a, id);
      }
      forall id ensures id in mb <==> id in b.blocked {
        BlockedIssues(b, id);
      }
      forall id | id in a.blocked ensures ma[id] == mb[id] <==> SameComplaint(a, b, id) {
        BlockedIssues(a, id);
        BlockedIssues(b, id);
        var ra, rb := LastReview(a.reviews, id), LastReview(b.reviews, id);
        SortEqualsIffSameItems(ra.issues, rb.issues);
        SortEqualsIffSameItems(ra.requiredChanges, rb.requiredChanges);
      }
      assert SameComplaints(a, b) <==> forall id | id in a.blocked :: SameComplaint(a, b, id);
      assert ma == mb <==> forall id | id in a.blocked :: ma[id] == mb[id];
    }
  }

  ghost predicate SameComplaint(a: ReviewPackage, b: ReviewPackage, id: string)
    requires ValidReview(a) && ValidReview(b) && id in a.blocked && id in b.blocked
  {
    var ra, rb := LastReview(a.reviews, id), LastReview(b.reviews, id);
    && multiset(ra.issues) == multiset(rb.issues)
    && multiset(ra.requiredChanges) == multiset(rb.requiredChanges)
  }

  lemma ItemsAreMembers(a: seq<string>, b: seq<string>)
    requires Items(a) == Items(b)
    ensures forall id :: id in a <==> id in b
  {
    assert forall id :: id in a <==> id in Items(a);
    assert forall id :: id in b <==> id in Items(b);
  }

  lemma BlockedIssues(review: ReviewPackage, id: string)
    requires ValidReview(review)
    ensures id in IssueMap(review.reviews, Items(review.blocked)) <==> id in review.blocked
    ensures id in review.blocked ==>
              var r := LastReview(review.reviews, id);
              IssueMap(review.reviews, Items(review.blocked))[id] == (Sort(r.issues), Sort(r.requiredChanges))
  {
    hide Sort, IssueMap, LastReview;
    IssueMapOf(review.reviews, Items(review.blocked), id);
  }

  // ----- The decision -----

  datatype RunOutcome = Completed | CompletedWithWarnings | NeedsEnrichment | RunRejected | RunFailed

  datatype RouteDecision =
    | Revise(fingerprint: Fingerprint, revisionCount: nat)
    | Persist(outcome: RunOutcome, lastFingerprint: Option<Fingerprint>)

  predicate IsRejected(review: ReviewPackage) {
    review.recommendation.RecommendRejection? || exists r | r in review.reviews :: r.status.Rejected?
  }

  predicate MissesEvidence(review: ReviewPackage) {
    review.recommendation.RecommendEnrichment? || exists r | r in review.reviews :: r.status.EnrichmentRequired?
  }

  function Evaluate(review: ReviewPackage, count: nat, previous: Option<Fingerprint>, cycles: nat): RouteDecision {
    if IsRejected(review) then Persist(RunRejected, None)
    else if MissesEvidence(review) then Persist(NeedsEnrichment, None)
    else if review.blocked == [] then Persist(Completed, None)
    else
      var fingerprint := IssueFingerprint(review);
      if count >= cycles then Persist(NeedsEnrichment, Some(fingerprint))
      else if Some(fingerprint) == previous then Persist(NeedsEnrichment, Some(fingerprint))
      else Revise(fingerprint, count + 1)
  }

  /** What the run remembers of the review that sent the drafts back before, if one did. */
  function Remembered(earlier: Option<ReviewPackage>): Option<Fingerprint> {
    if earlier.Some? then Some(IssueFingerprint(earlier.value)) else None
  }

  /** A revision is asked for exactly while cycles are left, something is blocked, no note and not
      the whole run is rejected or lacks evidence, and the complaints differ from those of the review
      before, if that sent the drafts back. It costs one cycle. */
  lemma ReviseIff(earlier: Option<ReviewPackage>, review: ReviewPackage, count: nat, cycles: nat)
    requires ValidReview(review) && (earlier.Some? ==> ValidReview(earlier.value))
    ensures var decision := Evaluate(review, count, Remembered(earlier), cycles);
      && (decision.Revise? <==>
            && (review.recommendation.RecommendReady? || review.recommendation.RecommendPartial?)
            && (forall r | r in review.reviews :: r.status.Ready? || r.status.PartiallyReady?)
            && review.blocked != [] && count < cycles
            && (earlier.Some? ==> !SameComplaints(earlier.value, review)))
      && (decision.Revise? ==> decision == Revise(IssueFingerprint(review), count + 1))
  {
    hide IssueFingerprint, SameComplaints, ValidReview;
    if earlier.Some? {
      FingerprintsEqualIff(earlier.value, review);
    }
  }

  /** A run that is not sent back is rejected if anything is, and otherwise completed exactly when
      nothing lacks evidence or is blocked; complaints are remembered only of a review that blocks
      notes and rejects and misses nothing. */
  lemma OutcomeIff(review: ReviewPackage, count: nat, previous: Option<Fingerprint>, cycles: nat)
    requires Evaluate(review, count, previous, cycles).Persist?
    ensures var decision := Evaluate(review, count, previous, cycles);
      var rejected := review.recommendation.RecommendRejection? || exists r | r in review.reviews :: r.status.Rejected?;
      var missing :=
        review.recommendation.RecommendEnrichment? || exists r | r in review.reviews :: r.status.EnrichmentRequired?;
      && (decision.outcome == RunRejected <==> rejected)
      && (decision.outcome == Completed <==> !rejected && !missing && review.blocked == [])
      && (decision.outcome == NeedsEnrichment <==> !rejected && (missing || review.blocked != []))
      && decision.lastFingerprint
           == (if !rejected && !missing && review.blocked != [] then Some(IssueFingerprint(review)) else None)
  {
    hide IssueFingerprint;
  }
}
