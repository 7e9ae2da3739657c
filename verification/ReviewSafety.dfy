/** What every run keeps of the drafts and approvals, when no review both approves and blocks a
    note, and what the run's outcome means. */
module ReviewSafety {
  import opened Budgets
  import opened Contracts
  import opened Curation
  import opened Ordering
  import opened ReviewGraph
  import opened ReviewRuns
  import opened Routing
  import opened Wrappers

  predicate IsEarly(s: RunState) {
    s.node.PrepareRun? || s.node.InspectSource? || s.node.AcquireEvidence? || s.node.Agent1?
    || s.node.ValidateAcquisition? || s.node.RetrieveContext? || (s.node.Agent2? && s.revisionCount == 0)
  }

  predicate IsLooping(s: RunState) {
    s.node.ValidateDrafts? || s.node.Agent3? || s.node.RouteReview?
    || (s.node.Agent2? && s.revisionCount > 0)
  }

  predicate IsPast(s: RunState) {
    s.node.PersistTerminal? || s.node.SyncIndex? || s.node.FlushTelemetry? || s.node.Ended?
  }

  /** The package belongs to the run, its ids are unique, every approved hash is the hash of that
      note's draft, and blocked notes are drafts that are not approved. */
  predicate PackageOk(c: Config, s: RunState) {
    s.drafts.Some? ==>
      && s.drafts.value.runId == c.runId
      && UniqueDrafts(s.drafts.value.drafts)
      && Frozen(s.approved, s.drafts.value.drafts)
      && forall id | id in s.blocked :: id in DraftIds(s.drafts.value.drafts) && id !in s.approved
  }

  predicate EarlyOk(s: RunState) {
    IsEarly(s) ==> s.revisionCount == 0 && s.drafts.None? && s.approved == map[] && s.blocked == []
  }

  predicate LoopOk(s: RunState) {
    IsLooping(s) ==>
      && s.drafts.Some?
      && (s.revisionCount == 0 ==> s.approved == map[])
      && (s.revisionCount > 0 ==> s.revision.Some? && s.revision.value.blocked == s.blocked)
      && (!s.node.ValidateDrafts? ==> EveryDraftDecided(s.drafts.value))
  }

  predicate ReviewOk(c: Config, s: RunState) {
    s.node.RouteReview? ==>
      && s.drafts.Some? && s.review.Some?
      && ValidReview(s.review.value) && NeverBoth(s.review.value)
      && CheckReview(c, s, s.drafts.value, s.review.value).None?
  }

  /** The errors a run can stop with: a port, a limit, or an agent's answer out of its scope. */
  predicate CanHappen(e: GraphError) {
    e in {PortFailure, OverBudget, WrongRunId, Combining(RevisionScope), Combining(RevisionDecisions),
          DraftsUndecided, ReviewScope, ReviewedHash, ArtifactConflict}
  }

  predicate EndOk(s: RunState) {
    && (IsPast(s) ==> s.drafts.Some? && s.outcome.Some?)
    && (s.node.Stopped? ==> CanHappen(s.node.error))
  }

  predicate Content(c: Config, s: RunState) {
    PackageOk(c, s) && EarlyOk(s) && LoopOk(s) && ReviewOk(c, s) && EndOk(s)
  }

  predicate ReplyOk(reply: Reply) {
    match reply
    case Drafted(_, _, candidate) => ValidPackage(candidate)
    case Reviewed(_, _, package) => ValidReview(package) && NeverBoth(package)
    case _ => true
  }

  // ----- Curation -----

  lemma CurateKeeps(c: Config, s: RunState, candidate: DraftPackage)
    requires Content(c, s) && s.node.Agent2? && ValidPackage(candidate)
    ensures var package := Curate(c, s, candidate);
      && (package.Failure? ==> CanHappen(package.error))
      && (package.Success? ==>
            && PackageOk(c, s.(drafts := Some(package.value)))
            && (s.drafts.Some? ==> DraftIds(package.value.drafts) == DraftIds(s.drafts.value.drafts)))
  {
    hide CombineRevision, FindDraft, DraftIds, UniqueDrafts;
    if candidate.runId == c.runId && s.revisionCount > 0 {
      CombineIsSafe(s.approved, s.drafts.value, s.blocked, candidate);
    } else {
      NothingFrozen(candidate.drafts);
    }
  }

  lemma NothingFrozen(drafts: seq<DraftNote>)
    ensures Frozen(map[], drafts)
  {
  }

  /** With nothing both approved and blocked, a candidate can only miss its scope or a decision. */
  lemma CombineIsSafe(
    approved: map<string, string>, previous: DraftPackage, blocked: seq<string>, candidate: DraftPackage)
    requires UniqueDrafts(previous.drafts) && EveryDraftDecided(previous) && Frozen(approved, previous.drafts)
    requires forall id | id in blocked :: id !in approved
    ensures var combined := CombineRevision(approved, previous, blocked, candidate);
      && (combined.Failure? ==> combined.error in {RevisionScope, RevisionDecisions})
      && (combined.Success? ==>
            && combined.value.runId == previous.runId
            && DraftIds(combined.value.drafts) == DraftIds(previous.drafts)
            && UniqueDrafts(combined.value.drafts) && EveryDraftDecided(combined.value)
            && Frozen(approved, combined.value.drafts))
  {
    hide Frozen, UniqueDrafts, FindDecision, Replaced, Redecided, DraftIds;
    forall d | d in previous.drafts ensures FindDecision(previous.decisions, d.noteId).Some? {
      FindDecisionFinds(previous.decisions, d.noteId);
    }
    if CombineRevision(approved, previous, blocked, candidate).Success? {
      CombineKeeps(approved, previous, blocked, candidate);
      CombineFreezes(approved, previous, blocked, candidate);
    }
  }

  // ----- Review -----

  lemma CheckIsSafe(c: Config, s: RunState, review: ReviewPackage)
    requires Content(c, s) && s.node.Agent3?
    ensures CheckReview(c, s, s.drafts.value, review).Some? ==>
              CanHappen(CheckReview(c, s, s.drafts.value, review).value)
  {
    hide FindDraft, DraftIds, Frozen, UniqueDrafts, EveryDraftDecided, FirstMismatch;
    var drafts := s.drafts.value.drafts;
    NoMismatchIffCovered(drafts, review.reviews);
    if ReviewIds(review.reviews) == ExpectedIds(s, s.drafts.value) {
      forall r | r in review.reviews ensures FindDraft(drafts, r.noteId).Some? {
        assert r.noteId in ReviewIds(review.reviews);
        FindDraftFinds(drafts, r.noteId);
      }
    }
  }

  // ----- Routing -----

  /** A checked review routes without a lookup error, and leaves approved notes frozen, blocked
      notes unapproved and, in a revision, no note blocked that was not blocked before. */
  lemma RouteKeeps(c: Config, s: RunState)
    requires Content(c, s) && s.node.RouteReview?
    ensures var t := Route(c, s, s.drafts.value, s.review.value);
      && (t.node.Stopped? ==> t.node.error == ArtifactConflict)
      && PackageOk(c, t) && t.drafts == s.drafts
      && (t.node.Agent2? ==>
            t.revisionCount > 0 && t.revision.Some? && t.revision.value.blocked == t.blocked)
      && (t.node.Agent2? || t.node.PersistTerminal? || t.node.Stopped?)
      && (t.node.PersistTerminal? ==> t.outcome.Some?)
      && (s.revisionCount > 0 ==> Items(t.blocked) <= Items(s.blocked))
      && Extends(s.approved, t.approved)
  {
    hide Evaluate, FindDraft, UniqueDrafts, EveryDraftDecided, DraftIds, FirstMismatch, Covered;
    var drafts, review := s.drafts.value.drafts, s.review.value;
    NoMismatchIffCovered(drafts, review.reviews);
    ApprovalSucceeds(s.approved, drafts, review);
    TaskSucceeds(drafts, review);
    BlockedStayUnapproved(c, s);
    FrozenHashesAgree(s.approved, s.approved + review.approved, drafts);
    if Evaluate(review, s.revisionCount, s.fingerprint, c.cycles).Revise? {
      RevisionsAreBounded(review, s.revisionCount, s.fingerprint, c.cycles);
    }
  }

  /** Every entry is still there with the same hash. */
  predicate Extends(approved: map<string, string>, later: map<string, string>) {
    forall id | id in approved :: id in later && later[id] == approved[id]
  }

  lemma FrozenHashesAgree(approved: map<string, string>, later: map<string, string>, drafts: seq<DraftNote>)
    requires Frozen(approved, drafts) && Frozen(later, drafts)
    requires forall id | id in approved :: id in later
    ensures Extends(approved, later)
  {
  }

  lemma ApprovalSucceeds(approved: map<string, string>, drafts: seq<DraftNote>, review: ReviewPackage)
    requires Frozen(approved, drafts) && Covered(drafts, review.reviews) && ValidReview(review)
    ensures Approve(approved, drafts, review) == Some(approved + review.approved)
    ensures Frozen(approved + review.approved, drafts)
  {
    hide FindDraft;
    forall id | id in review.approved
      ensures FindDraft(drafts, id).Some? && FindDraft(drafts, id).value.hash == review.approved[id]
    {
      var r := LastReview(review.reviews, id);
      assert r in review.reviews;
    }
  }

  lemma TaskSucceeds(drafts: seq<DraftNote>, review: ReviewPackage)
    requires Covered(drafts, review.reviews) && ValidReview(review)
    ensures TaskFor(drafts, review).Success? && TaskFor(drafts, review).value.blocked == review.blocked
    ensures forall id | id in review.blocked :: id in DraftIds(drafts)
  {
    hide FindDraft, DraftIds;
    forall id | id in review.blocked ensures FindDraft(drafts, id).Some? && id in DraftIds(drafts) {
      var r := LastReview(review.reviews, id);
      assert r in review.reviews;
      FindDraftFinds(drafts, id);
    }
  }

  lemma BlockedStayUnapproved(c: Config, s: RunState)
    requires Content(c, s) && s.node.RouteReview?
    ensures var review := s.review.value;
      && (forall id | id in review.blocked :: id !in s.approved + review.approved)
      && (s.revisionCount > 0 ==> Items(review.blocked) <= Items(s.blocked))
  {
    hide FindDraft, DraftIds, Frozen, UniqueDrafts, EveryDraftDecided;
    var review := s.review.value;
    forall id | id in review.blocked
      ensures id !in s.approved + review.approved
      ensures s.revisionCount > 0 ==> id in Items(s.blocked)
    {
      assert id in ReviewIds(review.reviews);
      assert id in Items(s.blocked) <==> id in s.blocked;
    }
  }

  // ----- Steps -----

  /** How a later state relates to an earlier one: approvals keep their hashes, the package keeps its
      note ids in order, and blocked sets of revisions only shrink. */
  predicate Follows(s: RunState, t: RunState) {
    && s.revisionCount <= t.revisionCount
    && Extends(s.approved, t.approved)
    && (s.drafts.Some? ==>
          t.drafts.Some? && DraftIds(t.drafts.value.drafts) == DraftIds(s.drafts.value.drafts))
    && (s.revisionCount > 0 ==> Items(t.blocked) <= Items(s.blocked))
  }

  lemma CurateStepKeeps(c: Config, s: RunState, characters: nat, usage: CallUsage, candidate: DraftPackage)
    requires Content(c, s) && s.node.Agent2? && ValidPackage(candidate)
    ensures var t := CurateStep(c, s, characters, usage, candidate); Content(c, t) && Follows(s, t)
  {
    hide Admits, AgentReservation, Charge, Curate, DraftIds, UniqueDrafts, Frozen, EveryDraftDecided, FindDraft, Items;
    Charged(c, Called(s), Curation, characters, usage);
    CurateKeeps(c, s, candidate);
  }

  lemma ReviewStepKeeps(c: Config, s: RunState, characters: nat, usage: CallUsage, review: ReviewPackage)
    requires Content(c, s) && s.node.Agent3? && ValidReview(review) && NeverBoth(review)
    ensures var t := ReviewStep(c, s, characters, usage, review); Content(c, t) && Follows(s, t)
  {
    hide Admits, AgentReservation, Charge, DraftIds, UniqueDrafts, Frozen, EveryDraftDecided, FindDraft, Items;
    hide ReviewIds, ValidReview, NeverBoth;
    Charged(c, Called(s), Validation, characters, usage);
    CheckIsSafe(c, s, review);
  }

  lemma AgentStepKeeps(c: Config, s: RunState, reply: Reply)
    requires Content(c, s) && IsAgent(s.node) && ReplyOk(reply)
    ensures var t := AgentStep(c, s, reply); Content(c, t) && Follows(s, t)
  {
    hide CurateStep, ReviewStep, Charge, DraftIds, UniqueDrafts, Frozen, EveryDraftDecided, CheckReview, Items;
    if s.node.Agent2? && reply.Drafted? {
      CurateStepKeeps(c, s, reply.characters, reply.usage, reply.candidate);
    } else if s.node.Agent3? && reply.Reviewed? {
      ReviewStepKeeps(c, s, reply.characters, reply.usage, reply.package);
    } else if reply.Acquired? {
      Charged(c, Called(s), Acquisition, reply.characters, reply.usage);
    }
  }

  lemma WorkStepKeeps(c: Config, s: RunState)
    requires Content(c, s) && !IsAgent(s.node) && !IsOver(s)
    ensures var t := WorkStep(c, s); Content(c, t) && Follows(s, t)
  {
    hide Route, DraftIds, UniqueDrafts, Frozen, EveryDraftDecided, CheckReview, Items, ValidReview;
    if s.node.RouteReview? {
      RouteStepKeeps(c, s);
    }
  }

  lemma RouteStepKeeps(c: Config, s: RunState)
    requires Content(c, s) && s.node.RouteReview?
    ensures var t := Route(c, s, s.drafts.value, s.review.value); Content(c, t) && Follows(s, t)
  {
    hide Route, DraftIds, UniqueDrafts, Frozen, EveryDraftDecided, CheckReview, Items, ValidReview;
    RouteKeeps(c, s);
    RouteCounts(c, s, s.drafts.value, s.review.value);
  }

  lemma RouteCounts(c: Config, s: RunState, drafts: DraftPackage, review: ReviewPackage)
    ensures s.revisionCount <= Route(c, s, drafts, review).revisionCount
  {
    hide Approve, TaskFor, IssueFingerprint;
  }

  lemma StepKeeps(c: Config, s: RunState, reply: Reply)
    requires Content(c, s) && ReplyOk(reply)
    ensures Content(c, Step(c, s, reply)) && Follows(s, Step(c, s, reply))
  {
    hide AgentStep, WorkStep, DraftIds, UniqueDrafts, Frozen, EveryDraftDecided, CheckReview, Items;
    hide ReplyOk, ValidReview, NeverBoth;
    if IsAgent(s.node) {
      AgentStepKeeps(c, s, reply);
    } else if !IsOver(s) {
      WorkStepKeeps(c, s);
    }
  }

  lemma {:induction false} RunKeepsContent(c: Config, replies: seq<Reply>)
    requires forall r | r in replies :: ReplyOk(r)
    ensures Content(c, Run(c, START, replies))
  {
    hide Step, ReplyOk, PackageOk, LoopOk, ReviewOk, EndOk;
    if replies == [] {
      StartKeeps(c);
    } else {
      var before := replies[..|replies| - 1];
      RunKeepsContent(c, before);
      StepKeeps(c, Run(c, START, before), replies[|replies| - 1]);
    }
  }

  lemma StartKeeps(c: Config)
    ensures Content(c, START)
  {
  }

  // ----- What one node records -----

  /** The answer passes the budget gate and is within the scope of the node that asked for it. */
  predicate IsTaken(c: Config, s: RunState, reply: Reply) {
    && (s.node.Agent1? ==> reply.Acquired? && reply.own)
    && (s.node.Agent2? ==> reply.Drafted? && Curate(c, s, reply.candidate).Success?)
    && (s.node.Agent3? ==>
          reply.Reviewed? && s.drafts.Some? && CheckReview(c, s, s.drafts.value, reply.package).None?)
    && (reply.Acquired? || reply.Drafted? || reply.Reviewed?)
    && Admits(c.budget, Usages(s.calls), AgentReservation(c.budget, AgentOf(s.node), reply.characters))
  }

  /** An agent's answer is recorded exactly when it is taken, with its usage, its call and its
      artifact, and nothing that earlier nodes recorded changes but the package or the review. */
  lemma AnswerIsRecordedIff(c: Config, s: RunState, reply: Reply)
    requires IsAgent(s.node) && Control(c, s) && NamesOk(s)
    ensures var t := Step(c, s, reply);
      && (!t.node.Stopped? <==> IsTaken(c, s, reply))
      && (IsTaken(c, s, reply) ==>
            && t.visited == s.visited + 1 && t.made == s.made + 1 && t.llm == s.llm + [AgentOf(s.node)]
            && t.calls == s.calls
                 + [GatedCall(AgentReservation(c.budget, AgentOf(s.node), reply.characters), reply.usage)]
            && t.approved == s.approved && t.blocked == s.blocked && t.fingerprint == s.fingerprint
            && t.revisionCount == s.revisionCount && t.revision == s.revision
            && t.warnings == s.warnings && t.outcome == s.outcome)
  {
    hide Curate, CheckReview, Admits, AgentReservation, Charge, NamesOk;
    NextArtifacts(s);
    match reply
    case Acquired(n, u, _) => Charged(c, Called(s), Acquisition, n, u);
    case Drafted(n, u, candidate) =>
      Charged(c, Called(s), Curation, n, u);
      CurateNeeds(c, s, candidate);
    case Reviewed(n, u, _) => Charged(c, Called(s), Validation, n, u);
    case _ =>
  }

  /** What each agent's answer puts in its place: a first package as it is, a revision combined with
      the package it revises, and a review. */
  lemma AnswerIsStored(c: Config, s: RunState, reply: Reply)
    requires IsAgent(s.node) && Control(c, s) && NamesOk(s) && IsTaken(c, s, reply)
    ensures var t, k := Step(c, s, reply), s.revisionCount;
      && (s.node.Agent1? ==>
            t.node.ValidateAcquisition? && t.artifacts == s.artifacts + [AcquisitionPacket]
            && t.drafts == s.drafts && t.review == s.review)
      && (s.node.Agent2? ==>
            && t.node.ValidateDrafts? && t.artifacts == s.artifacts + [DraftsOf(k)] && t.review == s.review
            && t.drafts.Some? && reply.candidate.runId == c.runId
            && (k == 0 ==> t.drafts.value == reply.candidate)
            && (k > 0 ==>
                  s.drafts.Some? && s.revision.Some?
                  && CombineRevision(s.approved, s.drafts.value, s.revision.value.blocked, reply.candidate)
                     == Success(t.drafts.value)))
      && (s.node.Agent3? ==>
            t.node.RouteReview? && t.artifacts == s.artifacts + [ReviewOf(k)]
            && t.drafts == s.drafts && t.review == Some(reply.package))
  {
    hide CheckReview, CombineRevision, Admits, AgentReservation, Charge, NamesOk;
    NextArtifacts(s);
    match reply
    case Acquired(n, u, _) => Charged(c, Called(s), Acquisition, n, u);
    case Drafted(n, u, _) => Charged(c, Called(s), Curation, n, u);
    case Reviewed(n, u, _) => Charged(c, Called(s), Validation, n, u);
    case _ =>
  }

  /** What a run stops with at an agent: the limits before anything is sent; then, with the call counted,
      an exception of the call, an answer for another run, a revision that cannot be combined, or a
      review of other notes or other hashes. */
  lemma StopIs(c: Config, s: RunState, reply: Reply)
    requires IsAgent(s.node) && Control(c, s) && NamesOk(s) && Content(c, s) && !reply.Plain?
    ensures var t := Step(c, s, reply);
      var admitted := Admits(c.budget, Usages(s.calls), AgentReservation(c.budget, AgentOf(s.node), reply.characters));
      && (reply.NoAnswer? ==>
            t.node == Stopped(if admitted then PortFailure else OverBudget)
            && t.made == s.made + (if admitted then 1 else 0))
      && (s.node.Agent1? && reply.Acquired? ==>
            (!admitted ==> t.node == Stopped(OverBudget) && t.made == s.made)
            && (admitted && !reply.own ==> t.node == Stopped(WrongRunId) && t.made == s.made + 1))
      && (s.node.Agent2? && reply.Drafted? ==>
            (!admitted ==> t.node == Stopped(OverBudget) && t.made == s.made)
            && (admitted && reply.candidate.runId != c.runId ==>
                  t.node == Stopped(WrongRunId) && t.made == s.made + 1)
            && (admitted && reply.candidate.runId == c.runId && s.revisionCount > 0 ==>
                  var combined :=
                    CombineRevision(s.approved, s.drafts.value, s.revision.value.blocked, reply.candidate);
                  combined.Failure? ==> t.node == Stopped(Combining(combined.error)) && t.made == s.made + 1))
      && (s.node.Agent3? && reply.Reviewed? ==>
            (!admitted ==> t.node == Stopped(OverBudget) && t.made == s.made)
            && (admitted && (reply.package.runId != c.runId
                             || ReviewIds(reply.package.reviews) != ExpectedIds(s, s.drafts.value)) ==>
                  t.node == Stopped(ReviewScope) && t.made == s.made + 1))
  {
    hide CombineRevision, FirstMismatch, Admits, AgentReservation, Charge, NamesOk, PackageOk, ReviewOk, EndOk,
      ExpectedIds;
    match reply
    case Acquired(n, u, _) => Charged(c, Called(s), Acquisition, n, u);
    case Drafted(n, u, _) => Charged(c, Called(s), Curation, n, u);
    case Reviewed(n, u, _) => Charged(c, Called(s), Validation, n, u);
    case _ =>
  }

  lemma CurateNeeds(c: Config, s: RunState, candidate: DraftPackage)
    ensures Curate(c, s, candidate).Success? && s.revisionCount > 0 ==> s.drafts.Some? && s.revision.Some?
  {
    hide CombineRevision;
  }

  lemma NotWrittenYet(s: RunState, a: Artifact)
    requires NamesOk(s) && !a.RunManifest? && WrittenAt(a) >= s.visited
    ensures a !in s.artifacts
  {
    assert !WrittenBefore(s, a);
  }

  lemma NextArtifacts(s: RunState)
    requires NamesOk(s) && s.visited == Visit(s.node, s.revisionCount)
    ensures s.node.Agent1? ==> AcquisitionPacket !in s.artifacts
    ensures s.node.Agent2? ==> DraftsOf(s.revisionCount) !in s.artifacts
    ensures s.node.Agent3? ==> ReviewOf(s.revisionCount) !in s.artifacts
    ensures s.node.RouteReview? ==> RevisionRequest(s.revisionCount + 1) !in s.artifacts
  {
    hide NamesOk;
    if s.node.Agent1? { NotWrittenYet(s, AcquisitionPacket); }
    if s.node.Agent2? { NotWrittenYet(s, DraftsOf(s.revisionCount)); }
    if s.node.Agent3? { NotWrittenYet(s, ReviewOf(s.revisionCount)); }
    if s.node.RouteReview? { NotWrittenYet(s, RevisionRequest(s.revisionCount + 1)); }
  }

  /** What routing a checked review leaves behind: its approvals are added, its blocked notes are the
      blocked notes, and a revision asks for them under the hashes of their drafts. */
  lemma RouteRecords(c: Config, s: RunState)
    requires Content(c, s) && Control(c, s) && NamesOk(s) && s.node.RouteReview?
    ensures var t, review := Route(c, s, s.drafts.value, s.review.value), s.review.value;
      && t.approved == s.approved + review.approved && t.blocked == review.blocked
      && t.drafts == s.drafts && t.review == s.review && t.calls == s.calls && t.made == s.made
      && t.visited == s.visited + 1
      && (t.node.Agent2? || t.node.PersistTerminal?)
      && (t.node.Agent2? ==>
            && t.revisionCount == s.revisionCount + 1 && t.fingerprint == Some(IssueFingerprint(review))
            && t.artifacts == s.artifacts + [RevisionRequest(t.revisionCount)]
            && t.outcome.None? && t.revision.Some?
            && IsTask(t.revision.value, s.drafts.value.drafts, review))
      && (t.node.PersistTerminal? ==>
            t.revisionCount == s.revisionCount && t.artifacts == s.artifacts && t.outcome.Some?)
  {
    hide Evaluate, FindDraft, UniqueDrafts, EveryDraftDecided, DraftIds, FirstMismatch, Covered, IssueFingerprint,
      NamesOk, IsTask, TaskFor, Approve;
    var drafts, review := s.drafts.value.drafts, s.review.value;
    NoMismatchIffCovered(drafts, review.reviews);
    ApprovalSucceeds(s.approved, drafts, review);
    TaskSucceeds(drafts, review);
    TaskIs(drafts, review);
    RouteDecides(review, s.revisionCount, s.fingerprint, c.cycles);
    NextArtifacts(s);
  }

  /** The blocked notes, in order, each with the issues of its review and the hash of its draft. */
  ghost predicate IsTask(task: RevisionTask, drafts: seq<DraftNote>, review: ReviewPackage) {
    && task.blocked == review.blocked
    && (forall id :: id in task.hashes <==> id in review.blocked)
    && (forall id :: id in task.issues <==> id in review.blocked)
    && (forall id | id in review.blocked :: Matches(drafts, id, task.hashes[id]))
    && forall id | id in review.blocked ::
         id in ReviewIds(review.reviews) && task.issues[id] == LastReview(review.reviews, id).issues
  }

  lemma TaskIs(drafts: seq<DraftNote>, review: ReviewPackage)
    requires TaskFor(drafts, review).Success?
    ensures IsTask(TaskFor(drafts, review).value, drafts, review)
  {
    hide FindDraft;
  }

  lemma RouteDecides(review: ReviewPackage, count: nat, previous: Option<Fingerprint>, cycles: nat)
    ensures var decision := Evaluate(review, count, previous, cycles);
      decision.Revise? ==> decision == Revise(IssueFingerprint(review), count + 1)
  {
    hide IssueFingerprint;
  }

  // ----- Every run -----

  /** In every state of every run whose reviews never both approve and block a note: each approved
      hash is the hash of that note in the current package, no approved note is blocked, and the run
      did not stop on a frozen draft or on a missing decision, review or draft. */
  lemma ApprovalsStayFrozen(c: Config, replies: seq<Reply>)
    requires forall r | r in replies :: ReplyOk(r)
    ensures var s := Run(c, START, replies);
      && (s.approved == map[] || (s.drafts.Some? && Frozen(s.approved, s.drafts.value.drafts)))
      && (s.drafts.Some? ==> UniqueDrafts(s.drafts.value.drafts))
      && (forall id | id in s.blocked && s.drafts.Some? :: id !in s.approved)
      && (s.node.Stopped? ==> CanHappen(s.node.error) && s.node.error != ArtifactConflict)
  {
    hide Run, Frozen, UniqueDrafts, DraftIds, ReviewOk, EveryDraftDecided;
    RunKeepsContent(c, replies);
    ArtifactFilesDiffer(c, replies);
    ApprovalsNeedDrafts(c, replies);
  }

  /** Approvals are made only of drafts. */
  lemma {:induction false} ApprovalsNeedDrafts(c: Config, replies: seq<Reply>)
    ensures var s := Run(c, START, replies); s.approved != map[] ==> s.drafts.Some?
  {
    hide Step;
    if replies != [] {
      var before := replies[..|replies| - 1];
      ApprovalsNeedDrafts(c, before);
      OnlyRoutingApproves(c, Run(c, START, before), replies[|replies| - 1]);
    }
  }

  lemma OnlyRoutingApproves(c: Config, s: RunState, reply: Reply)
    requires s.approved != map[] ==> s.drafts.Some?
    ensures Step(c, s, reply).approved != map[] ==> Step(c, s, reply).drafts.Some?
  {
    hide Evaluate, Approve, TaskFor, Curate, CheckReview, Admits, AgentReservation, EveryDraftDecided;
  }

  /** However a run goes on, approvals keep their hashes, the note ids and their order never change,
      and the notes blocked in a revision are among those blocked before. */
  lemma {:induction false} LaterFollows(c: Config, replies: seq<Reply>, more: seq<Reply>)
    requires forall r | r in replies + more :: ReplyOk(r)
    ensures Follows(Run(c, START, replies), Run(c, START, replies + more))
  {
    hide Step, ReplyOk, Content, DraftIds;
    var s := Run(c, START, replies);
    if more == [] {
      assert replies + more == replies;
      assert Extends(s.approved, s.approved);
    } else {
      var before, last := more[..|more| - 1], more[|more| - 1];
      var all := replies + more;
      assert all[..|all| - 1] == replies + before && all[|all| - 1] == last;
      LaterFollows(c, replies, before);
      RunKeepsContent(c, replies + before);
      StepKeeps(c, Run(c, START, replies + before), last);
    }
  }

  // ----- What the outcome means -----

  /** The outcome as a function of the last review and of whether a secondary write failed. */
  function Verdict(review: ReviewPackage, warned: bool): RunOutcome {
    if review.recommendation.RecommendRejection? || exists r | r in review.reviews :: r.status.Rejected? then
      RunRejected
    else if
      || review.recommendation.RecommendEnrichment?
      || (exists r | r in review.reviews :: r.status.EnrichmentRequired?)
      || review.blocked != [] then NeedsEnrichment
    else if warned then CompletedWithWarnings
    else Completed
  }

  predicate OutcomeOk(s: RunState) {
    && (!IsPast(s) && !s.node.Stopped? ==> s.warnings == [])
    && (IsPast(s) ==> s.review.Some? && s.outcome == Some(Verdict(s.review.value, s.warnings != [])))
    && (s.node.PersistTerminal? || s.node.SyncIndex? ==> s.warnings == [])
    && (s.node.FlushTelemetry? ==> s.warnings == [] || s.warnings == [IndexRepairRequired])
  }

  lemma StepKeepsOutcome(c: Config, s: RunState, reply: Reply)
    requires OutcomeOk(s)
    ensures OutcomeOk(Step(c, s, reply))
  {
    hide Evaluate, IssueFingerprint, Approve, TaskFor, AgentStep, EveryDraftDecided;
    if IsAgent(s.node) {
      AgentsDecideNothing(c, s, reply);
    } else if s.node.RouteReview? && s.review.Some? {
      var review := s.review.value;
      if Evaluate(review, s.revisionCount, s.fingerprint, c.cycles).Persist? {
        OutcomeIff(review, s.revisionCount, s.fingerprint, c.cycles);
      }
    }
  }

  lemma AgentsDecideNothing(c: Config, s: RunState, reply: Reply)
    requires IsAgent(s.node)
    ensures var t := AgentStep(c, s, reply); !IsPast(t) && (t.warnings == s.warnings)
  {
    hide Curate, CheckReview, Admits, AgentReservation;
  }

  /** A finished run's outcome is decided by its last review, and a failed index or telemetry write
      only ever turns completed into completed with warnings. */
  lemma {:induction false} OutcomeIsTheVerdict(c: Config, replies: seq<Reply>)
    ensures OutcomeOk(Run(c, START, replies))
    ensures var s := Run(c, START, replies);
      s.node.Ended? ==> s.review.Some? && s.outcome == Some(Verdict(s.review.value, s.warnings != []))
  {
    hide Step, Verdict;
    if replies != [] {
      var before := replies[..|replies| - 1];
      OutcomeIsTheVerdict(c, before);
      StepKeepsOutcome(c, Run(c, START, before), replies[|replies| - 1]);
    }
  }

  /** In the last two nodes of every run a failed secondary write, and nothing else, adds its warning,
      and the run goes on to its end. */
  lemma WarningsAreFailures(c: Config, replies: seq<Reply>, secondary: bool)
    ensures var s := Run(c, START, replies);
      var t := Step(c, s, Plain(true, secondary));
      && (s.node.SyncIndex? ==>
            t.node.FlushTelemetry? && t.warnings == if secondary then [] else [IndexRepairRequired])
      && (s.node.FlushTelemetry? ==>
            t.node.Ended? && t.warnings == s.warnings + if secondary then [] else [TelemetryRepairRequired])
      && (s.node.SyncIndex? || s.node.FlushTelemetry? ==>
            t.outcome == if !secondary && s.outcome == Some(Completed) then Some(CompletedWithWarnings) else s.outcome)
  {
    hide Run, WorkStep, AgentStep, Verdict;
    RunsAreShort(c, replies);
    RunKeepsNames(c, replies);
    OutcomeIsTheVerdict(c, replies);
    assert !WrittenBefore(Run(c, START, replies), RunManifest) || IsOver(Run(c, START, replies));
  }

  // ----- Spending -----

  /** The calls recorded were admitted one by one, and no call was made beyond the cap. */
  ghost predicate Spending(c: Config, s: RunState) {
    AllAdmitted(c.budget, s.calls) && s.made <= c.budget.maxMainCalls
  }

  lemma StepKeepsSpending(c: Config, s: RunState, reply: Reply)
    requires Spending(c, s) && (!IsOver(s) ==> s.made == |s.calls|)
    ensures Spending(c, Step(c, s, reply))
  {
    hide Admits, Step, Usages, Spent;
    var t := Step(c, s, reply);
    StepsCallOnce(c, s, reply);
    if t.made != s.made {
      var r :| Admits(c.budget, Usages(s.calls), r);
      AdmittedIsWithin(c.budget, Usages(s.calls), r);
      UsagesLength(s.calls);
    }
    if t.calls != s.calls {
      AdmittedPush(c.budget, s.calls, t.calls[|t.calls| - 1]);
    }
  }

  lemma UsagesLength(calls: seq<GatedCall>)
    ensures |Usages(calls)| == |calls|
  {
  }

  /** A step records at most one call and makes at most one, and either passed the gate. */
  ghost predicate OneCallMore(c: Config, s: RunState, t: RunState) {
    && (t.calls == s.calls
        || (|t.calls| > 0 && t.calls == s.calls + [t.calls[|t.calls| - 1]]
            && Admits(c.budget, Usages(s.calls), t.calls[|t.calls| - 1].reserved)))
    && (t.made == s.made
        || (t.made == s.made + 1 && !IsOver(s) && exists r :: Admits(c.budget, Usages(s.calls), r)))
  }

  lemma AgentsCallOnce(c: Config, s: RunState, reply: Reply)
    requires IsAgent(s.node)
    ensures OneCallMore(c, s, AgentStep(c, s, reply))
  {
    hide Admits, AgentReservation, Usages, Curate, CheckReview, Charge;
    match reply
    case Acquired(n, u, _) => Charged(c, Called(s), Acquisition, n, u);
    case Drafted(n, u, _) => Charged(c, Called(s), Curation, n, u);
    case Reviewed(n, u, _) => Charged(c, Called(s), Validation, n, u);
    case _ =>
  }

  lemma StepsCallOnce(c: Config, s: RunState, reply: Reply)
    ensures OneCallMore(c, s, Step(c, s, reply))
  {
    hide AgentStep, Admits, Usages, Evaluate, Approve, TaskFor, EveryDraftDecided;
    if IsAgent(s.node) {
      AgentsCallOnce(c, s, reply);
    }
  }

  /** In every run the calls made, those included whose answer is refused, stay within the call cap,
      each passed the gate, and everything spent before the last recorded call is within all totals. */
  lemma {:induction false} RunsStayInBudget(c: Config, replies: seq<Reply>)
    ensures Spending(c, Run(c, START, replies))
    ensures var s := Run(c, START, replies);
      && s.made <= c.budget.maxMainCalls
      && (s.calls != [] ==> Within(Spent(Usages(s.calls[..|s.calls| - 1])), c.budget))
  {
    hide Step, Within, Spent, Usages;
    if replies != [] {
      var before := replies[..|replies| - 1];
      RunsStayInBudget(c, before);
      RunsAreShort(c, before);
      StepKeepsSpending(c, Run(c, START, before), replies[|replies| - 1]);
    }
    var calls := Run(c, START, replies).calls;
    if calls != [] {
      OnlyTheLastCallOverruns(c.budget, calls);
    }
  }

  /** Whenever the gate admits the first agent call, a run can spend any amount of cost and take any
      time beyond its limits: its one call is followed by no check of what it used. */
  lemma RunCanOverrunCostAndDuration(c: Config, characters: nat, over: Amount)
    returns (replies: seq<Reply>)
    requires Admits(c.budget, [], AgentReservation(c.budget, Acquisition, characters))
    ensures var s, spent := Run(c, START, replies), Spent(Usages(Run(c, START, replies).calls));
      && s.node.ValidateAcquisition?
      && spent.cost > c.budget.maxCost + over && spent.duration > c.budget.maxDuration + over
  {
    hide Admits, AgentReservation, Usages, Spent, Run;
    assert Usages([]) == [] by { UsagesLength([]); }
    var u := LastCallCanOverrun(c.budget, [], Acquisition, characters, over);
    var work, call := Plain(true, true), Acquired(characters, u, true);
    ReachesFirstAgent(c);
    replies := [work, work, work] + [call];
    RunPush(c, [work, work, work], call);
    var s := Run(c, START, [work, work, work]);
    Charged(c, Called(s), Acquisition, characters, u);
    assert AcquisitionPacket !in s.artifacts;
    assert [] + [GatedCall(AgentReservation(c.budget, Acquisition, characters), u)]
        == [GatedCall(AgentReservation(c.budget, Acquisition, characters), u)];
  }

  lemma ReachesFirstAgent(c: Config)
    ensures var work := Plain(true, true);
      var s := Run(c, START, [work, work, work]);
      s.node.Agent1? && s.calls == [] && s.artifacts == [Request, SourceDescriptor, EvidenceBatch]
  {
    hide Run, Step, Route, EveryDraftDecided;
    var work := Plain(true, true);
    NoReplies(c);
    RunPush(c, [], work);
    RunPush(c, [work], work);
    RunPush(c, [work, work], work);
    assert [] + [work] == [work] && [work] + [work] == [work, work];
    assert [work, work] + [work] == [work, work, work];
    var s1 := WorkStep(c, START);
    var s2 := WorkStep(c, s1);
    PlainWork(c, START);
    PlainWork(c, s1);
    PlainWork(c, s2);
  }

  lemma PlainWork(c: Config, s: RunState)
    requires s.node in {PrepareRun, InspectSource, AcquireEvidence}
    ensures Step(c, s, Plain(true, true)) == WorkStep(c, s)
  {
    hide AgentStep, WorkStep;
  }

  lemma NoReplies(c: Config)
    ensures Run(c, START, []) == START
  {
  }

  lemma RunPush(c: Config, replies: seq<Reply>, reply: Reply)
    ensures Run(c, START, replies + [reply]) == Step(c, Run(c, START, replies), reply)
  {
    hide Step;
    assert (replies + [reply])[..|replies|] == replies;
  }

  /** A budget with three calls and two for every revision cycle never refuses a call for its count;
      the default budget is exactly that for the default two cycles. */
  lemma CallCapNeverBinds(c: Config, replies: seq<Reply>, r: Reservation)
    requires 3 + 2 * c.cycles <= c.budget.maxMainCalls
    ensures var s := Run(c, START, replies);
      IsAgent(s.node) ==> !WouldExceed(c.budget, Spent(Usages(s.calls)), r, CallCount)
    ensures 3 + 2 * 2 == DEFAULT_BUDGET.maxMainCalls
  {
    hide Run, Spent;
    RunsAreShort(c, replies);
  }

  // ----- Revisions make progress -----

  predicate Remembers(s: RunState) {
    s.revisionCount > 0 && (s.node.Agent2? || s.node.ValidateDrafts? || s.node.Agent3?) ==>
      s.review.Some? && s.fingerprint == Some(IssueFingerprint(s.review.value))
  }

  lemma AgentsKeepMemory(c: Config, s: RunState, reply: Reply)
    requires Remembers(s) && IsAgent(s.node)
    ensures Remembers(AgentStep(c, s, reply))
  {
    hide IssueFingerprint, Curate, CheckReview, Admits, AgentReservation;
  }

  lemma StepKeepsMemory(c: Config, s: RunState, reply: Reply)
    requires Remembers(s) && (IsEarly(s) ==> s.revisionCount == 0)
    ensures Remembers(Step(c, s, reply))
  {
    hide AgentStep, IssueFingerprint, IsRejected, MissesEvidence, Approve, TaskFor, EveryDraftDecided;
    if IsAgent(s.node) {
      AgentsKeepMemory(c, s, reply);
    }
  }

  lemma {:induction false} RunsRemember(c: Config, replies: seq<Reply>)
    ensures Remembers(Run(c, START, replies))
  {
    hide Step, IssueFingerprint;
    if replies != [] {
      var before := replies[..|replies| - 1];
      RunsRemember(c, before);
      EarlyMeansUnrevised(c, before);
      StepKeepsMemory(c, Run(c, START, before), replies[|replies| - 1]);
    }
  }

  lemma EarlyMeansUnrevised(c: Config, replies: seq<Reply>)
    ensures var s := Run(c, START, replies); IsEarly(s) ==> s.revisionCount == 0
  {
    hide Run;
    RunsAreShort(c, replies);
  }

  /** In every run, a review sends the drafts back again only if its complaints differ from those
      that sent them back before. */
  lemma RevisionsMakeProgress(c: Config, replies: seq<Reply>, package: ReviewPackage)
    requires ValidReview(package)
    ensures var s := Run(c, START, replies);
      s.node.Agent3? && s.revisionCount > 0 && Evaluate(package, s.revisionCount, s.fingerprint, c.cycles).Revise? ==>
        s.review.Some? && (ValidReview(s.review.value) ==> !SameComplaints(s.review.value, package))
  {
    hide Run, IssueFingerprint, Evaluate, SameComplaints, ValidReview;
    var s := Run(c, START, replies);
    RunsRemember(c, replies);
    if s.node.Agent3? && s.revisionCount > 0 && ValidReview(s.review.value) {
      ReviseIff(s.review, package, s.revisionCount, c.cycles);
    }
  }
}
