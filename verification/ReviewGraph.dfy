/** The run graph: thirteen nodes with one loop, in which drafts are curated, validated, reviewed
    and routed until the review policy stops the loop. Agent answers are arbitrary values that
    satisfy their contracts. */
module ReviewGraph {
  import opened Budgets
  import opened Contracts
  import opened Curation
  import opened Decimal
  import opened Ordering
  import opened Routing
  import opened Wrappers

  datatype GraphError =
    | PortFailure
    | OverBudget
    | WrongRunId
    | Combining(error: CombineError)
    | DraftsUndecided
    | ReviewScope
    | ReviewedHash
    | MissingDraft
    | RouteMismatch
    | MissingReview
    | NoOutcome
    | ArtifactConflict

  datatype Node =
    | PrepareRun | InspectSource | AcquireEvidence | Agent1 | ValidateAcquisition | RetrieveContext
    | Agent2 | ValidateDrafts | Agent3 | RouteReview | PersistTerminal | SyncIndex | FlushTelemetry
    | Ended
    | Stopped(error: GraphError)

  // ----- Artifacts -----

  datatype Artifact =
    | Request | SourceDescriptor | EvidenceBatch | AcquisitionPacket | RetrievalContext
    | DraftsOf(revision: nat) | ReviewOf(revision: nat) | RevisionRequest(revision: nat) | RunManifest

  function FileName(a: Artifact): string {
    match a
    case Request => "request"
    case SourceDescriptor => "source-descriptor"
    case EvidenceBatch => "evidence-batch"
    case AcquisitionPacket => "acquisition-packet"
    case RetrievalContext => "retrieval-context"
    case DraftsOf(k) => "draft-package-r" + Show(k)
    case ReviewOf(k) => "review-package-r" + Show(k)
    case RevisionRequest(k) => "revision-request-r" + Show(k)
    case RunManifest => "run-manifest"
  }

  // ----- State -----

  datatype RevisionTask = RevisionTask(
    blocked: seq<string>, issues: map<string, seq<string>>, hashes: map<string, string>)

  datatype Settings = Settings(runId: string, budget: ContextBudget, cycles: nat)

  type Config = c: Settings | c.budget.Valid() witness Settings("run", DEFAULT_BUDGET, 2)

  /** The state of the run, with the number of nodes visited and of agent calls made; `calls` are the
      calls whose usage was recorded. */
  datatype RunState = RunState(
    node: Node, visited: nat, made: nat, revisionCount: nat,
    blocked: seq<string>, approved: map<string, string>, fingerprint: Option<Fingerprint>,
    drafts: Option<DraftPackage>, review: Option<ReviewPackage>, revision: Option<RevisionTask>,
    calls: seq<GatedCall>, llm: seq<AgentRole>, artifacts: seq<Artifact>,
    warnings: seq<Warning>, outcome: Option<RunOutcome>)

  datatype Warning = IndexRepairRequired | TelemetryRepairRequired

  const START :=
    RunState(PrepareRun, 0, 0, 0, [], map[], None, None, None, None, [], [],
             [Request], [], None)

  /** What the world answers to a node: the length of the prompt, the usage and output of an agent,
      an exception of the agent call, and whether a node's ports and, in the last two nodes, the
      secondary ports worked. Of an acquisition packet only matters whether it is the run's own. */
  datatype Reply =
    | Plain(ok: bool, secondary: bool)
    | NoAnswer(characters: nat)
    | Acquired(characters: nat, usage: CallUsage, own: bool)
    | Drafted(characters: nat, usage: CallUsage, candidate: DraftPackage)
    | Reviewed(characters: nat, usage: CallUsage, package: ReviewPackage)

  function Stop(s: RunState, error: GraphError): RunState {
    s.(node := Stopped(error), visited := s.visited + 1)
  }

  function Go(s: RunState, node: Node): RunState {
    s.(node := node, visited := s.visited + 1)
  }

  /** A node's update: an artifact is written once, and a node that raises updates nothing. */
  function WriteAndGo(s: RunState, t: RunState, a: Artifact, node: Node): RunState {
    if a in s.artifacts then Stop(s, ArtifactConflict)
    else t.(node := node, visited := s.visited + 1, artifacts := s.artifacts + [a])
  }

  /** The gate in front of an agent call, and the records behind it. */
  function Charge(c: Config, s: RunState, agent: AgentRole, characters: nat, usage: CallUsage)
    : Option<RunState>
  {
    var r := AgentReservation(c.budget, agent, characters);
    if Admits(c.budget, Usages(s.calls), r) then
      Some(s.(calls := s.calls + [GatedCall(r, usage)], llm := s.llm + [agent]))
    else None
  }

  /** The state once the agent was called; a node that then raises records nothing else. */
  function Called(s: RunState): RunState {
    s.(made := s.made + 1)
  }

  // ----- The nodes of the loop -----

  function Curate(c: Config, s: RunState, candidate: DraftPackage): Result<DraftPackage, GraphError> {
    if candidate.runId != c.runId then Failure(WrongRunId)
    else if s.revisionCount == 0 then Success(candidate)
    else if s.drafts.None? || s.revision.None? then Failure(PortFailure)
    else
      var combined := CombineRevision(s.approved, s.drafts.value, s.revision.value.blocked, candidate);
      if combined.Success? then Success(combined.value) else Failure(Combining(combined.error))
  }

  function ExpectedIds(s: RunState, package: DraftPackage): set<string> {
    if s.revisionCount > 0 then Items(s.blocked) else Items(DraftIds(package.drafts))
  }

  /** The first review of a note that has no draft or whose hash is not the draft's. */
  function FirstMismatch(drafts: seq<DraftNote>, reviews: seq<NoteReview>): Option<GraphError> {
    if reviews == [] then None
    else
      var before, last := FirstMismatch(drafts, reviews[..|reviews| - 1]), reviews[|reviews| - 1];
      if before.Some? then before
      else if FindDraft(drafts, last.noteId).None? then Some(MissingDraft)
      else if FindDraft(drafts, last.noteId).value.hash != last.reviewedHash then Some(ReviewedHash)
      else None
  }

  /** A review must cover exactly the expected notes, and with the hashes of their drafts. */
  function CheckReview(c: Config, s: RunState, package: DraftPackage, review: ReviewPackage)
    : Option<GraphError>
  {
    if review.runId != c.runId || ReviewIds(review.reviews) != ExpectedIds(s, package) then Some(ReviewScope)
    else FirstMismatch(package.drafts, review.reviews)
  }

  /** Every reviewed note has a draft with the reviewed hash. */
  predicate Covered(drafts: seq<DraftNote>, reviews: seq<NoteReview>) {
    forall r | r in reviews :: Matches(drafts, r.noteId, r.reviewedHash)
  }

  lemma {:induction false} NoMismatchIffCovered(drafts: seq<DraftNote>, reviews: seq<NoteReview>)
    ensures FirstMismatch(drafts, reviews).None? <==> Covered(drafts, reviews)
    ensures FirstMismatch(drafts, reviews).Some? ==>
              FirstMismatch(drafts, reviews).value in {MissingDraft, ReviewedHash}
    ensures FirstMismatch(drafts, reviews) == Some(MissingDraft) ==>
              exists r | r in reviews :: FindDraft(drafts, r.noteId).None?
  {
    hide FindDraft;
    if reviews != [] {
      NoMismatchIffCovered(drafts, reviews[..|reviews| - 1]);
      assert reviews == reviews[..|reviews| - 1] + [reviews[|reviews| - 1]];
    }
  }

  /** A review is accepted exactly when it belongs to the run, covers every draft of a first round, or
      every blocked note of a later one, and no other note, and reviews each under its draft's hash. */
  lemma ReviewAcceptedIff(c: Config, s: RunState, package: DraftPackage, review: ReviewPackage)
    requires UniqueDrafts(package.drafts)
    ensures CheckReview(c, s, package, review).None? <==>
      && review.runId == c.runId
      && (s.revisionCount == 0 ==>
            forall id :: id in ReviewIds(review.reviews) <==> exists d | d in package.drafts :: d.noteId == id)
      && (s.revisionCount > 0 ==> forall id :: id in ReviewIds(review.reviews) <==> id in s.blocked)
      && forall r | r in review.reviews ::
           exists d | d in package.drafts :: d.noteId == r.noteId && d.hash == r.reviewedHash
  {
    hide FindDraft, FirstMismatch, ReviewIds, UniqueDrafts;
    NoMismatchIffCovered(package.drafts, review.reviews);
    CoveredIff(package.drafts, review.reviews);
    DraftIdsOf(package.drafts);
    ItemsOf(DraftIds(package.drafts));
    ItemsOf(s.blocked);
  }

  lemma ItemsOf(s: seq<string>)
    ensures forall x :: x in Items(s) <==> x in s
  {
  }

  lemma DraftIdsOf(drafts: seq<DraftNote>)
    ensures forall id :: id in DraftIds(drafts) <==> exists d | d in drafts :: d.noteId == id
  {
    forall d | d in drafts ensures d.noteId in DraftIds(drafts) {
      var i :| 0 <= i < |drafts| && drafts[i] == d;
      assert DraftIds(drafts)[i] == d.noteId;
    }
  }

  lemma CoveredIff(drafts: seq<DraftNote>, reviews: seq<NoteReview>)
    requires UniqueDrafts(drafts)
    ensures Covered(drafts, reviews) <==>
      forall r | r in reviews :: exists d | d in drafts :: d.noteId == r.noteId && d.hash == r.reviewedHash
  {
    hide FindDraft;
    forall r | r in reviews
      ensures Matches(drafts, r.noteId, r.reviewedHash) <==>
        exists d | d in drafts :: d.noteId == r.noteId && d.hash == r.reviewedHash
    {
      FindDraftFinds(drafts, r.noteId);
      if d :| d in drafts && d.noteId == r.noteId && d.hash == r.reviewedHash {
        var i :| 0 <= i < |drafts| && drafts[i] == d;
        FindDraftAt(drafts, i);
      }
    }
  }

  lemma {:induction false} FirstMismatchStays(drafts: seq<DraftNote>, reviews: seq<NoteReview>, n: nat)
    requires n <= |reviews| && FirstMismatch(drafts, reviews[..n]).Some?
    ensures FirstMismatch(drafts, reviews) == FirstMismatch(drafts, reviews[..n])
  {
    hide FindDraft;
    if n == |reviews| {
      assert reviews[..n] == reviews;
    } else {
      assert reviews[..|reviews| - 1][..n] == reviews[..n];
      FirstMismatchStays(drafts, reviews[..|reviews| - 1], n);
    }
  }

  /** The approvals after a review, or None where a reviewed or approved hash is not the draft's. */
  function Approve(approved: map<string, string>, drafts: seq<DraftNote>, review: ReviewPackage)
    : Option<map<string, string>>
  {
    if !Covered(drafts, review.reviews) then None
    else if !Frozen(review.approved, drafts) then None
    else Some(approved + review.approved)
  }

  /** The node's own loops: it checks every reviewed hash, then adds the approvals one by one. */
  method AddApprovals(approved: map<string, string>, drafts: seq<DraftNote>, review: ReviewPackage)
    returns (hashes: Option<map<string, string>>)
    ensures hashes == Approve(approved, drafts, review)
  {
    var i := 0;
    while i < |review.reviews|
      invariant 0 <= i <= |review.reviews|
      invariant forall r | r in review.reviews[..i] :: Matches(drafts, r.noteId, r.reviewedHash)
    {
      var item := review.reviews[i];
      if !Matches(drafts, item.noteId, item.reviewedHash) {
        return None;
      }
      i := i + 1;
    }
    assert Covered(drafts, review.reviews);
    var merged := approved;
    var left := review.approved.Keys;
    while left != {}
      invariant left <= review.approved.Keys
      invariant forall id | id in review.approved && id !in left :: Matches(drafts, id, review.approved[id])
      invariant merged == approved + (review.approved - left)
    {
      var id :| id in left;
      if !Matches(drafts, id, review.approved[id]) {
        return None;
      }
      merged := merged[id := review.approved[id]];
      left := left - {id};
    }
    assert review.approved - {} == review.approved;
    hashes := Some(merged);
  }

  predicate Matches(drafts: seq<DraftNote>, id: string, hash: string) {
    FindDraft(drafts, id).Some? && FindDraft(drafts, id).value.hash == hash
  }

  /** The issues and the hashes of the blocked drafts, with the lookups of reviews and drafts by note id. */
  function TaskFor(drafts: seq<DraftNote>, review: ReviewPackage): Result<RevisionTask, GraphError> {
    if exists id | id in review.blocked :: id !in ReviewIds(review.reviews) then Failure(MissingReview)
    else if exists id | id in review.blocked :: FindDraft(drafts, id).None? then Failure(MissingDraft)
    else
      Success(RevisionTask(
                review.blocked,
                map id | id in review.blocked :: LastReview(review.reviews, id).issues,
                map id | id in review.blocked :: FindDraft(drafts, id).value.hash))
  }

  function Route(c: Config, s: RunState, drafts: DraftPackage, review: ReviewPackage): RunState {
    var approved := Approve(s.approved, drafts.drafts, review);
    if approved.None? then Stop(s, RouteMismatch)
    else
      var decision := Evaluate(review, s.revisionCount, s.fingerprint, c.cycles);
      var t := s.(approved := approved.value, blocked := review.blocked);
      match decision
      case Persist(outcome, fingerprint) =>
        Go(t.(fingerprint := fingerprint, outcome := Some(outcome)), PersistTerminal)
      case Revise(fingerprint, count) =>
        var task := TaskFor(drafts.drafts, review);
        if task.Failure? then Stop(s, task.error)
        else
          WriteAndGo(
            s, t.(fingerprint := Some(fingerprint), revisionCount := count, outcome := None,
               revision := Some(task.value)),
            RevisionRequest(count), Agent2)
  }

  /** A failed secondary write is a warning, and takes a completed run to completed with warnings. */
  function AfterSecondary(s: RunState, ok: bool, warning: Warning): RunState {
    if ok then s
    else
      s.(warnings := s.warnings + [warning],
         outcome := if s.outcome == Some(Completed) then Some(CompletedWithWarnings) else s.outcome)
  }

  // ----- One step -----

  function AcquireStep(c: Config, s: RunState, characters: nat, usage: CallUsage, own: bool): RunState {
    var charged := Charge(c, Called(s), Acquisition, characters, usage);
    if charged.None? then Stop(s, OverBudget)
    else if !own then Stop(Called(s), WrongRunId)
    else WriteAndGo(Called(s), charged.value, AcquisitionPacket, ValidateAcquisition)
  }

  function CurateStep(c: Config, s: RunState, characters: nat, usage: CallUsage, candidate: DraftPackage)
    : RunState
  {
    var charged := Charge(c, Called(s), Curation, characters, usage);
    if s.revisionCount > 0 && (s.drafts.None? || s.revision.None?) then Stop(s, PortFailure)
    else if charged.None? then Stop(s, OverBudget)
    else
      var package := Curate(c, s, candidate);
      if package.Failure? then Stop(Called(s), package.error)
      else
        WriteAndGo(
          Called(s), charged.value.(drafts := Some(package.value)), DraftsOf(s.revisionCount), ValidateDrafts)
  }

  function ReviewStep(c: Config, s: RunState, characters: nat, usage: CallUsage, review: ReviewPackage)
    : RunState
  {
    var charged := Charge(c, Called(s), Validation, characters, usage);
    if s.drafts.None? then Stop(s, PortFailure)
    else if charged.None? then Stop(s, OverBudget)
    else
      var error := CheckReview(c, s, s.drafts.value, review);
      if error.Some? then Stop(Called(s), error.value)
      else
        WriteAndGo(Called(s), charged.value.(review := Some(review)), ReviewOf(s.revisionCount), RouteReview)
  }

  function AgentOf(node: Node): AgentRole {
    if node.Agent1? then Acquisition else if node.Agent2? then Curation else Validation
  }

  /** A call that raises counts as made once it is past the gate. */
  function RaisingStep(c: Config, s: RunState, characters: nat): RunState {
    if Admits(c.budget, Usages(s.calls), AgentReservation(c.budget, AgentOf(s.node), characters)) then
      Stop(Called(s), PortFailure)
    else Stop(s, OverBudget)
  }

  function AgentStep(c: Config, s: RunState, reply: Reply): RunState {
    if s.node.Agent1? && reply.Acquired? then
      AcquireStep(c, s, reply.characters, reply.usage, reply.own)
    else if s.node.Agent2? && reply.Drafted? then
      CurateStep(c, s, reply.characters, reply.usage, reply.candidate)
    else if s.node.Agent3? && reply.Reviewed? then
      ReviewStep(c, s, reply.characters, reply.usage, reply.package)
    else if reply.NoAnswer? then RaisingStep(c, s, reply.characters)
    else Stop(s, PortFailure)
  }

  function WorkStep(c: Config, s: RunState): RunState {
    match s.node
    case PrepareRun => Go(s, InspectSource)
    case InspectSource => WriteAndGo(s, s, SourceDescriptor, AcquireEvidence)
    case AcquireEvidence => WriteAndGo(s, s, EvidenceBatch, Agent1)
    case ValidateAcquisition => Go(s, RetrieveContext)
    case RetrieveContext => WriteAndGo(s, s, RetrievalContext, Agent2)
    case ValidateDrafts =>
      if s.drafts.None? || s.drafts.value.runId != c.runId || !EveryDraftDecided(s.drafts.value)
      then Stop(s, DraftsUndecided)
      else Go(s, Agent3)
    case RouteReview =>
      if s.drafts.None? || s.review.None? then Stop(s, PortFailure)
      else Route(c, s, s.drafts.value, s.review.value)
    case PersistTerminal => if s.outcome.None? then Stop(s, NoOutcome) else Go(s, SyncIndex)
    case _ => Stop(s, PortFailure)
  }

  /** The last two nodes outlive failures of their secondary ports. */
  function PlainStep(c: Config, s: RunState, ok: bool, secondary: bool): RunState {
    if !ok then Stop(s, PortFailure)
    else if s.node.SyncIndex? then
      Go(AfterSecondary(s, secondary, IndexRepairRequired), FlushTelemetry)
    else if s.node.FlushTelemetry? then
      var sent := secondary && |s.llm| == |s.calls|;
      WriteAndGo(s, AfterSecondary(s, sent, TelemetryRepairRequired), RunManifest, Ended)
    else WorkStep(c, s)
  }

  predicate IsOver(s: RunState) {
    s.node.Ended? || s.node.Stopped?
  }

  predicate IsAgent(node: Node) {
    node.Agent1? || node.Agent2? || node.Agent3?
  }

  function Step(c: Config, s: RunState, reply: Reply): RunState {
    if IsOver(s) then s
    else if IsAgent(s.node) then AgentStep(c, s, reply)
    else PlainStep(c, s, reply.Plain? && reply.ok, reply.Plain? && reply.secondary)
  }

  function Run(c: Config, s: RunState, replies: seq<Reply>): RunState {
    if replies == [] then s else Step(c, Run(c, s, replies[..|replies| - 1]), replies[|replies| - 1])
  }
}
