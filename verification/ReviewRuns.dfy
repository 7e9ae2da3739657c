/** What every run of the graph keeps. */
module ReviewRuns {
  import opened Budgets
  import opened Contracts
  import opened Curation
  import opened Decimal
  import opened Ordering
  import opened ReviewGraph
  import opened Routing
  import opened Wrappers

  // ----- Length of a run -----

  /** How many nodes ran before this one. */
  function Visit(node: Node, r: nat): nat {
    match node
    case PrepareRun => 0
    case InspectSource => 1
    case AcquireEvidence => 2
    case Agent1 => 3
    case ValidateAcquisition => 4
    case RetrieveContext => 5
    case Agent2 => 6 + 4 * r
    case ValidateDrafts => 7 + 4 * r
    case Agent3 => 8 + 4 * r
    case RouteReview => 9 + 4 * r
    case PersistTerminal => 10 + 4 * r
    case SyncIndex => 11 + 4 * r
    case FlushTelemetry => 12 + 4 * r
    case Ended => 13 + 4 * r
    case Stopped(_) => 0
  }

  /** How many agent calls were made before this node. */
  function CallsBefore(node: Node, r: nat): nat {
    match node
    case PrepareRun => 0
    case InspectSource => 0
    case AcquireEvidence => 0
    case Agent1 => 0
    case ValidateAcquisition => 1
    case RetrieveContext => 1
    case Agent2 => 1 + 2 * r
    case ValidateDrafts => 2 + 2 * r
    case Agent3 => 2 + 2 * r
    case _ => 3 + 2 * r
  }

  predicate Control(c: Config, s: RunState) {
    && s.revisionCount <= c.cycles
    && |s.llm| == |s.calls|
    && |s.calls| <= s.made <= 3 + 2 * c.cycles
    && (s.node.Stopped? ==> s.visited <= 13 + 4 * c.cycles)
    && (!s.node.Stopped? ==>
          && s.made == |s.calls|
          && s.visited == Visit(s.node, s.revisionCount)
          && |s.calls| == CallsBefore(s.node, s.revisionCount)
          && (s.visited < 6 ==> s.revisionCount == 0))
  }

  lemma RevisionsAreBounded(review: ReviewPackage, count: nat, previous: Option<Fingerprint>, cycles: nat)
    requires Evaluate(review, count, previous, cycles).Revise?
    ensures Evaluate(review, count, previous, cycles).revisionCount == count + 1 <= cycles
  {
    hide IssueFingerprint;
  }

  lemma RouteKeepsControl(c: Config, s: RunState, drafts: DraftPackage, review: ReviewPackage)
    requires Control(c, s) && s.node.RouteReview?
    ensures Control(c, Route(c, s, drafts, review))
  {
    hide Approve, TaskFor, Evaluate;
    if Evaluate(review, s.revisionCount, s.fingerprint, c.cycles).Revise? {
      RevisionsAreBounded(review, s.revisionCount, s.fingerprint, c.cycles);
    }
  }

  /** An agent call that passes the gate adds one call record and one usage entry. */
  lemma Charged(c: Config, s: RunState, agent: AgentRole, characters: nat, usage: CallUsage)
    ensures var t, r := Charge(c, s, agent, characters, usage), AgentReservation(c.budget, agent, characters);
      && (t.Some? <==> Admits(c.budget, Usages(s.calls), r))
      && (t.Some? ==> t.value == s.(calls := s.calls + [GatedCall(r, usage)], llm := s.llm + [agent]))
  {
    hide Admits, AgentReservation;
  }

  lemma AgentStepKeepsControl(c: Config, s: RunState, reply: Reply)
    requires Control(c, s) && IsAgent(s.node)
    ensures Control(c, AgentStep(c, s, reply))
  {
    hide Curate, CheckReview, Charge, Admits, AgentReservation;
    match reply
    case Acquired(n, u, _) => Charged(c, Called(s), Acquisition, n, u);
    case Drafted(n, u, _) => Charged(c, Called(s), Curation, n, u);
    case Reviewed(n, u, _) => Charged(c, Called(s), Validation, n, u);
    case _ =>
  }

  lemma WorkStepKeepsControl(c: Config, s: RunState)
    requires Control(c, s) && !IsAgent(s.node) && !IsOver(s)
    ensures Control(c, WorkStep(c, s))
  {
    hide Route, EveryDraftDecided;
    if s.node.RouteReview? && s.drafts.Some? && s.review.Some? {
      RouteKeepsControl(c, s, s.drafts.value, s.review.value);
    }
  }

  lemma StepKeepsControl(c: Config, s: RunState, reply: Reply)
    requires Control(c, s)
    ensures Control(c, Step(c, s, reply))
  {
    hide AgentStep, WorkStep;
    if IsAgent(s.node) {
      AgentStepKeepsControl(c, s, reply);
    } else if !IsOver(s) {
      WorkStepKeepsControl(c, s);
    }
  }

  /** Every run visits at most 13 + 4m nodes and makes at most 3 + 2m agent calls, those included whose
      answer is refused, where m is the number of revision cycles; a call record exists for every usage
      entry. */
  lemma {:induction false} RunsAreShort(c: Config, replies: seq<Reply>)
    ensures Control(c, Run(c, START, replies))
    ensures var s := Run(c, START, replies);
      && s.visited <= 13 + 4 * c.cycles
      && s.made <= 3 + 2 * c.cycles
      && |s.llm| == |s.calls| <= s.made
  {
    hide Step;
    if replies != [] {
      RunsAreShort(c, replies[..|replies| - 1]);
      StepKeepsControl(c, Run(c, START, replies[..|replies| - 1]), replies[|replies| - 1]);
    }
  }

  /** While a run is not over, every reply has run one more node. */
  lemma {:induction false} RepliesAreVisits(c: Config, replies: seq<Reply>)
    ensures var s := Run(c, START, replies); !IsOver(s) ==> s.visited == |replies|
  {
    hide Step;
    if replies != [] {
      var before := replies[..|replies| - 1];
      RepliesAreVisits(c, before);
      StepVisitsOne(c, Run(c, START, before), replies[|replies| - 1]);
    }
  }

  lemma StepVisitsOne(c: Config, s: RunState, reply: Reply)
    ensures if IsOver(s) then Step(c, s, reply) == s else Step(c, s, reply).visited == s.visited + 1
  {
    hide Curate, CheckReview, Admits, AgentReservation, Evaluate, Approve, TaskFor, EveryDraftDecided;
  }

  /** Whatever the agents answer, after 13 + 4m nodes the run is over. */
  lemma RunsEnd(c: Config, replies: seq<Reply>)
    requires |replies| >= 13 + 4 * c.cycles
    ensures IsOver(Run(c, START, replies))
  {
    hide Run;
    RepliesAreVisits(c, replies);
    RunsAreShort(c, replies);
  }

  // ----- Artifacts are never written twice -----

  /** The visit that writes the artifact; the manifest is written by the last. */
  function WrittenAt(a: Artifact): int
    requires !a.RunManifest?
  {
    match a
    case Request => -1
    case SourceDescriptor => 1
    case EvidenceBatch => 2
    case AcquisitionPacket => 3
    case RetrievalContext => 5
    case DraftsOf(k) => 6 + 4 * k
    case ReviewOf(k) => 8 + 4 * k
    case RevisionRequest(k) => 5 + 4 * k
  }

  predicate WrittenBefore(s: RunState, a: Artifact) {
    if a.RunManifest? then IsOver(s) else WrittenAt(a) < s.visited
  }

  predicate NamesOk(s: RunState) {
    && (forall i, j | 0 <= i < j < |s.artifacts| :: s.artifacts[i] != s.artifacts[j])
    && (forall a | a in s.artifacts :: WrittenBefore(s, a))
    && s.node != Stopped(ArtifactConflict)
  }

  lemma WriteKeepsNames(s: RunState, t: RunState, a: Artifact, node: Node)
    requires NamesOk(s) && !IsOver(s) && node != Stopped(ArtifactConflict)
    requires if a.RunManifest? then node.Ended? else WrittenAt(a) == s.visited
    ensures NamesOk(WriteAndGo(s, t, a, node))
  {
    assert !WrittenBefore(s, a);
  }

  lemma MoveKeepsNames(s: RunState, t: RunState)
    requires NamesOk(s) && !IsOver(s) && t.artifacts == s.artifacts && t.visited == s.visited + 1
    requires t.node != Stopped(ArtifactConflict)
    ensures NamesOk(t)
  {
    forall a | a in t.artifacts ensures WrittenBefore(t, a) {
      assert WrittenBefore(s, a);
    }
  }

  lemma CalledKeepsNames(s: RunState)
    requires NamesOk(s)
    ensures NamesOk(Called(s))
  {
    forall a | a in s.artifacts ensures WrittenBefore(Called(s), a) {
      assert WrittenBefore(s, a);
    }
  }

  lemma AgentStepKeepsNames(c: Config, s: RunState, reply: Reply)
    requires Control(c, s) && NamesOk(s) && IsAgent(s.node)
    ensures NamesOk(AgentStep(c, s, reply))
  {
    hide Curate, CheckReview, Charge, NamesOk, WriteAndGo, Admits;
    var t, called := AgentStep(c, s, reply), Called(s);
    CalledKeepsNames(s);
    match reply
    case Acquired(n, u, own) =>
      var charged := Charge(c, called, Acquisition, n, u);
      if s.node.Agent1? && charged.Some? && own {
        WriteKeepsNames(called, charged.value, AcquisitionPacket, ValidateAcquisition);
      } else {
        MoveKeepsNames(s, t);
      }
    case Drafted(n, u, candidate) =>
      var charged, package := Charge(c, called, Curation, n, u), Curate(c, s, candidate);
      if s.node.Agent2? && charged.Some? && package.Success?
         && (s.revisionCount == 0 || (s.drafts.Some? && s.revision.Some?)) {
        WriteKeepsNames(
          called, charged.value.(drafts := Some(package.value)), DraftsOf(s.revisionCount), ValidateDrafts);
      } else {
        CurateErrors(c, s, candidate);
        MoveKeepsNames(s, t);
      }
    case Reviewed(n, u, review) =>
      var charged := Charge(c, called, Validation, n, u);
      if s.node.Agent3? && charged.Some? && s.drafts.Some? && CheckReview(c, s, s.drafts.value, review).None? {
        WriteKeepsNames(called, charged.value.(review := Some(review)), ReviewOf(s.revisionCount), RouteReview);
      } else {
        if s.drafts.Some? {
          ReviewErrors(c, s, s.drafts.value, review);
        }
        MoveKeepsNames(s, t);
      }
    case _ => MoveKeepsNames(s, t);
  }

  lemma CurateErrors(c: Config, s: RunState, candidate: DraftPackage)
    ensures Curate(c, s, candidate).Failure? ==>
              var e := Curate(c, s, candidate).error;
              e == WrongRunId || e == PortFailure || e.Combining?
  {
    hide CombineRevision;
  }

  lemma ReviewErrors(c: Config, s: RunState, package: DraftPackage, review: ReviewPackage)
    ensures CheckReview(c, s, package, review).Some? ==>
              CheckReview(c, s, package, review).value in {ReviewScope, MissingDraft, ReviewedHash}
  {
    hide FirstMismatch;
    NoMismatchIffCovered(package.drafts, review.reviews);
  }

  lemma RouteKeepsNames(c: Config, s: RunState, drafts: DraftPackage, review: ReviewPackage)
    requires Control(c, s) && NamesOk(s) && s.node.RouteReview?
    ensures NamesOk(Route(c, s, drafts, review))
  {
    hide Approve, TaskFor, Evaluate, NamesOk, WriteAndGo;
    var t := Route(c, s, drafts, review);
    var approved := Approve(s.approved, drafts.drafts, review);
    var decision := Evaluate(review, s.revisionCount, s.fingerprint, c.cycles);
    var task := TaskFor(drafts.drafts, review);
    if approved.Some? && decision.Revise? && task.Success? {
      RevisionsAreBounded(review, s.revisionCount, s.fingerprint, c.cycles);
      WriteKeepsNames(
        s,
        s.(approved := approved.value, blocked := review.blocked, fingerprint := Some(decision.fingerprint),
           revisionCount := decision.revisionCount, outcome := None, revision := Some(task.value)),
        RevisionRequest(decision.revisionCount), Agent2);
    } else {
      TaskErrors(drafts.drafts, review);
      MoveKeepsNames(s, t);
    }
  }

  lemma TaskErrors(drafts: seq<DraftNote>, review: ReviewPackage)
    ensures TaskFor(drafts, review).Failure? ==> TaskFor(drafts, review).error in {MissingReview, MissingDraft}
  {
    hide FindDraft;
  }

  lemma WorkStepKeepsNames(c: Config, s: RunState)
    requires Control(c, s) && NamesOk(s) && !IsAgent(s.node) && !IsOver(s)
    ensures NamesOk(WorkStep(c, s))
  {
    hide Route, EveryDraftDecided, NamesOk, WriteAndGo;
    match s.node
    case InspectSource => WriteKeepsNames(s, s, SourceDescriptor, AcquireEvidence);
    case AcquireEvidence => WriteKeepsNames(s, s, EvidenceBatch, Agent1);
    case RetrieveContext => WriteKeepsNames(s, s, RetrievalContext, Agent2);
    case RouteReview =>
      if s.drafts.Some? && s.review.Some? {
        RouteKeepsNames(c, s, s.drafts.value, s.review.value);
      } else {
        MoveKeepsNames(s, WorkStep(c, s));
      }
    case _ => MoveKeepsNames(s, WorkStep(c, s));
  }

  lemma StepKeepsNames(c: Config, s: RunState, reply: Reply)
    requires Control(c, s) && NamesOk(s)
    ensures NamesOk(Step(c, s, reply))
  {
    hide AgentStep, WorkStep, NamesOk, WriteAndGo;
    if IsAgent(s.node) {
      AgentStepKeepsNames(c, s, reply);
    } else if !IsOver(s) {
      var ok, secondary := reply.Plain? && reply.ok, reply.Plain? && reply.secondary;
      if ok && s.node.FlushTelemetry? {
        var sent := secondary && |s.llm| == |s.calls|;
        WriteKeepsNames(s, AfterSecondary(s, sent, TelemetryRepairRequired), RunManifest, Ended);
      } else if !ok || s.node.SyncIndex? {
        MoveKeepsNames(s, Step(c, s, reply));
      } else {
        WorkStepKeepsNames(c, s);
      }
    }
  }

  lemma {:induction false} RunKeepsNames(c: Config, replies: seq<Reply>)
    ensures NamesOk(Run(c, START, replies))
  {
    hide Step, Control;
    if replies != [] {
      var before := replies[..|replies| - 1];
      RunKeepsNames(c, before);
      RunsAreShort(c, before);
      StepKeepsNames(c, Run(c, START, before), replies[|replies| - 1]);
    }
  }

  // ----- Which artifacts there are -----

  /** What the node writes on its way to the next one. */
  function Written(s: RunState, next: Node): seq<Artifact> {
    match s.node
    case InspectSource => [SourceDescriptor]
    case AcquireEvidence => [EvidenceBatch]
    case Agent1 => [AcquisitionPacket]
    case RetrieveContext => [RetrievalContext]
    case Agent2 => [DraftsOf(s.revisionCount)]
    case Agent3 => [ReviewOf(s.revisionCount)]
    case RouteReview => if next.Agent2? then [RevisionRequest(s.revisionCount + 1)] else []
    case FlushTelemetry => [RunManifest]
    case _ => []
  }

  /** The artifacts of all visits so far: one package and one review for every round, one request for
      every revision, the others once. */
  predicate IsDue(s: RunState, a: Artifact) {
    match a
    case RunManifest => s.node.Ended?
    case DraftsOf(k) => k <= s.revisionCount && WrittenAt(a) < s.visited
    case ReviewOf(k) => k <= s.revisionCount && WrittenAt(a) < s.visited
    case RevisionRequest(k) => 1 <= k <= s.revisionCount && WrittenAt(a) < s.visited
    case _ => WrittenAt(a) < s.visited
  }

  ghost predicate HasExactlyDue(s: RunState) {
    !s.node.Stopped? ==> forall a :: a in s.artifacts <==> IsDue(s, a)
  }

  lemma AgentsWrite(c: Config, s: RunState, reply: Reply)
    requires Control(c, s) && IsAgent(s.node)
    ensures var t := AgentStep(c, s, reply);
      !t.node.Stopped? ==> t.artifacts == s.artifacts + Written(s, t.node) && t.revisionCount == s.revisionCount
  {
    hide Curate, CheckReview, Charge, Admits, AgentReservation;
    match reply
    case Acquired(n, u, _) => Charged(c, Called(s), Acquisition, n, u);
    case Drafted(n, u, _) => Charged(c, Called(s), Curation, n, u);
    case Reviewed(n, u, _) => Charged(c, Called(s), Validation, n, u);
    case _ =>
  }

  lemma NodesWrite(c: Config, s: RunState, reply: Reply)
    requires Control(c, s) && !IsOver(s)
    ensures var t := Step(c, s, reply);
      !t.node.Stopped? ==>
        && t.artifacts == s.artifacts + Written(s, t.node)
        && t.revisionCount == (if s.node.RouteReview? && t.node.Agent2? then s.revisionCount + 1 else s.revisionCount)
  {
    hide AgentStep, Evaluate, Approve, TaskFor, EveryDraftDecided, Control;
    if IsAgent(s.node) {
      AgentsWrite(c, s, reply);
    } else if s.node.RouteReview? && s.review.Some? {
      var review := s.review.value;
      if Evaluate(review, s.revisionCount, s.fingerprint, c.cycles).Revise? {
        RevisionsAreBounded(review, s.revisionCount, s.fingerprint, c.cycles);
      }
    }
  }

  lemma DueNext(s: RunState, t: RunState, a: Artifact)
    requires !IsOver(s) && !t.node.Stopped? && t.visited == s.visited + 1
    requires s.visited == Visit(s.node, s.revisionCount) && t.visited == Visit(t.node, t.revisionCount)
    requires t.revisionCount
          == if s.node.RouteReview? && t.node.Agent2? then s.revisionCount + 1 else s.revisionCount
    requires s.visited < 6 ==> s.revisionCount == 0
    ensures IsDue(t, a) <==> IsDue(s, a) || a in Written(s, t.node)
  {
  }

  lemma StepWritesDue(c: Config, s: RunState, reply: Reply)
    requires Control(c, s) && HasExactlyDue(s) && !IsOver(s)
    ensures HasExactlyDue(Step(c, s, reply))
  {
    hide Step, IsDue, Written;
    var t := Step(c, s, reply);
    NodesWrite(c, s, reply);
    StepKeepsControl(c, s, reply);
    StepVisitsOne(c, s, reply);
    if !t.node.Stopped? {
      forall a ensures a in t.artifacts <==> IsDue(t, a) {
        DueNext(s, t, a);
      }
    }
  }

  /** In every run that has not stopped, the artifacts are exactly those due: so a run that ended has
      one package and one review for each of its rounds, a request for each of its revisions, its
      manifest, and each of the others. */
  lemma {:induction false} ArtifactsAreComplete(c: Config, replies: seq<Reply>)
    ensures HasExactlyDue(Run(c, START, replies))
    ensures var s := Run(c, START, replies);
      s.node.Ended? ==>
        && Request in s.artifacts && SourceDescriptor in s.artifacts && EvidenceBatch in s.artifacts
        && AcquisitionPacket in s.artifacts && RetrievalContext in s.artifacts && RunManifest in s.artifacts
        && (forall k: nat :: DraftsOf(k) in s.artifacts <==> k <= s.revisionCount)
        && (forall k: nat :: ReviewOf(k) in s.artifacts <==> k <= s.revisionCount)
        && (forall k: nat :: RevisionRequest(k) in s.artifacts <==> 1 <= k <= s.revisionCount)
  {
    hide Step;
    RunsAreShort(c, replies);
    if replies != [] {
      var before := replies[..|replies| - 1];
      var s := Run(c, START, before);
      ArtifactsAreComplete(c, before);
      RunsAreShort(c, before);
      if IsOver(s) {
        StepVisitsOne(c, s, replies[|replies| - 1]);
      } else {
        StepWritesDue(c, s, replies[|replies| - 1]);
      }
    }
  }

  function Tag(a: Artifact): string {
    match a
    case Request => "reque"
    case SourceDescriptor => "sourc"
    case EvidenceBatch => "evide"
    case AcquisitionPacket => "acqui"
    case RetrievalContext => "retri"
    case DraftsOf(_) => "draft"
    case ReviewOf(_) => "revie"
    case RevisionRequest(_) => "revis"
    case RunManifest => "run-m"
  }

  lemma FileNameTag(a: Artifact)
    ensures |FileName(a)| >= 5 && FileName(a)[..5] == Tag(a)
  {
  }

  lemma FileNameIsInjective(a: Artifact, b: Artifact)
    requires FileName(a) == FileName(b)
    ensures a == b
  {
    hide FileName;
    FileNameTag(a);
    FileNameTag(b);
    assert Tag(a) == Tag(b);
    if a.DraftsOf? || a.ReviewOf? || a.RevisionRequest? {
      SameNumber(a, b);
    }
  }

  lemma SameNumber(a: Artifact, b: Artifact)
    requires FileName(a) == FileName(b)
    requires (a.DraftsOf? && b.DraftsOf?) || (a.ReviewOf? && b.ReviewOf?)
          || (a.RevisionRequest? && b.RevisionRequest?)
    ensures a.revision == b.revision
  {
    hide Show;
    var n := if a.DraftsOf? then 15 else if a.ReviewOf? then 16 else 18;
    assert FileName(a)[n..] == Show(a.revision) && FileName(b)[n..] == Show(b.revision);
    ShowIsInjective(a.revision, b.revision);
  }

  /** No artifact file is ever written twice, so the write-once store never refuses one. */
  lemma ArtifactFilesDiffer(c: Config, replies: seq<Reply>)
    ensures var s := Run(c, START, replies);
      && s.node != Stopped(ArtifactConflict)
      && forall i, j | 0 <= i < j < |s.artifacts| :: FileName(s.artifacts[i]) != FileName(s.artifacts[j])
  {
    hide Run, FileName;
    RunKeepsNames(c, replies);
    var s := Run(c, START, replies);
    forall i, j | 0 <= i < j < |s.artifacts| ensures FileName(s.artifacts[i]) != FileName(s.artifacts[j]) {
      if FileName(s.artifacts[i]) == FileName(s.artifacts[j]) {
        FileNameIsInjective(s.artifacts[i], s.artifacts[j]);
        assert false;
      }
    }
  }
}
