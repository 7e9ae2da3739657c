/** Runs that go as far as the limits allow: every revision that the policy has cycles for can take
    place, and the bounds on nodes and calls are attained. */
module ReviewReach {
  import opened Budgets
  import opened Contracts
  import opened Curation
  import opened Decimal
  import opened Ordering
  import opened ReviewGraph
  import opened ReviewRuns
  import opened ReviewSafety
  import opened Routing
  import opened Wrappers

  const WORK := Plain(true, true)

  // ----- Answers that cost nothing -----

  function NoUsage(agent: AgentRole): CallUsage {
    CallUsage(agent, 0, 0, 0.0, 0.0)
  }

  predicate AreFree(calls: seq<GatedCall>) {
    forall i | 0 <= i < |calls| :: calls[i].used == NoUsage(calls[i].used.agent)
  }

  /** The budget has room for this many calls as far as they use nothing. */
  predicate HasRoom(budget: ContextBudget, calls: nat) {
    && calls <= budget.maxMainCalls
    && budget.outputAgent1 <= budget.maxOutputPerRun
    && budget.outputAgent2 <= budget.maxOutputPerRun
    && budget.outputAgent3 <= budget.maxOutputPerRun
  }

  lemma {:induction false} FreeCallsSpendNothing(calls: seq<GatedCall>)
    requires AreFree(calls)
    ensures Spent(Usages(calls)) == Totals(|calls|, 0, 0, 0.0, 0.0)
  {
    if calls == [] {
      assert Usages(calls) == [];
    } else {
      FreeCallsSpendNothing(calls[..|calls| - 1]);
      UsagesPush(calls);
      SpentPush(Usages(calls[..|calls| - 1]), calls[|calls| - 1].used);
    }
  }

  lemma FreeCallIsAdmitted(c: Config, s: RunState, agent: AgentRole, usage: CallUsage)
    requires AreFree(s.calls) && HasRoom(c.budget, |s.calls| + 1) && usage == NoUsage(agent)
    ensures var t := Charge(c, s, agent, 0, usage);
      && t.Some? && AreFree(t.value.calls) && |t.value.calls| == |s.calls| + 1
      && t.value == s.(calls := t.value.calls, llm := t.value.llm)
  {
    hide Admits, AgentReservation, Spent, Usages;
    FreeCallsSpendNothing(s.calls);
    AgentIsAdmittedIff(c.budget, Usages(s.calls), agent, 0);
    Charged(c, s, agent, 0, usage);
  }

  // ----- One note that is sent back again and again -----

  const NOTE := DraftNote("note", "Title", [], [], Create, "hash")

  function Drafts(c: Config): DraftPackage {
    DraftPackage(c.runId, [NOTE], [CurationDecision("note", Create, "")], [])
  }

  /** The review of one round: the note is blocked, each time for another issue. */
  function Complaint(c: Config, k: nat): ReviewPackage {
    ReviewPackage(
      c.runId, [NoteReview("note", "hash", PartiallyReady, [Show(k)], [], false)], ["note"], map[],
      RecommendPartial)
  }

  lemma ComplaintsDiffer(c: Config, j: nat, k: nat)
    requires j != k
    ensures ValidReview(Complaint(c, j)) && NeverBoth(Complaint(c, j)) && ValidReview(Complaint(c, k))
    ensures !SameComplaints(Complaint(c, j), Complaint(c, k))
  {
    hide Show;
    ComplaintIsValid(c, j);
    ComplaintIsValid(c, k);
    if SameComplaints(Complaint(c, j), Complaint(c, k)) {
      assert "note" in Complaint(c, j).blocked && "note" in Complaint(c, k).blocked;
      assert multiset([Show(j)]) == multiset([Show(k)]);
      assert Show(j) in multiset([Show(k)]);
      ShowIsInjective(j, k);
    }
  }

  lemma ComplaintIsValid(c: Config, k: nat)
    ensures ValidReview(Complaint(c, k)) && NeverBoth(Complaint(c, k))
    ensures ReviewIds(Complaint(c, k).reviews) == {"note"}
    ensures LastReview(Complaint(c, k).reviews, "note") == Complaint(c, k).reviews[0]
    ensures Covered([NOTE], Complaint(c, k).reviews)
  {
    hide Show;
    var reviews := Complaint(c, k).reviews;
    assert reviews[0] in reviews;
    assert FindDraft([NOTE], "note") == Some(NOTE);
  }

  /** At the curation agent, with k revisions behind. */
  predicate AtCuration(c: Config, s: RunState, k: nat) {
    && s.node.Agent2? && s.revisionCount == k && AreFree(s.calls)
    && s.approved == map[]
    && if k == 0 then s.fingerprint == None
       else
         && s.drafts == Some(Drafts(c)) && s.revision.Some? && s.revision.value.blocked == ["note"]
         && s.blocked == ["note"] && s.fingerprint == Some(IssueFingerprint(Complaint(c, k - 1)))
  }

  /** Behind the curation agent, up to the routing of the review. */
  predicate InRound(c: Config, s: RunState, k: nat) {
    && s.revisionCount == k && AreFree(s.calls) && s.approved == map[] && s.drafts == Some(Drafts(c))
    && s.fingerprint == (if k == 0 then None else Some(IssueFingerprint(Complaint(c, k - 1))))
    && (k > 0 ==> s.blocked == ["note"])
  }

  lemma CombineTheSame(c: Config)
    ensures CombineRevision(map[], Drafts(c), ["note"], Drafts(c)) == Success(Drafts(c))
  {
    var package := Drafts(c);
    assert package.decisions[0] in package.decisions;
    assert "note" in DecisionIds(package.decisions);
    assert FindDecision(package.decisions, "note") == Some(package.decisions[0]);
    assert FindDraft(package.drafts, "note") == Some(NOTE);
    assert Replaced(package.drafts, package.drafts) == package.drafts;
    assert Redecided(package.drafts, package.decisions, package.decisions) == package.decisions;
    assert DraftIds(package.drafts) == ["note"];
  }

  // ----- The steps of a round -----

  lemma CurateFree(c: Config, s: RunState, k: nat)
    requires AtCuration(c, s, k) && HasRoom(c.budget, |s.calls| + 1)
    requires Control(c, s) && NamesOk(s)
    ensures var t := Step(c, s, Drafted(0, NoUsage(Curation), Drafts(c)));
      t.node.ValidateDrafts? && InRound(c, t, k) && |t.calls| == |s.calls| + 1
  {
    hide Admits, Charge, CombineRevision, AreFree, IssueFingerprint, ReviewStep, AcquireStep, HasRoom;
    FreeCallIsAdmitted(c, Called(s), Curation, NoUsage(Curation));
    CombineTheSame(c);
    assert !WrittenBefore(s, DraftsOf(k));
  }

  lemma ValidateFree(c: Config, s: RunState, k: nat)
    requires s.node.ValidateDrafts? && InRound(c, s, k)
    ensures var t := Step(c, s, WORK);
      t.node.Agent3? && InRound(c, t, k) && t.calls == s.calls
  {
    hide AreFree, IssueFingerprint, Route;
    assert Drafts(c).decisions[0] in Drafts(c).decisions;
  }

  lemma ReviewFree(c: Config, s: RunState, k: nat)
    requires s.node.Agent3? && InRound(c, s, k) && HasRoom(c.budget, |s.calls| + 1)
    requires Control(c, s) && NamesOk(s)
    ensures var t := Step(c, s, Reviewed(0, NoUsage(Validation), Complaint(c, k)));
      t.node.RouteReview? && InRound(c, t, k) && |t.calls| == |s.calls| + 1 && t.review == Some(Complaint(c, k))
  {
    hide Admits, Charge, AreFree, IssueFingerprint, CurateStep, AcquireStep, HasRoom, FirstMismatch, Covered, Show;
    FreeCallIsAdmitted(c, Called(s), Validation, NoUsage(Validation));
    ComplaintIsValid(c, k);
    NoMismatchIffCovered(Drafts(c).drafts, Complaint(c, k).reviews);
    assert DraftIds(Drafts(c).drafts) == ["note"];
    assert !WrittenBefore(s, ReviewOf(k));
  }

  lemma ComplaintRoutes(c: Config, k: nat)
    ensures Approve(map[], [NOTE], Complaint(c, k)) == Some(map[])
    ensures TaskFor([NOTE], Complaint(c, k)).Success?
    ensures TaskFor([NOTE], Complaint(c, k)).value.blocked == ["note"]
  {
    hide Covered, Show;
    ComplaintIsValid(c, k);
    assert FindDraft([NOTE], "note") == Some(NOTE);
  }

  lemma ComplaintDecides(c: Config, k: nat)
    ensures var earlier := if k == 0 then None else Some(Complaint(c, k - 1));
      var decision := Evaluate(Complaint(c, k), k, Remembered(earlier), c.cycles);
      if k < c.cycles then decision == Revise(IssueFingerprint(Complaint(c, k)), k + 1)
      else decision.Persist? && decision.outcome == NeedsEnrichment
  {
    hide Evaluate, IssueFingerprint, ValidReview, SameComplaints, Show;
    ComplaintIsValid(c, k);
    var earlier := if k == 0 then None else Some(Complaint(c, k - 1));
    if k > 0 {
      ComplaintsDiffer(c, k - 1, k);
    }
    ReviseIff(earlier, Complaint(c, k), k, c.cycles);
    if k >= c.cycles {
      OutcomeIff(Complaint(c, k), k, Remembered(earlier), c.cycles);
    }
  }

  lemma RouteFree(c: Config, s: RunState, k: nat)
    requires s.node.RouteReview? && InRound(c, s, k) && s.review == Some(Complaint(c, k))
    requires Control(c, s) && NamesOk(s)
    ensures var t := Step(c, s, WORK);
      && t.calls == s.calls
      && if k < c.cycles then AtCuration(c, t, k + 1)
         else t.node.PersistTerminal? && t.revisionCount == k && t.outcome == Some(NeedsEnrichment)
  {
    hide AreFree, IssueFingerprint, Evaluate, Approve, TaskFor, AgentStep, EveryDraftDecided, NamesOk, Complaint;
    ComplaintRoutes(c, k);
    ComplaintDecides(c, k);
    ComplaintBlocks(c, k);
    NotWrittenYet(s, RevisionRequest(k + 1));
  }

  lemma ComplaintBlocks(c: Config, k: nat)
    ensures Complaint(c, k).blocked == ["note"]
  {
  }

  // ----- Whole runs -----

  /** The answers up to the k-th time that the curation agent is asked again. */
  function Script(c: Config, k: nat): seq<Reply> {
    if k == 0 then [WORK, WORK, WORK, Acquired(0, NoUsage(Acquisition), true), WORK, WORK]
    else Script(c, k - 1) + Round(c, k - 1)
  }

  function Round(c: Config, k: nat): seq<Reply> {
    [Drafted(0, NoUsage(Curation), Drafts(c)), WORK,
     Reviewed(0, NoUsage(Validation), Complaint(c, k)), WORK]
  }

  function LongestScript(c: Config): seq<Reply> {
    Script(c, c.cycles) + Round(c, c.cycles) + [WORK, WORK, WORK]
  }

  lemma {:induction false} ScriptIsOk(c: Config, k: nat)
    ensures forall r | r in Script(c, k) + Round(c, k) + [WORK, WORK, WORK] :: ReplyOk(r)
  {
    ComplaintIsValid(c, k);
    if k > 0 {
      ScriptIsOk(c, k - 1);
    }
  }

  /** One more reply after a run that keeps its two invariants. */
  lemma After(c: Config, replies: seq<Reply>, reply: Reply)
    ensures var s := Run(c, START, replies);
      Control(c, s) && NamesOk(s) && Run(c, START, replies + [reply]) == Step(c, s, reply)
  {
    hide Step, Control, NamesOk;
    RunsAreShort(c, replies);
    RunKeepsNames(c, replies);
    RunPush(c, replies, reply);
  }

  /** What the first agent finds: nothing but the artifacts of the nodes before. */
  predicate IsFresh(s: RunState) {
    && s.calls == [] && s.artifacts == [Request, SourceDescriptor, EvidenceBatch]
    && s.approved == map[] && s.fingerprint == None && s.revisionCount == 0
  }

  lemma ReachesAcquisition(c: Config)
    ensures var s := Run(c, START, [WORK, WORK, WORK]); s.node.Agent1? && IsFresh(s)
  {
    hide Run, Step, Route, EveryDraftDecided;
    NoReplies(c);
    RunPush(c, [], WORK);
    RunPush(c, [WORK], WORK);
    RunPush(c, [WORK, WORK], WORK);
    assert [] + [WORK] == [WORK] && [WORK] + [WORK] == [WORK, WORK];
    assert [WORK, WORK] + [WORK] == [WORK, WORK, WORK];
    var s1 := WorkStep(c, START);
    var s2 := WorkStep(c, s1);
    PlainWork(c, START);
    PlainWork(c, s1);
    PlainWork(c, s2);
  }

  lemma AcquireFree(c: Config, s: RunState)
    requires s.node.Agent1? && IsFresh(s) && HasRoom(c.budget, 1)
    ensures var t := Step(c, Step(c, Step(c, s, Acquired(0, NoUsage(Acquisition), true)), WORK), WORK);
      AtCuration(c, t, 0) && |t.calls| == 1
  {
    hide Admits, Charge, CurateStep, ReviewStep, Route, HasRoom;
    FreeCallIsAdmitted(c, Called(s), Acquisition, NoUsage(Acquisition));
  }

  lemma {:induction false} CurationIsReached(c: Config, k: nat)
    requires k <= c.cycles && HasRoom(c.budget, 1 + 2 * k)
    ensures var s := Run(c, START, Script(c, k)); AtCuration(c, s, k) && |s.calls| == 1 + 2 * k
  {
    hide Run, Step, AtCuration, Script;
    if k == 0 {
      var first, acquired := [WORK, WORK, WORK], Acquired(0, NoUsage(Acquisition), true);
      ReachesAcquisition(c);
      AcquireFree(c, Run(c, START, first));
      RunPush(c, first, acquired);
      RunPush(c, first + [acquired], WORK);
      RunPush(c, first + [acquired] + [WORK], WORK);
      ScriptOpens(c);
    } else {
      CurationIsReached(c, k - 1);
      RoundRuns(c, Script(c, k - 1), k - 1);
      ScriptGoesOn(c, k);
    }
  }

  lemma ScriptOpens(c: Config)
    ensures Script(c, 0) == [WORK, WORK, WORK] + [Acquired(0, NoUsage(Acquisition), true)] + [WORK] + [WORK]
  {
  }

  lemma ScriptGoesOn(c: Config, k: nat)
    requires k > 0
    ensures Script(c, k) == Script(c, k - 1) + Round(c, k - 1)
  {
  }

  lemma RoundRuns(c: Config, replies: seq<Reply>, k: nat)
    requires var s := Run(c, START, replies); AtCuration(c, s, k) && HasRoom(c.budget, |s.calls| + 2)
    ensures var s, t := Run(c, START, replies), Run(c, START, replies + Round(c, k));
      && |t.calls| == |s.calls| + 2
      && if k < c.cycles then AtCuration(c, t, k + 1)
         else t.node.PersistTerminal? && t.revisionCount == k && t.outcome == Some(NeedsEnrichment)
  {
    hide Run, Step, AtCuration, InRound, Control, NamesOk, Complaint, Drafts;
    var r0, r2 := Drafted(0, NoUsage(Curation), Drafts(c)), Reviewed(0, NoUsage(Validation), Complaint(c, k));
    var two := replies + [r0] + [WORK];
    After(c, replies, r0);
    CurateFree(c, Run(c, START, replies), k);
    After(c, replies + [r0], WORK);
    ValidateFree(c, Run(c, START, replies + [r0]), k);
    After(c, two, r2);
    ReviewFree(c, Run(c, START, two), k);
    After(c, two + [r2], WORK);
    RouteFree(c, Run(c, START, two + [r2]), k);
    assert replies + Round(c, k) == two + [r2] + [WORK];
  }

  /** For every configuration and every number of revisions up to the allowed one: if the budget has
      room for that many calls, a run whose reviews keep to their contract sends the drafts back that
      often. The default budget has room for all revisions of the default two cycles. */
  lemma RevisionsAreReached(c: Config, k: nat) returns (replies: seq<Reply>)
    requires k <= c.cycles && HasRoom(c.budget, 1 + 2 * k)
    ensures forall r | r in replies :: ReplyOk(r)
    ensures var s := Run(c, START, replies); s.node.Agent2? && s.revisionCount == k
    ensures HasRoom(DEFAULT_BUDGET, 3 + 2 * 2)
  {
    hide Run, Script, ReplyOk;
    CurationIsReached(c, k);
    ScriptIsOk(c, k);
    replies := Script(c, k);
    assert forall r | r in replies :: r in Script(c, k) + Round(c, k) + [WORK, WORK, WORK];
  }

  /** The bounds on a run are attained: with room for 3 + 2m calls a run visits 13 + 4m nodes, makes
      3 + 2m calls and takes all m cycles. */
  lemma LongestRun(c: Config) returns (replies: seq<Reply>)
    requires HasRoom(c.budget, 3 + 2 * c.cycles)
    ensures forall r | r in replies :: ReplyOk(r)
    ensures var s := Run(c, START, replies);
      && s.node.Ended? && s.revisionCount == c.cycles && s.outcome == Some(NeedsEnrichment)
      && s.visited == 13 + 4 * c.cycles && s.made == |s.calls| == 3 + 2 * c.cycles
  {
    hide Run, Script, ReplyOk, Step, Round, AtCuration;
    var m := c.cycles;
    var routed := Script(c, m) + Round(c, m);
    replies := routed + [WORK] + [WORK] + [WORK];
    CurationIsReached(c, m);
    ScriptIsOk(c, m);
    assert replies == routed + [WORK, WORK, WORK];
    RoundRuns(c, Script(c, m), m);
    RunPush(c, routed, WORK);
    RunPush(c, routed + [WORK], WORK);
    After(c, routed + [WORK] + [WORK], WORK);
    After(c, replies, WORK);
    RunEnds(c, Run(c, START, routed), Run(c, START, routed + [WORK] + [WORK]));
  }

  lemma RunEnds(c: Config, s: RunState, last: RunState)
    requires s.node.PersistTerminal? && s.outcome == Some(NeedsEnrichment)
    requires last == Step(c, Step(c, s, WORK), WORK) && NamesOk(last)
    ensures var t := Step(c, last, WORK);
      t.node.Ended? && t.revisionCount == s.revisionCount && t.outcome == s.outcome && t.calls == s.calls
  {
    hide Route, AgentStep;
    assert last.node.FlushTelemetry?;
    assert !WrittenBefore(last, RunManifest);
  }
}
