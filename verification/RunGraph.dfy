/** The nodes of the loop as they run: each reads the state, passes the budget gate, checks what it
    was given, writes its artifact once and updates the state. */
module RunGraph {
  import opened Budgets
  import opened Contracts
  import opened Curation
  import opened Ordering
  import opened ReviewGraph
  import opened Routing
  import opened Wrappers

  class RunGraph {
    const config: Config
    var state: RunState

    constructor (config: Config)
      ensures this.config == config && state == START
    {
      this.config := config;
      state := START;
    }

    method Fail(error: GraphError)
      modifies this
      ensures state == Stop(old(state), error)
    {
      state := state.(node := Stopped(error), visited := state.visited + 1);
    }

    /** The call to the agent; its answer is an argument of the node's method. */
    method CallAgent()
      modifies this
      ensures state == Called(old(state))
    {
      state := state.(made := state.made + 1);
    }

    /** The gate: a new budget manager on the recorded usage. */
    method EnsureAgentBudget(agent: AgentRole, characters: nat) returns (admitted: bool)
      ensures admitted <==>
              Admits(config.budget, Usages(state.calls), AgentReservation(config.budget, agent, characters))
    {
      hide Admits, AgentReservation, Usages;
      var manager := new ContextBudgetManager(config.budget, Usages(state.calls));
      var status := manager.EnsureCanCall(AgentReservation(config.budget, agent, characters));
      admitted := status.Success?;
    }

    /** Stores the artifact and the node's update, or stops on a file that is already there. */
    method Commit(update: RunState, a: Artifact, next: Node)
      modifies this
      ensures state == WriteAndGo(old(state), update, a, next)
    {
      if a in state.artifacts {
        Fail(ArtifactConflict);
        return;
      }
      state := update.(node := next, visited := state.visited + 1, artifacts := state.artifacts + [a]);
    }

    method RunCurationAgent(characters: nat, usage: CallUsage, candidate: DraftPackage)
      modifies this
      ensures state == CurateStep(config, old(state), characters, usage, candidate)
    {
      hide Admits, AgentReservation, Usages, CombineRevision, WriteAndGo;
      var revising := state.revisionCount > 0;
      if revising && (state.drafts.None? || state.revision.None?) {
        Fail(PortFailure);
        return;
      }
      var admitted := EnsureAgentBudget(AgentRole.Curation, characters);
      if !admitted {
        Fail(OverBudget);
        return;
      }
      CallAgent();
      if candidate.runId != config.runId {
        Fail(WrongRunId);
        return;
      }
      var package := candidate;
      if revising {
        var combined :=
          CombineRevision(state.approved, state.drafts.value, state.revision.value.blocked, candidate);
        if combined.Failure? {
          Fail(Combining(combined.error));
          return;
        }
        package := combined.value;
      }
      var update := Recorded(AgentRole.Curation, characters, usage);
      Commit(update.(drafts := Some(package)), DraftsOf(state.revisionCount), ValidateDrafts);
    }

    /** The state with the call's usage and record appended. */
    function Recorded(agent: AgentRole, characters: nat, usage: CallUsage): RunState
      reads this
    {
      state.(calls := state.calls + [GatedCall(AgentReservation(config.budget, agent, characters), usage)],
             llm := state.llm + [agent])
    }

    method RunValidationAgent(characters: nat, usage: CallUsage, review: ReviewPackage)
      modifies this
      ensures state == ReviewStep(config, old(state), characters, usage, review)
    {
      hide Admits, AgentReservation, Usages, WriteAndGo, FirstMismatch, ExpectedIds;
      if state.drafts.None? {
        Fail(PortFailure);
        return;
      }
      var package := state.drafts.value;
      var expected := ExpectedIds(state, package);
      var admitted := EnsureAgentBudget(AgentRole.Validation, characters);
      if !admitted {
        Fail(OverBudget);
        return;
      }
      CallAgent();
      if review.runId != config.runId || ReviewIds(review.reviews) != expected {
        Fail(ReviewScope);
        return;
      }
      var mismatch := FindMismatch(package.drafts, review.reviews);
      if mismatch.Some? {
        Fail(mismatch.value);
        return;
      }
      var update := Recorded(AgentRole.Validation, characters, usage);
      Commit(update.(review := Some(review)), ReviewOf(state.revisionCount), RouteReview);
    }

    /** Looks for the first review whose hash is not the draft's. */
    method FindMismatch(drafts: seq<DraftNote>, reviews: seq<NoteReview>) returns (error: Option<GraphError>)
      ensures error == FirstMismatch(drafts, reviews)
    {
      hide FindDraft;
      var i := 0;
      while i < |reviews|
        invariant 0 <= i <= |reviews|
        invariant FirstMismatch(drafts, reviews[..i]).None?
      {
        var item := reviews[i];
        var draft := FindDraft(drafts, item.noteId);
        assert reviews[..i + 1][..i] == reviews[..i];
        if draft.None? {
          FirstMismatchStays(drafts, reviews, i + 1);
          return Some(MissingDraft);
        }
        if draft.value.hash != item.reviewedHash {
          FirstMismatchStays(drafts, reviews, i + 1);
          return Some(ReviewedHash);
        }
        i := i + 1;
      }
      assert reviews[..i] == reviews;
      error := None;
    }

    method RouteReviewed()
      requires state.drafts.Some? && state.review.Some?
      modifies this
      ensures state == Route(config, old(state), old(state).drafts.value, old(state).review.value)
    {
      hide Approve, TaskFor, Evaluate, WriteAndGo;
      var drafts, review := state.drafts.value.drafts, state.review.value;
      var approved := AddApprovals(state.approved, drafts, review);
      if approved.None? {
        Fail(RouteMismatch);
        return;
      }
      var decision := Evaluate(review, state.revisionCount, state.fingerprint, config.cycles);
      var update := state.(approved := approved.value, blocked := review.blocked);
      if decision.Persist? {
        state := update.(fingerprint := decision.lastFingerprint, outcome := Some(decision.outcome),
                         node := PersistTerminal, visited := state.visited + 1);
        return;
      }
      var revision := TaskFor(drafts, review);
      if revision.Failure? {
        Fail(revision.error);
        return;
      }
      update := update.(fingerprint := Some(decision.fingerprint), revisionCount := decision.revisionCount,
                        outcome := None, revision := Some(revision.value));
      Commit(update, RevisionRequest(decision.revisionCount), Agent2);
    }
  }
}
