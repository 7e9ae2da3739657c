/** Spending limits of a run: the gate in front of every agent call, and the ledger behind it.
    Costs and durations are reals. */
module Budgets {
  import opened Wrappers

  datatype AgentRole = Acquisition | Curation | Validation

  datatype Dimension =
    InputPerCall | OutputPerCall | CallCount | InputTotal | OutputTotal | CostTotal | DurationTotal

  datatype ContextBudget = ContextBudget(
    maxInputPerCall: nat, outputAgent1: nat, outputAgent2: nat, outputAgent3: nat,
    maxMainCalls: nat, maxInputPerRun: nat, maxOutputPerRun: nat,
    maxCost: real, maxDuration: real, safetyMargin: real)
  {
    predicate Valid() {
      && maxInputPerCall > 0 && outputAgent1 > 0 && outputAgent2 > 0 && outputAgent3 > 0
      && maxMainCalls > 0 && maxInputPerRun > 0 && maxOutputPerRun > 0
      && maxCost > 0.0 && maxDuration > 0.0 && 0.0 <= safetyMargin < 1.0
    }

    function OutputLimit(agent: AgentRole): nat {
      match agent
      case Acquisition => outputAgent1
      case Curation => outputAgent2
      case Validation => outputAgent3
    }
  }

  const DEFAULT_BUDGET :=
    ContextBudget(48_000, 8_000, 12_000, 10_000, 7, 250_000, 50_000, 10.0, 2700.0, 0.15)

  type Amount = r: real | r >= 0.0 witness 0.0

  datatype CallUsage = CallUsage(agent: AgentRole, input: nat, output: nat, cost: Amount, duration: Amount)

  type Ledger = seq<CallUsage>

  datatype Reservation = Reservation(
    agent: AgentRole, input: nat, output: nat, cost: Amount, duration: Amount)

  // ----- The ledger -----

  datatype Totals = Totals(calls: nat, input: nat, output: nat, cost: Amount, duration: Amount)

  function Spent(ledger: Ledger): (t: Totals)
    ensures t.calls == |ledger|
  {
    if ledger == [] then Totals(0, 0, 0, 0.0, 0.0)
    else
      var t, u := Spent(ledger[..|ledger| - 1]), ledger[|ledger| - 1];
      Totals(t.calls + 1, t.input + u.input, t.output + u.output, t.cost + u.cost, t.duration + u.duration)
  }

  lemma SpentPush(ledger: Ledger, u: CallUsage)
    ensures var t := Spent(ledger);
      Spent(ledger + [u]) ==
      Totals(t.calls + 1, t.input + u.input, t.output + u.output, t.cost + u.cost, t.duration + u.duration)
  {
    assert (ledger + [u])[..|ledger|] == ledger;
  }

  predicate Within(t: Totals, budget: ContextBudget) {
    && t.calls <= budget.maxMainCalls
    && t.input <= budget.maxInputPerRun
    && t.output <= budget.maxOutputPerRun
    && t.cost <= budget.maxCost
    && t.duration <= budget.maxDuration
  }

  // ----- The gate -----

  /** Which limits the next call would break. */
  predicate WouldExceed(budget: ContextBudget, t: Totals, r: Reservation, d: Dimension) {
    match d
    case InputPerCall => r.input > budget.maxInputPerCall
    case OutputPerCall => r.output > budget.OutputLimit(r.agent)
    case CallCount => t.calls + 1 > budget.maxMainCalls
    case InputTotal => t.input + r.input > budget.maxInputPerRun
    case OutputTotal => t.output + r.output > budget.maxOutputPerRun
    case CostTotal => t.cost + r.cost > budget.maxCost
    case DurationTotal => t.duration + r.duration > budget.maxDuration
  }

  /** Which limits the ledger has broken. */
  predicate HasExceeded(budget: ContextBudget, ledger: Ledger, d: Dimension) {
    var t := Spent(ledger);
    match d
    case CallCount => t.calls > budget.maxMainCalls
    case InputTotal => t.input > budget.maxInputPerRun
    case OutputTotal => t.output > budget.maxOutputPerRun
    case CostTotal => t.cost > budget.maxCost
    case DurationTotal => t.duration > budget.maxDuration
    case InputPerCall => AnyInputOver(budget, ledger)
    case OutputPerCall => AnyOutputOver(budget, ledger)
  }

  predicate AnyInputOver(budget: ContextBudget, ledger: Ledger) {
    exists i | 0 <= i < |ledger| :: ledger[i].input > budget.maxInputPerCall
  }

  predicate AnyOutputOver(budget: ContextBudget, ledger: Ledger) {
    exists i | 0 <= i < |ledger| :: ledger[i].output > budget.OutputLimit(ledger[i].agent)
  }

  /** The order in which the gate checks the dimensions. */
  function Rank(d: Dimension): (n: nat)
    ensures n < 7
  {
    match d
    case InputPerCall => 0
    case OutputPerCall => 1
    case CallCount => 2
    case InputTotal => 3
    case OutputTotal => 4
    case CostTotal => 5
    case DurationTotal => 6
  }

  predicate Admits(budget: ContextBudget, ledger: Ledger, r: Reservation) {
    forall d :: !WouldExceed(budget, Spent(ledger), r, d)
  }

  datatype BudgetStatus = BudgetStatus(
    withinBudget: bool, exceeded: seq<Dimension>, remainingCalls: nat, remainingInput: nat,
    remainingOutput: nat, remainingCost: Amount, remainingDuration: Amount)

  function Left(limit: nat, used: nat): nat {
    if limit > used then limit - used else 0
  }

  function LeftAmount(limit: real, used: Amount): Amount {
    if limit > used then limit - used else 0.0
  }

  function AddIf(ds: seq<Dimension>, condition: bool, d: Dimension): (r: seq<Dimension>)
    ensures forall x :: x in r <==> x in ds || (condition && x == d)
  {
    if condition then ds + [d] else ds
  }

  /** The gate's checks in their order. */
  function Checks(budget: ContextBudget, t: Totals, r: Reservation): (cs: seq<(Dimension, bool)>)
    ensures |cs| == 7
    ensures forall d :: cs[Rank(d)] == (d, WouldExceed(budget, t, r, d))
    ensures forall i | 0 <= i < 7 :: Rank(cs[i].0) == i
  {
    [(InputPerCall, r.input > budget.maxInputPerCall),
     (OutputPerCall, r.output > budget.OutputLimit(r.agent)),
     (CallCount, t.calls + 1 > budget.maxMainCalls),
     (InputTotal, t.input + r.input > budget.maxInputPerRun),
     (OutputTotal, t.output + r.output > budget.maxOutputPerRun),
     (CostTotal, t.cost + r.cost > budget.maxCost),
     (DurationTotal, t.duration + r.duration > budget.maxDuration)]
  }

  /** A ledger on which a call is admitted is within all totals, with room for that call. */
  lemma AdmittedIsWithin(budget: ContextBudget, ledger: Ledger, r: Reservation)
    requires Admits(budget, ledger, r)
    ensures Within(Spent(ledger), budget) && |ledger| < budget.maxMainCalls
  {
    hide Spent;
    var t := Spent(ledger);
    assert !WouldExceed(budget, t, r, CallCount) && !WouldExceed(budget, t, r, InputTotal);
    assert !WouldExceed(budget, t, r, OutputTotal) && !WouldExceed(budget, t, r, CostTotal);
    assert !WouldExceed(budget, t, r, DurationTotal);
  }

  class ContextBudgetManager {
    const budget: ContextBudget
    var ledger: Ledger

    constructor (budget: ContextBudget, ledger: Ledger)
      ensures this.budget == budget && this.ledger == ledger
    {
      this.budget := budget;
      this.ledger := ledger;
    }

    method Exceeded() returns (exceeded: seq<Dimension>)
      ensures forall d :: d in exceeded <==> HasExceeded(budget, ledger, d)
    {
      hide Spent, AddIf, AnyInputOver, AnyOutputOver;
      var t := Spent(ledger);
      exceeded := AddIf([], t.calls > budget.maxMainCalls, CallCount);
      exceeded := AddIf(exceeded, t.input > budget.maxInputPerRun, InputTotal);
      exceeded := AddIf(exceeded, t.output > budget.maxOutputPerRun, OutputTotal);
      exceeded := AddIf(exceeded, t.cost > budget.maxCost, CostTotal);
      exceeded := AddIf(exceeded, t.duration > budget.maxDuration, DurationTotal);
      exceeded := AddIf(exceeded, AnyInputOver(budget, ledger), InputPerCall);
      exceeded := AddIf(exceeded, AnyOutputOver(budget, ledger), OutputPerCall);
    }

    /** Reports exactly the limits that are exceeded, and what is left of each total. */
    method Status() returns (status: BudgetStatus)
      ensures forall d :: d in status.exceeded <==> HasExceeded(budget, ledger, d)
      ensures status.withinBudget <==> forall d :: !HasExceeded(budget, ledger, d)
      ensures status.remainingCalls == Left(budget.maxMainCalls, |ledger|)
      ensures status.remainingInput == Left(budget.maxInputPerRun, Spent(ledger).input)
      ensures status.remainingOutput == Left(budget.maxOutputPerRun, Spent(ledger).output)
      ensures status.remainingCost == LeftAmount(budget.maxCost, Spent(ledger).cost)
      ensures status.remainingDuration == LeftAmount(budget.maxDuration, Spent(ledger).duration)
    {
      hide Spent, HasExceeded, Left, LeftAmount;
      var t := Spent(ledger);
      var exceeded := Exceeded();
      assert exceeded != [] ==> exceeded[0] in exceeded;
      status := BudgetStatus(
        exceeded == [], exceeded,
        Left(budget.maxMainCalls, |ledger|),
        Left(budget.maxInputPerRun, t.input),
        Left(budget.maxOutputPerRun, t.output),
        LeftAmount(budget.maxCost, t.cost),
        LeftAmount(budget.maxDuration, t.duration));
    }

    /** Admits a call exactly when it breaks no limit, and otherwise names the first one broken. */
    method EnsureCanCall(r: Reservation) returns (result: Result<BudgetStatus, Dimension>)
      ensures result.Success? <==> Admits(budget, ledger, r)
      ensures result.Failure? ==>
                && WouldExceed(budget, Spent(ledger), r, result.error)
                && forall d | Rank(d) < Rank(result.error) :: !WouldExceed(budget, Spent(ledger), r, d)
    {
      hide Spent, HasExceeded, Checks, WouldExceed, Rank;
      var checks := Checks(budget, Spent(ledger), r);
      var i := 0;
      while i < |checks|
        invariant 0 <= i <= |checks|
        invariant forall j | 0 <= j < i :: !checks[j].1
      {
        if checks[i].1 {
          assert forall d | Rank(d) < i :: !checks[Rank(d)].1;
          return Failure(checks[i].0);
        }
        i := i + 1;
      }
      var status := Status();
      result := Success(status);
    }

    method RecordUsage(u: CallUsage) returns (status: BudgetStatus)
      modifies this
      ensures ledger == old(ledger) + [u]
      ensures forall d :: d in status.exceeded <==> HasExceeded(budget, ledger, d)
    {
      ledger := ledger + [u];
      status := Status();
    }

    /** A call as its users make it: gated, and recorded if it was made. What the ledger held before a
        call that was made is within all totals. */
    method Spend(r: Reservation, u: CallUsage) returns (result: Result<BudgetStatus, Dimension>)
      modifies this
      ensures result.Success? <==> Admits(budget, old(ledger), r)
      ensures ledger == if result.Success? then old(ledger) + [u] else old(ledger)
      ensures result.Success? ==> Within(Spent(old(ledger)), budget) && |ledger| <= budget.maxMainCalls
      ensures result.Success? ==> forall d :: d in result.value.exceeded <==> HasExceeded(budget, ledger, d)
    {
      hide HasExceeded;
      result := EnsureCanCall(r);
      if result.Failure? {
        return;
      }
      AdmittedIsWithin(budget, ledger, r);
      var status := RecordUsage(u);
      result := Success(status);
    }
  }

  /** No limit is exceeded exactly when the sums are within the totals and every single call within
      the limits of a call. */
  lemma NothingExceededIff(budget: ContextBudget, ledger: Ledger)
    ensures (forall d :: !HasExceeded(budget, ledger, d)) <==>
      && Within(Spent(ledger), budget)
      && forall u | u in ledger :: u.input <= budget.maxInputPerCall && u.output <= budget.OutputLimit(u.agent)
  {
    hide Spent;
    if forall d :: !HasExceeded(budget, ledger, d) {
      assert !HasExceeded(budget, ledger, CallCount) && !HasExceeded(budget, ledger, InputTotal);
      assert !HasExceeded(budget, ledger, OutputTotal) && !HasExceeded(budget, ledger, CostTotal);
      assert !HasExceeded(budget, ledger, DurationTotal);
      assert !HasExceeded(budget, ledger, InputPerCall) && !HasExceeded(budget, ledger, OutputPerCall);
    }
  }

  // ----- Sequences of gated calls -----

  datatype GatedCall = GatedCall(reserved: Reservation, used: CallUsage)

  function Usages(calls: seq<GatedCall>): Ledger {
    seq(|calls|, i requires 0 <= i < |calls| => calls[i].used)
  }

  /** Every call passed the gate on the ledger of the calls before it; its usage is arbitrary. */
  ghost predicate AllAdmitted(budget: ContextBudget, calls: seq<GatedCall>) {
    forall i | 0 <= i < |calls| :: Admits(budget, Usages(calls[..i]), calls[i].reserved)
  }

  lemma UsagesPush(calls: seq<GatedCall>)
    requires calls != []
    ensures var last := |calls| - 1;
      Usages(calls) == Usages(calls[..last]) + [calls[last].used]
  {
  }

  /** After any gated calls the call count is within its cap and everything before the last call is
      within all totals: at most one call overruns a run's limits. */
  lemma OnlyTheLastCallOverruns(budget: ContextBudget, calls: seq<GatedCall>)
    requires calls != [] && AllAdmitted(budget, calls)
    ensures |calls| <= budget.maxMainCalls
    ensures Within(Spent(Usages(calls[..|calls| - 1])), budget)
  {
    var last := |calls| - 1;
    AdmittedIsWithin(budget, Usages(calls[..last]), calls[last].reserved);
  }

  /** When no call uses more tokens than it reserved, the whole ledger is within the token totals. */
  lemma HonestReservationsStayWithin(budget: ContextBudget, calls: seq<GatedCall>)
    requires AllAdmitted(budget, calls)
    requires forall c | c in calls :: c.used.input <= c.reserved.input && c.used.output <= c.reserved.output
    ensures Spent(Usages(calls)).input <= budget.maxInputPerRun
    ensures Spent(Usages(calls)).output <= budget.maxOutputPerRun
  {
    hide Spent;
    if calls == [] {
      assert Spent([]) == Totals(0, 0, 0, 0.0, 0.0) by { NothingSpent(); }
    } else {
      var last := |calls| - 1;
      var t, r := Spent(Usages(calls[..last])), calls[last].reserved;
      assert Admits(budget, Usages(calls[..last]), r);
      assert !WouldExceed(budget, t, r, InputTotal) && !WouldExceed(budget, t, r, OutputTotal);
      UsagesPush(calls);
      SpentPush(Usages(calls[..last]), calls[last].used);
      assert calls[last] in calls;
    }
  }

  lemma NothingSpent()
    ensures Spent([]) == Totals(0, 0, 0, 0.0, 0.0)
  {
  }

  // ----- The gate of an agent node -----

  /** Four characters a token and a safety margin, rounded down, but never nothing. */
  function EstimatedInput(budget: ContextBudget, characters: nat): (tokens: nat)
    requires budget.Valid()
    ensures var exact := characters as real / 4.0 * (1.0 + budget.safetyMargin);
      tokens >= 1 && exact < tokens as real + 1.0 && (tokens as real <= exact || tokens == 1)
  {
    var estimate := (characters as real / 4.0 * (1.0 + budget.safetyMargin)).Floor;
    if estimate >= 1 then estimate else 1
  }

  /** An agent reserves its whole output limit, and no cost and no duration. */
  function AgentReservation(budget: ContextBudget, agent: AgentRole, characters: nat): Reservation
    requires budget.Valid()
  {
    Reservation(agent, EstimatedInput(budget, characters), budget.OutputLimit(agent), 0.0, 0.0)
  }

  /** An agent call is admitted exactly when a call is left, what it sends fits, its output limit
      fits, and cost and duration are not yet overspent. */
  lemma AgentIsAdmittedIff(budget: ContextBudget, ledger: Ledger, agent: AgentRole, characters: nat)
    requires budget.Valid()
    ensures var t, input := Spent(ledger), EstimatedInput(budget, characters);
      Admits(budget, ledger, AgentReservation(budget, agent, characters)) <==>
      && t.calls < budget.maxMainCalls
      && input <= budget.maxInputPerCall && t.input + input <= budget.maxInputPerRun
      && t.output + budget.OutputLimit(agent) <= budget.maxOutputPerRun
      && t.cost <= budget.maxCost && t.duration <= budget.maxDuration
  {
    hide Spent, EstimatedInput;
    var t, r := Spent(ledger), AgentReservation(budget, agent, characters);
    assert !WouldExceed(budget, t, r, OutputPerCall);
    assert WouldExceed(budget, t, r, InputPerCall) <==> r.input > budget.maxInputPerCall;
    assert WouldExceed(budget, t, r, CallCount) <==> t.calls >= budget.maxMainCalls;
    assert WouldExceed(budget, t, r, InputTotal) <==> t.input + r.input > budget.maxInputPerRun;
    assert WouldExceed(budget, t, r, OutputTotal) <==> t.output + r.output > budget.maxOutputPerRun;
    assert WouldExceed(budget, t, r, CostTotal) <==> t.cost > budget.maxCost;
    assert WouldExceed(budget, t, r, DurationTotal) <==> t.duration > budget.maxDuration;
  }

  lemma AdmittedPush(budget: ContextBudget, calls: seq<GatedCall>, call: GatedCall)
    requires AllAdmitted(budget, calls) && Admits(budget, Usages(calls), call.reserved)
    ensures AllAdmitted(budget, calls + [call])
    ensures Usages(calls + [call]) == Usages(calls) + [call.used]
  {
    hide Admits;
    var more := calls + [call];
    forall i | 0 <= i < |more| ensures Admits(budget, Usages(more[..i]), more[i].reserved) {
      assert more[..i] == calls[..i] && (i == |calls| ==> calls[..i] == calls);
    }
  }

  /** Agents reserve no cost and no duration, so at whatever point an agent's call is admitted, its
      usage can take the run past the cost limit and the duration limit by any amount. */
  lemma LastCallCanOverrun(
    budget: ContextBudget, calls: seq<GatedCall>, agent: AgentRole, characters: nat, over: Amount)
    returns (u: CallUsage)
    requires budget.Valid() && AllAdmitted(budget, calls)
    requires Admits(budget, Usages(calls), AgentReservation(budget, agent, characters))
    ensures u.agent == agent
    ensures var more := calls + [GatedCall(AgentReservation(budget, agent, characters), u)];
      && AllAdmitted(budget, more)
      && Spent(Usages(more)).cost > budget.maxCost + over
      && Spent(Usages(more)).duration > budget.maxDuration + over
  {
    hide Admits, AgentReservation, AllAdmitted;
    u := CallUsage(agent, 0, 0, budget.maxCost + over + 1.0, budget.maxDuration + over + 1.0);
    AdmittedPush(budget, calls, GatedCall(AgentReservation(budget, agent, characters), u));
    SpentPush(Usages(calls), u);
  }

  /** After gated calls, each total is within its limit exactly when the last call used at most what
      was left of it before that call. */
  lemma WithinIffLastCallFits(budget: ContextBudget, calls: seq<GatedCall>)
    requires calls != [] && AllAdmitted(budget, calls)
    ensures var last := |calls| - 1;
      var t, u, total := Spent(Usages(calls[..last])), calls[last].used, Spent(Usages(calls));
      && (total.input <= budget.maxInputPerRun <==> u.input <= Left(budget.maxInputPerRun, t.input))
      && (total.output <= budget.maxOutputPerRun <==> u.output <= Left(budget.maxOutputPerRun, t.output))
      && (total.cost <= budget.maxCost <==> u.cost <= LeftAmount(budget.maxCost, t.cost))
      && (total.duration <= budget.maxDuration <==> u.duration <= LeftAmount(budget.maxDuration, t.duration))
  {
    hide Spent;
    OnlyTheLastCallOverruns(budget, calls);
    UsagesPush(calls);
    SpentPush(Usages(calls[..|calls| - 1]), calls[|calls| - 1].used);
  }
}
