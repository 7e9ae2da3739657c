/** Any number of workers on one run store: every store statement is one atomic step, messages are
    delivered any number of times, calls may fail before or after they take effect, and other
    components change statuses and create runs at any time. */
module WorkerProtocol {
  import opened Delivery
  import opened IsoTime
  import opened LeaseStore
  import opened Wrappers

  /** A worker, with the clock reading of its last granted lease and its last logged read. */
  datatype Process = Process(owner: string, phase: Phase, granted: int, read: nat)

  /** What happened, for statements about the past. */
  datatype Event =
    | Read(worker: nat, run: string, row: RunRow)
    | Acked(worker: nat, m: Message, read: nat)

  datatype State = State(now: int, ttl: nat, runs: Runs, workers: seq<Process>, log: seq<Event>)

  /** A step. `at` is the worker's own clock reading; `applied` says that a call reported as
      failed took effect nevertheless. */
  datatype Action =
    | Tick(d: nat)
    | Outside(s: Statement)
    | Restart(w: nat)
    | Act(w: nat, call: Call, at: Moment, applied: bool)

  function Ttl(s: State): nat {
    s.ttl * 1_000_000
  }

  predicate IsExecuting(phase: Phase) {
    phase.Executing? || phase.Losing?
  }

  /** The statement a call executes on the table. */
  function Effect(s: State, p: Process, call: Call, at: Moment, applied: bool): Option<Statement>
    requires Follow(p.phase, call).Some? && Later(at, s.ttl).Some?
  {
    var until := Later(at, s.ttl).value;
    match call
    case AcquireLease(granted) =>
      if granted.Some? || applied then Some(Acquiring(p.phase.run, p.owner, at, until)) else None
    case Beat(alive) =>
      if alive || applied then Some(Renewing(p.phase.run, p.owner, at, until)) else None
    case ReleaseLease(ok) =>
      if ok || applied then Some(Releasing(p.phase.run, p.owner)) else None
    case _ => None
  }

  predicate Views(runs: Runs, v: RunView) {
    v.run in runs.rows && runs.rows[v.run].hash == v.hash && runs.rows[v.run].status == v.status
  }

  /** Whether the store can give this answer now. */
  predicate Answers(s: State, p: Process, call: Call, at: Moment)
    requires Follow(p.phase, call).Some?
  {
    match call
    case CreateOrGet(Some(v)) =>
      Views(s.runs, v) && s.runs.rows[v.run].key == p.phase.m.key && v.hash == p.phase.m.hash
    case AcquireLease(Some(granted)) => granted == s.runs.Free(p.phase.run, p.owner, at)
    case Beat(alive) =>
      p.granted <= at.Instant() && (alive ==> s.runs.Holds(p.phase.run, p.owner, at))
    case GetRun(Some(None)) => p.phase.run !in s.runs.rows
    case GetRun(Some(Some(v))) => v.run == p.phase.run && Views(s.runs, v)
    case _ => true
  }

  predicate Enabled(s: State, a: Action) {
    match a
    case Tick(_) => true
    case Outside(statement) => statement.Creating? || statement.Staging?
    case Restart(w) => w < |s.workers|
    case Act(w, call, at, _) =>
      && w < |s.workers|
      && Follow(s.workers[w].phase, call).Some?
      && at.Instant() <= s.now && Later(at, s.ttl).Some?
      && Answers(s, s.workers[w], call, at)
  }

  function RunsAfter(s: State, a: Action): Runs
    requires Enabled(s, a)
  {
    match a
    case Outside(statement) => Execute(s.runs, statement)
    case Act(w, call, at, applied) =>
      var effect := Effect(s, s.workers[w], call, at, applied);
      if effect.Some? then Execute(s.runs, effect.value) else s.runs
    case _ => s.runs
  }

  /** The row a call reads from the table. */
  function Reads(call: Call): Option<string> {
    match call
    case CreateOrGet(Some(v)) => Some(v.run)
    case GetRun(Some(Some(v))) => Some(v.run)
    case _ => None
  }

  function Moves(s: State, p: Process, call: Call, at: Moment): Process
    requires Follow(p.phase, call).Some?
  {
    Process(
      p.owner,
      Follow(p.phase, call).value,
      if call == AcquireLease(Some(true)) || call == Beat(true) then at.Instant() else p.granted,
      if Reads(call).Some? then |s.log| else p.read)
  }

  function Logs(s: State, w: nat, call: Call, applied: bool): seq<Event>
    requires w < |s.workers| && Follow(s.workers[w].phase, call).Some?
    requires Reads(call).Some? ==> Reads(call).value in s.runs.rows
  {
    var p := s.workers[w];
    if Reads(call).Some? then [Read(w, Reads(call).value, s.runs.rows[Reads(call).value])]
    else if call.Acknowledge? && (call.ok || applied) then [Acked(w, p.phase.m, p.read)]
    else []
  }

  function Next(s: State, a: Action): State
    requires Enabled(s, a)
  {
    match a
    case Tick(d) => s.(now := s.now + d)
    case Outside(_) => s.(runs := RunsAfter(s, a))
    case Restart(w) => s.(workers := s.workers[w := s.workers[w].(phase := Start)])
    case Act(w, call, at, applied) =>
      s.(runs := RunsAfter(s, a),
         workers := s.workers[w := Moves(s, s.workers[w], call, at)],
         log := s.log + Logs(s, w, call, applied))
  }

  ghost predicate Initial(s: State) {
    s.runs.Consistent() && s.log == [] && forall w | 0 <= w < |s.workers| :: s.workers[w].phase == Start
  }

  /** The state after a sequence of steps; None where a step is not possible. */
  function Run(start: State, actions: seq<Action>): Option<State> {
    if actions == [] then Some(start)
    else
      var before, last := Run(start, actions[..|actions| - 1]), actions[|actions| - 1];
      if before.Some? && Enabled(before.value, last) then Some(Next(before.value, last)) else None
  }

  predicate DistinctOwners(s: State) {
    forall v, w | 0 <= v < w < |s.workers| :: s.workers[v].owner != s.workers[w].owner
  }

  // ----- What every run keeps -----

  predicate Bound(runs: Runs, m: Message, run: string) {
    run in runs.rows && runs.rows[run].key == m.key && runs.rows[run].hash == m.hash
  }

  predicate Confirms(e: Event, w: nat, m: Message) {
    && e.Read? && e.worker == w
    && IsTerminal(e.row.status) && e.row.key == m.key && e.row.hash == m.hash
  }

  predicate Timely(s: State, p: Process) {
    s.now < p.granted + Ttl(s)
  }

  /** A worker executing a run within its lease time holds that run's lease. */
  predicate LeaseOk(s: State, p: Process) {
    IsExecuting(p.phase) ==>
      && p.granted <= s.now
      && (Timely(s, p) ==> LeasedUntil(s.runs, p.phase.run, p.owner, p.granted + Ttl(s)))
  }

  predicate MessageOk(s: State, p: Process) {
    (p.phase.Known? || IsExecuting(p.phase) || p.phase.Finished? || p.phase.Confirmed?) ==>
      Bound(s.runs, p.phase.m, p.phase.run)
  }

  predicate ReadOk(s: State, w: nat, p: Process) {
    p.phase.Confirmed? ==> p.read < |s.log| && Confirms(s.log[p.read], w, p.phase.m)
  }

  predicate EventOk(s: State, i: nat)
    requires i < |s.log|
  {
    match s.log[i]
    case Read(_, run, row) =>
      run in s.runs.rows && s.runs.rows[run].key == row.key && s.runs.rows[run].hash == row.hash
    case Acked(w, m, read) => read < i && Confirms(s.log[read], w, m)
  }

  ghost predicate Inv(s: State) {
    && s.runs.Consistent()
    && (forall w | 0 <= w < |s.workers| :: MessageOk(s, s.workers[w]))
    && (forall w | 0 <= w < |s.workers| :: ReadOk(s, w, s.workers[w]))
    && (forall i | 0 <= i < |s.log| :: EventOk(s, i))
  }

  ghost predicate LeasesOk(s: State) {
    forall w | 0 <= w < |s.workers| :: LeaseOk(s, s.workers[w])
  }

  lemma TablePreserved(s: State, a: Action)
    requires Enabled(s, a)
    ensures Preserves(s.runs, RunsAfter(s, a))
    ensures Next(s, a).runs == RunsAfter(s, a)
    ensures Next(s, a).ttl == s.ttl && |Next(s, a).workers| == |s.workers| && s.now <= Next(s, a).now
    ensures forall w | 0 <= w < |s.workers| :: Next(s, a).workers[w].owner == s.workers[w].owner
  {
    hide Execute, Follow, Answers, Logs, Preserves;
    StaysPut(s.runs);
    if a.Outside? {
      StatementPreserves(s.runs, a.s);
    } else if a.Act? {
      var effect := Effect(s, s.workers[a.w], a.call, a.at, a.applied);
      if effect.Some? {
        StatementPreserves(s.runs, effect.value);
      }
    }
  }

  lemma BoundStays(before: Runs, after: Runs, m: Message, run: string)
    requires Preserves(before, after) && Bound(before, m, run)
    ensures Bound(after, m, run)
  {
  }

  lemma OwnStepKeepsMessage(s: State, a: Action)
    requires Enabled(s, a) && a.Act? && MessageOk(s, s.workers[a.w])
    ensures MessageOk(s, Moves(s, s.workers[a.w], a.call, a.at))
  {
    hide Runs.Free, Runs.Holds;
  }

  lemma MessagesKept(s: State, a: Action, w: nat)
    requires Enabled(s, a) && w < |s.workers| && MessageOk(s, s.workers[w])
    ensures MessageOk(Next(s, a), Next(s, a).workers[w])
  {
    hide RunsAfter, Logs, Bound, Preserves, Answers, Follow, Moves;
    TablePreserved(s, a);
    if a.Act? && a.w == w {
      OwnStepKeepsMessage(s, a);
    }
    var p := Next(s, a).workers[w];
    if p.phase.Known? || IsExecuting(p.phase) || p.phase.Finished? || p.phase.Confirmed? {
      BoundStays(s.runs, Next(s, a).runs, p.phase.m, p.phase.run);
    }
  }

  lemma ReadsKept(s: State, a: Action, w: nat)
    requires Enabled(s, a) && w < |s.workers|
    requires ReadOk(s, w, s.workers[w]) && MessageOk(s, s.workers[w])
    ensures ReadOk(Next(s, a), w, Next(s, a).workers[w])
  {
    hide RunsAfter, Runs.Free, Runs.Holds;
  }

  lemma EventsKept(s: State, a: Action, i: nat)
    requires Enabled(s, a) && i < |Next(s, a).log|
    requires i < |s.log| ==> EventOk(s, i)
    requires forall w | 0 <= w < |s.workers| :: ReadOk(s, w, s.workers[w])
    ensures EventOk(Next(s, a), i)
  {
    hide RunsAfter, Runs.Free, Runs.Holds, Confirms, Follow, Runs.Consistent, Moves;
    TablePreserved(s, a);
    if a.Act? && i >= |s.log| {
      assert ReadOk(s, a.w, s.workers[a.w]);
      if a.call.Acknowledge? {
        AcksAreConfirmed(s.workers[a.w].phase, a.call);
      } else if Reads(a.call).Some? {
        StaysReadable(s, a);
      }
    }
  }

  lemma StaysReadable(s: State, a: Action)
    requires Enabled(s, a) && a.Act? && Reads(a.call).Some?
    ensures Reads(a.call).value in s.runs.rows
  {
  }

  lemma AcksAreConfirmed(phase: Phase, call: Call)
    requires Follow(phase, call).Some? && call.Acknowledge?
    ensures phase.Confirmed?
  {
  }

  lemma StepKeepsInv(s: State, a: Action)
    requires Enabled(s, a) && Inv(s)
    ensures Inv(Next(s, a))
  {
    hide MessageOk, ReadOk, EventOk, Next, Enabled, RunsAfter, Runs.Consistent;
    TablePreserved(s, a);
    var t := Next(s, a);
    assert t.runs.Consistent() by { assert Preserves(s.runs, t.runs); }
    forall w | 0 <= w < |t.workers| ensures MessageOk(t, t.workers[w]) && ReadOk(t, w, t.workers[w]) {
      MessagesKept(s, a, w);
      ReadsKept(s, a, w);
    }
    forall i | 0 <= i < |t.log| ensures EventOk(t, i) {
      EventsKept(s, a, i);
    }
  }

  // ----- Leases -----

  /** A step of anyone else respects a lease that has not run out. */
  lemma OthersRespect(s: State, a: Action, w: nat, id: string, end: int)
    requires Enabled(s, a) && DistinctOwners(s) && w < |s.workers| && s.now < end
    requires a.Act? ==> a.w != w
    requires LeasedUntil(s.runs, id, s.workers[w].owner, end)
    ensures LeasedUntil(RunsAfter(s, a), id, s.workers[w].owner, end)
  {
    hide Follow, Answers, LeasedUntil, Execute, Stamp.Instant, Later;
    var owner := s.workers[w].owner;
    if a.Outside? {
      LeaseSurvives(s.runs, a.s, id, owner, end);
    } else if a.Act? {
      var effect := Effect(s, s.workers[a.w], a.call, a.at, a.applied);
      if effect.Some? {
        LeaseSurvives(s.runs, effect.value, id, owner, end);
      }
    }
  }

  lemma OthersKeepLease(s: State, a: Action, w: nat)
    requires Enabled(s, a) && DistinctOwners(s) && w < |s.workers|
    requires a.Act? ==> a.w != w
    requires LeaseOk(s, s.workers[w])
    ensures LeaseOk(Next(s, a), Next(s, a).workers[w])
  {
    hide Follow, Answers, LeasedUntil, RunsAfter, Stamp.Instant, Later, Logs, Moves;
    TablePreserved(s, a);
    var p := s.workers[w];
    if IsExecuting(p.phase) && Timely(s, p) {
      OthersRespect(s, a, w, p.phase.run, p.granted + Ttl(s));
    }
  }

  /** A granted lease lasts the full time to live from the clock reading. */
  lemma OwnStepKeepsLease(s: State, a: Action)
    requires Enabled(s, a) && a.Act? && LeaseOk(s, s.workers[a.w])
    ensures LeaseOk(Next(s, a), Next(s, a).workers[a.w])
  {
    hide Stamp.Instant, Later, Logs, Views;
    var p := s.workers[a.w];
    LaterIsThatMuchLater(a.at, s.ttl);
  }

  lemma StepKeepsLeases(s: State, a: Action)
    requires Enabled(s, a) && DistinctOwners(s) && LeasesOk(s)
    ensures LeasesOk(Next(s, a)) && DistinctOwners(Next(s, a))
  {
    hide LeaseOk, Next, Enabled, RunsAfter;
    TablePreserved(s, a);
    forall w | 0 <= w < |s.workers| ensures LeaseOk(Next(s, a), Next(s, a).workers[w]) {
      if a.Act? && a.w == w {
        OwnStepKeepsLease(s, a);
      } else {
        OthersKeepLease(s, a, w);
      }
    }
  }

  // ----- Every run -----

  lemma {:induction false} RunKeepsInv(start: State, actions: seq<Action>)
    requires Initial(start) && Run(start, actions).Some?
    ensures Inv(Run(start, actions).value)
  {
    hide Next, Enabled;
    if actions != [] {
      var before := actions[..|actions| - 1];
      RunKeepsInv(start, before);
      StepKeepsInv(Run(start, before).value, actions[|actions| - 1]);
    }
  }

  lemma {:induction false} RunKeepsLeases(start: State, actions: seq<Action>)
    requires Initial(start) && DistinctOwners(start) && Run(start, actions).Some?
    ensures LeasesOk(Run(start, actions).value) && DistinctOwners(Run(start, actions).value)
  {
    hide Next, Enabled;
    if actions != [] {
      var before := actions[..|actions| - 1];
      RunKeepsLeases(start, before);
      StepKeepsLeases(Run(start, before).value, actions[|actions| - 1]);
    }
  }

  /** With distinct worker ids, two workers that execute one run at the same time never both are
      within their lease time: in every reachable state, whatever the interleaving. */
  lemma MutualExclusion(start: State, actions: seq<Action>, s: State, v: nat, w: nat)
    requires Initial(start) && DistinctOwners(start) && Run(start, actions) == Some(s)
    requires v < |s.workers| && w < |s.workers| && v != w
    requires IsExecuting(s.workers[v].phase) && IsExecuting(s.workers[w].phase)
    requires s.workers[v].phase.run == s.workers[w].phase.run
    ensures !Timely(s, s.workers[v]) || !Timely(s, s.workers[w])
  {
    hide Run;
    RunKeepsLeases(start, actions);
    assert LeaseOk(s, s.workers[v]) && LeaseOk(s, s.workers[w]);
  }

  /** A worker waits the heartbeat interval and then has its renewal, or the cancellation after a
      failed one, done within `slack` seconds. */
  predicate Punctual(s: State, heartbeat: nat, slack: nat) {
    forall w | 0 <= w < |s.workers| && IsExecuting(s.workers[w].phase) ::
      s.now <= s.workers[w].granted + (heartbeat + slack) * 1_000_000
  }

  /** The configured time to live exceeds the heartbeat; where the slack fits in between, no two
      workers ever execute one run at once. */
  lemma PunctualWorkersExclude(
    start: State, actions: seq<Action>, s: State, heartbeat: nat, slack: nat, v: nat, w: nat)
    requires Initial(start) && DistinctOwners(start) && Run(start, actions) == Some(s)
    requires heartbeat + slack < s.ttl && Punctual(s, heartbeat, slack)
    requires v < |s.workers| && w < |s.workers| && v != w
    requires IsExecuting(s.workers[v].phase) && IsExecuting(s.workers[w].phase)
    ensures s.workers[v].phase.run != s.workers[w].phase.run
  {
    hide Run;
    if s.workers[v].phase.run == s.workers[w].phase.run {
      MutualExclusion(start, actions, s, v, w);
    }
  }

  /** Every acknowledgement comes after the same worker read, for the run bound to the message's
      idempotency key and with the message's request hash, a terminal status. */
  lemma AcknowledgedOnlyAfterTerminalRead(start: State, actions: seq<Action>, s: State, k: nat)
    requires Initial(start) && Run(start, actions) == Some(s)
    requires k < |s.log| && s.log[k].Acked?
    ensures var ack := s.log[k];
      && ack.read < k && s.log[ack.read].Read? && s.log[ack.read].worker == ack.worker
      && IsTerminal(s.log[ack.read].row.status)
      && s.log[ack.read].row.key == ack.m.key && s.log[ack.read].row.hash == ack.m.hash
      && ack.m.key in s.runs.byKey && s.runs.byKey[ack.m.key] == s.log[ack.read].run
  {
    hide Run;
    RunKeepsInv(start, actions);
    assert EventOk(s, k) && EventOk(s, s.log[k].read);
  }

  // ----- What can happen -----

  /** Time can pass by any amount, a worker can be given up at any point and start again with the next
      message, and other components can make runs and write stages, whatever the workers do. */
  lemma WorldGoesOn(s: State, d: nat, w: nat, id: string, key: string, hash: string,
      stage: string, status: RunStatus, at: Moment)
    requires w < |s.workers|
    ensures Enabled(s, Tick(d)) && Next(s, Tick(d)) == s.(now := s.now + d)
    ensures Enabled(s, Restart(w)) && Next(s, Restart(w)).workers[w].phase == Start
    ensures Next(s, Restart(w)) == s.(workers := s.workers[w := Next(s, Restart(w)).workers[w]])
    ensures var make := Outside(Creating(id, key, hash));
      Enabled(s, make)
      && (key !in s.runs.byKey && id !in s.runs.rows ==>
            id in Next(s, make).runs.rows && IsNew(Next(s, make).runs.rows[id], key, hash))
    ensures var write := Outside(Staging(id, stage, status, at));
      Enabled(s, write)
      && (id in s.runs.rows ==>
            Next(s, write).runs.rows[id].status == status && Next(s, write).runs.rows[id].stage == stage)
  {
  }

  predicate IsFailure(call: Call) {
    call in {CreateOrGet(None), AcquireLease(None), Beat(false), GetRun(None), Acknowledge(false),
             Release(false), ReleaseLease(false)}
  }

  /** Every call that a worker can come to make can fail without having taken effect. */
  lemma AnyCallCanFail(s: State, w: nat, call: Call, at: Moment)
    requires w < |s.workers| && Follow(s.workers[w].phase, call).Some? && IsFailure(call)
    requires at.Instant() <= s.now && Later(at, s.ttl).Some? && s.workers[w].granted <= at.Instant()
    ensures Enabled(s, Act(w, call, at, false)) && Enabled(s, Act(w, call, at, true))
    ensures Next(s, Act(w, call, at, false)).runs == s.runs
  {
    hide Later, Stamp.Instant, Follow;
  }

  /** Or after having taken effect: a lease is taken, extended or given back by a call that raised. */
  lemma LostAnswersCount(s: State, w: nat, at: Moment)
    requires w < |s.workers|
    requires var phase := s.workers[w].phase; phase.Known? || phase.Executing? || phase.Closing?
    requires at.Instant() <= s.now && Later(at, s.ttl).Some? && s.workers[w].granted <= at.Instant()
    ensures var phase, owner := s.workers[w].phase, s.workers[w].owner;
      var call :=
        if phase.Known? then AcquireLease(None) else if phase.Executing? then Beat(false) else ReleaseLease(false);
      && Enabled(s, Act(w, call, at, true))
      && var rows := Next(s, Act(w, call, at, true)).runs.rows;
      && (phase.Known? && s.runs.Free(phase.run, owner, at) ==>
            phase.run in rows && rows[phase.run].owner == Some(owner) && rows[phase.run].status == Running
            && rows[phase.run].expires == Some(Later(at, s.ttl).value))
      && (phase.Executing? && s.runs.Holds(phase.run, owner, at) ==>
            phase.run in rows && rows[phase.run].expires == Some(Later(at, s.ttl).value))
      && (phase.Closing? && phase.run in s.runs.rows && s.runs.rows[phase.run].owner == Some(owner) ==>
            phase.run in rows && rows[phase.run].owner.None? && rows[phase.run].expires.None?)
  {
    hide Later, Stamp.Instant;
  }

  /** A worker can be told what is so: the run bound to its message, whether the lease is its own now,
      and the status of the run, terminal or not. */
  lemma TrueAnswersArePossible(s: State, w: nat, at: Moment, run: string, applied: bool)
    requires w < |s.workers| && run in s.runs.rows
    requires at.Instant() <= s.now && Later(at, s.ttl).Some? && s.workers[w].granted <= at.Instant()
    ensures var phase, owner, row := s.workers[w].phase, s.workers[w].owner, s.runs.rows[run];
      var view := RunView(run, row.hash, row.status);
      && (phase.Looking? && row.key == phase.m.key && row.hash == phase.m.hash ==>
            Enabled(s, Act(w, CreateOrGet(Some(view)), at, applied)))
      && (phase.Known? && phase.run == run ==>
            forall granted ::
              Enabled(s, Act(w, AcquireLease(Some(granted)), at, applied))
              <==> granted == s.runs.Free(run, owner, at))
      && (phase.Executing? && phase.run == run ==>
            (Enabled(s, Act(w, Beat(true), at, applied)) <==> s.runs.Holds(run, owner, at)))
      && (phase.Finished? && phase.run == run ==> Enabled(s, Act(w, GetRun(Some(Some(view))), at, applied)))
  {
    hide Later, Stamp.Instant;
  }

  // ----- What the protocol does not promise -----

  lemma OneMoreStep(start: State, actions: seq<Action>, a: Action)
    requires Run(start, actions).Some? && Enabled(Run(start, actions).value, a)
    ensures Run(start, actions + [a]) == Some(Next(Run(start, actions).value, a))
  {
    hide Next, Enabled;
    assert (actions + [a])[..|actions|] == actions;
  }

  /** Two workers on an empty table. */
  function Beginning(first: string, second: string, t: Moment, ttl: nat): (s: State)
    ensures Initial(s)
  {
    State(t.Instant(), ttl, Runs(map[], map[]), [Process(first, Start, 0, 0), Process(second, Start, 0, 0)], [])
  }

  /** The run of a first delivery is made. */
  lemma Creates(start: State, m: Message) returns (actions: seq<Action>, s: State)
    requires m.key !in start.runs.byKey && m.runId !in start.runs.rows
    ensures Run(start, actions) == Some(s)
    ensures s.workers == start.workers && s.now == start.now && s.ttl == start.ttl && s.log == start.log
    ensures Bound(s.runs, m, m.runId) && IsNew(s.runs.rows[m.runId], m.key, m.hash)
    ensures forall owner, now :: s.runs.Free(m.runId, owner, now)
  {
    hide Run;
    NoSteps(start);
    var create := Outside(Creating(m.runId, m.key, m.hash));
    OneMoreStep(start, [], create);
    actions, s := [] + [create], Next(start, create);
  }

  /** Worker w is given the message and finds the run, whose status is not terminal. */
  lemma Finds(start: State, actions: seq<Action>, s: State, w: nat, m: Message, at: Moment)
    returns (longer: seq<Action>, t: State)
    requires Run(start, actions) == Some(s)
    requires w < |s.workers| && s.workers[w].phase == Start
    requires at.Instant() <= s.now && Later(at, s.ttl).Some?
    requires Bound(s.runs, m, m.runId) && !IsTerminal(s.runs.rows[m.runId].status)
    ensures Run(start, longer) == Some(t) && actions <= longer
    ensures |t.workers| == |s.workers| && t.workers == s.workers[w := t.workers[w]]
    ensures t.workers[w].owner == s.workers[w].owner && t.workers[w].phase == Known(m, m.runId)
    ensures t.runs == s.runs && t.now == s.now && t.ttl == s.ttl
  {
    hide Run, Later, Stamp.Instant;
    var parse := Act(w, Parse(Some(m)), at, false);
    var status := s.runs.rows[m.runId].status;
    var find := Act(w, CreateOrGet(Some(RunView(m.runId, m.hash, status))), at, false);
    OneMoreStep(start, actions, parse);
    OneMoreStep(start, actions + [parse], find);
    longer, t := actions + [parse] + [find], Next(Next(s, parse), find);
  }

  /** Worker w takes the lease and starts executing. */
  lemma Takes(start: State, actions: seq<Action>, s: State, w: nat, m: Message, at: Moment)
    returns (longer: seq<Action>, t: State)
    requires Run(start, actions) == Some(s)
    requires w < |s.workers| && s.workers[w].phase == Known(m, m.runId)
    requires at.Instant() <= s.now && Later(at, s.ttl).Some?
    requires s.runs.Free(m.runId, s.workers[w].owner, at)
    ensures Run(start, longer) == Some(t) && actions <= longer
    ensures |t.workers| == |s.workers| && t.workers == s.workers[w := t.workers[w]]
    ensures t.workers[w].owner == s.workers[w].owner && t.workers[w].phase == Executing(m, m.runId)
    ensures t.runs == s.runs.Acquire(m.runId, s.workers[w].owner, at, Later(at, s.ttl).value)
    ensures t.now == s.now && t.ttl == s.ttl && t.log == s.log
  {
    hide Run, Later, Stamp.Instant, Runs.Free, Runs.Acquire;
    var take := Act(w, AcquireLease(Some(true)), at, false);
    OneMoreStep(start, actions, take);
    longer, t := actions + [take], Next(s, take);
  }

  /** From an empty table, a first delivery is executed and, once the run has a terminal status,
      acknowledged and its lease given back. */
  lemma FirstDeliveryIsHandled(
    m: Message, first: string, second: string, ttl: nat, t: Moment, done: RunStatus)
    returns (executing: seq<Action>, actions: seq<Action>, s: State)
    requires Later(t, ttl).Some? && IsTerminal(done)
    ensures var start := Beginning(first, second, t, ttl);
      && Run(start, executing).Some?
      && |Run(start, executing).value.workers| == 2
      && Run(start, executing).value.workers[0].phase == Executing(m, m.runId)
      && executing <= actions && Run(start, actions) == Some(s)
    ensures s.log != [] && s.log[|s.log| - 1].Acked? && s.log[|s.log| - 1].m == m
    ensures m.runId in s.runs.rows && s.runs.rows[m.runId].owner.None?
  {
    hide Run, Later, Stamp.Instant;
    var start := Beginning(first, second, t, ttl);
    actions, s := Creates(start, m);
    actions, s := Finds(start, actions, s, 0, m, t);
    actions, s := Takes(start, actions, s, 0, m, t);
    executing := actions;
    actions, s := Completes(start, actions, s, m, t, done);
    actions, s := Acknowledges(start, actions, s, m, t);
  }

  /** The premises of exclusion are needed: with a shared worker id at once, and with distinct ids
      as soon as the first worker is past its lease time, both workers execute the same run. */
  lemma BothExecute(m: Message, first: string, second: string, ttl: nat, t0: Moment, t1: Moment)
    returns (actions: seq<Action>, s: State)
    requires Later(t0, ttl).Some? && Later(t1, ttl).Some? && t0.Instant() <= t1.Instant()
    requires first == second || t0.Instant() + ttl * 1_000_000 <= t1.Instant()
    ensures Run(Beginning(first, second, t0, ttl), actions) == Some(s)
    ensures |s.workers| == 2 && s.now == t1.Instant()
    ensures s.workers[0].phase == s.workers[1].phase == Executing(m, m.runId)
  {
    hide Run, Later, Stamp.Instant;
    var start := Beginning(first, second, t0, ttl);
    actions, s := Creates(start, m);
    actions, s := Finds(start, actions, s, 0, m, t0);
    actions, s := Takes(start, actions, s, 0, m, t0);
    LaterIsThatMuchLater(t0, ttl);
    actions, s := Finds(start, actions, s, 1, m, t0);
    var wait := Tick(t1.Instant() - t0.Instant());
    OneMoreStep(start, actions, wait);
    actions, s := actions + [wait], Next(s, wait);
    actions, s := Takes(start, actions, s, 1, m, t1);
  }

  lemma NoSteps(start: State)
    ensures Run(start, []) == Some(start)
  {
  }

  /** A terminal status does not keep the run from being executed again: a worker that read the
      status before takes the lease after the message was acknowledged, and the run is running
      although its row has a terminal time. */
  lemma AcknowledgedRunStartsAgain(
    m: Message, first: string, second: string, ttl: nat, t: Moment, done: RunStatus)
    returns (actions: seq<Action>, s: State)
    requires Later(t, ttl).Some? && IsTerminal(done)
    ensures Run(Beginning(first, second, t, ttl), actions) == Some(s)
    ensures exists k, read | 0 <= k < |s.log| :: s.log[k] == Acked(0, m, read)
    ensures |s.workers| == 2 && s.workers[1].phase == Executing(m, m.runId)
    ensures m.runId in s.runs.rows && s.runs.rows[m.runId].status == Running
    ensures s.runs.rows[m.runId].terminalAt.Some?
  {
    hide Run, Later, Stamp.Instant;
    var start := Beginning(first, second, t, ttl);
    actions, s := Creates(start, m);
    actions, s := Finds(start, actions, s, 1, m, t);
    actions, s := Finds(start, actions, s, 0, m, t);
    actions, s := Takes(start, actions, s, 0, m, t);
    actions, s := Completes(start, actions, s, m, t, done);
    actions, s := Acknowledges(start, actions, s, m, t);
    var k, read := |s.log| - 1, s.log[|s.log| - 1].read;
    actions, s := Takes(start, actions, s, 1, m, t);
    assert s.log[k] == Acked(0, m, read);
  }

  /** Worker 0 finishes the run and reads its terminal status. */
  lemma Completes(start: State, actions: seq<Action>, s: State, m: Message, at: Moment, done: RunStatus)
    returns (longer: seq<Action>, t: State)
    requires Run(start, actions) == Some(s) && |s.workers| == 2
    requires s.workers[0].phase == Executing(m, m.runId) && IsTerminal(done)
    requires at.Instant() <= s.now && Later(at, s.ttl).Some?
    requires Bound(s.runs, m, m.runId) && s.runs.rows[m.runId].owner == Some(s.workers[0].owner)
    ensures Run(start, longer) == Some(t) && actions <= longer
    ensures |t.workers| == 2 && t.workers[1] == s.workers[1] && t.now == s.now && t.ttl == s.ttl
    ensures t.workers[0].phase == Confirmed(m, m.runId, true) && t.workers[0].owner == s.workers[0].owner
    ensures t.workers[0].read < |t.log|
    ensures m.runId in t.runs.rows && t.runs.rows[m.runId].owner == s.runs.rows[m.runId].owner
    ensures t.runs.rows[m.runId].terminalAt.Some?
  {
    hide Run, Later, Stamp.Instant;
    var finish := Outside(Staging(m.runId, "finished", done, at));
    var end := Act(0, Execution(Returned), at, false);
    var look := Act(0, GetRun(Some(Some(RunView(m.runId, m.hash, done)))), at, false);
    OneMoreStep(start, actions, finish);
    var s1 := Next(s, finish);
    OneMoreStep(start, actions + [finish], end);
    var s2 := Next(s1, end);
    OneMoreStep(start, actions + [finish] + [end], look);
    longer, t := actions + [finish] + [end] + [look], Next(s2, look);
  }

  /** Worker 0 acknowledges the message and gives the lease back. */
  lemma Acknowledges(start: State, actions: seq<Action>, s: State, m: Message, at: Moment)
    returns (longer: seq<Action>, t: State)
    requires Run(start, actions) == Some(s) && |s.workers| == 2
    requires s.workers[0].phase == Confirmed(m, m.runId, true)
    requires at.Instant() <= s.now && Later(at, s.ttl).Some?
    requires m.runId in s.runs.rows && s.runs.rows[m.runId].owner == Some(s.workers[0].owner)
    ensures Run(start, longer) == Some(t) && actions <= longer
    ensures |t.workers| == 2 && t.workers[1] == s.workers[1] && t.now == s.now && t.ttl == s.ttl
    ensures m.runId in t.runs.rows && t.runs.rows[m.runId].owner.None?
    ensures t.runs.rows[m.runId].terminalAt == s.runs.rows[m.runId].terminalAt
    ensures t.log == s.log + [Acked(0, m, s.workers[0].read)]
  {
    hide Run, Later, Stamp.Instant;
    var ack := Act(0, Acknowledge(true), at, false);
    var free := Act(0, ReleaseLease(true), at, false);
    OneMoreStep(start, actions, ack);
    var s1 := Next(s, ack);
    OneMoreStep(start, actions + [ack], free);
    longer, t := actions + [ack] + [free], Next(s1, free);
  }
}
