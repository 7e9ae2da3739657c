/** The `runs` table: idempotency keys, statuses and leases. The specification compares instants;
    the store compares the timestamps' text, as its SQL does. */
module LeaseStore {
  import opened IsoTime
  import opened Ordering
  import opened Wrappers

  datatype RunStatus =
    Received | Running | Completed | CompletedWithWarnings | EnrichmentRequired | Rejected | Failed

  predicate IsTerminal(status: RunStatus) {
    !status.Received? && !status.Running?
  }

  datatype RunRow = RunRow(
    key: string, hash: string, status: RunStatus, stage: string,
    owner: Option<string>, expires: Option<Moment>, terminalAt: Option<Moment>)

  /** A run that nobody has started: received, without a lease and without a terminal time. */
  predicate IsNew(row: RunRow, key: string, hash: string) {
    && row.key == key && row.hash == hash && row.status == Received && row.stage == "received"
    && row.owner.None? && row.expires.None? && row.terminalAt.None?
  }

  datatype Refusal = IdempotencyConflict | InvalidRequest | Overflow

  /** The rows by primary key and the unique index on the idempotency key. */
  datatype Runs = Runs(rows: map<string, RunRow>, byKey: map<string, string>) {

    ghost predicate Consistent() {
      && (forall id | id in rows :: rows[id].key in byKey && byKey[rows[id].key] == id)
      && (forall key | key in byKey :: byKey[key] in rows && rows[byKey[key]].key == key)
    }

    /** A lease may be taken when it is free, has run out, or is the caller's own. */
    predicate Free(id: string, owner: string, now: Moment) {
      && id in rows
      && (|| rows[id].owner.None?
          || rows[id].expires.None?
          || rows[id].expires.value.Instant() <= now.Instant()
          || rows[id].owner.value == owner)
    }

    predicate Holds(id: string, owner: string, now: Moment) {
      && id in rows
      && rows[id].owner == Some(owner)
      && rows[id].expires.Some?
      && now.Instant() < rows[id].expires.value.Instant()
    }

    function Put(id: string, row: RunRow): Runs {
      Runs(rows[id := row], byKey)
    }

    function Create(id: string, key: string, hash: string): Result<Runs, Refusal> {
      if key in byKey then
        if byKey[key] in rows && rows[byKey[key]].hash == hash then Success(this)
        else Failure(IdempotencyConflict)
      else if id in rows then Failure(IdempotencyConflict)
      else
        Success(Runs(rows[id := RunRow(key, hash, Received, "received", None, None, None)], byKey[key := id]))
    }

    function Acquire(id: string, owner: string, now: Moment, until: Moment): Runs {
      if Free(id, owner, now) then
        Put(id, rows[id].(owner := Some(owner), expires := Some(until), status := Running))
      else this
    }

    function Renew(id: string, owner: string, now: Moment, until: Moment): Runs {
      if Holds(id, owner, now) then Put(id, rows[id].(expires := Some(until))) else this
    }

    function Release(id: string, owner: string): Runs {
      if id in rows && rows[id].owner == Some(owner) then
        Put(id, rows[id].(owner := None, expires := None))
      else this
    }

    function SetStage(id: string, stage: string, status: RunStatus, at: Moment): Runs {
      if id in rows then
        Put(id, rows[id].(stage := stage, status := status,
                          terminalAt := if IsTerminal(status) then Some(at) else None))
      else this
    }
  }

  /** What no statement on the table ever changes: a row stays, with its key and request hash. */
  ghost predicate Preserves(before: Runs, after: Runs) {
    && (before.Consistent() ==> after.Consistent())
    && (forall id | id in before.rows ::
          (id in after.rows && after.rows[id].key == before.rows[id].key
           && after.rows[id].hash == before.rows[id].hash))
    && (forall key | key in before.byKey :: key in after.byKey && after.byKey[key] == before.byKey[key])
  }

  lemma PreservesIsTransitive(a: Runs, b: Runs, c: Runs)
    requires Preserves(a, b) && Preserves(b, c)
    ensures Preserves(a, c)
  {
  }

  // ----- One statement of any caller -----

  datatype Statement =
    | Creating(id: string, key: string, hash: string)
    | Acquiring(id: string, owner: string, now: Moment, until: Moment)
    | Renewing(id: string, owner: string, now: Moment, until: Moment)
    | Releasing(id: string, owner: string)
    | Staging(id: string, stage: string, status: RunStatus, at: Moment)

  function Execute(runs: Runs, s: Statement): Runs {
    match s
    case Creating(id, key, hash) =>
      var created := runs.Create(id, key, hash);
      if created.Success? then created.value else runs
    case Acquiring(id, owner, now, until) => runs.Acquire(id, owner, now, until)
    case Renewing(id, owner, now, until) => runs.Renew(id, owner, now, until)
    case Releasing(id, owner) => runs.Release(id, owner)
    case Staging(id, stage, status, at) => runs.SetStage(id, stage, status, at)
  }

  function ExecuteAll(runs: Runs, script: seq<Statement>): Runs
    decreases script
  {
    if script == [] then runs else ExecuteAll(Execute(runs, script[0]), script[1..])
  }

  lemma PutPreserves(runs: Runs, id: string, row: RunRow)
    requires id in runs.rows && row.key == runs.rows[id].key && row.hash == runs.rows[id].hash
    ensures Preserves(runs, runs.Put(id, row))
  {
  }

  lemma CreatePreserves(runs: Runs, id: string, key: string, hash: string)
    requires runs.Create(id, key, hash).Success?
    ensures Preserves(runs, runs.Create(id, key, hash).value)
  {
  }

  /** No statement rebinds an idempotency key, changes a request hash or drops a run. */
  lemma StatementPreserves(runs: Runs, s: Statement)
    ensures Preserves(runs, Execute(runs, s))
  {
    hide Preserves, Runs.Create, Runs.Put;
    assert Preserves(runs, runs) by { StaysPut(runs); }
    if s.Creating? {
      if runs.Create(s.id, s.key, s.hash).Success? {
        CreatePreserves(runs, s.id, s.key, s.hash);
      }
    } else if s.id in runs.rows {
      var row := runs.rows[s.id];
      match s
      case Acquiring(id, owner, now, until) =>
        PutPreserves(runs, id, row.(owner := Some(owner), expires := Some(until), status := Running));
      case Renewing(id, owner, now, until) =>
        PutPreserves(runs, id, row.(expires := Some(until)));
      case Releasing(id, owner) =>
        PutPreserves(runs, id, row.(owner := None, expires := None));
      case Staging(id, stage, status, at) =>
        PutPreserves(runs, id, row.(stage := stage, status := status,
                                    terminalAt := if IsTerminal(status) then Some(at) else None));
      case Creating(_, _, _) =>
    }
  }

  lemma StaysPut(runs: Runs)
    ensures Preserves(runs, runs)
  {
  }

  lemma {:induction false} ScriptPreserves(runs: Runs, script: seq<Statement>)
    ensures Preserves(runs, ExecuteAll(runs, script))
    decreases script
  {
    hide Execute;
    if script != [] {
      var next := Execute(runs, script[0]);
      StatementPreserves(runs, script[0]);
      ScriptPreserves(next, script[1..]);
      PreservesIsTransitive(runs, next, ExecuteAll(next, script[1..]));
    }
  }

  // ----- A lease keeps every other owner out -----

  /** Whose lease it is, and that it lasts at least until the given instant. */
  predicate LeasedUntil(runs: Runs, id: string, owner: string, end: int) {
    && id in runs.rows
    && runs.rows[id].owner == Some(owner)
    && runs.rows[id].expires.Some?
    && end <= runs.rows[id].expires.value.Instant()
  }

  /** Statements that respect a lease: before it ends, others may do anything; its owner does not
      release it and takes or renews it only for longer. */
  predicate Respects(s: Statement, id: string, owner: string, end: int) {
    match s
    case Acquiring(i, o, now, until) =>
      i != id || (if o == owner then end <= until.Instant() else now.Instant() < end)
    case Renewing(i, o, now, until) => i != id || o != owner || end <= until.Instant()
    case Releasing(i, o) => i != id || o != owner
    case _ => true
  }

  lemma LeaseSurvives(runs: Runs, s: Statement, id: string, owner: string, end: int)
    requires LeasedUntil(runs, id, owner, end) && Respects(s, id, owner, end)
    ensures LeasedUntil(Execute(runs, s), id, owner, end)
  {
  }

  /** Whatever statements run before a lease's end, it stays in place. */
  lemma {:induction false} LeaseSurvivesScript(
    runs: Runs, script: seq<Statement>, id: string, owner: string, end: int)
    requires LeasedUntil(runs, id, owner, end)
    requires forall s | s in script :: Respects(s, id, owner, end)
    ensures LeasedUntil(ExecuteAll(runs, script), id, owner, end)
    decreases script
  {
    hide LeasedUntil, Respects, Execute;
    if script != [] {
      LeaseSurvives(runs, script[0], id, owner, end);
      LeaseSurvivesScript(Execute(runs, script[0]), script[1..], id, owner, end);
    }
  }

  /** After any such statements, no other owner can take or renew the run before the end. */
  lemma NoOtherOwnerBeforeExpiry(
    runs: Runs, script: seq<Statement>, id: string, owner: string, end: int,
    other: string, now: Moment)
    requires LeasedUntil(runs, id, owner, end)
    requires forall s | s in script :: Respects(s, id, owner, end)
    requires other != owner && now.Instant() < end
    ensures !ExecuteAll(runs, script).Free(id, other, now)
    ensures !ExecuteAll(runs, script).Holds(id, other, now)
  {
    hide Respects, Execute, ExecuteAll;
    LeaseSurvivesScript(runs, script, id, owner, end);
  }

  /** A run that is made under an unbound key and a free id is new, every other row stays, and any
      owner can take it. */
  lemma CreatedRunIsNew(runs: Runs, id: string, key: string, hash: string, owner: string, now: Moment)
    requires key !in runs.byKey && id !in runs.rows
    ensures runs.Create(id, key, hash).Success?
    ensures var after := runs.Create(id, key, hash).value;
      && id in after.rows && IsNew(after.rows[id], key, hash) && after.Free(id, owner, now)
      && after.rows - {id} == runs.rows && after.byKey == runs.byKey[key := id]
  {
  }

  /** A stage update sets stage, status and, exactly for the five terminal statuses, the terminal time of
      one run, and changes nothing else. */
  lemma StageChangesOnlyStage(runs: Runs, id: string, stage: string, status: RunStatus, at: Moment)
    requires id in runs.rows
    ensures var after := runs.SetStage(id, stage, status, at);
      && after.byKey == runs.byKey && after.rows.Keys == runs.rows.Keys
      && (forall i | i in runs.rows && i != id :: after.rows[i] == runs.rows[i])
      && var was, row := runs.rows[id], after.rows[id];
         && row.stage == stage && row.status == status && row.key == was.key && row.hash == was.hash
         && row.owner == was.owner && row.expires == was.expires
         && row.terminalAt == (if status in {Completed, CompletedWithWarnings, EnrichmentRequired, Rejected, Failed}
                               then Some(at) else None)
  {
  }

  /** Releasing clears the owner and the expiry of the owner's own run and changes nothing else. */
  lemma ReleaseClearsOnlyTheLease(runs: Runs, id: string, owner: string)
    ensures var after := runs.Release(id, owner);
      && after.byKey == runs.byKey && after.rows.Keys == runs.rows.Keys
      && (forall i | i in runs.rows :: i != id || runs.rows[i].owner != Some(owner) ==> after.rows[i] == runs.rows[i])
      && (id in runs.rows && runs.rows[id].owner == Some(owner) ==>
            var was, row := runs.rows[id], after.rows[id];
            && row.owner.None? && row.expires.None? && row.key == was.key && row.hash == was.hash
            && row.status == was.status && row.stage == was.stage && row.terminalAt == was.terminalAt)
  {
  }

  /** An owner can renew its lease exactly as long as nobody else can take the run. */
  lemma RenewableIffExclusive(runs: Runs, id: string, holder: string, other: string, now: Moment)
    requires id in runs.rows && runs.rows[id].owner == Some(holder) && other != holder
    ensures runs.Holds(id, holder, now) <==> !runs.Free(id, other, now)
  {
  }

  // ----- The store -----

  class SqliteRunStore {
    var runs: Runs

    constructor ()
      ensures runs == Runs(map[], map[])
    {
      runs := Runs(map[], map[]);
    }

    /** The run bound to the key, made if there is none. Another request under the same key, and
        a run id already taken by another key, are conflicts. */
    method CreateOrGetRun(id: string, key: string, hash: string)
      returns (found: Result<(string, bool), Refusal>)
      requires runs.Consistent()
      modifies this
      ensures runs.Consistent() && Preserves(old(runs), runs)
      ensures found.Success? <==> old(runs).Create(id, key, hash).Success?
      ensures found.Success? ==> runs == old(runs).Create(id, key, hash).value
      ensures found.Failure? ==> runs == old(runs)
      ensures found.Success? ==>
                var (run, created) := found.value;
                && run in runs.rows && runs.byKey[key] == run
                && runs.rows[run].key == key && runs.rows[run].hash == hash
                && (created <==> key !in old(runs).byKey)
      ensures found.Success? <==> (if key in old(runs).byKey then old(runs).rows[old(runs).byKey[key]].hash == hash
                                   else id !in old(runs).rows)
      ensures key in old(runs).byKey || found.Failure? ==> runs == old(runs)
      ensures found.Success? && key !in old(runs).byKey ==>
                && found.value.0 == id && runs.byKey == old(runs).byKey[key := id]
                && runs.rows == old(runs).rows[id := runs.rows[id]] && IsNew(runs.rows[id], key, hash)
    {
      StatementPreserves(runs, Creating(id, key, hash));
      if key in runs.byKey {
        var existing := runs.byKey[key];
        if runs.rows[existing].hash != hash {
          return Failure(IdempotencyConflict);
        }
        return Success((existing, false));
      }
      if id in runs.rows {
        return Failure(IdempotencyConflict);
      }
      var row := RunRow(key, hash, Received, "received", None, None, None);
      runs := Runs(runs.rows[id := row], runs.byKey[key := id]);
      return Success((id, true));
    }

    /** Takes the lease for `ttl` seconds exactly when no other owner's lease is still running,
        and marks the run as running whatever its status was. */
    method AcquireLease(id: string, owner: string, ttl: nat, now: Moment)
      returns (acquired: Result<bool, Refusal>)
      modifies this
      ensures acquired.Failure? <==> Later(now, ttl).None?
      ensures acquired.Failure? ==> runs == old(runs)
      ensures acquired.Success? ==>
                && acquired.value == old(runs).Free(id, owner, now)
                && (acquired.value <==>
                      && id in old(runs).rows
                      && var row := old(runs).rows[id];
                         (row.owner.None? || row.expires.None? || row.owner.value == owner
                          || row.expires.value.Instant() <= now.Instant()))
                && (!acquired.value ==> runs == old(runs))
                && (acquired.value ==>
                      && runs.byKey == old(runs).byKey
                      && runs.rows == old(runs).rows[id := old(runs).rows[id].(
                           owner := Some(owner), expires := Later(now, ttl), status := Running)])
                && runs == old(runs).Acquire(id, owner, now, Later(now, ttl).value)
                && (acquired.value ==> LeasedUntil(runs, id, owner, now.Instant() + ttl * 1_000_000))
    {
      hide Later, Stamp.Iso, Stamp.Instant, Less;
      var until := Later(now, ttl);
      if until.None? {
        return Failure(Overflow);
      }
      LaterIsThatMuchLater(now, ttl);
      if id !in runs.rows {
        return Success(false);
      }
      var row := runs.rows[id];
      if row.expires.Some? {
        TextAtMostIsTimeAtMost(row.expires.value, now);
      }
      if row.owner.None? || row.expires.None? || AtMost(row.expires.value.Iso(), now.Iso())
         || row.owner.value == owner {
        runs := runs.Put(id, row.(owner := Some(owner), expires := until, status := Running));
        return Success(true);
      }
      return Success(false);
    }

    /** Extends the caller's lease exactly when it is the owner and the lease has not run out. */
    method RenewLease(id: string, owner: string, ttl: nat, now: Moment)
      returns (renewed: Result<bool, Refusal>)
      modifies this
      ensures renewed.Failure? <==> Later(now, ttl).None?
      ensures renewed.Failure? ==> runs == old(runs)
      ensures renewed.Success? ==>
                && renewed.value == old(runs).Holds(id, owner, now)
                && (renewed.value <==>
                      && id in old(runs).rows
                      && old(runs).rows[id].owner == Some(owner) && old(runs).rows[id].expires.Some?
                      && now.Instant() < old(runs).rows[id].expires.value.Instant())
                && (!renewed.value ==> runs == old(runs))
                && (renewed.value ==>
                      && runs.byKey == old(runs).byKey
                      && runs.rows == old(runs).rows[id := old(runs).rows[id].(expires := Later(now, ttl))])
                && runs == old(runs).Renew(id, owner, now, Later(now, ttl).value)
                && (renewed.value ==> LeasedUntil(runs, id, owner, now.Instant() + ttl * 1_000_000))
    {
      hide Later, Stamp.Iso, Stamp.Instant, Less;
      var until := Later(now, ttl);
      if until.None? {
        return Failure(Overflow);
      }
      LaterIsThatMuchLater(now, ttl);
      if id !in runs.rows {
        return Success(false);
      }
      var row := runs.rows[id];
      if row.expires.Some? {
        TextOrderIsTimeOrder(now, row.expires.value);
      }
      if row.owner == Some(owner) && row.expires.Some? && Less(now.Iso(), row.expires.value.Iso()) {
        runs := runs.Put(id, row.(expires := until));
        return Success(true);
      }
      return Success(false);
    }

    method ReleaseLease(id: string, owner: string) returns (released: bool)
      modifies this
      ensures runs == old(runs).Release(id, owner)
      ensures released <==> id in old(runs).rows && old(runs).rows[id].owner == Some(owner)
      ensures !released ==> runs == old(runs)
      ensures released ==>
                && runs.byKey == old(runs).byKey
                && runs.rows == old(runs).rows[id := old(runs).rows[id].(owner := None, expires := None)]
    {
      if id in runs.rows && runs.rows[id].owner == Some(owner) {
        runs := runs.Put(id, runs.rows[id].(owner := None, expires := None));
        return true;
      }
      return false;
    }

    /** Statements of other connections. */
    method Others() returns (ghost script: seq<Statement>)
      modifies this
      ensures runs == ExecuteAll(old(runs), script)
    {
      var statements: seq<Statement> := *;
      runs := ExecuteAll(runs, statements);
      script := statements;
    }

    /** Reads the row, writes stage, status and terminal time, and reads the row again, each on its own
        connection, with any statements of others in between. Without a status it writes back the one
        it read first. The second read finds the row. */
    method UpdateStage(id: string, stage: string, status: Option<RunStatus>, now: Moment)
      returns (updated: Result<RunRow, Refusal>, ghost between: seq<Statement>, ghost later: seq<Statement>)
      modifies this
      ensures updated.Failure? <==> id !in old(runs).rows
      ensures updated.Failure? ==> runs == old(runs)
      ensures updated.Success? ==>
                var next := if status.Some? then status.value else old(runs).rows[id].status;
                && runs == ExecuteAll(ExecuteAll(old(runs), between).SetStage(id, stage, next, now), later)
                && id in runs.rows && updated.value == runs.rows[id]
    {
      hide ExecuteAll;
      between, later := [], [];
      if id !in runs.rows {
        return Failure(InvalidRequest), between, later;
      }
      var next := if status.Some? then status.value else runs.rows[id].status;
      ghost var first := runs;
      between := Others();
      ScriptPreserves(first, between);
      var row := runs.rows[id];
      runs := runs.Put(id, row.(stage := stage, status := next,
                                terminalAt := if IsTerminal(next) then Some(now) else None));
      ghost var written := runs;
      later := Others();
      ScriptPreserves(written, later);
      updated := Success(runs.rows[id]);
    }
  }

  /** A stage update without a status undoes every change of the status made since it read the row. */
  lemma StageUpdateUndoesStatus(
    runs: Runs, script: seq<Statement>, id: string, stage: string, now: Moment)
    requires id in runs.rows
    ensures var t := ExecuteAll(runs, script).SetStage(id, stage, runs.rows[id].status, now);
      id in t.rows && t.rows[id].status == runs.rows[id].status
  {
    hide ExecuteAll;
    ScriptPreserves(runs, script);
  }
}
