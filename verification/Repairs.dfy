/** The repair queue: bounded retries although a failing handler may put its own task back with no
    attempts counted, and the backoff between them. Times and delays are reals, in seconds. */
module Repairs {
  import opened Wrappers

  datatype Target = Qdrant | Langfuse

  datatype Status = Pending | Completed | Failed

  datatype RepairRow = RepairRow(runId: string, target: Target, status: Status, attempts: nat, next: real)

  // ----- Delays -----

  function Power2(n: nat): (p: nat)
    ensures p >= 1
  {
    if n == 0 then 1 else 2 * Power2(n - 1)
  }

  /** The first two bytes of a digest. */
  type Jitter = j: nat | j <= 65_535

  function RetryDelay(base: nat, attempts: nat, jitter: Jitter): real
    requires attempts >= 1
  {
    Stretched((base * Power2(attempts - 1)) as real, Ratio(jitter))
  }

  function Ratio(jitter: Jitter): (r: real)
    ensures 0.0 <= r <= 1.0
  {
    jitter as real / 65_535.0
  }

  function Stretched(x: real, ratio: real): (y: real)
    requires x >= 0.0 && 0.0 <= ratio <= 1.0
    ensures x <= y <= 1.25 * x
  {
    Times(x, Factor(ratio))
  }

  function Times(x: real, f: real): (y: real)
    requires x >= 0.0 && 1.0 <= f <= 1.25
    ensures x <= y <= 1.25 * x
    ensures f == 1.0 ==> y == x
    ensures f == 1.25 ==> y == 1.25 * x
  {
    x * f
  }

  function Factor(ratio: real): (f: real)
    requires 0.0 <= ratio <= 1.0
    ensures 1.0 <= f <= 1.25
  {
    1.0 + ratio * 0.25
  }

  /** A delay is at least the doubled base and at most a quarter more. */
  lemma DelayBounds(base: nat, attempts: nat, jitter: Jitter)
    requires attempts >= 1
    ensures var doubled := (base * Power2(attempts - 1)) as real;
      doubled <= RetryDelay(base, attempts, jitter) <= 1.25 * doubled
  {
    hide Ratio, Stretched, Power2;
  }

  /** More jitter is a longer delay, from nothing added to a quarter. */
  lemma JitterStretches(base: nat, attempts: nat, j: Jitter, k: Jitter)
    requires attempts >= 1 && base >= 1
    ensures j < k ==> RetryDelay(base, attempts, j) < RetryDelay(base, attempts, k)
    ensures var doubled := (base * Power2(attempts - 1)) as real;
      && RetryDelay(base, attempts, 0) == doubled
      && RetryDelay(base, attempts, 65_535) == 1.25 * doubled
  {
    hide Power2;
    Monotone(base, 1, Power2(attempts - 1));
    var x := (base * Power2(attempts - 1)) as real;
    StretchesMore(x, j, k);
  }

  lemma StretchesMore(x: real, j: Jitter, k: Jitter)
    requires x >= 1.0
    ensures j < k ==> Stretched(x, Ratio(j)) < Stretched(x, Ratio(k))
    ensures Stretched(x, Ratio(0)) == x && Stretched(x, Ratio(65_535)) == 1.25 * x
  {
    hide Ratio, Factor, Times;
    FactorGrows(j, k);
    if j < k {
      TimesGrows(x, Factor(Ratio(j)), Factor(Ratio(k)));
    }
  }

  lemma FactorGrows(j: Jitter, k: Jitter)
    ensures j < k ==> Factor(Ratio(j)) < Factor(Ratio(k))
    ensures Factor(Ratio(0)) == 1.0 && Factor(Ratio(65_535)) == 1.25
  {
  }

  lemma TimesGrows(x: real, a: real, b: real)
    requires x > 0.0 && 1.0 <= a < b <= 1.25
    ensures Times(x, a) < Times(x, b)
  {
    assert x * (b - a) > 0.0;
  }

  lemma {:induction false} PowersGrow(m: nat, n: nat)
    requires m < n
    ensures 2 * Power2(m) <= Power2(n)
  {
    if m + 1 < n {
      PowersGrow(m, n - 1);
    }
  }

  /** Later delays are strictly longer, whatever the jitter. */
  lemma DelaysIncrease(base: nat, m: nat, n: nat, j: Jitter, k: Jitter)
    requires base >= 1 && 1 <= m < n
    ensures RetryDelay(base, m, j) < RetryDelay(base, n, k)
  {
    hide RetryDelay, Power2;
    DelayBounds(base, m, j);
    DelayBounds(base, n, k);
    PowersGrow(m - 1, n - 1);
    Monotone(base, 2 * Power2(m - 1), Power2(n - 1));
    assert base * (2 * Power2(m - 1)) == 2 * (base * Power2(m - 1));
    assert base * Power2(m - 1) >= 1 by { Monotone(base, 1, Power2(m - 1)); }
  }

  lemma Monotone(base: nat, x: nat, y: nat)
    requires x <= y
    ensures base * x <= base * y
  {
  }

  /** The delays after attempts 1 to n. */
  function TotalDelay(base: nat, jitters: seq<Jitter>): real {
    if jitters == [] then 0.0
    else TotalDelay(base, jitters[..|jitters| - 1]) + RetryDelay(base, |jitters|, jitters[|jitters| - 1])
  }

  /** All retries of a task together wait between b(2^n - 1) and a quarter more, where n is the
      number of retries. */
  lemma {:induction false} TotalDelayBounds(base: nat, jitters: seq<Jitter>)
    ensures var doubled := (base * (Power2(|jitters|) - 1)) as real;
      doubled <= TotalDelay(base, jitters) <= 1.25 * doubled
  {
    hide RetryDelay;
    var n := |jitters|;
    if n > 0 {
      TotalDelayBounds(base, jitters[..n - 1]);
      DelayBounds(base, n, jitters[n - 1]);
      assert Power2(n) == 2 * Power2(n - 1);
      assert base * (Power2(n) - 1) == base * (Power2(n - 1) - 1) + base * Power2(n - 1);
    }
  }

  // ----- One attempt -----

  /** How a handler ends: whether it put its repair back, whether it raised, and whether the service's
      own write afterwards was stored. */
  datatype Reply = Reply(reenqueuedAt: Option<real>, raises: bool, stored: bool)

  function Enqueue(row: RepairRow, attempts: nat, next: real): RepairRow {
    row.(status := Pending, attempts := attempts, next := next)
  }

  function Complete(row: RepairRow): RepairRow {
    if row.status.Pending? then row.(status := Completed) else row
  }

  function Fail(row: RepairRow, attempts: nat): RepairRow {
    if row.status.Pending? then row.(status := Failed, attempts := attempts) else row
  }

  /** The row after the handler: a failed index synchronisation enqueues it with no attempts. */
  function Handled(row: RepairRow, reply: Reply): RepairRow {
    if reply.reenqueuedAt.Some? then Enqueue(row, 0, reply.reenqueuedAt.value) else row
  }

  /** The row after an attempt: the attempt count comes from the row as it was listed. */
  function Attempt(row: RepairRow, reply: Reply, maxAttempts: nat, retryAt: real): RepairRow {
    var left := Handled(row, reply);
    if !reply.stored then left
    else if !reply.raises then Complete(left)
    else if row.attempts + 1 >= maxAttempts then Fail(left, row.attempts + 1)
    else Enqueue(left, row.attempts + 1, retryAt)
  }

  // ----- Any sequence of attempts -----

  /** Attempts are made only while the repair is pending. */
  function Retried(row: RepairRow, replies: seq<(Reply, real)>, maxAttempts: nat): RepairRow {
    if replies == [] then row
    else
      var before, last := Retried(row, replies[..|replies| - 1], maxAttempts), replies[|replies| - 1];
      if before.status.Pending? then Attempt(before, last.0, maxAttempts, last.1) else before
  }

  function AttemptsMade(row: RepairRow, replies: seq<(Reply, real)>, maxAttempts: nat): nat {
    if replies == [] then 0
    else
      var before := replies[..|replies| - 1];
      AttemptsMade(row, before, maxAttempts)
      + if Retried(row, before, maxAttempts).status.Pending? then 1 else 0
  }

  predicate AllStored(replies: seq<(Reply, real)>) {
    forall r | r in replies :: r.0.stored
  }

  /** While the service's own writes succeed, a pending task counts every attempt made, even when
      the handler puts it back with none; so it gets at most the allowed number of attempts. */
  lemma {:induction false} AttemptsAreBounded(row: RepairRow, replies: seq<(Reply, real)>, maxAttempts: nat)
    requires row.status.Pending? && row.attempts == 0 && maxAttempts >= 1 && AllStored(replies)
    ensures var t, n := Retried(row, replies, maxAttempts), AttemptsMade(row, replies, maxAttempts);
      && n <= maxAttempts
      && (t.status.Pending? ==> t.attempts == n < maxAttempts)
      && (t.status.Failed? ==> t.attempts == n == maxAttempts)
  {
    if replies != [] {
      assert replies[|replies| - 1] in replies;
      AttemptsAreBounded(row, replies[..|replies| - 1], maxAttempts);
    }
  }

  /** A handler that always raises is given up after exactly the allowed number of attempts. */
  lemma {:induction false} AlwaysFailingIsGivenUp(row: RepairRow, replies: seq<(Reply, real)>, maxAttempts: nat)
    requires row.status.Pending? && row.attempts == 0 && maxAttempts >= 1 && AllStored(replies)
    requires forall r | r in replies :: r.0.raises
    ensures var n := AttemptsMade(row, replies, maxAttempts);
      && n == (if |replies| < maxAttempts then |replies| else maxAttempts)
      && (Retried(row, replies, maxAttempts).status == if |replies| < maxAttempts then Pending else Failed)
  {
    if replies != [] {
      assert replies[|replies| - 1] in replies;
      AlwaysFailingIsGivenUp(row, replies[..|replies| - 1], maxAttempts);
      AttemptsAreBounded(row, replies[..|replies| - 1], maxAttempts);
    }
  }

  /** The bound needs those writes: when the handler puts its repair back and the service's own write
      then fails, the count starts again, any number of times. */
  lemma {:induction false} LostWritesRetryForever(row: RepairRow, n: nat, maxAttempts: nat)
    requires row.status.Pending? && row.attempts == 0
    ensures exists replies :: |replies| == n && AttemptsMade(row, replies, maxAttempts) == n
              && Retried(row, replies, maxAttempts).status.Pending?
              && Retried(row, replies, maxAttempts).attempts == 0
  {
    if n == 0 {
      assert AttemptsMade(row, [], maxAttempts) == 0;
    } else {
      LostWritesRetryForever(row, n - 1, maxAttempts);
      var before :| |before| == n - 1 && AttemptsMade(row, before, maxAttempts) == n - 1
        && Retried(row, before, maxAttempts).status.Pending? && Retried(row, before, maxAttempts).attempts == 0;
      var replies := before + [(Reply(Some(0.0), true, false), 0.0)];
      assert replies[..n - 1] == before;
      assert AttemptsMade(row, replies, maxAttempts) == n;
    }
  }

  // ----- The service -----

  predicate IsDue(row: RepairRow, now: real) {
    row.next <= now
  }

  datatype RepairRunResult = RepairRunResult(
    attempted: seq<string>, completed: seq<string>, rescheduled: seq<string>,
    exhausted: seq<string>, notDue: seq<string>)

  /** What became of one listed task. */
  datatype TaskVerdict = NotDue | Repaired | Rescheduled | Exhausted

  function VerdictOf(row: RepairRow, reply: Option<Reply>, maxAttempts: nat): TaskVerdict {
    if reply.None? then NotDue
    else if !reply.value.raises then Repaired
    else if row.attempts + 1 >= maxAttempts then Exhausted
    else Rescheduled
  }

  /** The repairs with one of the wanted verdicts, in the order in which they were listed. */
  function Pick(ids: seq<string>, verdicts: seq<TaskVerdict>, wanted: set<TaskVerdict>): seq<string>
    requires |ids| == |verdicts|
  {
    if ids == [] then []
    else
      var last := |ids| - 1;
      var rest := Pick(ids[..last], verdicts[..last], wanted);
      if verdicts[last] in wanted then rest + [ids[last]] else rest
  }

  lemma {:induction false} PickHas(ids: seq<string>, verdicts: seq<TaskVerdict>, wanted: set<TaskVerdict>, i: nat)
    requires |ids| == |verdicts| && i < |ids|
    requires forall j, k | 0 <= j < k < |ids| :: ids[j] != ids[k]
    ensures ids[i] in Pick(ids, verdicts, wanted) <==> verdicts[i] in wanted
  {
    var last := |ids| - 1;
    if i < last {
      PickHas(ids[..last], verdicts[..last], wanted, i);
    } else {
      PickTakes(ids[..last], verdicts[..last], wanted);
      assert ids[last] !in ids[..last];
    }
  }

  lemma {:induction false} PickTakes(ids: seq<string>, verdicts: seq<TaskVerdict>, wanted: set<TaskVerdict>)
    requires |ids| == |verdicts|
    ensures forall id | id in Pick(ids, verdicts, wanted) :: id in ids
  {
    if ids != [] {
      PickTakes(ids[..|ids| - 1], verdicts[..|ids| - 1], wanted);
    }
  }

  function ResultOf(ids: seq<string>, verdicts: seq<TaskVerdict>): RepairRunResult
    requires |ids| == |verdicts|
  {
    RepairRunResult(
      Pick(ids, verdicts, {Repaired, Rescheduled, Exhausted}), Pick(ids, verdicts, {Repaired}),
      Pick(ids, verdicts, {Rescheduled}), Pick(ids, verdicts, {Exhausted}), Pick(ids, verdicts, {NotDue}))
  }

  function Record(result: RepairRunResult, id: string, v: TaskVerdict): RepairRunResult {
    match v
    case NotDue => result.(notDue := result.notDue + [id])
    case Repaired => result.(attempted := result.attempted + [id], completed := result.completed + [id])
    case Exhausted => result.(attempted := result.attempted + [id], exhausted := result.exhausted + [id])
    case Rescheduled =>
      result.(attempted := result.attempted + [id], rescheduled := result.rescheduled + [id])
  }

  lemma RecordIsResult(ids: seq<string>, verdicts: seq<TaskVerdict>, id: string, v: TaskVerdict)
    requires |ids| == |verdicts|
    ensures ResultOf(ids + [id], verdicts + [v]) == Record(ResultOf(ids, verdicts), id, v)
  {
    assert (ids + [id])[..|ids|] == ids && (verdicts + [v])[..|verdicts|] == verdicts;
  }

  /** The pending tasks of a run, each once. */
  ghost predicate IsListing(rows: map<string, RepairRow>, runId: string, listed: seq<string>) {
    && (forall id :: id in listed <==> id in rows && rows[id].status.Pending? && rows[id].runId == runId)
    && forall i, j | 0 <= i < j < |listed| :: listed[i] != listed[j]
  }

  datatype ServiceRun = ServiceRun(
    runId: string, now: real, before: map<string, RepairRow>, after: map<string, RepairRow>,
    listed: seq<string>, answers: seq<Option<Reply>>)

  class RepairService {
    const maxAttempts: nat
    const base: nat
    const digest: (string, nat) -> Jitter
    var rows: map<string, RepairRow>

    constructor (maxAttempts: nat, base: nat, digest: (string, nat) -> Jitter, rows: map<string, RepairRow>)
      requires maxAttempts >= 1 && base >= 1
      ensures this.maxAttempts == maxAttempts && this.base == base && this.rows == rows
    {
      this.maxAttempts := maxAttempts;
      this.base := base;
      this.digest := digest;
      this.rows := rows;
    }

    /** When an attempt that fails now is retried. */
    function RetryAt(id: string, attempts: nat, now: real): real {
      now + RetryDelay(base, attempts + 1, digest(id, attempts + 1))
    }

    function Attempted(id: string, row: RepairRow, reply: Reply, now: real): RepairRow {
      Attempt(row, reply, maxAttempts, RetryAt(id, row.attempts, now))
    }

    /** The handler of a task; without one the attempt fails at once. */
    method Handle(id: string) returns (reply: Reply)
      requires id in rows
      modifies this
      ensures rows == old(rows)[id := Handled(old(rows)[id], reply)]
    {
      reply := *;
      rows := rows[id := Handled(rows[id], reply)];
    }

    /** One attempt of a listed task, the service's own write last. */
    method AttemptTask(id: string, now: real) returns (reply: Reply)
      requires id in rows
      modifies this
      ensures rows == old(rows)[id := Attempted(id, old(rows)[id], reply, now)]
    {
      hide RetryDelay;
      var task := rows[id];
      reply := Handle(id);
      if !reply.stored {
        return;
      }
      if reply.raises {
        var attempts := task.attempts + 1;
        if attempts >= maxAttempts {
          rows := rows[id := Fail(rows[id], attempts)];
        } else {
          rows := rows[id := Enqueue(rows[id], attempts, now + RetryDelay(base, attempts, digest(id, attempts)))];
        }
      } else {
        rows := rows[id := Complete(rows[id])];
      }
    }

    /** The rows after the first listed tasks were visited: attempted tasks have the row of one
        attempt, all others the row they had. */
    ghost predicate Visited(
      before: map<string, RepairRow>, after: map<string, RepairRow>, listed: seq<string>,
      answers: seq<Option<Reply>>, now: real)
    {
      && after.Keys == before.Keys && |answers| <= |listed|
      && (forall i | 0 <= i < |answers| ::
            (listed[i] in before && (answers[i].Some? <==> IsDue(before[listed[i]], now))
             && after[listed[i]] == AfterVisit(listed[i], before[listed[i]], answers[i], now)))
      && (forall id | id in before && id !in listed[..|answers|] :: after[id] == before[id])
    }

    function AfterVisit(id: string, row: RepairRow, answer: Option<Reply>, now: real): RepairRow {
      if answer.Some? then Attempted(id, row, answer.value, now) else row
    }

    lemma VisitOne(
      before: map<string, RepairRow>, after: map<string, RepairRow>, listed: seq<string>,
      answers: seq<Option<Reply>>, answer: Option<Reply>, now: real)
      requires Visited(before, after, listed, answers, now) && |answers| < |listed|
      requires forall i, j | 0 <= i < j < |listed| :: listed[i] != listed[j]
      requires listed[|answers|] in before
      requires answer.Some? <==> IsDue(before[listed[|answers|]], now)
      ensures var id := listed[|answers|];
        Visited(before, after[id := AfterVisit(id, before[id], answer, now)], listed, answers + [answer], now)
    {
      hide AfterVisit;
    }

    /** All verdicts on the repairs visited. */
    ghost function Verdicts(before: map<string, RepairRow>, listed: seq<string>, answers: seq<Option<Reply>>)
      : (v: seq<TaskVerdict>)
      requires |answers| <= |listed| && forall i | 0 <= i < |answers| :: listed[i] in before
      ensures |v| == |answers|
    {
      seq(|answers|, i requires 0 <= i < |answers| => VerdictOf(before[listed[i]], answers[i], maxAttempts))
    }

    method ListRepairs(runId: string) returns (listed: seq<string>)
      ensures IsListing(rows, runId, listed)
    {
      var left := set id | id in rows && rows[id].status.Pending? && rows[id].runId == runId;
      listed := [];
      ghost var all := left;
      while left != {}
        invariant left <= all
        invariant forall id :: id in listed <==> id in all && id !in left
        invariant forall i, j | 0 <= i < j < |listed| :: listed[i] != listed[j]
      {
        var id :| id in left;
        listed := listed + [id];
        left := left - {id};
      }
    }

    /** Skips a task that is not due yet and attempts one that is. */
    method Visit(id: string, now: real) returns (answer: Option<Reply>)
      requires id in rows
      modifies this
      ensures answer.Some? <==> IsDue(old(rows)[id], now)
      ensures rows == old(rows)[id := AfterVisit(id, old(rows)[id], answer, now)]
    {
      hide Attempted;
      if !IsDue(rows[id], now) {
        return None;
      }
      var reply := AttemptTask(id, now);
      return Some(reply);
    }

    /** Visits every pending task of the run once; an exception of the store ends the run early. The
        result lists name, in order, the repairs with each verdict. */
    method Run(runId: string, now: real)
      returns (result: RepairRunResult, ghost listed: seq<string>, ghost answers: seq<Option<Reply>>, raised: bool)
      modifies this
      ensures IsServiceRun(ServiceRun(runId, now, old(rows), rows, listed, answers))
      ensures raised <==> exists i | 0 <= i < |answers| :: answers[i].Some? && !answers[i].value.stored
      ensures !raised ==> |answers| == |listed|
      ensures !raised ==> result == ResultOf(listed, Verdicts(old(rows), listed, answers))
      ensures !raised ==>
        forall id | id in old(rows) && old(rows)[id].status.Pending? && old(rows)[id].runId == runId ::
          id in rows && TellsRow(result, id, old(rows)[id], rows[id], now)
    {
      hide Attempted, AfterVisit, Record, ResultOf, VerdictOf, IsListing, Visited, Verdicts, TellsRow;
      ghost var before := rows;
      var tasks := ListRepairs(runId);
      listed := tasks;
      IsListed(before, runId, listed);
      result := RepairRunResult([], [], [], [], []);
      answers := [];
      raised := false;
      NothingVisited(before, listed, now);
      while |tasks| > 0
        invariant |answers| + |tasks| == |listed| && tasks == listed[|answers|..]
        invariant Visited(before, rows, listed, answers, now)
        invariant forall k | 0 <= k < |answers| :: answers[k].Some? ==> answers[k].value.stored
        invariant result == ResultOf(listed[..|answers|], Verdicts(before, listed, answers))
      {
        var id := tasks[0];
        NextIsUntouched(before, rows, listed, answers, now);
        var task := rows[id];
        ghost var mid := rows;
        var answer := Visit(id, now);
        VisitOne(before, mid, listed, answers, answer, now);
        var v := VerdictOf(task, answer, maxAttempts);
        VerdictsPush(before, listed, answers, answer);
        RecordIsResult(listed[..|answers|], Verdicts(before, listed, answers), id, v);
        assert listed[..|answers| + 1] == listed[..|answers|] + [id];
        answers := answers + [answer];
        if answer.Some? && !answer.value.stored {
          raised := true;
          assert answers[|answers| - 1] == answer;
          return;
        }
        result := Record(result, id, v);
        tasks := tasks[1..];
      }
      assert listed[..|answers|] == listed;
      ResultTellsRows(ServiceRun(runId, now, before, rows, listed, answers), result);
    }

    /** What the result says of a pending repair of the run is what its row says. */
    predicate TellsRow(result: RepairRunResult, id: string, was: RepairRow, row: RepairRow, now: real) {
      && (id in result.notDue <==> now < was.next)
      && (id in result.attempted <==> id !in result.notDue)
      && (id in result.notDue ==> row == was)
      && (id in result.completed <==> id in result.attempted && row.status.Completed?)
      && (id in result.exhausted <==> id in result.attempted && row.status.Failed?)
      && (id in result.rescheduled <==> id in result.attempted && row.status.Pending?)
      && (id in result.exhausted ==> row.attempts == was.attempts + 1 >= maxAttempts)
      && (id in result.rescheduled ==>
            && row.attempts == was.attempts + 1 < maxAttempts
            && row.next == now + RetryDelay(base, row.attempts, digest(id, row.attempts)))
      && row.runId == was.runId && row.target == was.target
    }

    lemma ResultTellsRows(r: ServiceRun, result: RepairRunResult)
      requires IsServiceRun(r) && |r.answers| == |r.listed|
      requires forall i | 0 <= i < |r.answers| :: r.answers[i].Some? ==> r.answers[i].value.stored
      requires forall i | 0 <= i < |r.listed| :: r.listed[i] in r.before
      requires result == ResultOf(r.listed, Verdicts(r.before, r.listed, r.answers))
      ensures forall id | id in r.before && r.before[id].status.Pending? && r.before[id].runId == r.runId ::
        id in r.after && TellsRow(result, id, r.before[id], r.after[id], r.now)
    {
      hide TellsRow, VerdictOf, AfterVisit, Pick, ResultOf, Verdicts;
      forall id | id in r.before && r.before[id].status.Pending? && r.before[id].runId == r.runId
        ensures id in r.after && TellsRow(result, id, r.before[id], r.after[id], r.now)
      {
        assert id in r.listed;
        var i :| 0 <= i < |r.listed| && r.listed[i] == id;
        ResultTellsRow(r, result, i);
      }
    }

    lemma ResultTellsRow(r: ServiceRun, result: RepairRunResult, i: nat)
      requires IsServiceRun(r) && |r.answers| == |r.listed| && i < |r.listed|
      requires r.answers[i].Some? ==> r.answers[i].value.stored
      requires forall k | 0 <= k < |r.listed| :: r.listed[k] in r.before
      requires result == ResultOf(r.listed, Verdicts(r.before, r.listed, r.answers))
      ensures var id := r.listed[i]; id in r.after && TellsRow(result, id, r.before[id], r.after[id], r.now)
    {
      hide Pick, RetryDelay;
      var verdicts := Verdicts(r.before, r.listed, r.answers);
      PickHas(r.listed, verdicts, {Repaired, Rescheduled, Exhausted}, i);
      PickHas(r.listed, verdicts, {Repaired}, i);
      PickHas(r.listed, verdicts, {Rescheduled}, i);
      PickHas(r.listed, verdicts, {Exhausted}, i);
      PickHas(r.listed, verdicts, {NotDue}, i);
      var id := r.listed[i];
      assert id in r.listed;
    }

    lemma NothingVisited(before: map<string, RepairRow>, listed: seq<string>, now: real)
      ensures Visited(before, before, listed, [], now)
      ensures Verdicts(before, listed, []) == [] && listed[..0] == []
      ensures ResultOf([], []) == RepairRunResult([], [], [], [], [])
    {
    }

    lemma NextIsUntouched(
      before: map<string, RepairRow>, after: map<string, RepairRow>, listed: seq<string>,
      answers: seq<Option<Reply>>, now: real)
      requires Visited(before, after, listed, answers, now) && |answers| < |listed|
      requires forall i, j | 0 <= i < j < |listed| :: listed[i] != listed[j]
      requires listed[|answers|] in before
      ensures listed[|answers|] in after && after[listed[|answers|]] == before[listed[|answers|]]
    {
      hide AfterVisit;
    }

    lemma VerdictsPush(
      before: map<string, RepairRow>, listed: seq<string>, answers: seq<Option<Reply>>, answer: Option<Reply>)
      requires |answers| < |listed| && forall i | 0 <= i <= |answers| :: listed[i] in before
      ensures Verdicts(before, listed, answers + [answer])
           == Verdicts(before, listed, answers) + [VerdictOf(before[listed[|answers|]], answer, maxAttempts)]
    {
      hide VerdictOf;
    }

    lemma IsListed(before: map<string, RepairRow>, runId: string, listed: seq<string>)
      requires IsListing(before, runId, listed)
      ensures forall i | 0 <= i < |listed| :: listed[i] in before
      ensures forall i, j | 0 <= i < j < |listed| :: listed[i] != listed[j]
    {
      forall i | 0 <= i < |listed| ensures listed[i] in before {
        assert listed[i] in listed;
      }
    }

    // ----- Any sequence of runs of the service -----

    /** One run of the service, as `Run` describes it: the table before and after it, the repairs it
        listed, and the answers of those it came to. */
    ghost predicate IsServiceRun(r: ServiceRun) {
      IsListing(r.before, r.runId, r.listed) && Visited(r.before, r.after, r.listed, r.answers, r.now)
    }

    /** Between two runs anything may happen to other repairs, but nobody enqueues this one. */
    ghost predicate IsHistory(runs: seq<ServiceRun>, id: string) {
      && (forall k | 0 <= k < |runs| :: IsServiceRun(runs[k]) && id in runs[k].before)
      && (forall k | 0 <= k < |runs| - 1 :: IsUntouched(runs, k, id))
    }

    ghost predicate IsUntouched(runs: seq<ServiceRun>, k: nat, id: string)
      requires k + 1 < |runs| && id in runs[k + 1].before
    {
      id in runs[k].after && runs[k + 1].before[id] == runs[k].after[id]
    }

    lemma HistoryPrefix(runs: seq<ServiceRun>, id: string)
      requires |runs| > 1 && IsHistory(runs, id) && AllStoredFor(runs, id)
      ensures IsHistory(runs[..|runs| - 1], id) && AllStoredFor(runs[..|runs| - 1], id)
      ensures IsUntouched(runs, |runs| - 2, id)
    {
      hide IsServiceRun, StoredFor;
      var front := runs[..|runs| - 1];
      forall k | 0 <= k < |front| - 1 ensures IsUntouched(front, k, id) {
        assert IsUntouched(runs, k, id);
      }
    }

    /** The service's own writes for this repair succeed. */
    ghost predicate AllStoredFor(runs: seq<ServiceRun>, id: string) {
      forall k | 0 <= k < |runs| :: StoredFor(runs[k], id)
    }

    ghost predicate StoredFor(r: ServiceRun, id: string) {
      forall i | 0 <= i < |r.answers| && i < |r.listed| ::
        r.listed[i] == id && r.answers[i].Some? ==> r.answers[i].value.stored
    }

    ghost predicate HandledIn(r: ServiceRun, id: string) {
      exists i | 0 <= i < |r.answers| && i < |r.listed| :: r.listed[i] == id && r.answers[i].Some?
    }

    /** How many runs of the service called a handler for the repair. */
    ghost function HandlerCalls(runs: seq<ServiceRun>, id: string): nat {
      if runs == [] then 0
      else
        var last := |runs| - 1;
        HandlerCalls(runs[..last], id) + if HandledIn(runs[last], id) then 1 else 0
    }

    /** What the row says after n handler calls since it was enqueued with no attempts. */
    predicate Counts(row: RepairRow, n: nat) {
      && n <= maxAttempts
      && (row.status.Pending? ==> row.attempts == n < maxAttempts)
      && (row.status.Failed? ==> row.attempts == n == maxAttempts)
    }

    lemma AttemptCounts(id: string, row: RepairRow, reply: Reply, now: real, n: nat)
      requires row.status.Pending? && Counts(row, n) && reply.stored
      ensures Counts(Attempted(id, row, reply, now), n + 1)
    {
      hide RetryDelay;
    }

    /** One run of the service calls at most one handler for a repair, and the row counts it. */
    lemma ServiceRunCounts(r: ServiceRun, id: string, n: nat)
      requires IsServiceRun(r) && id in r.before && StoredFor(r, id) && Counts(r.before[id], n)
      ensures id in r.after
      ensures Counts(r.after[id], if HandledIn(r, id) then n + 1 else n)
    {
      hide Attempted, Counts;
      if HandledIn(r, id) {
        var i :| 0 <= i < |r.answers| && i < |r.listed| && r.listed[i] == id && r.answers[i].Some?;
        assert id in r.listed;
        AttemptCounts(id, r.before[id], r.answers[i].value, r.now, n);
      } else if id in r.listed[..|r.answers|] {
        var i :| 0 <= i < |r.answers| && r.listed[i] == id;
        assert r.answers[i].None?;
      }
    }

    /** Over any runs of the service over the whole table, a repair enqueued with no attempts gets at
        most the allowed number of handler calls until somebody else enqueues it again, even when its
        handler keeps putting it back; the last row counts them. */
    lemma {:induction false} HandlerCallsAreBounded(runs: seq<ServiceRun>, id: string)
      requires maxAttempts >= 1 && runs != []
      requires IsHistory(runs, id) && AllStoredFor(runs, id)
      requires runs[0].before[id].status.Pending? && runs[0].before[id].attempts == 0
      ensures HandlerCalls(runs, id) <= maxAttempts
      ensures id in runs[|runs| - 1].after && Counts(runs[|runs| - 1].after[id], HandlerCalls(runs, id))
    {
      hide IsServiceRun, StoredFor, HandledIn, Counts;
      var last := |runs| - 1;
      if last == 0 {
        StartsCounting(runs[0].before[id]);
        assert HandlerCalls(runs[..0], id) == 0;
      } else {
        HistoryPrefix(runs, id);
        HandlerCallsAreBounded(runs[..last], id);
      }
      ServiceRunCounts(runs[last], id, HandlerCalls(runs[..last], id));
      BoundOfCounts(runs[last].after[id], HandlerCalls(runs, id));
    }

    lemma StartsCounting(row: RepairRow)
      requires maxAttempts >= 1 && row.status.Pending? && row.attempts == 0
      ensures Counts(row, 0)
    {
    }

    lemma BoundOfCounts(row: RepairRow, n: nat)
      requires Counts(row, n)
      ensures n <= maxAttempts
    {
    }
  }
}
