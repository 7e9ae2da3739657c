/** What a worker does with one queue message: the order of its calls to the queue, the run store
    and the executor, and the disposition it reports. */
module Delivery {
  import opened LeaseStore
  import opened Wrappers

  /** A parsed envelope with the hash of the request it carries. */
  datatype Message = Message(runId: string, key: string, hash: string)

  datatype Disposition =
    Acknowledged | Released | LeaseBusy | HeartbeatLost | Invalid | TimeoutPending

  datatype RunView = RunView(run: string, hash: string, status: RunStatus)

  datatype Ending = Returned | Raised

  /** A call and its answer; None stands for an exception. */
  datatype Call =
    | Parse(message: Option<Message>)
    | CreateOrGet(found: Option<RunView>)
    | AcquireLease(granted: Option<bool>)
    | Beat(alive: bool)
    | Execution(ending: Ending)
    | GetRun(durable: Option<Option<RunView>>)
    | Acknowledge(ok: bool)
    | Release(ok: bool)
    | ReleaseLease(ok: bool)

  datatype Phase =
    | Start
    | Looking(m: Message)
    | Known(m: Message, run: string)
    | Executing(m: Message, run: string)
    | Losing(m: Message, run: string)
    | Failing(m: Message, run: string, lost: bool)
    | Finished(m: Message, run: string)
    | Confirmed(m: Message, run: string, leased: bool)
    | Returning(d: Disposition, lease: Option<string>)
    | Closing(run: string, reported: Option<Disposition>)
    | Done(reported: Option<Disposition>)

  /** The phase after a call, or None where the worker would not make that call. */
  function Follow(phase: Phase, call: Call): Option<Phase> {
    match (phase, call)
    case (Start, Parse(None)) => Some(Returning(Invalid, None))
    case (Start, Parse(Some(m))) => Some(Looking(m))
    case (Looking(m), CreateOrGet(None)) => Some(Returning(Released, None))
    case (Looking(m), CreateOrGet(Some(row))) =>
      if row.hash != m.hash then Some(Returning(Released, None))
      else if IsTerminal(row.status) then Some(Confirmed(m, row.run, false))
      else Some(Known(m, row.run))
    case (Known(m, run), AcquireLease(None)) => Some(Returning(Released, None))
    case (Known(m, run), AcquireLease(Some(granted))) =>
      Some(if granted then Executing(m, run) else Returning(LeaseBusy, None))
    case (Executing(m, run), Beat(alive)) => Some(if alive then phase else Losing(m, run))
    case (Executing(m, run), Execution(Returned)) => Some(Finished(m, run))
    case (Executing(m, run), Execution(Raised)) => Some(Failing(m, run, false))
    case (Losing(m, run), Execution(ending)) =>
      Some(Closing(run, if ending.Raised? then None else Some(HeartbeatLost)))
    case (Failing(m, run, false), Beat(alive)) => Some(Failing(m, run, !alive))
    case (Failing(m, run, lost), Release(_)) =>
      Some(Closing(run, if lost then None else Some(Released)))
    case (Finished(m, run), GetRun(None)) => Some(Closing(run, Some(TimeoutPending)))
    case (Finished(m, run), GetRun(Some(row))) =>
      if row.Some? && IsTerminal(row.value.status) then Some(Confirmed(m, run, true))
      else Some(Returning(Released, Some(run)))
    case (Confirmed(m, run, leased), Acknowledge(ok)) =>
      var d := if ok then Acknowledged else TimeoutPending;
      Some(if leased then Closing(run, Some(d)) else Done(Some(d)))
    case (Returning(d, lease), Release(_)) =>
      Some(if lease.Some? then Closing(lease.value, Some(d)) else Done(Some(d)))
    case (Closing(run, d), ReleaseLease(_)) => Some(Done(d))
    case _ => None
  }

  /** The phase after a whole sequence of calls. */
  function After(calls: seq<Call>): Option<Phase> {
    if calls == [] then Some(Start)
    else
      var before := After(calls[..|calls| - 1]);
      if before.None? then None else Follow(before.value, calls[|calls| - 1])
  }

  lemma AfterOneMore(calls: seq<Call>, call: Call)
    requires After(calls).Some?
    ensures After(calls + [call]) == Follow(After(calls).value, call)
  {
    assert (calls + [call])[..|calls|] == calls;
  }

  lemma AfterParse(body: Option<Message>)
    ensures After([Parse(body)]) == Follow(Start, Parse(body))
  {
    assert [Parse(body)][..0] == [];
  }

  // ----- How often the message is settled and the lease given back -----

  datatype Tally = Tally(
    acks: nat, acksHeard: nat, releases: nat, leases: nat, leasesGivenBack: nat)

  function Count(calls: seq<Call>): Tally {
    if calls == [] then Tally(0, 0, 0, 0, 0)
    else
      var t, c := Count(calls[..|calls| - 1]), calls[|calls| - 1];
      match c
      case Acknowledge(ok) => t.(acks := t.acks + 1, acksHeard := t.acksHeard + if ok then 1 else 0)
      case Release(_) => t.(releases := t.releases + 1)
      case AcquireLease(Some(true)) => t.(leases := t.leases + 1)
      case ReleaseLease(_) => t.(leasesGivenBack := t.leasesGivenBack + 1)
      case _ => t
  }

  /** What a reported disposition says about the message; None is an exception of `process`. */
  predicate Settles(d: Option<Disposition>, t: Tally) {
    match d
    case Some(Acknowledged) => t.acks == 1 && t.acksHeard == 1 && t.releases == 0
    case Some(TimeoutPending) => t.acks <= 1 && t.acksHeard == 0 && t.releases == 0
    case Some(HeartbeatLost) => t.acks == 0 && t.releases == 0
    case Some(_) => t.acks == 0 && t.releases == 1
    case None => t.acks == 0 && t.releases <= 1
  }

  predicate Tallied(phase: Phase, t: Tally) {
    var leases :=
      match phase
      case Executing(_, _) => 1
      case Losing(_, _) => 1
      case Failing(_, _, _) => 1
      case Finished(_, _) => 1
      case Closing(_, _) => 1
      case Confirmed(_, _, leased) => if leased then 1 else 0
      case Returning(_, lease) => if lease.Some? then 1 else 0
      case _ => 0;
    if phase.Done? then
      t.leases == t.leasesGivenBack && t.leases <= 1 && Settles(phase.reported, t)
    else
      && t.leases == leases && t.leasesGivenBack == 0
      && (if phase.Closing? then Settles(phase.reported, t) else t.acks == 0 && t.acksHeard == 0 && t.releases == 0)
      && (phase.Returning? ==> phase.d in {Released, LeaseBusy, Invalid})
  }

  lemma {:induction false} EveryTraceTallies(calls: seq<Call>)
    requires After(calls).Some?
    ensures Tallied(After(calls).value, Count(calls))
  {
    if calls != [] {
      EveryTraceTallies(calls[..|calls| - 1]);
    }
  }

  /** A message is acknowledged or released at most once, as its disposition says, and a lease
      taken for it is given back exactly once. */
  lemma AtMostOneSettlement(calls: seq<Call>)
    requires After(calls).Some?
    ensures Count(calls).acks + Count(calls).releases <= 1
    ensures After(calls).value.Done? ==>
              && Settles(After(calls).value.reported, Count(calls))
              && Count(calls).leases == Count(calls).leasesGivenBack <= 1
  {
    EveryTraceTallies(calls);
  }

  // ----- All sequences of calls -----

  predicate IsRelease(t: seq<Call>) {
    |t| == 1 && t[0].Release?
  }

  predicate IsAcknowledgement(c: Call, d: Option<Disposition>) {
    c.Acknowledge? && d == Some(if c.ok then Acknowledged else TimeoutPending)
  }

  /** A delivery: an unreadable body is given back as invalid. */
  predicate IsDelivery(t: seq<Call>, d: Option<Disposition>) {
    && t != [] && t[0].Parse?
    && if t[0].message.None? then IsRelease(t[1..]) && d == Some(Invalid)
       else IsLookup(t[0].message.value, t[1..], d)
  }

  /** The run is looked up: a failure or another request under the key gives the message back, a
      terminal status is acknowledged, any other run is leased. */
  predicate IsLookup(m: Message, t: seq<Call>, d: Option<Disposition>) {
    && t != [] && t[0].CreateOrGet?
    && var found := t[0].found;
       if found.None? || found.value.hash != m.hash then IsRelease(t[1..]) && d == Some(Released)
       else if IsTerminal(found.value.status) then |t| == 2 && IsAcknowledgement(t[1], d)
       else IsLeasing(t[1..], d)
  }

  /** Only a granted lease leads to execution. */
  predicate IsLeasing(t: seq<Call>, d: Option<Disposition>) {
    && t != [] && t[0].AcquireLease?
    && match t[0].granted
       case None => IsRelease(t[1..]) && d == Some(Released)
       case Some(false) => IsRelease(t[1..]) && d == Some(LeaseBusy)
       case Some(true) => IsExecution(t[1..], d)
  }

  /** Any number of heartbeats, then one end of the execution, and last the release of the lease: a lost
      heartbeat settles nothing; a failed execution gives the message back while the heart may beat
      on; a finished one is read again, and acknowledged only on a terminal status. */
  predicate IsExecution(t: seq<Call>, d: Option<Disposition>) {
    if t != [] && t[0] == Beat(true) then IsExecution(t[1..], d)
    else
      || (&& |t| == 3 && t[0] == Beat(false) && t[1].Execution? && t[2].ReleaseLease?
          && d == if t[1].ending.Raised? then None else Some(HeartbeatLost))
      || (t != [] && t[0] == Execution(Raised) && IsFailure(t[1..], d))
      || (|t| >= 2 && t[0] == Execution(Returned) && t[1].GetRun? && IsReading(t[1].durable, t[2..], d))
  }

  predicate IsFailure(t: seq<Call>, d: Option<Disposition>) {
    if t != [] && t[0] == Beat(true) then IsFailure(t[1..], d)
    else if t != [] && t[0] == Beat(false) then
      |t| == 3 && t[1].Release? && t[2].ReleaseLease? && d == None
    else
      |t| == 2 && t[0].Release? && t[1].ReleaseLease? && d == Some(Released)
  }

  predicate IsReading(durable: Option<Option<RunView>>, t: seq<Call>, d: Option<Disposition>) {
    if durable.None? then |t| == 1 && t[0].ReleaseLease? && d == Some(TimeoutPending)
    else if durable.value.Some? && IsTerminal(durable.value.value.status) then
      |t| == 2 && IsAcknowledgement(t[0], d) && t[1].ReleaseLease?
    else
      |t| == 2 && t[0].Release? && d == Some(Released) && t[1].ReleaseLease?
  }

  /** The phase that a sequence of calls leads to from a given one. */
  function FollowAll(phase: Phase, calls: seq<Call>): Option<Phase>
    decreases calls
  {
    if calls == [] then Some(phase)
    else
      var next := Follow(phase, calls[0]);
      if next.None? then None else FollowAll(next.value, calls[1..])
  }

  lemma {:induction false} FollowAllPush(phase: Phase, calls: seq<Call>, last: Call)
    ensures FollowAll(phase, calls + [last]) ==
            var before := FollowAll(phase, calls); if before.None? then None else Follow(before.value, last)
    decreases calls
  {
    hide Follow;
    if calls == [] {
      assert [] + [last] == [last] && [last][1..] == [];
    } else {
      assert (calls + [last])[1..] == calls[1..] + [last];
      var next := Follow(phase, calls[0]);
      if next.Some? {
        FollowAllPush(next.value, calls[1..], last);
      }
    }
  }

  lemma {:induction false} AfterIsFollowAll(calls: seq<Call>)
    ensures After(calls) == FollowAll(Start, calls)
  {
    hide Follow;
    if calls != [] {
      AfterIsFollowAll(calls[..|calls| - 1]);
      FollowAllPush(Start, calls[..|calls| - 1], calls[|calls| - 1]);
      assert calls == calls[..|calls| - 1] + [calls[|calls| - 1]];
    }
  }

  lemma FromDone(d: Option<Disposition>, t: seq<Call>, e: Option<Disposition>)
    ensures FollowAll(Done(d), t) == Some(Done(e)) <==> t == [] && d == e
  {
  }

  lemma FromClosing(run: string, d: Option<Disposition>, t: seq<Call>, e: Option<Disposition>)
    ensures FollowAll(Closing(run, d), t) == Some(Done(e)) <==> |t| == 1 && t[0].ReleaseLease? && d == e
  {
    hide FollowAll;
    OneStep(Closing(run, d), t);
    if t != [] {
      FromDone(d, t[1..], e);
    }
  }

  lemma OneStep(phase: Phase, t: seq<Call>)
    ensures FollowAll(phase, t) ==
            if t == [] then Some(phase)
            else if Follow(phase, t[0]).None? then None else FollowAll(Follow(phase, t[0]).value, t[1..])
  {
    hide Follow;
  }

  lemma FromReturning(d: Disposition, lease: Option<string>, t: seq<Call>, e: Option<Disposition>)
    ensures FollowAll(Returning(d, lease), t) == Some(Done(e)) <==>
      if lease.None? then IsRelease(t) && e == Some(d)
      else |t| == 2 && t[0].Release? && t[1].ReleaseLease? && e == Some(d)
  {
    hide FollowAll;
    OneStep(Returning(d, lease), t);
    if t != [] {
      FromDone(Some(d), t[1..], e);
      if lease.Some? { FromClosing(lease.value, Some(d), t[1..], e); }
    }
  }

  lemma FromConfirmed(m: Message, run: string, leased: bool, t: seq<Call>, e: Option<Disposition>)
    ensures FollowAll(Confirmed(m, run, leased), t) == Some(Done(e)) <==>
      if leased then |t| == 2 && IsAcknowledgement(t[0], e) && t[1].ReleaseLease?
      else |t| == 1 && IsAcknowledgement(t[0], e)
  {
    hide FollowAll;
    OneStep(Confirmed(m, run, leased), t);
    if t != [] && t[0].Acknowledge? {
      var d := Some(if t[0].ok then Acknowledged else TimeoutPending);
      FromDone(d, t[1..], e);
      FromClosing(run, d, t[1..], e);
    }
  }

  lemma {:induction false} FromFailing(m: Message, run: string, t: seq<Call>, e: Option<Disposition>)
    ensures FollowAll(Failing(m, run, false), t) == Some(Done(e)) <==> IsFailure(t, e)
    decreases t
  {
    hide FollowAll;
    OneStep(Failing(m, run, false), t);
    if t != [] {
      if t[0] == Beat(true) {
        FromFailing(m, run, t[1..], e);
      } else {
        FromClosing(run, Some(Released), t[1..], e);
        FromLost(m, run, t[1..], e);
      }
    }
  }

  lemma FromLost(m: Message, run: string, t: seq<Call>, e: Option<Disposition>)
    ensures FollowAll(Failing(m, run, true), t) == Some(Done(e)) <==>
      |t| == 2 && t[0].Release? && t[1].ReleaseLease? && e == None
  {
    hide FollowAll;
    OneStep(Failing(m, run, true), t);
    if t != [] {
      FromClosing(run, None, t[1..], e);
    }
  }

  lemma FromFinished(m: Message, run: string, t: seq<Call>, e: Option<Disposition>)
    ensures FollowAll(Finished(m, run), t) == Some(Done(e)) <==>
      t != [] && t[0].GetRun? && IsReading(t[0].durable, t[1..], e)
  {
    hide FollowAll;
    OneStep(Finished(m, run), t);
    if t != [] {
      FromClosing(run, Some(TimeoutPending), t[1..], e);
      FromConfirmed(m, run, true, t[1..], e);
      FromReturning(Released, Some(run), t[1..], e);
    }
  }

  lemma FromLosing(m: Message, run: string, t: seq<Call>, e: Option<Disposition>)
    ensures FollowAll(Losing(m, run), t) == Some(Done(e)) <==>
      && |t| == 2 && t[0].Execution? && t[1].ReleaseLease?
      && e == if t[0].ending.Raised? then None else Some(HeartbeatLost)
  {
    hide FollowAll;
    OneStep(Losing(m, run), t);
    if t != [] {
      FromClosing(run, None, t[1..], e);
      FromClosing(run, Some(HeartbeatLost), t[1..], e);
    }
  }

  lemma {:induction false} FromExecuting(m: Message, run: string, t: seq<Call>, e: Option<Disposition>)
    ensures FollowAll(Executing(m, run), t) == Some(Done(e)) <==> IsExecution(t, e)
    decreases t
  {
    hide FollowAll, IsFailure, IsReading;
    OneStep(Executing(m, run), t);
    if t != [] {
      if t[0] == Beat(true) {
        FromExecuting(m, run, t[1..], e);
      } else if t[0] == Beat(false) {
        FromLosing(m, run, t[1..], e);
      } else {
        FromFailing(m, run, t[1..], e);
        FromFinished(m, run, t[1..], e);
        assert |t| >= 2 ==> t[1..][1..] == t[2..];
      }
    }
  }

  lemma FromKnown(m: Message, run: string, t: seq<Call>, e: Option<Disposition>)
    ensures FollowAll(Known(m, run), t) == Some(Done(e)) <==> IsLeasing(t, e)
  {
    hide FollowAll, IsExecution;
    OneStep(Known(m, run), t);
    if t != [] {
      FromReturning(Released, None, t[1..], e);
      FromReturning(LeaseBusy, None, t[1..], e);
      FromExecuting(m, run, t[1..], e);
    }
  }

  lemma FromLooking(m: Message, t: seq<Call>, e: Option<Disposition>)
    ensures FollowAll(Looking(m), t) == Some(Done(e)) <==> IsLookup(m, t, e)
  {
    hide FollowAll, IsLeasing;
    OneStep(Looking(m), t);
    if t != [] && t[0].CreateOrGet? {
      FromReturning(Released, None, t[1..], e);
      if t[0].found.Some? {
        FromConfirmed(m, t[0].found.value.run, false, t[1..], e);
        FromKnown(m, t[0].found.value.run, t[1..], e);
      }
    }
  }

  /** The sequences of calls with which a worker handles a message, and what it reports for each, are
      exactly the deliveries spelled out above. */
  lemma TracesAreDeliveries(calls: seq<Call>, d: Option<Disposition>)
    ensures After(calls) == Some(Done(d)) <==> IsDelivery(calls, d)
  {
    hide FollowAll, IsLookup;
    AfterIsFollowAll(calls);
    OneStep(Start, calls);
    if calls != [] && calls[0].Parse? {
      FromReturning(Invalid, None, calls[1..], d);
      if calls[0].message.Some? {
        FromLooking(calls[0].message.value, calls[1..], d);
      }
    }
  }
}
