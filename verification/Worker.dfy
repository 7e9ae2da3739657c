/** The worker's loops, over ports whose every answer is arbitrary and is recorded. */
module Worker {
  import opened Delivery
  import opened LeaseStore
  import opened Wrappers

  /** A queue message; a body that is no valid envelope has no parsed form. */
  datatype Delivered = Delivered(id: string, body: Option<Message>)

  /** A call together with the queue message it was made for. */
  datatype Logged = Logged(d: Delivered, call: Call)

  function Tagged(d: Delivered, calls: seq<Call>): (log: seq<Logged>)
    ensures |log| == |calls|
  {
    seq(|calls|, i requires 0 <= i < |calls| => Logged(d, calls[i]))
  }

  /** The queue, the run store and the executor: a log of all calls ever made, and the calls made for
      the message being served. */
  class Ports {
    var log: seq<Logged>
    var calls: seq<Call>
    ghost var before: seq<Logged>

    constructor ()
      ensures log == [] && calls == [] && before == []
    {
      log, calls, before := [], [], [];
    }

    /** Since serving the message began, exactly these calls were made, all for it. */
    ghost predicate Serving(d: Delivered)
      reads this
    {
      log == before + Tagged(d, calls)
    }

    method Record(d: Delivered, call: Call)
      modifies this
      ensures calls == old(calls) + [call] && log == old(log) + [Logged(d, call)] && before == old(before)
      ensures old(Serving(d)) ==> Serving(d)
    {
      assert Tagged(d, calls + [call]) == Tagged(d, calls) + [Logged(d, call)];
      calls := calls + [call];
      log := log + [Logged(d, call)];
    }

    method ParseEnvelope(d: Delivered)
      modifies this
      ensures calls == [Parse(d.body)] && Serving(d) && before == old(log)
    {
      calls := [];
      before := log;
      Record(d, Parse(d.body));
      assert [] + [Parse(d.body)] == [Parse(d.body)];
    }

    method CreateOrGetRun(d: Delivered) returns (found: Option<RunView>)
      requires Serving(d)
      modifies this
      ensures Serving(d) && before == old(before) && calls == old(calls) + [CreateOrGet(found)]
    {
      found := *;
      Record(d, CreateOrGet(found));
    }

    method AcquireRunLease(d: Delivered) returns (granted: Option<bool>)
      requires Serving(d)
      modifies this
      ensures Serving(d) && before == old(before) && calls == old(calls) + [AcquireLease(granted)]
    {
      granted := *;
      Record(d, AcquireLease(granted));
    }

    method RenewAndExtend(d: Delivered) returns (alive: bool)
      requires Serving(d)
      modifies this
      ensures Serving(d) && before == old(before) && calls == old(calls) + [Beat(alive)]
    {
      alive := *;
      Record(d, Beat(alive));
    }

    method AwaitExecution(d: Delivered) returns (ending: Ending)
      requires Serving(d)
      modifies this
      ensures Serving(d) && before == old(before) && calls == old(calls) + [Execution(ending)]
    {
      ending := *;
      Record(d, Execution(ending));
    }

    method ReadRun(d: Delivered) returns (durable: Option<Option<RunView>>)
      requires Serving(d)
      modifies this
      ensures Serving(d) && before == old(before) && calls == old(calls) + [GetRun(durable)]
    {
      durable := *;
      Record(d, GetRun(durable));
    }

    method AcknowledgeMessage(d: Delivered) returns (ok: bool)
      requires Serving(d)
      modifies this
      ensures Serving(d) && before == old(before) && calls == old(calls) + [Acknowledge(ok)]
    {
      ok := *;
      Record(d, Acknowledge(ok));
    }

    /** Also called for a message that was never begun. */
    method ReleaseMessage(d: Delivered) returns (ok: bool)
      modifies this
      ensures log == old(log) + [Logged(d, Release(ok))]
      ensures before == old(before) && calls == old(calls) + [Release(ok)]
      ensures old(Serving(d)) ==> Serving(d)
    {
      ok := *;
      Record(d, Release(ok));
    }

    method ReleaseRunLease(d: Delivered) returns (ok: bool)
      requires Serving(d)
      modifies this
      ensures Serving(d) && before == old(before) && calls == old(calls) + [ReleaseLease(ok)]
    {
      ok := *;
      Record(d, ReleaseLease(ok));
    }
  }

  // ----- Batches -----

  /** What became of a message: the calls made for it and what was reported, or the one call that
      gave it back. */
  datatype Handled =
    | Processed(d: Delivered, calls: seq<Call>, reported: Option<Disposition>)
    | GivenBack(d: Delivered, ok: bool)

  /** A received batch and what became of its messages, in order. */
  datatype Shift = Shift(batch: seq<Delivered>, handled: seq<Handled>)

  function CallsFor(h: Handled): seq<Logged> {
    match h
    case Processed(d, calls, _) => Tagged(d, calls)
    case GivenBack(d, ok) => [Logged(d, Release(ok))]
  }

  /** All calls made for the handled messages, one message after the other. */
  function Trace(handled: seq<Handled>): seq<Logged> {
    if handled == [] then [] else Trace(handled[..|handled| - 1]) + CallsFor(handled[|handled| - 1])
  }

  function TraceAll(shifts: seq<Shift>): seq<Logged> {
    if shifts == [] then [] else TraceAll(shifts[..|shifts| - 1]) + Trace(shifts[|shifts| - 1].handled)
  }

  lemma TracePush(handled: seq<Handled>, h: Handled)
    ensures Trace(handled + [h]) == Trace(handled) + CallsFor(h)
  {
    assert (handled + [h])[..|handled|] == handled;
  }

  lemma TraceAllPush(shifts: seq<Shift>, shift: Shift)
    ensures TraceAll(shifts + [shift]) == TraceAll(shifts) + Trace(shift.handled)
  {
    assert (shifts + [shift])[..|shifts|] == shifts;
  }

  /** Every call in the trace is for one of the handled messages, so none is for a later one. */
  lemma {:induction false} TraceNamesHandled(handled: seq<Handled>, k: nat)
    requires k < |Trace(handled)|
    ensures exists i | 0 <= i < |handled| :: handled[i].d == Trace(handled)[k].d
  {
    var last := |handled| - 1;
    var front := Trace(handled[..last]);
    if k < |front| {
      TraceNamesHandled(handled[..last], k);
      var i :| 0 <= i < last && handled[..last][i].d == front[k].d;
      assert handled[i].d == Trace(handled)[k].d;
    } else {
      assert Trace(handled)[k] == CallsFor(handled[last])[k - |front|];
      assert handled[last].d == Trace(handled)[k].d;
    }
  }

  /** The calls of a processed message follow the delivery automaton from its body to what was
      reported. */
  predicate IsGenuine(h: Handled) {
    h.Processed? ==>
      && After(h.calls) == Some(Done(h.reported))
      && |h.calls| > 0 && h.calls[0] == Parse(h.d.body)
  }

  predicate InOrder(batch: seq<Delivered>, handled: seq<Handled>) {
    && |handled| <= |batch|
    && forall i | 0 <= i < |handled| :: handled[i].d == batch[i] && IsGenuine(handled[i])
  }

  predicate AllReported(handled: seq<Handled>) {
    forall h | h in handled :: h.Processed? && h.reported.Some?
  }

  predicate AllGivenBack(handled: seq<Handled>) {
    forall h | h in handled :: h.GivenBack?
  }

  /** A processed prefix and a released suffix cover the batch. */
  ghost predicate IsSplit(shift: Shift) {
    && |shift.handled| == |shift.batch| && InOrder(shift.batch, shift.handled)
    && exists k | 0 <= k <= |shift.handled| ::
         AllReported(shift.handled[..k]) && AllGivenBack(shift.handled[k..])
  }

  /** Every message was processed in order until one processing raised. */
  ghost predicate IsBroken(shift: Shift) {
    && InOrder(shift.batch, shift.handled) && |shift.handled| > 0
    && AllReported(shift.handled[..|shift.handled| - 1])
    && shift.handled[|shift.handled| - 1].Processed?
    && shift.handled[|shift.handled| - 1].reported.None?
  }

  ghost predicate IsComplete(shift: Shift) {
    |shift.handled| == |shift.batch| && InOrder(shift.batch, shift.handled) && AllReported(shift.handled)
  }

  class Worker {
    const ports: Ports
    var stopped: bool
    var shifts: seq<Shift>

    constructor (ports: Ports)
      ensures this.ports == ports && shifts == []
    {
      this.ports := ports;
      stopped := *;
      shifts := [];
    }

    /** The stop event, once set, stays set. */
    method StopIsSet() returns (seen: bool)
      modifies `stopped
      ensures seen == stopped && (old(stopped) ==> stopped)
    {
      var now: bool := *;
      stopped := stopped || now;
      seen := stopped;
    }

    method AcknowledgeTerminal(d: Delivered, ghost m: Message, ghost run: string, ghost leased: bool)
      returns (reported: Disposition)
      requires ports.Serving(d) && After(ports.calls) == Some(Confirmed(m, run, leased))
      modifies ports
      ensures ports.Serving(d) && ports.before == old(ports.before)
      ensures After(ports.calls) == Some(if leased then Closing(run, Some(reported)) else Done(Some(reported)))
      ensures old(ports.calls) <= ports.calls
    {
      ghost var before := ports.calls;
      var ok := ports.AcknowledgeMessage(d);
      AfterOneMore(before, Acknowledge(ok));
      reported := if ok then Acknowledged else TimeoutPending;
    }

    method ReleaseSafely(d: Delivered)
      requires ports.Serving(d) && After(ports.calls).Some?
      modifies ports
      ensures ports.Serving(d) && ports.before == old(ports.before)
      ensures After(ports.calls) == Follow(old(After(ports.calls)).value, Release(true))
      ensures old(ports.calls) <= ports.calls
    {
      ghost var before := ports.calls;
      var ok := ports.ReleaseMessage(d);
      AfterOneMore(before, Release(ok));
    }

    /** One message, from its body to a disposition, or None where an exception escapes. */
    method Process(d: Delivered) returns (reported: Option<Disposition>)
      modifies ports
      ensures ports.log == old(ports.log) + Tagged(d, ports.calls)
      ensures After(ports.calls) == Some(Done(reported))
      ensures |ports.calls| > 0 && ports.calls[0] == Parse(d.body)
      ensures Settles(reported, Count(ports.calls))
    {
      hide After, Count, Settles, Tallied;
      ports.ParseEnvelope(d);
      AfterParse(d.body);
      reported := Handle(d);
      AtMostOneSettlement(ports.calls);
    }

    method Handle(d: Delivered) returns (reported: Option<Disposition>)
      requires ports.Serving(d)
      requires After(ports.calls) == Some(if d.body.None? then Returning(Invalid, None) else Looking(d.body.value))
      modifies ports
      ensures ports.Serving(d) && ports.before == old(ports.before)
      ensures After(ports.calls) == Some(Done(reported))
      ensures old(ports.calls) <= ports.calls
    {
      hide After;
      if d.body.None? {
        ReleaseSafely(d);
        return Some(Invalid);
      }
      var m := d.body.value;
      ghost var c0 := ports.calls;
      var found := ports.CreateOrGetRun(d);
      AfterOneMore(c0, CreateOrGet(found));
      if found.None? || found.value.hash != m.hash {
        ReleaseSafely(d);
        return Some(Released);
      }
      var run := found.value.run;
      if IsTerminal(found.value.status) {
        var settled := AcknowledgeTerminal(d, m, run, false);
        return Some(settled);
      }
      ghost var c1 := ports.calls;
      var granted := ports.AcquireRunLease(d);
      AfterOneMore(c1, AcquireLease(granted));
      if granted.None? {
        ReleaseSafely(d);
        return Some(Released);
      }
      if !granted.value {
        ReleaseSafely(d);
        return Some(LeaseBusy);
      }
      reported := ExecuteWithHeartbeat(d, m, run);
      ghost var c2 := ports.calls;
      var ok := ports.ReleaseRunLease(d);
      AfterOneMore(c2, ReleaseLease(ok));
    }

    /** Execution beside a heartbeat that beats any number of times before the execution ends. */
    method ExecuteWithHeartbeat(d: Delivered, ghost m: Message, ghost run: string)
      returns (reported: Option<Disposition>)
      requires ports.Serving(d) && After(ports.calls) == Some(Executing(m, run))
      modifies ports
      ensures ports.Serving(d) && ports.before == old(ports.before)
      ensures After(ports.calls) == Some(Closing(run, reported))
      ensures old(ports.calls) <= ports.calls
    {
      hide After;
      var beats: nat := *;
      while beats > 0
        invariant ports.Serving(d) && ports.before == old(ports.before)
        invariant After(ports.calls) == Some(Executing(m, run)) && old(ports.calls) <= ports.calls
      {
        ghost var c0 := ports.calls;
        var alive := ports.RenewAndExtend(d);
        AfterOneMore(c0, Beat(alive));
        if !alive {
          ghost var c1 := ports.calls;
          var stopped := ports.AwaitExecution(d);
          AfterOneMore(c1, Execution(stopped));
          return if stopped.Raised? then None else Some(HeartbeatLost);
        }
        beats := beats - 1;
      }
      ghost var c2 := ports.calls;
      var ending := ports.AwaitExecution(d);
      AfterOneMore(c2, Execution(ending));
      if ending.Raised? {
        var lost := BeatOn(d, m, run);
        ReleaseSafely(d);
        return if lost then None else Some(Released);
      }
      ghost var c3 := ports.calls;
      var durable := ports.ReadRun(d);
      AfterOneMore(c3, GetRun(durable));
      if durable.None? {
        return Some(TimeoutPending);
      }
      if durable.value.Some? && IsTerminal(durable.value.value.status) {
        var settled := AcknowledgeTerminal(d, m, run, true);
        return Some(settled);
      }
      ReleaseSafely(d);
      return Some(Released);
    }

    /** The heartbeat is cancelled only after the message of a failed execution is released. */
    method BeatOn(d: Delivered, ghost m: Message, ghost run: string) returns (lost: bool)
      requires ports.Serving(d) && After(ports.calls) == Some(Failing(m, run, false))
      modifies ports
      ensures ports.Serving(d) && ports.before == old(ports.before)
      ensures After(ports.calls) == Some(Failing(m, run, lost))
      ensures old(ports.calls) <= ports.calls
    {
      hide After;
      var beats: nat := *;
      lost := false;
      while beats > 0 && !lost
        invariant ports.Serving(d) && ports.before == old(ports.before)
        invariant After(ports.calls) == Some(Failing(m, run, lost)) && old(ports.calls) <= ports.calls
      {
        ghost var c0 := ports.calls;
        var alive := ports.RenewAndExtend(d);
        AfterOneMore(c0, Beat(alive));
        lost := !alive;
        beats := beats - 1;
      }
    }

    /** The messages of one batch in turn, the rest given back once a stop is seen. The calls made
        are those of the handled messages: each processed message has the calls of its processing,
        each message given back one release naming it, and a message after a raising one none. */
    method Serve(batch: seq<Delivered>) returns (shift: Shift, raised: bool)
      modifies `stopped, ports
      ensures shift.batch == batch
      ensures ports.log == old(ports.log) + Trace(shift.handled)
      ensures raised ==> IsBroken(shift)
      ensures !raised ==> IsSplit(shift)
      ensures !raised && !stopped ==> IsComplete(shift)
    {
      hide After, Trace, Count, Settles;
      var handled: seq<Handled> := [];
      var stop := StopIsSet();
      NothingTraced();
      while |handled| < |batch| && !stop
        invariant InOrder(batch, handled) && AllReported(handled)
        invariant ports.log == old(ports.log) + Trace(handled)
        invariant stop ==> stopped
      {
        var d := batch[|handled|];
        var reported := Process(d);
        var entry := Processed(d, ports.calls, reported);
        TracePush(handled, entry);
        handled := handled + [entry];
        if reported.None? {
          return Shift(batch, handled), true;
        }
        stop := StopIsSet();
      }
      ghost var k := |handled|;
      while |handled| < |batch|
        invariant k <= |handled| && InOrder(batch, handled) && (k < |batch| ==> stopped)
        invariant ports.log == old(ports.log) + Trace(handled)
        invariant AllReported(handled[..k]) && AllGivenBack(handled[k..])
      {
        var d := batch[|handled|];
        var ok := ports.ReleaseMessage(d);
        TracePush(handled, GivenBack(d, ok));
        handled := handled + [GivenBack(d, ok)];
      }
      shift, raised := Shift(batch, handled), false;
    }

    /** Polls until stopped, for at most the given number of batches. The calls made are those of the
        batches served. Every batch but the last is processed completely; a stop splits the last into
        a processed prefix and a released suffix; only an exception leaves messages of the last batch
        untouched. */
    method Run(polls: nat) returns (raised: bool)
      modifies this, ports
      ensures old(shifts) <= shifts
      ensures ports.log == old(ports.log) + TraceAll(shifts[|old(shifts)|..])
      ensures forall i | |old(shifts)| <= i < |shifts| - 1 :: IsComplete(shifts[i])
      ensures |shifts| > |old(shifts)| ==>
                var last := shifts[|shifts| - 1];
                IsSplit(last) || (raised && IsBroken(last))
      ensures !raised && !stopped ==>
        |shifts| == |old(shifts)| + polls && forall i | |old(shifts)| <= i < |shifts| :: IsComplete(shifts[i])
      ensures old(stopped) ==> shifts == old(shifts) && !raised
    {
      hide IsComplete, IsSplit, IsBroken, Trace, TraceAll;
      var left := polls;
      ghost var first := |shifts|;
      NothingTraced();
      assert shifts[first..] == [];
      var stop := StopIsSet();
      while left > 0 && !stop
        invariant old(shifts) <= shifts && |shifts| == first + polls - left && 0 <= left <= polls
        invariant stop ==> stopped
        invariant old(stopped) ==> stop && left == polls
        invariant ports.log == old(ports.log) + TraceAll(shifts[first..])
        invariant forall i | first <= i < |shifts| :: IsComplete(shifts[i])
      {
        var received: bool := *;
        if !received {
          CompleteIsSplit();
          return true;
        }
        var batch: seq<Delivered> := *;
        var shift, broken := Serve(batch);
        TraceAllPush(shifts[first..], shift);
        assert (shifts + [shift])[first..] == shifts[first..] + [shift];
        shifts := shifts + [shift];
        if broken || stopped {
          return broken;
        }
        left := left - 1;
        stop := StopIsSet();
      }
      CompleteIsSplit();
      raised := false;
    }

    lemma NothingTraced()
      ensures Trace([]) == [] && TraceAll([]) == []
    {
    }

    lemma CompleteIsSplit()
      ensures forall shift: Shift | IsComplete(shift) :: IsSplit(shift)
    {
      forall shift: Shift | IsComplete(shift) ensures IsSplit(shift) {
        assert shift.handled[..|shift.handled|] == shift.handled;
      }
    }
  }
}
