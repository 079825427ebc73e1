/** The worker pool's hand-off: concurrent calls, one buffered channel each, and the
    mutex-guarded map of channels (internal/transaction_processor/service/worker_pool_service.go). */
module WorkerPool {
  import opened Shared
  import opened Domain

  /** A `chan error` of capacity 1; sends and closes count what happened to it. */
  datatype Chan = Chan(buffer: seq<Option<Error>>, closed: bool, sends: nat, closes: nat)

  const NEW_CHAN := Chan([], false, 0, 0)

  datatype Caller = Registered | CleaningUp(error: Error) | Waiting | Returned(result: Option<Error>)

  /** The closure given to the pool; result is what the base service returned for this call's request. */
  datatype Task = NoTask | Queued | Ran(result: Option<Error>) | Sent(result: Option<Error>)
      | Finished(result: Option<Error>)

  /** submitError remembers why the pool refused the call, if it did. */
  datatype Call = Call(id: Uuid, caller: Caller, task: Task, chan: Chan, submitError: Option<Error>)

  /** results maps a transaction id to the call whose channel is registered under it. */
  datatype Pool = Pool(calls: seq<Call>, results: map<Uuid, nat>)

  const IDLE_POOL := Pool([], map[])

  datatype Step =
    | Register(id: Uuid)
    | SubmitOk(c: nat)
    | SubmitRefused(c: nat, error: Error)
    | CleanUp(c: nat)
    | Work(c: nat, result: Option<Error>)
    | Send(c: nat)
    | Finish(c: nat)
    | Receive(c: nat)

  predicate Enabled(s: Pool, step: Step) {
    match step
    case Register(_) => true
    case SubmitOk(c) => c < |s.calls| && s.calls[c].caller.Registered?
    case SubmitRefused(c, _) => c < |s.calls| && s.calls[c].caller.Registered?
    case CleanUp(c) => c < |s.calls| && s.calls[c].caller.CleaningUp?
    case Work(c, _) => c < |s.calls| && s.calls[c].task.Queued?
    case Send(c) => c < |s.calls| && s.calls[c].task.Ran? && s.calls[c].chan.buffer == []
    case Finish(c) => c < |s.calls| && s.calls[c].task.Sent?
    case Receive(c) =>
      && c < |s.calls| && s.calls[c].caller.Waiting?
      && (s.calls[c].chan.buffer != [] || s.calls[c].chan.closed)
  }

  function Closed(ch: Chan): Chan {
    ch.(closed := true, closes := ch.closes + 1)
  }

  function With(s: Pool, c: nat, call: Call): Pool
    requires c < |s.calls|
  {
    s.(calls := s.calls[c := call])
  }

  function Next(s: Pool, step: Step): Pool
    requires Enabled(s, step)
  {
    match step
    case Register(id) =>
      Pool(s.calls + [Call(id, Registered, NoTask, NEW_CHAN, None)], s.results[id := |s.calls|])
    case SubmitOk(c) => With(s, c, s.calls[c].(caller := Waiting, task := Queued))
    case SubmitRefused(c, e) => With(s, c, s.calls[c].(caller := CleaningUp(e), submitError := Some(e)))
    case CleanUp(c) =>
      With(s, c, s.calls[c].(caller := Returned(Some(s.calls[c].caller.error)), chan := Closed(s.calls[c].chan)))
        .(results := s.results - {s.calls[c].id})
    case Work(c, r) => With(s, c, s.calls[c].(task := Ran(r)))
    case Send(c) =>
      var call := s.calls[c];
      With(s, c, call.(task := Sent(call.task.result),
                       chan := call.chan.(buffer := [call.task.result], sends := call.chan.sends + 1)))
    case Finish(c) =>
      var call := s.calls[c];
      With(s, c, call.(task := Finished(call.task.result), chan := Closed(call.chan)))
        .(results := s.results - {call.id})
    case Receive(c) =>
      // a closed empty channel yields the zero value nil
      var call := s.calls[c];
      With(s, c, call.(caller := Returned(if call.chan.buffer != [] then call.chan.buffer[0] else None),
                       chan := call.chan.(buffer := [])))
  }

  /** Go panics on a send to a closed channel and on a second close. */
  predicate Panics(s: Pool, step: Step)
    requires Enabled(s, step)
  {
    match step
    case Send(c) => s.calls[c].chan.closed
    case CleanUp(c) => s.calls[c].chan.closed
    case Finish(c) => s.calls[c].chan.closed
    case _ => false
  }

  /** The call has not yet taken its channel out of the map. */
  predicate InFlight(call: Call) {
    if call.task.NoTask? then !call.caller.Returned? else !call.task.Finished?
  }

  predicate CallOk(call: Call) {
    match call.task
    case NoTask =>
      (match call.caller
       case Registered => call.chan == NEW_CHAN && call.submitError.None?
       case CleaningUp(e) => call.chan == NEW_CHAN && call.submitError == Some(e)
       case Waiting => false
       case Returned(r) => r.Some? && r == call.submitError && call.chan == Chan([], true, 0, 1))
    case Queued => call.submitError.None? && call.caller.Waiting? && call.chan == NEW_CHAN
    case Ran(_) => call.submitError.None? && call.caller.Waiting? && call.chan == NEW_CHAN
    case Sent(r) => call.submitError.None? && Delivered(call, r, false)
    case Finished(r) => call.submitError.None? && Delivered(call, r, true)
  }

  /** The result sits in the buffer until the caller has taken it. */
  predicate Delivered(call: Call, r: Option<Error>, closed: bool) {
    var closes := if closed then 1 else 0;
    || (call.caller.Waiting? && call.chan == Chan([r], closed, 1, closes))
    || (call.caller == Returned(r) && call.chan == Chan([], closed, 1, closes))
  }

  predicate Inv(s: Pool) {
    && (forall c :: 0 <= c < |s.calls| ==> CallOk(s.calls[c]))
    && forall id :: id in s.results ==>
         s.results[id] < |s.calls| && s.calls[s.results[id]].id == id && InFlight(s.calls[s.results[id]])
  }

  lemma NextKeeps(s: Pool, step: Step)
    requires Inv(s) && Enabled(s, step)
    ensures Inv(Next(s, step)) && !Panics(s, step)
  {
    var s' := Next(s, step);
    if step.Register? {
      assert s'.calls[..|s.calls|] == s.calls;
    } else {
      assert CallOk(s.calls[step.c]) && CallOk(s'.calls[step.c]);
    }
  }

  function Run(steps: seq<Step>): Option<Pool> {
    if steps == [] then Some(IDLE_POOL)
    else match Run(steps[..|steps| - 1])
      case None => None
      case Some(s) =>
        var step := steps[|steps| - 1];
        if Enabled(s, step) then Some(Next(s, step)) else None
  }

  lemma {:induction false} RunKeeps(steps: seq<Step>)
    requires Run(steps).Some?
    ensures Inv(Run(steps).value)
  {
    if steps == [] {
    } else {
      RunKeeps(steps[..|steps| - 1]);
      NextKeeps(Run(steps[..|steps| - 1]).value, steps[|steps| - 1]);
    }
  }

  /** At most one send and one close; a returned call has its own submit error or its own task's result. */
  predicate CallSettled(call: Call) {
    && call.chan.sends <= 1 && call.chan.closes <= 1
    && (call.caller.Returned? ==>
          if call.submitError.Some? then call.caller.result == call.submitError
          else call.task in {Sent(call.caller.result), Finished(call.caller.result)})
  }

  lemma OkIsSettled(call: Call)
    requires CallOk(call)
    ensures CallSettled(call)
  {
  }

  /** In every interleaving, also of calls with one transaction id: no send to a closed
      channel and no second close, at most one send and one close per channel, every
      returned call has its own result or its own submit error, and the map holds only
      calls still in flight under their own id. */
  lemma HandOff(steps: seq<Step>)
    requires Run(steps).Some?
    ensures var s := Run(steps).value;
      && (forall step :: Enabled(s, step) ==> !Panics(s, step))
      && (forall c :: 0 <= c < |s.calls| ==> CallSettled(s.calls[c]))
      && (forall id :: id in s.results ==>
            exists c: nat :: c < |s.calls| && s.calls[c].id == id && InFlight(s.calls[c]))
  {
    var s := Run(steps).value;
    RunKeeps(steps);
    forall step | Enabled(s, step) ensures !Panics(s, step) {
      NextKeeps(s, step);
    }
    forall c | 0 <= c < |s.calls| ensures CallSettled(s.calls[c]) {
      OkIsSettled(s.calls[c]);
    }
    forall id | id in s.results ensures exists c: nat :: c < |s.calls| && s.calls[c].id == id && InFlight(s.calls[c]) {
      var c := s.results[id];
      assert s.calls[c].id == id && InFlight(s.calls[c]);
    }
  }

  /** What the call knows came from its own steps: its id from the caller, its result from the
      base service, its submit error from the pool. */
  predicate FromSteps(call: Call, c: nat, steps: seq<Step>) {
    && Register(call.id) in steps
    && (call.task.Ran? || call.task.Sent? || call.task.Finished? ==> Work(c, call.task.result) in steps)
    && (call.submitError.Some? ==> SubmitRefused(c, call.submitError.value) in steps)
  }

  lemma StepIsKnown(s: Pool, step: Step, steps: seq<Step>, c: nat)
    requires Enabled(s, step) && c < |Next(s, step).calls|
    requires c < |s.calls| ==> FromSteps(s.calls[c], c, steps)
    ensures FromSteps(Next(s, step).calls[c], c, steps + [step])
  {
    assert forall before :: before in steps ==> before in steps + [step];
    assert step in steps + [step];
  }

  lemma {:induction false} EverythingFromSteps(steps: seq<Step>, c: nat)
    requires Run(steps).Some? && c < |Run(steps).value.calls|
    ensures FromSteps(Run(steps).value.calls[c], c, steps)
  {
    if steps != [] {
      var init, step := steps[..|steps| - 1], steps[|steps| - 1];
      var s := Run(init).value;
      if c < |s.calls| {
        EverythingFromSteps(init, c);
      }
      StepIsKnown(s, step, init, c);
      assert init + [step] == steps;
    }
  }

  /** A caller gets what the base service returned for its own call, or the pool's own
      refusal of it, whatever other calls with the same transaction id do. */
  lemma OwnResult(steps: seq<Step>, c: nat)
    requires Run(steps).Some? && c < |Run(steps).value.calls| && Run(steps).value.calls[c].caller.Returned?
    ensures var call := Run(steps).value.calls[c];
      match call.submitError
      case None => Work(c, call.caller.result) in steps
      case Some(e) => call.caller.result == Some(e) && SubmitRefused(c, e) in steps
  {
    RunKeeps(steps);
    assert CallOk(Run(steps).value.calls[c]);
    EverythingFromSteps(steps, c);
  }

  predicate SoleCall(s: Pool, c: nat) {
    c < |s.calls| && forall d :: 0 <= d < |s.calls| && d != c ==> s.calls[d].id != s.calls[c].id
  }

  lemma {:induction false} SoleCallIsListed(steps: seq<Step>, c: nat)
    requires Run(steps).Some? && SoleCall(Run(steps).value, c)
    ensures var s := Run(steps).value;
      (s.calls[c].id in s.results <==> InFlight(s.calls[c]))
      && (InFlight(s.calls[c]) ==> s.results[s.calls[c].id] == c)
  {
    if steps != [] {
      var init, step := steps[..|steps| - 1], steps[|steps| - 1];
      var s := Run(init).value;
      RunKeeps(init);
      RunKeeps(steps);
      if c < |s.calls| {
        forall d | 0 <= d < |s.calls| && d != c ensures s.calls[d].id != s.calls[c].id {
          assert Next(s, step).calls[d].id == s.calls[d].id;
        }
        SoleCallIsListed(init, c);
        assert CallOk(s.calls[c]);
      }
    }
  }

  /** Nobody waits in vain: an unfinished call can always take a step of its own, and once
      everything is over its channel is closed, drained by the caller, and out of the map. */
  lemma NobodyIsStuck(steps: seq<Step>, c: nat)
    requires Run(steps).Some? && c < |Run(steps).value.calls|
    ensures var s := Run(steps).value; var call := s.calls[c];
      if InFlight(call) || !call.caller.Returned? then
        || Enabled(s, SubmitOk(c)) || Enabled(s, CleanUp(c)) || Enabled(s, Work(c, None))
        || Enabled(s, Send(c)) || Enabled(s, Finish(c)) || Enabled(s, Receive(c))
      else call.chan.closed && call.chan.buffer == [] && !(call.id in s.results && s.results[call.id] == c)
  {
    RunKeeps(steps);
    assert CallOk(Run(steps).value.calls[c]);
  }
}
