/** What becomes of the handlers of a call: they stay with their batch, under the number of the call, until
    the call is answered; and a batch that is answered call by call has each of its callbacks called. */
module DwrHandlers {
  import opened Options
  import opened DwrEngine
  import opened DwrRuns
  import opened DwrSafety
  import opened DwrRelease
  import opened DwrScripts

  // ----- Handlers stay

  /** A call of the batch has been answered between two logs. */
  predicate Noted(before: seq<Note>, after: seq<Note>, b: BatchRef, call: nat) {
    exists i :: |before| <= i < |after| && Answers(after[i], b, call)
  }

  /** The call still has the handlers it had, or was answered; an answer for which it has no handler
      leaves no note. */
  predicate Kept(e: Engine, r: Engine, b: BatchRef, call: nat)
    requires b < |e.store| && b < |r.store| && call in e.store[b].handlers
  {
    var handlers := e.store[b].handlers[call];
    || (call in r.store[b].handlers && r.store[b].handlers[call] == handlers)
    || Noted(e.log, r.log, b, call)
    || !handlers.callback || !handlers.exceptionHandler
  }

  ghost predicate Retains(e: Engine, r: Engine) {
    && |e.store| <= |r.store| && e.log <= r.log
    && forall b, call :: 0 <= b < |e.store| && call in e.store[b].handlers ==> Kept(e, r, b, call)
  }

  lemma RetainsCompose(e: Engine, m: Engine, r: Engine)
    requires Retains(e, m) && Retains(m, r)
    ensures Retains(e, r)
  {
    forall b, call | 0 <= b < |e.store| && call in e.store[b].handlers
      ensures Kept(e, r, b, call)
    {
      assert Kept(e, m, b, call);
      if Noted(e.log, m.log, b, call) {
        var i :| |e.log| <= i < |m.log| && Answers(m.log[i], b, call);
        assert r.log[i] == m.log[i];
      } else if call in m.store[b].handlers {
        assert Kept(m, r, b, call);
        if Noted(m.log, r.log, b, call) {
          var i :| |m.log| <= i < |r.log| && Answers(r.log[i], b, call);
        }
      }
    }
  }

  /** No handlers change. */
  lemma SameRetains(e: Engine, r: Engine)
    requires |e.store| <= |r.store| && e.log <= r.log
    requires forall b :: 0 <= b < |e.store| ==> r.store[b].handlers == e.store[b].handlers
    ensures Retains(e, r)
  {}

  lemma RegisteredRetains(e: Engine, b: BatchRef)
    requires b < |e.store|
    ensures Retains(e, Registered(e, b))
  {
    SameRetains(e, Registered(e, b));
  }

  lemma CompletedRetains(e: Engine, b: BatchRef)
    requires b < |e.store|
    ensures Retains(e, Completed(e, b))
  {
    CompletedShape(e, b);
    hide Completed;
    SameRetains(e, Completed(e, b));
  }

  lemma {:induction false} SendRetains(net: Net, e: Engine, b: BatchRef)
    requires InStore(e) && b < |e.store|
    ensures Retains(e, SendData(net, e, b))
    decreases |e.queue|, 5, 0
  {
    hide Retains, Registered, Report, StateChange, InStore;
    var o := net(e.nextId);
    var e1 := Registered(e, b);
    RegisteredRetains(e, b);
    var e2 := if o.safari then Report(net, e1, Some(b), true) else e1;
    if o.safari {
      ReportRetains(net, e1, Some(b), true);
      RetainsCompose(e, e1, e2);
    }
    if o.openThrows || !e2.store[b].req {
      ReportRetains(net, e2, Some(b), false);
      RetainsCompose(e, e2, Report(net, e2, Some(b), false));
    } else {
      var e3 := if o.headersThrow then Report(net, e2, Some(b), true) else e2;
      if o.headersThrow {
        ReportRetains(net, e2, Some(b), true);
        RetainsCompose(e, e2, e3);
      }
      if o.sendThrows || !e3.store[b].req {
        ReportRetains(net, e3, Some(b), false);
        RetainsCompose(e, e3, Report(net, e3, Some(b), false));
      } else if !e3.store[b].async {
        StateRetains(net, e3, b, o.reply);
        var s := StateChange(net, e3, b, o.reply);
        RetainsCompose(e, e3, s.engine);
        if s.threw {
          ReportRetains(net, s.engine, Some(b), false);
          RetainsCompose(e, s.engine, Report(net, s.engine, Some(b), false));
        }
      }
    }
  }

  lemma {:induction false} ClearRetains(net: Net, e: Engine, b: BatchRef)
    requires InStore(e) && b < |e.store|
    ensures Retains(e, ClearUp(net, e, b))
    decreases |e.queue|, 0, 0
  {
    hide Retains, Completed, SendData;
    SameRetains(e, e);
    if !e.store[b].completed {
      var e1 := Completed(e, b);
      CompletedRetains(e, b);
      if e1.queue != [] {
        var e2 := e1.(queue := e1.queue[1..]);
        assert InStore(e2);
        SameRetains(e1, e2);
        RetainsCompose(e, e1, e2);
        SendRetains(net, e2, e1.queue[0]);
        RetainsCompose(e, e2, SendData(net, e2, e1.queue[0]));
      }
    }
  }

  lemma {:induction false} ReportRetains(net: Net, e: Engine, b: Option<BatchRef>, warning: bool)
    requires InStore(e) && (b.Some? ==> b.value < |e.store|)
    ensures Retains(e, Report(net, e, b, warning))
    decreases |e.queue|, 1, 0
  {
    hide Retains, ClearUp;
    var e1 := e.(log := e.log + [Told(b, warning)]);
    SameRetains(e, e1);
    if b.Some? {
      ClearRetains(net, e1, b.value);
      RetainsCompose(e, e1, ClearUp(net, e1, b.value));
    }
  }

  lemma {:induction false} StateRetains(net: Net, e: Engine, b: BatchRef, reply: Reply)
    requires InStore(e) && b < |e.store|
    ensures Retains(e, StateChange(net, e, b, reply).engine)
    decreases |e.queue|, 4, 1
  {
    hide Retains, Report, ClearUp, Evaluated;
    SameRetains(e, e);
    if e.store[b].completed || reply.NotDone? {
    } else if reply.StateThrows? {
      ReportRetains(net, e, Some(b), true);
      var e1 := Report(net, e, Some(b), true);
      ClearRetains(net, e1, b);
      RetainsCompose(e, e1, ClearUp(net, e1, b));
    } else if !e.unloading {
      var e1 := match reply
                case Warned => Report(net, e, Some(b), true)
                case Failed => Report(net, e, Some(b), false)
                case _ => e;
      if reply.Warned? || reply.Failed? {
        ReportRetains(net, e, Some(b), reply.Warned?);
      }
      var commands := if reply.Script? then reply.commands else [];
      EvaluatedRetains(net, e1, b, commands);
      RetainsCompose(e, e1, Evaluated(net, e1, b, commands).engine);
    }
  }

  lemma {:induction false} EvaluatedRetains(net: Net, e: Engine, b: BatchRef, commands: seq<Command>)
    requires InStore(e) && b < |e.store|
    ensures Retains(e, Evaluated(net, e, b, commands).engine)
    decreases |e.queue|, 4, 0
  {
    hide Retains, RunScript, Finish;
    var e1 := e.(received := Some(b));
    SameRetains(e, e1);
    ScriptRetains(net, e1, commands);
    var s := RunScript(net, e1, commands);
    RetainsCompose(e, e1, s.engine);
    if !s.threw {
      FinishRetains(net, s.engine, b);
      RetainsCompose(e, s.engine, Finish(net, s.engine, b));
    }
  }

  lemma {:induction false} FinishRetains(net: Net, e: Engine, b: BatchRef)
    requires InStore(e) && b < |e.store|
    ensures Retains(e, Finish(net, e, b))
    decreases |e.queue|, 3, 0
  {
    hide Retains, Report, ClearUp, Unanswered;
    var e1 := e.(received := None);
    SameRetains(e, e1);
    SameRetains(e1, e1);
    ReportRetains(net, e1, Some(b), true);
    var e2 := Validated(net, e1, b);
    RetainsCompose(e, e1, e2);
    if !e2.store[b].completed {
      ClearRetains(net, e2, b);
      RetainsCompose(e, e2, ClearUp(net, e2, b));
    }
  }

  lemma {:induction false} ScriptRetains(net: Net, e: Engine, commands: seq<Command>)
    requires InStore(e)
    ensures Retains(e, RunScript(net, e, commands).engine)
    decreases |e.queue|, 3, |commands|
  {
    hide Retains, Obey, InStore;
    SameRetains(e, e);
    if commands != [] && !commands[0].Throw? {
      ObeyRetains(net, e, commands[0]);
      var e1 := Obey(net, e, commands[0]);
      ScriptRetains(net, e1, commands[1..]);
      RetainsCompose(e, e1, RunScript(net, e1, commands[1..]).engine);
    }
  }

  /** The handlers of one call are taken, and that the call was answered is noted or there was no
      handler for it. */
  lemma TakenRetains(e: Engine, b: BatchRef, call: nat, log: seq<Note>)
    requires b < |e.store| && e.log <= log
    requires call in e.store[b].handlers ==>
               Noted(e.log, log, b, call) || !e.store[b].handlers[call].callback || !e.store[b].handlers[call].exceptionHandler
    ensures Retains(e, Taken(e, b, call).(log := log))
  {}

  lemma {:induction false} ObeyRetains(net: Net, e: Engine, c: Command)
    requires InStore(e)
    ensures Retains(e, Obey(net, e, c))
    decreases |e.queue|, 2, 1
  {
    hide Retains, HandleCallback, HandleException, HandleBatchException;
    SameRetains(e, e);
    match c
    case Callback(id, call, throws) =>
      if id in e.batches {
        CallbackRetains(net, e, e.batches[id], call, throws);
      }
    case Exception(id, call) =>
      if id in e.batches {
        ExceptionRetains(e, e.batches[id], call);
      }
    case BatchException(about) => BatchExceptionRetains(net, e, about);
    case Throw =>
  }

  lemma {:induction false} CallbackRetains(net: Net, e: Engine, b: BatchRef, call: nat, throws: bool)
    requires InStore(e) && b < |e.store|
    ensures Retains(e, HandleCallback(net, e, b, call, throws))
    decreases |e.queue|, 2, 0
  {
    hide Retains, Report, Taken;
    LogOfTaken(e, b, call);
    var handlers, e1 := e.store[b].handlers, Taken(e, b, call);
    if call !in handlers || !handlers[call].callback {
      TakenRetains(e, b, call, e.log);
      assert e1.(log := e.log) == e1;
    } else {
      var log := e.log + [Called(b, call)];
      assert log[|e.log|] == Called(b, call) && Answers(log[|e.log|], b, call);
      TakenRetains(e, b, call, log);
      var e2 := e1.(log := log);
      if throws {
        ReportRetains(net, e2, Some(b), false);
        RetainsCompose(e, e2, Report(net, e2, Some(b), false));
      }
    }
  }

  lemma ExceptionRetains(e: Engine, b: BatchRef, call: nat)
    requires b < |e.store|
    ensures Retains(e, HandleException(e, b, call))
  {
    hide Retains, Taken, InStore;
    LogOfTaken(e, b, call);
    var handlers, e1 := e.store[b].handlers, Taken(e, b, call);
    if call !in handlers {
      TakenRetains(e, b, call, e.log);
      assert e1.(log := e.log) == e1;
    } else {
      var note := if handlers[call].exceptionHandler then Excepted(b, call) else Told(Some(b), false);
      var log := e.log + [note];
      assert log[|e.log|] == note;
      assert note.Excepted? ==> Answers(log[|e.log|], b, call);
      TakenRetains(e, b, call, log);
    }
  }

  lemma {:induction false} BatchExceptionRetains(net: Net, e: Engine, about: Option<nat>)
    requires InStore(e)
    ensures Retains(e, HandleBatchException(net, e, about))
    decreases |e.queue|, 2, 0
  {
    hide Retains, Report, ClearUp;
    var search := e.received.None? && about.Some?;
    var target := if search then Find(e, about.value) else e.received;
    var e0 := e.(received := target);
    SameRetains(e, e0);
    ReportRetains(net, e0, target, false);
    var e1 := Report(net, e0, target, false);
    RetainsCompose(e, e0, e1);
    if search {
      var e2 := e1.(received := None);
      SameRetains(e1, e2);
      RetainsCompose(e, e1, e2);
      var again := Find(e2, about.value);
      if again.Some? {
        ClearRetains(net, e2, again.value);
        RetainsCompose(e, e2, ClearUp(net, e2, again.value));
      }
    }
  }

  // ----- Events

  /** A call goes into the batch under the next number, with exactly its handlers; what was there
      stays as it was. */
  lemma CallIsAdded(batch: Batch, path: string, handlers: Handlers, options: Overrides)
    requires forall k :: k in batch.handlers ==> k < batch.callCount
    ensures var r := WithCall(batch, path, handlers, options);
            && r.handlers.Keys == batch.handlers.Keys + {batch.callCount}
            && r.handlers[batch.callCount] == handlers
            && (forall k :: k in batch.handlers ==> r.handlers[k] == batch.handlers[k])
            && r.callCount == batch.callCount + 1 && r.path == Some(path)
            && r.async == (if options.async.Some? then options.async.value else batch.async)
            && r.timeout == (if options.timeout.Some? then options.timeout.value else batch.timeout)
            && r == batch.(handlers := r.handlers, callCount := r.callCount, path := r.path, async := r.async, timeout := r.timeout)
  {}

  lemma AddedRetains(e: Engine, b: BatchRef, path: string, handlers: Handlers, options: Overrides)
    requires b < |e.store| && forall k :: k in e.store[b].handlers ==> k < e.store[b].callCount
    ensures Retains(e, e.(store := e.store[b := WithCall(e.store[b], path, handlers, options)]))
  {
    CallIsAdded(e.store[b], path, handlers, options);
    hide WithCall;
  }

  lemma BeginRetains(e: Engine)
    ensures Retains(e, BeginBatch(e))
  {
    SameRetains(e, BeginBatch(e));
  }

  lemma EndRetains(net: Net, e: Engine, options: Overrides)
    requires InStore(e)
    ensures Retains(e, EndBatch(net, e, options))
  {
    hide SendData, Retains;
    if e.current.Some? && e.store[e.current.value].callCount != 0 {
      var b := e.current.value;
      var e3 := AcceptedBatch(e, b, options);
      SameRetains(e, e3);
      if SendsAtOnce(e) {
        SendRetains(net, e3, b);
        RetainsCompose(e, e3, SendData(net, e3, b));
      } else {
        SameRetains(e, EndBatch(net, e, options));
      }
    } else {
      SameRetains(e, EndBatch(net, e, options));
    }
  }

  lemma ExecuteRetains(net: Net, e: Engine, path: string, handlers: Handlers, options: Overrides)
    requires Core(e)
    ensures Retains(e, ExecuteCall(net, e, path, handlers, options))
  {
    if e.current.Some? {
      HandlersInRange(e, e.current.value);
    }
    hide Outstanding, Waiting, Answered, Retains, EndBatch, Report, WithCall;
    if Mismatch(e, path) {
      ReportRetains(net, e, e.current, false);
    } else {
      var e1 := if e.current.None? then BeginBatch(e) else e;
      SameRetains(e, e);
      BeginRetains(e);
      var b := e1.current.value;
      var e2 := e1.(store := e1.store[b := WithCall(e1.store[b], path, handlers, options)]);
      AddedRetains(e1, b, path, handlers, options);
      RetainsCompose(e, e1, e2);
      if e.current.None? {
        EndRetains(net, e2, Overrides(None, None));
        RetainsCompose(e, e2, EndBatch(net, e2, Overrides(None, None)));
      }
    }
  }

  lemma PollRetains(net: Net, e: Engine)
    requires InStore(e)
    ensures Retains(e, PollServer(net, e))
  {
    hide SendData, Retains;
    var e1 := e.(store := e.store + [PollBatch()]);
    SameRetains(e, e1);
    SendRetains(net, e1, |e.store|);
    RetainsCompose(e, e1, SendData(net, e1, |e.store|));
  }

  lemma AbortRetains(net: Net, e: Engine, b: BatchRef)
    requires InStore(e) && b < |e.store|
    ensures Retains(e, AbortRequest(net, e, b))
  {
    hide Retains, ClearUp, Report, InStore;
    SameRetains(e, e);
    if !e.store[b].completed {
      ClearRetains(net, e, b);
      var e1 := ClearUp(net, e, b);
      ReportRetains(net, e1, Some(b), false);
      RetainsCompose(e, e1, Report(net, e1, Some(b), false));
    }
  }

  lemma {:induction false} ClearEachRetains(net: Net, e: Engine, order: seq<nat>)
    requires InStore(e)
    ensures Retains(e, ClearEach(net, e, order))
    decreases |order|
  {
    hide Retains, ClearUp;
    SameRetains(e, e);
    if order != [] {
      var e1 := if order[0] in e.batches then ClearUp(net, e, e.batches[order[0]]) else e;
      if order[0] in e.batches {
        ClearRetains(net, e, e.batches[order[0]]);
      }
      ClearEachRetains(net, e1, order[1..]);
      RetainsCompose(e, e1, ClearEach(net, e1, order[1..]));
    }
  }

  lemma StepRetains(net: Net, e: Engine, event: Event)
    requires Good(e)
    ensures Retains(e, Step(net, e, event))
  {
    hide Outstanding, Waiting, Answered, Retains, BeginBatch, EndBatch, ExecuteCall, PollServer, StateChange, AbortRequest, RunScript, ClearEach;
    SameRetains(e, e);
    match event
    case Begin => BeginRetains(e);
    case Execute(path, handlers, options) => ExecuteRetains(net, e, path, handlers, options);
    case End(options) => EndRetains(net, e, options);
    case SetOrdered(on) => SameRetains(e, e.(ordered := on));
    case SetAsync(on) => SameRetains(e, e.(async := on));
    case SetTimeout(on) => SameRetains(e, e.(timeout := on));
    case Poll => PollRetains(net, e);
    case StateChanged(b, reply) =>
      if b < |e.store| {
        StateRetains(net, e, b, reply);
      }
    case TimedOut(b) =>
      if b < |e.store| {
        AbortRetains(net, e, b);
      }
    case ServerScript(commands) => ScriptRetains(net, e, commands);
    case Unload(order) =>
      var e1 := e.(unloading := true, queue := []);
      SameRetains(e, e1);
      ClearEachRetains(net, e1, order);
      RetainsCompose(e, e1, ClearEach(net, e1, order));
  }

  /** Main result: over any run, a call keeps the handlers it was made with until it is answered. */
  lemma {:induction false} HandlersAreRetained(net: Net, e: Engine, events: seq<Event>)
    requires Good(e)
    ensures Retains(e, Run(net, e, events))
    decreases |events|
  {
    hide Outstanding, Waiting, Answered, Retains, Step;
    SameRetains(e, e);
    if events != [] {
      StepRetains(net, e, events[0]);
      StepFollows(net, e, events[0]);
      var e1 := Step(net, e, events[0]);
      HandlersAreRetained(net, e1, events[1..]);
      RetainsCompose(e, e1, Run(net, e1, events[1..]));
    }
  }
}
