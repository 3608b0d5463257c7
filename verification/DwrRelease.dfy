/** Progress of the scheduler: no outstanding batch is completed without the first waiting one being
    sent, a send that fails completes its batch, and answers and errors reach what they are for. */
module DwrRelease {
  import opened Options
  import opened DwrEngine
  import opened DwrRuns
  import opened DwrSafety

  /** No more batches are completed in r than in e. */
  predicate NoneCompleted(e: Engine, r: Engine) {
    |r.store| == |e.store| && forall b :: 0 <= b < |e.store| && r.store[b].completed ==> e.store[b].completed
  }

  /** Whatever else happened, as long as the queue is what it was, either nothing was waiting or
      nothing was completed. */
  predicate Held(e: Engine, r: Engine) {
    && |r.queue| <= |e.queue| && |r.store| == |e.store|
    && (|r.queue| == |e.queue| && e.queue != [] ==> NoneCompleted(e, r))
  }

  lemma HeldCompose(e: Engine, m: Engine, r: Engine)
    requires Held(e, m) && Held(m, r)
    ensures Held(e, r)
  {}

  lemma HeldSame(e: Engine, r: Engine)
    requires r.queue == e.queue && NoneCompleted(e, r)
    ensures Held(e, r)
  {}

  /** Clearing up sends the first waiting batch, if there is one. */
  lemma ClearHeld(net: Net, e: Engine, b: BatchRef)
    requires InStore(e) && b < |e.store|
    ensures Held(e, ClearUp(net, e, b))
    ensures !e.store[b].completed && e.queue != [] ==> |ClearUp(net, e, b).queue| < |e.queue|
  {
    hide SendData, InStore;
  }

  lemma {:induction false} ReportHeld(net: Net, e: Engine, b: Option<BatchRef>, warning: bool)
    requires InStore(e) && (b.Some? ==> b.value < |e.store|)
    ensures Held(e, Report(net, e, b, warning))
    decreases |e.queue|, 1, 0
  {}

  lemma {:induction false} StateHeld(net: Net, e: Engine, b: BatchRef, reply: Reply)
    requires InStore(e) && b < |e.store|
    ensures Held(e, StateChange(net, e, b, reply).engine)
    decreases |e.queue|, 4, 0
  {
    hide Held, Report, ClearUp, RunScript, Validated;
    HeldSame(e, e);
    if e.store[b].completed || reply.NotDone? {
    } else if reply.StateThrows? {
      ReportHeld(net, e, Some(b), true);
      var e1 := Report(net, e, Some(b), true);
      ClearHeld(net, e1, b);
      HeldCompose(e, e1, ClearUp(net, e1, b));
    } else if !e.unloading {
      var e1 := match reply
                case Warned => Report(net, e, Some(b), true)
                case Failed => Report(net, e, Some(b), false)
                case _ => e;
      if reply.Warned? || reply.Failed? {
        ReportHeld(net, e, Some(b), reply.Warned?);
      }
      var e2 := e1.(received := Some(b));
      HeldSame(e1, e2);
      HeldCompose(e, e1, e2);
      var commands := if reply.Script? then reply.commands else [];
      ScriptHeld(net, e2, commands);
      var s := RunScript(net, e2, commands);
      HeldCompose(e, e2, s.engine);
      if !s.threw {
        Finished(net, e, b, s.engine);
      }
    }
  }

  lemma {:induction false} Finished(net: Net, e: Engine, b: BatchRef, m: Engine)
    requires InStore(m) && b < |m.store| && Held(e, m)
    ensures Held(e, Finish(net, m, b))
    decreases |m.queue|, 3, 0
  {
    hide Held, ClearUp, Validated;
    var m1 := m.(received := None);
    HeldSame(m, m1);
    HeldCompose(e, m, m1);
    var m2 := Validated(net, m1, b);
    ValidatedHeld(net, m1, b);
    HeldCompose(e, m1, m2);
    if !m2.store[b].completed {
      ClearHeld(net, m2, b);
      HeldCompose(e, m2, ClearUp(net, m2, b));
    }
  }

  lemma ValidatedHeld(net: Net, e: Engine, b: BatchRef)
    requires InStore(e) && b < |e.store|
    ensures Held(e, Validated(net, e, b))
  {
    hide Held, Report, InStore;
    HeldSame(e, e);
    ReportHeld(net, e, Some(b), true);
  }

  lemma {:induction false} ScriptHeld(net: Net, e: Engine, commands: seq<Command>)
    requires InStore(e)
    ensures Held(e, RunScript(net, e, commands).engine)
    decreases |commands|
  {
    hide Held, Obey, InStore;
    HeldSame(e, e);
    if commands != [] && !commands[0].Throw? {
      ObeyHeld(net, e, commands[0]);
      var e1 := Obey(net, e, commands[0]);
      ScriptHeld(net, e1, commands[1..]);
      HeldCompose(e, e1, RunScript(net, e1, commands[1..]).engine);
    }
  }

  lemma TakenHeld(e: Engine, b: BatchRef, call: nat, log: seq<Note>)
    requires b < |e.store|
    ensures Held(e, Taken(e, b, call)) && Held(e, Taken(e, b, call).(log := log))
  {}

  lemma ObeyHeld(net: Net, e: Engine, c: Command)
    requires InStore(e)
    ensures Held(e, Obey(net, e, c))
  {
    hide Held, Report, ClearUp, Taken;
    HeldSame(e, e);
    match c
    case Callback(id, call, throws) =>
      if id in e.batches {
        var b := e.batches[id];
        var e2 := Taken(e, b, call).(log := e.log + [Called(b, call)]);
        TakenHeld(e, b, call, e2.log);
        ReportHeld(net, e2, Some(b), false);
        HeldCompose(e, e2, Report(net, e2, Some(b), false));
        LogOfTaken(e, b, call);
      }
    case Exception(id, call) =>
      if id in e.batches {
        var b := e.batches[id];
        TakenHeld(e, b, call, HandleException(e, b, call).log);
      }
    case BatchException(about) => BatchExceptionHeld(net, e, about);
    case Throw =>
  }

  lemma LogOfTaken(e: Engine, b: BatchRef, call: nat)
    requires b < |e.store|
    ensures Taken(e, b, call).log == e.log
  {}

  lemma BatchExceptionHeld(net: Net, e: Engine, about: Option<nat>)
    requires InStore(e)
    ensures Held(e, HandleBatchException(net, e, about))
  {
    hide Held, Report, ClearUp;
    var search := e.received.None? && about.Some?;
    var target := if search then Find(e, about.value) else e.received;
    var e0 := e.(received := target);
    HeldSame(e, e0);
    ReportHeld(net, e0, target, false);
    var e1 := Report(net, e0, target, false);
    HeldCompose(e, e0, e1);
    if search {
      var e2 := e1.(received := None);
      HeldSame(e1, e2);
      HeldCompose(e, e1, e2);
      var again := Find(e2, about.value);
      if again.Some? {
        ClearHeld(net, e2, again.value);
        HeldCompose(e, e2, ClearUp(net, e2, again.value));
      }
    }
  }

  // ----- What the network can do

  predicate FromNetwork(event: Event) {
    event.StateChanged? || event.TimedOut? || event.ServerScript?
  }

  lemma NetworkHeld(net: Net, e: Engine, event: Event)
    requires InStore(e) && FromNetwork(event)
    ensures Held(e, Step(net, e, event))
  {
    hide Held, StateChange, RunScript, ClearUp, Report, InStore;
    HeldSame(e, e);
    match event
    case StateChanged(b, reply) =>
      if b < |e.store| {
        StateHeld(net, e, b, reply);
      }
    case TimedOut(b) =>
      if b < |e.store| && !e.store[b].completed {
        ClearHeld(net, e, b);
        var e1 := ClearUp(net, e, b);
        ReportHeld(net, e1, Some(b), false);
        HeldCompose(e, e1, Report(net, e1, Some(b), false));
      }
    case ServerScript(commands) => ScriptHeld(net, e, commands);
    case _ => assert false;
  }

  /** Whenever the network completes a batch while others wait, the first of them has been sent next. */
  lemma CompletionReleases(net: Net, e: Engine, event: Event, b: BatchRef)
    requires Good(e) && FromNetwork(event) && Active(e, b) && !Done(e, b) && Done(Step(net, e, event), b)
    ensures e.queue != [] ==> e.sent + [e.queue[0]] <= Step(net, e, event).sent
  {
    hide Outstanding, Waiting, Answered, Moves, Step;
    StepFollows(net, e, event);
    NetworkHeld(net, e, event);
    var r := Step(net, e, event);
    if e.queue != [] {
      assert |r.queue| < |e.queue|;
      Longer(e.sent, e.queue, r.sent, r.queue);
    }
  }

  lemma Longer(s: seq<nat>, q: seq<nat>, s1: seq<nat>, q1: seq<nat>)
    requires s1 + q1 == s + q && |q1| < |q|
    ensures s + [q[0]] <= s1
  {
    assert s1 == (s1 + q1)[..|s1|];
    assert s + [q[0]] == (s + q)[..|s| + 1];
  }

  /** A send completes its batch at once if anything goes wrong; an asynchronous one that goes well
      leaves it outstanding and does nothing else. */
  lemma SendOutcome(net: Net, e: Engine, b: BatchRef)
    requires Good(e) && Sendable(e, b)
    ensures Fails(net(e.nextId)) ==> Done(SendData(net, e, b), b)
    ensures !Fails(net(e.nextId)) && e.store[b].async ==> SendData(net, e, b) == Registered(e, b)
  {
    hide Outstanding, Waiting, Answered, Moves, Report, StateChange;
    SendKeeps(net, e, b);
  }

  /** While its batch is outstanding and it has not been answered, a callback or an exception that
      comes for a call reaches its handler. */
  lemma AnswersArrive(net: Net, e: Engine, id: nat, call: nat, throws: bool)
    requires Good(e) && id in e.batches && call in e.store[e.batches[id]].handlers
    ensures var b := e.batches[id]; var handlers := e.store[b].handlers[call];
            && (handlers.callback ==> e.log + [Called(b, call)] <= Obey(net, e, Callback(id, call, throws)).log)
            && (handlers.exceptionHandler ==> Obey(net, e, Exception(id, call)).log == e.log + [Excepted(b, call)])
            && (handlers.callback && throws ==> Done(Obey(net, e, Callback(id, call, throws)), b))
  {
    OutstandingBatch(e, id);
    hide Core, InStore, HandleCallback, HandleException;
    ExceptionArrives(e, e.batches[id], call);
    if e.store[e.batches[id]].handlers[call].callback {
      CallbackArrives(net, e, e.batches[id], call, throws);
    }
  }

  lemma OutstandingBatch(e: Engine, id: nat)
    requires Core(e) && id in e.batches
    ensures InStore(e) && Active(e, e.batches[id]) && !e.store[e.batches[id]].completed
  {}

  lemma ExceptionArrives(e: Engine, b: BatchRef, call: nat)
    requires b < |e.store| && call in e.store[b].handlers
    ensures e.store[b].handlers[call].exceptionHandler ==> HandleException(e, b, call).log == e.log + [Excepted(b, call)]
  {
    hide Taken, InStore;
    LogOfTaken(e, b, call);
  }

  lemma CallbackArrives(net: Net, e: Engine, b: BatchRef, call: nat, throws: bool)
    requires InStore(e) && Good(e) && Active(e, b) && !e.store[b].completed && call in e.store[b].handlers && e.store[b].handlers[call].callback
    ensures e.log + [Called(b, call)] <= HandleCallback(net, e, b, call, throws).log
    ensures throws ==> Done(HandleCallback(net, e, b, call, throws), b)
  {
    CallNoted(e, b, call, Called(b, call));
    LogOfTaken(e, b, call);
    hide Outstanding, Waiting, Answered, Moves, Report, Taken;
    var e2 := Taken(e, b, call).(log := e.log + [Called(b, call)]);
    if throws {
      ActiveKept(e, e2, b);
      ReportKeeps(net, e2, Some(b), false);
      hide Keeps;
      LogGrows(e2, Report(net, e2, Some(b), false));
    }
  }

  lemma ActiveKept(e: Engine, r: Engine, b: BatchRef)
    requires Active(e, b) && Keeps(e, r)
    ensures Active(r, b)
  {
    hide Core;
    ActiveStays(e, r, b);
  }

  lemma LogGrows(e: Engine, r: Engine)
    requires Keeps(e, r)
    ensures e.log <= r.log
  {
    hide Core;
  }

  /** A batch exception completes the batch held as received, or, if none is, the one it names. */
  lemma BatchExceptionCompletes(net: Net, e: Engine, about: Option<nat>)
    requires Good(e)
    ensures var target := if e.received.None? && about.Some? then Find(e, about.value) else e.received;
            target.Some? ==> Done(Obey(net, e, BatchException(about)), target.value)
  {
    hide Outstanding, Waiting, Answered, Moves, Report, ClearUp, Find;
    var search := e.received.None? && about.Some?;
    var target := if search then Find(e, about.value) else e.received;
    TargetsActive(e, about);
    ReceivedKeeps(e, target);
    var e0 := e.(received := target);
    ReportKeeps(net, e0, target, false);
    var e1 := Report(net, e0, target, false);
    if search && target.Some? {
      ReceivedKeeps(e1, None);
      var e2 := e1.(received := None);
      DoneKept(e1, e2, target.value);
      var again := Find(e2, about.value);
      TargetsActive(e2, about);
      if again.Some? {
        ClearKeeps(net, e2, again.value);
        DoneKept(e2, ClearUp(net, e2, again.value), target.value);
      }
    }
  }
}
