/** Exactly which replies complete their batch, and what a script that throws leaves behind. */
module DwrScripts {
  import opened Options
  import opened DwrEngine
  import opened DwrRuns
  import opened DwrSafety
  import opened DwrRelease

  // ----- Scripts that throw

  /** The statements in front of the first one that throws */
  function Before(commands: seq<Command>): (r: seq<Command>)
    ensures Throw !in r && r <= commands
  {
    if commands == [] || commands[0].Throw? then [] else [commands[0]] + Before(commands[1..])
  }

  /** A script throws if and only if one of its statements does, and it is run up to there. */
  lemma {:induction false} ThrowsExactly(net: Net, e: Engine, commands: seq<Command>)
    requires InStore(e)
    ensures RunScript(net, e, commands).threw <==> Throw in commands
    ensures RunScript(net, e, commands).engine == RunScript(net, e, Before(commands)).engine
    decreases |commands|
  {
    hide Obey, InStore;
    if commands != [] && !commands[0].Throw? {
      var e1 := Obey(net, e, commands[0]);
      ThrowsExactly(net, e1, commands[1..]);
      assert Before(commands)[0] == commands[0] && Before(commands)[1..] == Before(commands[1..]);
      assert Throw in commands <==> Throw in commands[1..];
    }
  }

  /** The script of a reply is run to its end, or its statements up to the first that throws
      complete the batch. */
  ghost predicate ScriptCompletes(net: Net, e: Engine, b: BatchRef, commands: seq<Command>)
    requires InStore(e) && b < |e.store|
  {
    Throw !in commands || Done(RunScript(net, e.(received := Some(b)), Before(commands)).engine, b)
  }

  /** Main result: when the request of an outstanding batch calls back, the batch is completed if and
      only if it is an asynchronous one and either its state cannot be read, or the reply is
      there, the page is not being left, and its script completes it. */
  lemma ReplyCompletesExactly(net: Net, e: Engine, b: BatchRef, reply: Reply)
    requires Good(e) && Active(e, b) && !Done(e, b)
    ensures Done(Step(net, e, StateChanged(b, reply)), b)
            <==> (e.store[b].async && (reply.StateThrows?
                                       || (!reply.NotDone? && !e.unloading && (reply.Script? ==> ScriptCompletes(net, e, b, reply.commands)))))
  {
    hide Outstanding, Waiting, Answered, Moves, StateChange, RunScript, Before;
    StateKeeps(net, e, b, reply);
    if !reply.StateThrows? && (reply.NotDone? || e.unloading) {
      NothingYet(net, e, b, reply);
    } else if reply.Script? {
      ScriptReply(net, e, b, reply.commands);
      ThrowsExactly(net, e.(received := Some(b)), reply.commands);
    } else if !reply.StateThrows? {
      PlainReply(net, e, b, reply);
    }
  }

  lemma ScriptReply(net: Net, e: Engine, b: BatchRef, commands: seq<Command>)
    requires InStore(e) && b < |e.store| && !e.store[b].completed && !e.unloading
    ensures var s := RunScript(net, e.(received := Some(b)), commands); var r := StateChange(net, e, b, Script(commands));
            r.threw == s.threw && (s.threw ==> r.engine == s.engine)
  {
    hide RunScript, Finish;
    assert StateChange(net, e, b, Script(commands)) == Evaluated(net, e, b, commands);
  }

  lemma PlainReply(net: Net, e: Engine, b: BatchRef, reply: Reply)
    requires InStore(e) && b < |e.store| && !e.unloading && (reply.Warned? || reply.Failed? || reply.Html?)
    ensures !StateChange(net, e, b, reply).threw
  {
    hide Report, Finish;
    if !e.store[b].completed {
      var e1 := match reply
                case Warned => Report(net, e, Some(b), true)
                case Failed => Report(net, e, Some(b), false)
                case _ => e;
      assert StateChange(net, e, b, reply) == Evaluated(net, e1, b, []);
      assert RunScript(net, e1.(received := Some(b)), []) == Ran(e1.(received := Some(b)), false);
    }
  }

  lemma NothingYet(net: Net, e: Engine, b: BatchRef, reply: Reply)
    requires InStore(e) && b < |e.store| && (reply.NotDone? || (e.unloading && !reply.StateThrows?))
    ensures StateChange(net, e, b, reply).engine == e
  {
    hide Report, ClearUp, Evaluated;
  }

  /** A timeout completes its batch. */
  lemma TimeoutCompletes(net: Net, e: Engine, b: BatchRef)
    requires Good(e) && Active(e, b) && !Done(e, b)
    ensures Done(Step(net, e, TimedOut(b)), b) <==> e.store[b].timer
  {
    hide Outstanding, Waiting, Answered, Moves, ClearUp, Report;
    ClearKeeps(net, e, b);
    var e1 := ClearUp(net, e, b);
    ReportKeeps(net, e1, Some(b), false);
    DoneKept(e1, Report(net, e1, Some(b), false), b);
  }

  // ----- The condition on the text of the script

  /** What waits would be sent asynchronously, so that no reply is run in the middle of another. */
  predicate Unscripted(e: Engine)
    requires forall i :: 0 <= i < |e.queue| ==> e.queue[i] < |e.store|
  {
    forall i :: 0 <= i < |e.queue| ==> e.store[e.queue[i]].async
  }

  /** In front of the first throwing statement there is a batch exception, or a callback of the batch
      that reaches a handler, which throws. */
  predicate Ends(handlers: map<nat, Handlers>, id: nat, commands: seq<Command>)
    decreases |commands|
  {
    commands != []
    && match commands[0]
       case Throw => false
       case BatchException(_) => true
       case Callback(to, call, throws) =>
         if to != id then Ends(handlers, id, commands[1..])
         else (throws && call in handlers && handlers[call].callback) || Ends(Forget(handlers, call), id, commands[1..])
       case Exception(to, call) => Ends(if to == id then Forget(handlers, call) else handlers, id, commands[1..])
  }

  /** What happens to other batches leaves b, the batch whose reply is being run, and the order of
      what waits alone. */
  predicate Untouched(e: Engine, r: Engine, b: BatchRef) {
    && b < |e.store| == |r.store| && r.store[b] == e.store[b] && r.received == e.received
    && (forall x :: 0 <= x < |e.store| ==> r.store[x].async == e.store[x].async)
    && |r.queue| <= |e.queue| && r.queue == e.queue[|e.queue| - |r.queue|..]
  }

  /** A state in which only asynchronous batches wait, and b does not */
  ghost predicate Calm(e: Engine, b: BatchRef) {
    InStore(e) && b < |e.store| && b !in e.queue && Unscripted(e)
  }

  lemma UntouchedCompose(e: Engine, m: Engine, r: Engine, b: BatchRef)
    requires Untouched(e, m, b) && Untouched(m, r, b)
    ensures Untouched(e, r, b)
  {}

  lemma CalmStays(e: Engine, r: Engine, b: BatchRef)
    requires Calm(e, b) && Untouched(e, r, b) && InStore(r)
    ensures Calm(r, b)
  {
    var n := |e.queue| - |r.queue|;
    forall i | 0 <= i < |r.queue|
      ensures r.queue[i] == e.queue[n + i] && r.store[r.queue[i]].async && r.queue[i] != b
    {}
  }

  lemma {:induction false} SendUntouched(net: Net, e: Engine, x: BatchRef, b: BatchRef)
    requires Calm(e, b) && x < |e.store| && x != b && e.store[x].async
    ensures Untouched(e, SendData(net, e, x), b)
    decreases |e.queue|, 5, 0
  {
    hide Untouched, Calm, Registered, Report, StateChange;
    CalmMeans(e, b);
    var o := net(e.nextId);
    var e1 := Registered(e, x);
    RegisteredUntouched(e, x, b);
    CalmStays(e, e1, b);
    var e2 := if o.safari then Report(net, e1, Some(x), true) else e1;
    if o.safari {
      ReportAgain(net, e, e1, x, b, true);
    }
    UntouchedAsync(e, e2, b, x);
    if o.openThrows || !e2.store[x].req {
      ReportAgain(net, e, e2, x, b, false);
    } else {
      var e3 := if o.headersThrow then Report(net, e2, Some(x), true) else e2;
      if o.headersThrow {
        ReportAgain(net, e, e2, x, b, true);
      }
      UntouchedAsync(e, e3, b, x);
      if o.sendThrows || !e3.store[x].req {
        ReportAgain(net, e, e3, x, b, false);
      }
    }
  }

  lemma CalmMeans(e: Engine, b: BatchRef)
    requires Calm(e, b)
    ensures InStore(e) && b < |e.store|
  {}

  lemma UntouchedAsync(e: Engine, r: Engine, b: BatchRef, x: BatchRef)
    requires Untouched(e, r, b) && x < |e.store|
    ensures |r.store| == |e.store| && r.store[x].async == e.store[x].async && |r.queue| <= |e.queue|
  {}

  lemma RegisteredUntouched(e: Engine, x: BatchRef, b: BatchRef)
    requires x < |e.store| && b < |e.store| && x != b
    ensures Untouched(e, Registered(e, x), b)
  {}

  lemma {:induction false} ReportAgain(net: Net, e: Engine, m: Engine, x: BatchRef, b: BatchRef, warning: bool)
    requires Untouched(e, m, b) && Calm(m, b) && x < |m.store| && x != b
    ensures InStore(m) && Untouched(e, Report(net, m, Some(x), warning), b) && Calm(Report(net, m, Some(x), warning), b)
    decreases |m.queue|, 1, 1
  {
    hide Untouched, Calm, Report;
    CalmMeans(m, b);
    ReportUntouched(net, m, x, b, warning);
    UntouchedCompose(e, m, Report(net, m, Some(x), warning), b);
    CalmStays(m, Report(net, m, Some(x), warning), b);
  }

  lemma {:induction false} ReportUntouched(net: Net, e: Engine, x: BatchRef, b: BatchRef, warning: bool)
    requires Calm(e, b) && x < |e.store| && x != b
    ensures Untouched(e, Report(net, e, Some(x), warning), b)
    decreases |e.queue|, 1, 0
  {
    hide ClearUp;
    var e1 := e.(log := e.log + [Told(Some(x), warning)]);
    ClearUntouched(net, e1, x, b);
    assert Untouched(e, e1, b);
    UntouchedCompose(e, e1, ClearUp(net, e1, x), b);
  }

  lemma {:induction false} ClearUntouched(net: Net, e: Engine, x: BatchRef, b: BatchRef)
    requires Calm(e, b) && x < |e.store| && x != b
    ensures Untouched(e, ClearUp(net, e, x), b)
    decreases |e.queue|, 0, 0
  {
    hide SendData, Completed;
    if !e.store[x].completed {
      CompletedShape(e, x);
      var e1 := Completed(e, x);
      if e1.queue != [] {
        var e2 := e1.(queue := e1.queue[1..]);
        assert e.store[e.queue[0]].async && e.queue[0] in e.queue;
        assert Untouched(e, e2, b);
        CalmStays(e, e2, b);
        SendUntouched(net, e2, e1.queue[0], b);
        UntouchedCompose(e, e2, SendData(net, e2, e1.queue[0]), b);
      }
    }
  }

  /** The batch whose reply is being run, still outstanding */
  ghost predicate Running(e: Engine, b: BatchRef) {
    Good(e) && Active(e, b) && !e.store[b].completed && e.received == Some(b) && Unscripted(e)
  }

  lemma RunningMeans(e: Engine, b: BatchRef, to: nat)
    requires Running(e, b)
    ensures InStore(e) && b < |e.store| && e.store[b].id.Some? && !Done(e, b) && Calm(e, b)
    ensures to == e.store[b].id.value ==> to in e.batches && e.batches[to] == b
    ensures to != e.store[b].id.value && to in e.batches ==> e.batches[to] != b && Active(e, e.batches[to])
  {
    hide Waiting, Answered;
    WaitsNot(e, b);
  }

  lemma WaitsNot(e: Engine, b: BatchRef)
    requires Core(e) && Active(e, b)
    ensures b !in e.queue
  {
    hide Outstanding, Answered;
  }

  lemma {:induction false} RunningOn(net: Net, e: Engine, b: BatchRef, r: Engine)
    requires Running(e, b) && Good(r) && Untouched(e, r, b)
    ensures Running(r, b)
  {
    RunningMeans(e, b, 0);
    hide Outstanding, Waiting, Answered;
    CalmStays(e, r, b);
  }

  lemma ObeyGood(net: Net, e: Engine, c: Command)
    requires Good(e)
    ensures InStore(e) && Good(Obey(net, e, c))
  {
    hide Outstanding, Waiting, Answered, Moves, Obey;
    ObeyKeeps(net, e, c);
  }

  lemma CallbackUntouched(net: Net, e: Engine, x: BatchRef, b: BatchRef, call: nat, throws: bool)
    requires Calm(e, b) && x < |e.store| && x != b
    ensures Untouched(e, HandleCallback(net, e, x, call, throws), b)
  {
    hide Untouched, Calm, Report, Taken;
    CalmMeans(e, b);
    LogOfTaken(e, x, call);
    var e1 := Taken(e, x, call);
    var e2 := e1.(log := e1.log + [Called(x, call)]);
    TakenUntouched(e, x, b, call, e2.log);
    TakenCalm(e, x, b, call, e2.log);
    if throws {
      ReportAgain(net, e, e2, x, b, false);
    }
  }

  lemma ExceptionUntouched(e: Engine, x: BatchRef, b: BatchRef, call: nat)
    requires x < |e.store| && b < |e.store| && x != b
    ensures Untouched(e, HandleException(e, x, call), b)
  {
    hide Untouched, Taken, InStore;
    TakenUntouched(e, x, b, call, HandleException(e, x, call).log);
  }

  /** A statement about another batch */
  lemma OtherBatch(net: Net, e: Engine, b: BatchRef, c: Command)
    requires Running(e, b) && (c.Callback? || c.Exception?) && c.id != e.store[b].id.value
    ensures InStore(e) && Running(Obey(net, e, c), b) && Obey(net, e, c).store[b] == e.store[b]
  {
    RunningMeans(e, b, c.id);
    ObeyGood(net, e, c);
    hide Running, Calm, Good, HandleCallback, HandleException, HandleBatchException, InStore;
    SameUntouched(e, b);
    if c.id in e.batches && c.Callback? {
      CallbackUntouched(net, e, e.batches[c.id], b, c.call, c.throws);
    } else if c.id in e.batches {
      ExceptionUntouched(e, e.batches[c.id], b, c.call);
    }
    hide Obey;
    RunningOn(net, e, b, Obey(net, e, c));
  }

  lemma SameUntouched(e: Engine, b: BatchRef)
    requires b < |e.store|
    ensures Untouched(e, e, b)
  {}

  lemma TakenUntouched(e: Engine, x: BatchRef, b: BatchRef, call: nat, log: seq<Note>)
    requires x < |e.store| && b < |e.store| && x != b
    ensures Untouched(e, Taken(e, x, call), b) && Untouched(e, Taken(e, x, call).(log := log), b)
  {}

  lemma TakenCalm(e: Engine, x: BatchRef, b: BatchRef, call: nat, log: seq<Note>)
    requires x < |e.store| && x != b && Calm(e, b)
    ensures Calm(Taken(e, x, call).(log := log), b)
  {
    TakenUntouched(e, x, b, call, log);
    CalmStays(e, Taken(e, x, call).(log := log), b);
  }

  /** A statement about the batch itself that does not complete it uses up the handlers of its call. */
  lemma OwnBatch(net: Net, e: Engine, b: BatchRef, c: Command)
    requires Running(e, b) && (c.Callback? || c.Exception?) && c.id == e.store[b].id.value
    requires c.Callback? ==> !(c.throws && c.call in e.store[b].handlers && e.store[b].handlers[c.call].callback)
    ensures InStore(e)
    ensures var r := Obey(net, e, c);
            Running(r, b) && r.store[b] == e.store[b].(handlers := Forget(e.store[b].handlers, c.call))
  {
    RunningMeans(e, b, c.id);
    ObeyGood(net, e, c);
    hide Good, Calm;
    OwnTaken(net, e, b, c);
    hide Obey;
    OwnRunning(e, b, c.call, Obey(net, e, c));
  }

  lemma OwnTaken(net: Net, e: Engine, b: BatchRef, c: Command)
    requires (c.Callback? || c.Exception?) && InStore(e) && c.id in e.batches && e.batches[c.id] == b
    requires c.Callback? ==> !(c.throws && c.call in e.store[b].handlers && e.store[b].handlers[c.call].callback)
    ensures Obey(net, e, c) == Taken(e, b, c.call).(log := Obey(net, e, c).log)
  {
    hide Report, Taken;
    LogOfTaken(e, b, c.call);
  }

  lemma OwnRunning(e: Engine, b: BatchRef, call: nat, r: Engine)
    requires Running(e, b) && Good(r) && b < |e.store| && r == Taken(e, b, call).(log := r.log)
    ensures Running(r, b) && r.store[b] == e.store[b].(handlers := Forget(e.store[b].handlers, call))
  {
    hide Outstanding, Waiting, Answered, Forget, Live;
  }

  lemma OwnThrows(net: Net, e: Engine, b: BatchRef, c: Command)
    requires Running(e, b) && c.Callback? && c.id == e.store[b].id.value
    requires c.throws && c.call in e.store[b].handlers && e.store[b].handlers[c.call].callback
    ensures InStore(e) && Done(Obey(net, e, c), b)
  {
    RunningMeans(e, b, c.id);
    hide Outstanding, Waiting, Answered, Unscripted;
    AnswersArrive(net, e, c.id, c.call, c.throws);
  }

  lemma RunningBroken(net: Net, e: Engine, b: BatchRef, about: Option<nat>)
    requires Running(e, b)
    ensures InStore(e) && Done(Obey(net, e, BatchException(about)), b)
  {
    RunningMeans(e, b, 0);
    hide Outstanding, Waiting, Answered, Unscripted, Obey;
    BatchExceptionCompletes(net, e, about);
  }

  /** While only asynchronous batches wait, a script completes its batch before it ends or throws if
      and only if its text says so. */
  lemma {:induction false} ScriptEnds(net: Net, e: Engine, b: BatchRef, commands: seq<Command>)
    requires Running(e, b)
    ensures InStore(e) && e.store[b].id.Some?
    ensures Done(RunScript(net, e, commands).engine, b) <==> Ends(e.store[b].handlers, e.store[b].id.value, commands)
    decreases |commands|
  {
    RunningMeans(e, b, 0);
    hide Running, Obey, Forget, Calm, Core, Live;
    if commands != [] && !commands[0].Throw? {
      var c, rest, own := commands[0], commands[1..], e.store[b].handlers;
      var e1 := Obey(net, e, c);
      if c.BatchException? {
        RunningBroken(net, e, b, c.about);
        StillDone(net, e, b, c, rest);
      } else if c.id != e.store[b].id.value {
        OtherBatch(net, e, b, c);
        ScriptEnds(net, e1, b, rest);
      } else if c.Callback? && c.throws && c.call in own && own[c.call].callback {
        OwnThrows(net, e, b, c);
        StillDone(net, e, b, c, rest);
      } else {
        OwnBatch(net, e, b, c);
        ScriptEnds(net, e1, b, rest);
      }
    }
  }

  lemma StillDone(net: Net, e: Engine, b: BatchRef, c: Command, rest: seq<Command>)
    requires Running(e, b) && InStore(e) && Done(Obey(net, e, c), b)
    ensures Done(RunScript(net, Obey(net, e, c), rest).engine, b)
  {
    hide Outstanding, Waiting, Answered, Moves, Obey, RunScript, Unscripted;
    ObeyKeeps(net, e, c);
    var e1 := Obey(net, e, c);
    ScriptKeeps(net, e1, rest);
    DoneKept(e1, RunScript(net, e1, rest).engine, b);
  }

  /** Main result, read off the reply: while only asynchronous batches wait, a script completes its
      batch if and only if none of its statements throws, or in front of the first that does there
      is a batch exception or a callback whose handler throws. */
  lemma ScriptCompletesExactly(net: Net, e: Engine, b: BatchRef, commands: seq<Command>)
    requires Good(e) && Active(e, b) && !Done(e, b) && e.store[b].async && !e.unloading && Unscripted(e)
    ensures Done(Step(net, e, StateChanged(b, Script(commands))), b)
            <==> (Throw !in commands || Ends(e.store[b].handlers, e.store[b].id.value, commands))
  {
    ReplyCompletesExactly(net, e, b, Script(commands));
    ReceivedKeeps(e, Some(b));
    hide Outstanding, Waiting, Answered, Moves, Step, RunScript, Before, Ends;
    var e1 := e.(received := Some(b));
    assert Running(e1, b);
    ScriptEnds(net, e1, b, commands);
    ThrowsExactly(net, e1, commands);
  }

  /** A script that is one throwing statement leaves its batch outstanding, in every state; the batch
      stays the one whose reply is being run. With a batch exception in front it is completed. */
  lemma ThrowLeavesOutstanding(net: Net, e: Engine, b: BatchRef)
    requires Good(e) && Active(e, b) && !Done(e, b) && e.store[b].async && !e.unloading
    ensures var r := Step(net, e, StateChanged(b, Script([Throw])));
            r == e.(received := Some(b)) && !Done(r, b)
    ensures Done(Step(net, e, StateChanged(b, Script([BatchException(None), Throw]))), b)
  {
    hide Outstanding, Waiting, Answered;
    var e1 := e.(received := Some(b));
    assert RunScript(net, e1, [Throw]) == Ran(e1, true);
    ScriptReply(net, e, b, [Throw]);
    BrokenFirst(net, e, b);
  }

  lemma BrokenFirst(net: Net, e: Engine, b: BatchRef)
    requires Good(e) && Active(e, b) && !Done(e, b) && e.store[b].async && !e.unloading
    ensures Done(Step(net, e, StateChanged(b, Script([BatchException(None), Throw]))), b)
  {
    var commands := [BatchException(None), Throw];
    ReplyCompletesExactly(net, e, b, Script(commands));
    ReceivedKeeps(e, Some(b));
    hide Outstanding, Waiting, Answered, Step, Obey, Moves;
    var e1 := e.(received := Some(b));
    BatchExceptionCompletes(net, e1, None);
    assert Before(commands) == [BatchException(None)] by {
      assert commands[1..] == [Throw];
    }
    assert RunScript(net, e1, [BatchException(None)]) == RunScript(net, Obey(net, e1, BatchException(None)), [BatchException(None)][1..]);
  }

  /** A run that ends there: one call, sent without fault, and a reply whose script throws */
  lemma ThrowingRun(net: Net, path: string, handlers: Handlers)
    requires !Fails(net(0))
    ensures var e := Step(net, INITIAL, Execute(path, handlers, Overrides(None, None)));
            && 0 in e.batches && e.batches[0] == 0 && e.accepted == e.sent == [0]
            && var r := Step(net, e, StateChanged(0, Script([Throw])));
               0 in r.batches && r.batches[0] == 0 && !Done(r, 0)
  {
    var event := Execute(path, handlers, Overrides(None, None));
    InitialIsGood();
    StepFollows(net, INITIAL, event);
    OneCall(net, path, handlers);
    hide Step, Outstanding, Waiting, Answered, Live, Moves, Flows;
    ThrowLeavesOutstanding(net, Step(net, INITIAL, event), 0);
  }

  lemma OneCall(net: Net, path: string, handlers: Handlers)
    requires !Fails(net(0))
    ensures var e := Step(net, INITIAL, Execute(path, handlers, Overrides(None, None)));
            && Active(e, 0) && !Done(e, 0) && e.store[0].async && !e.unloading
            && e.batches == map[0 := 0] && e.accepted == e.sent == [0]
  {
    hide Report, StateChange, Within;
    var batch := WithCall(NewBatch(INITIAL), path, handlers, Overrides(None, None));
    var e1 := INITIAL.(store := [batch], current := Some(0));
    assert ExecuteCall(net, INITIAL, path, handlers, Overrides(None, None)) == EndBatch(net, e1, Overrides(None, None));
    var e2 := e1.(current := None, accepted := [0]);
    assert Merged(batch, Overrides(None, None)) == batch;
    assert EndBatch(net, e1, Overrides(None, None)) == SendData(net, e2, 0);
    assert SendData(net, e2, 0) == Registered(e2, 0);
  }

  /** A batch exception that names an outstanding batch completes that one if and only if no other
      reply counts as being run, as the reply of a script that threw still does. */
  lemma NamedBatchExactly(net: Net, e: Engine, id: nat)
    requires Good(e) && id in e.batches
    requires e.received.Some? ==> Unscripted(e) || e.store[e.received.value].completed
    ensures Done(Obey(net, e, BatchException(Some(id))), e.batches[id])
            <==> (e.received.None? || e.received.value == e.batches[id])
  {
    hide Outstanding, Waiting, Answered, Live, Obey, Unscripted;
    OutstandingBatch(e, id);
    BatchExceptionCompletes(net, e, Some(id));
    if e.received.Some? && e.received.value != e.batches[id] {
      ChargedToReceived(net, e, e.received.value, e.batches[id], Some(id));
    }
  }

  lemma ChargedToReceived(net: Net, e: Engine, x: BatchRef, b: BatchRef, about: Option<nat>)
    requires Good(e) && Active(e, b) && !e.store[b].completed && e.received == Some(x) && x != b
    requires Unscripted(e) || e.store[x].completed
    ensures !Done(Obey(net, e, BatchException(about)), b)
  {
    WaitsNot(e, b);
    hide Outstanding, Waiting, Answered, Live, Obey, Report, Unscripted;
    ExceptionReports(net, e, x, about);
    OtherReported(net, e, x, b);
  }

  lemma ExceptionReports(net: Net, e: Engine, x: BatchRef, about: Option<nat>)
    requires InStore(e) && e.received == Some(x)
    ensures Obey(net, e, BatchException(about)) == Report(net, e, Some(x), false)
  {
    hide Report, ClearUp;
    assert e.(received := Some(x)) == e;
  }

  lemma OtherReported(net: Net, e: Engine, x: BatchRef, b: BatchRef)
    requires InStore(e) && x < |e.store| && b < |e.store| && x != b && b !in e.queue
    requires Unscripted(e) || e.store[x].completed
    ensures Report(net, e, Some(x), false).store[b] == e.store[b]
  {
    if !e.store[x].completed {
      hide Report;
      ReportUntouched(net, e, x, b, false);
    }
  }
}
