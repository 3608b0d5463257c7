/** What user code is told, and when: each fault by an error or a warning, before its batch is cleared up;
    and the branches of the engine that do nothing else. */
module DwrReports {
  import opened Options
  import opened DwrEngine
  import opened DwrRuns
  import opened DwrSafety
  import opened DwrRelease
  import opened DwrScripts
  import opened DwrHandlers
  import opened DwrCallbacks

  /** The next thing said is this one. */
  predicate SaysNext(e: Engine, n: Note, r: Engine) {
    e.log + [n] <= r.log
  }

  /** After e nothing is said but this. */
  predicate SaysOnly(e: Engine, notes: seq<Note>, r: Engine) {
    r.log == e.log + notes
  }

  lemma ReportSays(net: Net, e: Engine, b: Option<BatchRef>, warning: bool)
    requires InStore(e) && (b.Some? ==> b.value < |e.store|)
    ensures SaysNext(e, Told(b, warning), Report(net, e, b, warning))
  {
    hide ClearUp;
    var e1 := e.(log := e.log + [Told(b, warning)]);
    if b.Some? {
      ClearRetains(net, e1, b.value);
      LogRetained(e1, ClearUp(net, e1, b.value));
    }
  }

  lemma SaidBefore(e: Engine, n: Note, m: Engine, r: Engine)
    requires SaysNext(e, n, m) && Retains(m, r)
    ensures SaysNext(e, n, r)
  {
    LogRetained(m, r);
  }

  // ----- Faults of a send

  datatype Fault = OldSafari | OpenFails | HeadersFail | SendFails

  /** The first thing that goes wrong, in the order of _sendData */
  predicate First(o: Outcome, fault: Fault) {
    match fault
    case OldSafari => o.safari
    case OpenFails => !o.safari && o.openThrows
    case HeadersFail => !o.safari && !o.openThrows && o.headersThrow
    case SendFails => !o.safari && !o.openThrows && !o.headersThrow && o.sendThrows
  }

  /** The first fault of a send is told to the handlers of its batch: the old browser and the refused
      headers as warnings, the others as errors. */
  lemma FaultIsTold(net: Net, e: Engine, b: BatchRef, fault: Fault)
    requires InStore(e) && b < |e.store| && First(net(e.nextId), fault)
    ensures SaysNext(e, Told(Some(b), fault.OldSafari? || fault.HeadersFail?), SendData(net, e, b))
  {
    hide Report, StateChange, SaysNext, Retains, InStore;
    var o, e1 := net(e.nextId), Registered(e, b);
    var warning := fault.OldSafari? || fault.HeadersFail?;
    var m := Report(net, e1, Some(b), warning);
    ReportSays(net, e1, Some(b), warning);
    SameLog(e, e1, Told(Some(b), warning), m);
    SameRetains(m, m);
    if fault.OldSafari? || fault.HeadersFail? {
      AfterWarning(net, e, b, m);
    }
  }

  lemma SameLog(e: Engine, e1: Engine, n: Note, r: Engine)
    requires e1.log == e.log && SaysNext(e1, n, r)
    ensures SaysNext(e, n, r)
  {}

  /** What follows a warning while a batch is being sent */
  lemma AfterWarning(net: Net, e: Engine, b: BatchRef, m: Engine)
    requires InStore(e) && b < |e.store|
    requires var o := net(e.nextId);
             && (o.safari || (!o.openThrows && o.headersThrow))
             && m == Report(net, Registered(e, b), Some(b), true)
             && SaysNext(e, Told(Some(b), true), m)
    ensures SaysNext(e, Told(Some(b), true), SendData(net, e, b))
  {
    hide Report, StateChange, SaysNext, Retains, InStore, Registered;
    var o, n := net(e.nextId), Told(Some(b), true);
    SameRetains(m, m);
    if o.safari {
      if o.openThrows || !m.store[b].req {
        ReportRetains(net, m, Some(b), false);
        SaidBefore(e, n, m, Report(net, m, Some(b), false));
      } else {
        var e3 := if o.headersThrow then Report(net, m, Some(b), true) else m;
        if o.headersThrow {
          ReportRetains(net, m, Some(b), true);
          SaidBefore(e, n, m, e3);
        }
        AfterHeaders(net, e, b, e3);
      }
    } else if !Registered(e, b).store[b].req {
      RegisteredShape(e, b);
      assert false;
    } else {
      AfterHeaders(net, e, b, m);
    }
  }

  lemma AfterHeaders(net: Net, e: Engine, b: BatchRef, m: Engine)
    requires InStore(m) && b < |m.store| && SaysNext(e, Told(Some(b), true), m)
    ensures SaysNext(e, Told(Some(b), true), Report(net, m, Some(b), false))
    ensures forall reply :: var s := StateChange(net, m, b, reply);
              && SaysNext(e, Told(Some(b), true), s.engine)
              && SaysNext(e, Told(Some(b), true), Report(net, s.engine, Some(b), false))
  {
    hide Report, StateChange, SaysNext, Retains;
    var n := Told(Some(b), true);
    ReportRetains(net, m, Some(b), false);
    SaidBefore(e, n, m, Report(net, m, Some(b), false));
    forall reply
      ensures var s := StateChange(net, m, b, reply);
              SaysNext(e, n, s.engine) && SaysNext(e, n, Report(net, s.engine, Some(b), false))
    {
      StateRetains(net, m, b, reply);
      var s := StateChange(net, m, b, reply);
      SaidBefore(e, n, m, s.engine);
      ReportRetains(net, s.engine, Some(b), false);
      SaidBefore(e, n, s.engine, Report(net, s.engine, Some(b), false));
    }
  }

  /** A synchronous send has its batch completed before it returns, unless the reply is not there or
      the page is being left; a script that throws is an error then. */
  lemma SynchronousSend(net: Net, e: Engine, b: BatchRef)
    requires Good(e) && Sendable(e, b) && !e.store[b].async && !Fails(net(e.nextId))
    ensures var reply := net(e.nextId).reply;
            Done(SendData(net, e, b), b) <==> reply.StateThrows? || (!reply.NotDone? && !e.unloading)
  {
    RegisteredSends(e, b);
    RegisteredShape(e, b);
    hide Outstanding, Waiting, Answered, Live, Moves, Registered, Report, StateChange;
    var o, e1 := net(e.nextId), Registered(e, b);
    var s := StateChange(net, e1, b, o.reply);
    StateKeeps(net, e1, b, o.reply);
    ActiveKept(e1, s.engine, b);
    KeptIsGood(e1, s.engine);
    ReportKeeps(net, s.engine, Some(b), false);
    if !o.reply.StateThrows? && (o.reply.NotDone? || e.unloading) {
      NothingYet(net, e1, b, o.reply);
      NothingThrown(net, e1, b, o.reply);
    }
  }

  lemma NothingThrown(net: Net, e: Engine, b: BatchRef, reply: Reply)
    requires InStore(e) && b < |e.store| && (reply.NotDone? || (e.unloading && !reply.StateThrows?))
    ensures !StateChange(net, e, b, reply).threw
  {
    hide Report, ClearUp, Evaluated;
  }

  // ----- Faults of a reply

  /** A reply that is none, or in order, and one that cannot be read are warnings; a status other than
      200 is an error. */
  lemma ReplyIsTold(net: Net, e: Engine, b: BatchRef, reply: Reply)
    requires InStore(e) && b < |e.store| && !e.store[b].completed && e.store[b].id.Some? && e.store[b].async
    ensures reply.StateThrows? ==> SaysNext(e, Told(Some(b), true), Step(net, e, StateChanged(b, reply)))
    ensures reply.Warned? && !e.unloading ==> SaysNext(e, Told(Some(b), true), Step(net, e, StateChanged(b, reply)))
    ensures reply.Failed? && !e.unloading ==> SaysNext(e, Told(Some(b), false), Step(net, e, StateChanged(b, reply)))
  {
    hide Report, ClearUp, Evaluated, SaysNext, Retains, InStore;
    var warning := !reply.Failed?;
    var m := Report(net, e, Some(b), warning);
    ReportSays(net, e, Some(b), warning);
    ClearRetains(net, m, b);
    SaidBefore(e, Told(Some(b), warning), m, ClearUp(net, m, b));
    EvaluatedRetains(net, m, b, []);
    SaidBefore(e, Told(Some(b), warning), m, Evaluated(net, m, b, []).engine);
  }

  /** A timeout is an error, told when all else is done. */
  lemma TimeoutIsTold(net: Net, e: Engine, b: BatchRef)
    requires Good(e) && Active(e, b) && !Done(e, b) && e.store[b].timer
    ensures SaysOnly(ClearUp(net, e, b), [Told(Some(b), false)], Step(net, e, TimedOut(b)))
  {
    hide Outstanding, Waiting, Answered, Live, Moves;
    ClearKeeps(net, e, b);
    hide ClearUp, Keeps;
    CompletedSays(net, ClearUp(net, e, b), b);
  }

  lemma CompletedSays(net: Net, e: Engine, b: BatchRef)
    requires InStore(e) && Done(e, b)
    ensures Report(net, e, Some(b), false) == e.(log := e.log + [Told(Some(b), false)])
  {}

  // ----- Faults in a script

  /** A callback that throws is an error; what finds no handlers, or no callback, says nothing. */
  lemma CallbackFaultIsTold(net: Net, e: Engine, id: nat, call: nat)
    requires Good(e) && id in e.batches
    ensures var b := e.batches[id]; var handlers := e.store[b].handlers; var r := Obey(net, e, Callback(id, call, true));
            if call !in handlers || !handlers[call].callback then SaysOnly(e, [], r)
            else SaysNext(e.(log := e.log + [Called(b, call)]), Told(Some(b), false), r)
  {
    OutstandingBatch(e, id);
    hide Core, Live, InStore, HandleCallback, HandleException, HandleBatchException, SaysOnly, SaysNext;
    CallbackSays(net, e, e.batches[id], call);
  }

  /** An exception for a call without a handler for it goes to the error handler of the batch, and
      clears nothing up. */
  lemma ExceptionFaultIsTold(net: Net, e: Engine, id: nat, call: nat)
    requires Good(e) && id in e.batches
    ensures var b := e.batches[id]; var handlers := e.store[b].handlers; var r := Obey(net, e, Exception(id, call));
            && (call !in handlers ==> SaysOnly(e, [], r))
            && (call in handlers && !handlers[call].exceptionHandler ==> SaysOnly(e, [Told(Some(b), false)], r))
            && !Done(r, b)
  {
    OutstandingBatch(e, id);
    hide Core, Live, InStore, HandleCallback, HandleException, HandleBatchException, SaysOnly;
    ExceptionSays(e, e.batches[id], call);
  }

  lemma CallbackSays(net: Net, e: Engine, b: BatchRef, call: nat)
    requires InStore(e) && b < |e.store|
    ensures var handlers := e.store[b].handlers; var r := HandleCallback(net, e, b, call, true);
            if call !in handlers || !handlers[call].callback then SaysOnly(e, [], r)
            else SaysNext(e.(log := e.log + [Called(b, call)]), Told(Some(b), false), r)
  {
    hide Report, Taken;
    LogOfTaken(e, b, call);
    var e2 := Taken(e, b, call).(log := e.log + [Called(b, call)]);
    ReportSays(net, e2, Some(b), false);
    assert e.log + [] == e.log;
  }

  lemma ExceptionSays(e: Engine, b: BatchRef, call: nat)
    requires b < |e.store| && !e.store[b].completed
    ensures var handlers := e.store[b].handlers; var r := HandleException(e, b, call);
            && (call !in handlers ==> SaysOnly(e, [], r))
            && (call in handlers && !handlers[call].exceptionHandler ==> SaysOnly(e, [Told(Some(b), false)], r))
            && !Done(r, b)
  {
    hide InStore;
    assert e.log + [] == e.log;
  }

  /** Once a call has been answered, by its callback or by an exception, it has no handlers. */
  lemma AnswerUsesUp(net: Net, e: Engine, id: nat, call: nat, throws: bool)
    requires Good(e) && id in e.batches
    ensures call !in Obey(net, e, Callback(id, call, throws)).store[e.batches[id]].handlers
    ensures call !in Obey(net, e, Exception(id, call)).store[e.batches[id]].handlers
  {
    OutstandingBatch(e, id);
    hide Core, Live, InStore, HandleCallback, HandleException, HandleBatchException;
    CallbackUsesUp(net, e, e.batches[id], call, throws);
    ExceptionUsesUp(e, e.batches[id], call);
  }

  lemma ExceptionUsesUp(e: Engine, b: BatchRef, call: nat)
    requires b < |e.store|
    ensures call !in HandleException(e, b, call).store[b].handlers
  {
    hide InStore;
  }

  lemma CallbackUsesUp(net: Net, e: Engine, b: BatchRef, call: nat, throws: bool)
    requires InStore(e) && Good(e) && Active(e, b) && !e.store[b].completed
    ensures call !in HandleCallback(net, e, b, call, throws).store[b].handlers
  {
    TakenShape(e, b, call);
    hide Outstanding, Waiting, Answered, Live, Moves, Report, Taken;
    LogOfTaken(e, b, call);
    var e2 := Taken(e, b, call).(log := e.log + [Called(b, call)]);
    if call in e.store[b].handlers && e.store[b].handlers[call].callback && throws {
      CallNoted(e, b, call, Called(b, call));
      hide Keeps;
      ActiveKept(e, e2, b);
      KeptIsGood(e, e2);
      ReportKeeps(net, e2, Some(b), false);
      NoHandlersBack(e2, Report(net, e2, Some(b), false), b);
    }
  }

  lemma KeptIsGood(e: Engine, r: Engine)
    requires Keeps(e, r)
    ensures Good(r)
  {
    hide Outstanding, Waiting, Answered, Moves;
  }

  lemma NoHandlersBack(e: Engine, r: Engine, b: BatchRef)
    requires Active(e, b) && Keeps(e, r)
    ensures b < |r.store| && r.store[b].handlers.Keys <= e.store[b].handlers.Keys
  {
    hide Core;
    assert Moved(e.store[b], r.store[b]);
  }

  lemma BatchExceptionIsTold(net: Net, e: Engine, about: Option<nat>)
    requires InStore(e)
    ensures var target := if e.received.None? && about.Some? then Find(e, about.value) else e.received;
            SaysNext(e, Told(target, false), Obey(net, e, BatchException(about)))
  {
    hide Report, ClearUp, SaysNext, Retains, Find;
    var search := e.received.None? && about.Some?;
    var target := if search then Find(e, about.value) else e.received;
    FindInStore(e, about);
    var e0 := e.(received := target);
    ReportSays(net, e0, target, false);
    var e1 := Report(net, e0, target, false);
    SameLog(e, e0, Told(target, false), e1);
    if search {
      var e2 := e1.(received := None);
      SameRetains(e1, e2);
      SaidBefore(e, Told(target, false), e1, e2);
      FindInStore(e2, about);
      var again := Find(e2, about.value);
      if again.Some? {
        ClearRetains(net, e2, again.value);
        SaidBefore(e, Told(target, false), e2, ClearUp(net, e2, again.value));
      }
    }
  }

  lemma FindInStore(e: Engine, about: Option<nat>)
    requires InStore(e)
    ensures about.Some? && Find(e, about.value).Some? ==> Find(e, about.value).value < |e.store|
  {}

  // ----- The end of a reply

  /** While nothing waits, clearing up sends nothing. */
  lemma ClearsOnly(net: Net, e: Engine, b: BatchRef)
    requires InStore(e) && b < |e.store| && e.queue == []
    ensures var r := ClearUp(net, e, b);
            r.queue == [] && r.log == e.log && r.received == e.received && r.store[b].completed
  {
    CompletedShape(e, b);
    hide Completed, SendData;
  }

  lemma ReportsOnly(net: Net, e: Engine, b: BatchRef, warning: bool)
    requires InStore(e) && b < |e.store| && e.queue == []
    ensures var r := Report(net, e, Some(b), warning);
            r.queue == [] && r.log == e.log + [Told(Some(b), warning)] && r.received == e.received && r.store[b].completed
  {
    ClearsOnly(net, e.(log := e.log + [Told(Some(b), warning)]), b);
    hide ClearUp;
  }

  /** While nothing waits, the end of a reply is the end of its being the received one; a call without
      an answer is a warning, and if there is none, nothing is said. */
  lemma FinishSays(net: Net, e: Engine, b: BatchRef)
    requires InStore(e) && b < |e.store| && e.queue == [] && !e.store[b].completed
    ensures var r := Finish(net, e, b);
            && r.received == None
            && SaysOnly(e, if exists k :: 0 <= k < e.store[b].callCount && k in e.store[b].handlers then [Told(Some(b), true)] else [], r)
  {
    hide Report, ClearUp;
    var e1 := e.(received := None);
    ClearsOnly(net, e1, b);
    ReportsOnly(net, e1, b, true);
    assert e.log + [] == e.log;
    if Unanswered(e.store[b]) {
      assert Validated(net, e1, b) == Report(net, e1, Some(b), true);
    }
  }

  lemma CoreMeans(e: Engine)
    requires Core(e)
    ensures InStore(e)
  {}

  /** A reply without a script, or with an empty one, to a batch that has unanswered calls: a warning,
      and the batch is over. */
  lemma IncompleteReplyIsTold(net: Net, e: Engine, b: BatchRef)
    requires Good(e) && Active(e, b) && !Done(e, b) && e.store[b].async && !e.unloading && e.queue == []
    ensures var r := Step(net, e, StateChanged(b, Script([]))); var batch := e.store[b];
            && r.received == None && Done(r, b)
            && SaysOnly(e, if exists k :: 0 <= k < batch.callCount && k in batch.handlers then [Told(Some(b), true)] else [], r)
  {
    hide Core, Live, Finish, Step;
    ReplyCompletesExactly(net, e, b, Script([]));
    CoreMeans(e);
    var e1 := e.(received := Some(b));
    assert RunScript(net, e1, []) == Ran(e1, false);
    FinishSays(net, e1, b);
    EndsWithFinish(net, e, b, []);
  }

  /** The reply that answers every call says nothing but what it calls. */
  lemma FullReplySays(net: Net, e: Engine, b: BatchRef, id: nat, hs: seq<Handlers>)
    requires Good(e) && HasFrom(e, b, id, hs, 0) && e.store[b].async && !e.unloading && e.queue == []
    ensures var r := Step(net, e, StateChanged(b, Script(AnswersFrom(id, 0, |hs|))));
            SaysOnly(e, CallsFrom(b, hs, 0), r) && r.received == None
  {
    OutstandingBatch(e, id);
    var commands := AnswersFrom(id, 0, |hs|);
    var e1 := e.(received := Some(b));
    HasReceived(e, b, id, hs);
    hide Core, Live, HasFrom, RunScript, AnswersFrom, CallsFrom, Finish, Step, SaysOnly;
    HasMeans(e1, b, id, hs, 0);
    AnswerAll(net, e1, b, id, hs, 0);
    var m := RunScript(net, e1, commands).engine;
    HasMeans(m, b, id, hs, |hs|);
    FinishSays(net, m, b);
    EndsWithFinish(net, e, b, commands);
    SaysNothingMore(e, CallsFrom(b, hs, 0), m, Finish(net, m, b));
  }

  lemma HasReceived(e: Engine, b: BatchRef, id: nat, hs: seq<Handlers>)
    requires HasFrom(e, b, id, hs, 0)
    ensures HasFrom(e.(received := Some(b)), b, id, hs, 0)
  {
    hide Table;
  }

  lemma SaysNothingMore(e: Engine, notes: seq<Note>, m: Engine, r: Engine)
    requires SaysOnly(m, [], r) && m.log == e.log + notes
    ensures SaysOnly(e, notes, r)
  {
    assert m.log + [] == m.log;
  }

  lemma EndsWithFinish(net: Net, e: Engine, b: BatchRef, commands: seq<Command>)
    requires InStore(e) && b < |e.store| && e.store[b].id.Some? && e.store[b].async && !e.store[b].completed && !e.unloading
    requires !RunScript(net, e.(received := Some(b)), commands).threw
    ensures Step(net, e, StateChanged(b, Script(commands))) == Finish(net, RunScript(net, e.(received := Some(b)), commands).engine, b)
  {
    hide RunScript, Finish;
    assert StateChange(net, e, b, Script(commands)) == Evaluated(net, e, b, commands);
  }

  // ----- The page's own mistakes, and its settings

  /** Beginning twice, ending nothing, and ending an empty batch */
  lemma MisusedBatches(net: Net, e: Engine, options: Overrides)
    requires InStore(e)
    ensures e.current.Some? ==> Step(net, e, Begin) == e.(log := e.log + [Told(None, false)])
    ensures e.current.None? ==> Step(net, e, End(options)) == e.(log := e.log + [Told(None, false)])
    ensures e.current.Some? && e.store[e.current.value].callCount == 0 ==> Step(net, e, End(options)) == e.(current := None)
  {}

  /** A call to a second servlet is an error, and is not added. */
  lemma MismatchIsTold(net: Net, e: Engine, path: string, handlers: Handlers, options: Overrides)
    requires Good(e) && Mismatch(e, path)
    ensures var r := Step(net, e, Execute(path, handlers, options)); var b := e.current.value;
            && SaysNext(e, Told(Some(b), false), r)
            && r.current == Some(b) && b < |r.store| && r.accepted == e.accepted
  {
    hide Outstanding, Waiting, Answered, Live, Moves, Report, SaysNext;
    ReportSays(net, e, e.current, false);
    ReportKeeps(net, e, e.current, false);
  }

  lemma SettingsAreSet(net: Net, e: Engine, on: bool)
    requires InStore(e)
    ensures Step(net, e, SetOrdered(on)) == e.(ordered := on)
    ensures Step(net, e, SetAsync(on)) == e.(async := on)
    ensures Step(net, e, SetTimeout(on)) == e.(timeout := on)
  {}

  /** How the engine starts */
  lemma StartsAs()
    ensures INITIAL.store == [] && INITIAL.batches == map[] && INITIAL.queue == [] && INITIAL.log == []
    ensures INITIAL.nextId == 0 && INITIAL.batchesLength == 0
    ensures !INITIAL.ordered && INITIAL.async && !INITIAL.timeout && !INITIAL.unloading
    ensures INITIAL.current == None && INITIAL.received == None
  {}

  /** A new batch has the settings of the moment, and no call yet. */
  lemma BatchBegins(net: Net, e: Engine)
    requires InStore(e) && e.current.None?
    ensures var r := Step(net, e, Begin); var b := |e.store|;
            && r.current == Some(b) && |r.store| == b + 1 && r.store[..b] == e.store
            && r.store[b].async == e.async && r.store[b].timeout == e.timeout
            && r.store[b].path == None && r.store[b].callCount == 0 && r.store[b].handlers == map[]
            && !r.store[b].isPoll && r.store[b].id == None
            && r == e.(store := r.store, current := r.current)
  {}

  /** A poll that goes out well is outstanding under the next id: asynchronous, without a timeout, and
      with one call whose callback polls again. */
  lemma PollGoesOut(net: Net, e: Engine)
    requires InStore(e) && !Fails(net(e.nextId))
    ensures var r := Step(net, e, Poll); var b := |e.store|;
            && e.nextId in r.batches && r.batches[e.nextId] == b && |r.store| == b + 1 && r.log == e.log
            && r.store[b].isPoll && r.store[b].async && !r.store[b].timer && r.store[b].path == Some("/locate/dwr")
            && r.store[b].callCount == 1 && r.store[b].handlers == map[0 := Handlers(true, false)]
            && r.sent == e.sent && r.queue == e.queue
  {
    hide Report, StateChange;
    var e1 := e.(store := e.store + [PollBatch()]);
    assert e1.store[|e.store|] == PollBatch();
    RegisteredShape(e1, |e.store|);
    assert SendData(net, e1, |e.store|) == Registered(e1, |e.store|);
  }

  // ----- Leaving the page

  lemma {:induction false} EachIsCleared(net: Net, e: Engine, order: seq<nat>, b: BatchRef)
    requires Good(e) && Active(e, b) && (Done(e, b) || e.store[b].id.value in order)
    ensures Done(ClearEach(net, e, order), b)
    decreases |order|
  {
    hide Outstanding, Waiting, Answered, Live, Moves, ClearEach, ClearUp;
    if Done(e, b) {
      ClearEachKeeps(net, e, order);
      DoneKept(e, ClearEach(net, e, order), b);
    } else {
      FirstIsCleared(net, e, order[0], b);
      ClearFirst(net, e, order);
      var e1 := if order[0] in e.batches then ClearUp(net, e, e.batches[order[0]]) else e;
      assert order == [order[0]] + order[1..];
      EachIsCleared(net, e1, order[1..], b);
    }
  }

  lemma ClearFirst(net: Net, e: Engine, order: seq<nat>)
    requires InStore(e) && order != []
    ensures var e1 := if order[0] in e.batches then ClearUp(net, e, e.batches[order[0]]) else e;
            ClearEach(net, e, order) == ClearEach(net, e1, order[1..])
  {
    hide ClearUp;
  }

  lemma FirstIsCleared(net: Net, e: Engine, id: nat, b: BatchRef)
    requires Good(e) && Active(e, b) && !Done(e, b)
    ensures var e1 := if id in e.batches then ClearUp(net, e, e.batches[id]) else e;
            Good(e1) && Active(e1, b) && e1.store[b].id == e.store[b].id && (e.store[b].id.value == id ==> Done(e1, b))
  {
    TargetsActive(e, Some(id));
    IdOfOutstanding(e, b);
    if id in e.batches {
      hide Outstanding, Waiting, Answered, Moves, ClearUp;
      ClearKeeps(net, e, e.batches[id]);
      IdKept(e, ClearUp(net, e, e.batches[id]), b);
    }
  }

  lemma IdOfOutstanding(e: Engine, b: BatchRef)
    requires Core(e) && Active(e, b) && !e.store[b].completed
    ensures e.store[b].id.value in e.batches && e.batches[e.store[b].id.value] == b
  {}

  lemma IdKept(e: Engine, r: Engine, b: BatchRef)
    requires Keeps(e, r) && Active(e, b)
    ensures Active(r, b) && r.store[b].id == e.store[b].id
  {
    hide Core;
    assert Moved(e.store[b], r.store[b]);
  }

  /** Leaving the page completes every batch that was outstanding, once its loop has come by all. */
  lemma UnloadCompletesAll(net: Net, e: Engine, order: seq<nat>)
    requires Good(e) && forall id :: id in e.batches ==> id in order
    ensures var r := Step(net, e, Unload(order));
            && r.unloading && r.queue == []
            && forall b :: Active(e, b) ==> Done(r, b)
  {
    var e1 := e.(unloading := true, queue := []);
    EmptiedCore(e);
    ClearEachKeeps(net, e1, order);
    forall b | Active(e, b)
      ensures Done(ClearEach(net, e1, order), b)
    {
      if !Done(e, b) {
        IdOfOutstanding(e, b);
      }
      EachIsCleared(net, e1, order, b);
    }
    hide Outstanding, Waiting, Answered, Moves, ClearEach;
  }
}
