/** Safety of the scheduler over whole runs: order of sending, one batch at a time, one answer to
    each call, and nothing waiting in vain. */
module DwrSafety {
  import opened Options
  import opened DwrEngine
  import opened DwrRuns

  /** The event has endBatch accept a batch. */
  predicate Takes(e: Engine, event: Event)
    requires e.current.Some? ==> e.current.value < |e.store|
  {
    match event
    case End(_) => Accepts(e)
    case Execute(_, _, _) => e.current.None?
    case _ => false
  }

  /** That batch */
  function Newcomer(e: Engine): BatchRef {
    if e.current.Some? then e.current.value else |e.store|
  }

  predicate IsMismatch(e: Engine, event: Event)
    requires e.current.Some? ==> e.current.value < |e.store|
  {
    event.Execute? && Mismatch(e, event.path)
  }

  /** What one event does to the batches accepted, sent and waiting. */
  ghost predicate Flows(e: Engine, event: Event, r: Engine)
    requires InStore(e)
  {
    && (Takes(e, event) ==>
          && Newcomer(e) !in e.queue
          && r.accepted == e.accepted + [Newcomer(e)]
          && r.sent + r.queue == if SendsAtOnce(e) then e.sent + [Newcomer(e)] + e.queue else e.sent + e.queue + [Newcomer(e)])
    && (!Takes(e, event) ==>
          && r.accepted == e.accepted
          && r.sent + r.queue == if event.Unload? then e.sent else e.sent + e.queue)
  }

  ghost predicate Follows(e: Engine, event: Event, r: Engine)
    requires InStore(e)
  {
    && Core(r) && Live(r) && Moves(e, r) && Flows(e, event, r)
    && r.ordered == (if event.SetOrdered? then event.on else e.ordered)
    && (e.ordered && !event.Poll? && !IsMismatch(e, event) && |e.batches| <= 1 ==> |r.batches| <= 1)
  }

  lemma KeepsFollows(e: Engine, event: Event, r: Engine)
    requires InStore(e) && Keeps(e, r) && StaysSingle(e, r) && !Takes(e, event) && !event.Unload? && !event.SetOrdered?
    ensures Follows(e, event, r)
  {
    hide Core, Moves;
  }

  lemma BeginFollows(net: Net, e: Engine)
    requires Core(e) && Live(e)
    ensures Follows(e, Begin, BeginBatch(e))
  {
    hide Outstanding, Waiting, Answered, Moves;
    BeginKeeps(e);
  }

  lemma EndFollows(net: Net, e: Engine, options: Overrides)
    requires Core(e) && Live(e)
    ensures Follows(e, End(options), EndBatch(net, e, options))
  {
    EndKeeps(net, e, options);
    CurrentIdle(e);
    LengthIsSize(e);
    hide Outstanding, Waiting, Answered, Moves, EndBatch, Idle;
    Ended(e, options, EndBatch(net, e, options));
  }

  lemma Ended(e: Engine, options: Overrides, r: Engine)
    requires InStore(e) && EndsAs(e, r) && e.batchesLength == |e.batches|
    requires e.current.Some? ==> e.current.value !in e.queue
    ensures Follows(e, End(options), r)
  {
    hide Core, Moves;
  }

  lemma PollFollows(net: Net, e: Engine)
    requires Core(e) && Live(e)
    ensures Follows(e, Poll, PollServer(net, e))
  {
    hide Outstanding, Answered, Moves, SendData;
    NewBatchCore(e, PollBatch());
    var e1 := e.(store := e.store + [PollBatch()]);
    NewIsSendable(e, PollBatch());
    SendKeeps(net, e1, |e.store|);
    SentPoll(e, e1, SendData(net, e1, |e.store|));
  }

  lemma NewIsSendable(e: Engine, batch: Batch)
    requires InStore(e) && batch.id.None?
    ensures Sendable(e.(store := e.store + [batch]), |e.store|)
    ensures |e.store| !in e.queue
  {}

  lemma SentPoll(e: Engine, e1: Engine, r: Engine)
    requires InStore(e) && Moves(e, e1) && e1 == e.(store := e.store + [PollBatch()]) && SentTo(e1, |e.store|, r)
    ensures Follows(e, Poll, r)
  {
    hide Core;
    MovesCompose(e, e1, r);
  }

  /** A call added to the batch being built */
  lemma CalledCore(e: Engine, b: BatchRef, path: string, handlers: Handlers, options: Overrides)
    requires Core(e) && e.current == Some(b)
    ensures var r := e.(store := e.store[b := WithCall(e.store[b], path, handlers, options)]);
            && Core(r) && Moves(e, r) && Accepts(r)
  {
    CurrentIdle(e);
    HandlersInRange(e, b);
    UnsentCore(e, b, WithCall(e.store[b], path, handlers, options));
    hide Core, Moves;
  }

  lemma ExecuteFollows(net: Net, e: Engine, path: string, handlers: Handlers, options: Overrides)
    requires Core(e) && Live(e)
    ensures Follows(e, Execute(path, handlers, options), ExecuteCall(net, e, path, handlers, options))
  {
    hide Outstanding, Waiting, Answered, Moves, EndBatch, BeginBatch, WithCall;
    var event := Execute(path, handlers, options);
    if Mismatch(e, path) {
      hide Core;
      ReportKeeps(net, e, e.current, false);
    } else if e.current.Some? {
      CalledCore(e, e.current.value, path, handlers, options);
    } else {
      BeginKeeps(e);
      Begun(e);
      var e1 := BeginBatch(e);
      var b := |e.store|;
      CalledCore(e1, b, path, handlers, options);
      var e2 := e1.(store := e1.store[b := WithCall(e1.store[b], path, handlers, options)]);
      EndKeeps(net, e2, Overrides(None, None));
      MovesCompose(e, e1, e2);
      NewIsSendable(e, NewBatch(e));
      SingleShot(e, e2, EndBatch(net, e2, Overrides(None, None)), event);
    }
  }

  lemma Begun(e: Engine)
    requires e.current.None?
    ensures BeginBatch(e).current == Some(|e.store|) && SameQueues(e, BeginBatch(e))
  {}

  predicate SameQueues(e: Engine, r: Engine) {
    r.accepted == e.accepted && r.sent == e.sent && r.queue == e.queue && r.batches == e.batches
    && r.batchesLength == e.batchesLength && r.ordered == e.ordered
  }

  lemma SingleShot(e: Engine, e2: Engine, r: Engine, event: Event)
    requires Core(e) && e.current.None? && event.Execute? && SameQueues(e, e2) && |e.store| !in e.queue
    requires InStore(e2) && e2.current == Some(|e.store|) && Accepts(e2) && Moves(e, e2) && EndsAs(e2, r)
    ensures Follows(e, event, r)
  {
    LengthIsSize(e);
    hide Core;
    MovesCompose(e, e2, r);
  }

  lemma SettingFollows(e: Engine, event: Event, r: Engine)
    requires Core(e) && Live(e) && (event.SetOrdered? || event.SetAsync? || event.SetTimeout?)
    requires r == e.(ordered := r.ordered, async := r.async, timeout := r.timeout)
    requires r.ordered == if event.SetOrdered? then event.on else e.ordered
    ensures Follows(e, event, r)
  {
    SettingOutstanding(e, r);
    SettingAnswered(e, r);
    hide Outstanding, Answered, Moves;
  }

  lemma SettingOutstanding(e: Engine, r: Engine)
    requires InStore(e) && Outstanding(e) && Waiting(e)
    requires r == e.(ordered := r.ordered, async := r.async, timeout := r.timeout)
    ensures InStore(r) && Outstanding(r) && Waiting(r)
  {}

  lemma SettingAnswered(e: Engine, r: Engine)
    requires Answered(e) && r == e.(ordered := r.ordered, async := r.async, timeout := r.timeout)
    ensures Answered(r) && Moves(e, r)
  {}

  lemma StateChangedFollows(net: Net, e: Engine, b: BatchRef, reply: Reply)
    requires Core(e) && Live(e)
    ensures Follows(e, StateChanged(b, reply), Step(net, e, StateChanged(b, reply)))
  {
    hide Outstanding, Waiting, Answered, Moves, StateChange, Keeps;
    if b < |e.store| && e.store[b].id.Some? && e.store[b].async {
      StateKeeps(net, e, b, reply);
      KeepsFollows(e, StateChanged(b, reply), StateChange(net, e, b, reply).engine);
    } else {
      NothingKeeps(e);
      KeepsFollows(e, StateChanged(b, reply), e);
    }
  }

  lemma NothingKeeps(e: Engine)
    requires Core(e) && Live(e)
    ensures Keeps(e, e) && StaysSingle(e, e)
  {}

  lemma TimerIsActive(e: Engine, b: BatchRef)
    requires Core(e) && b < |e.store| && e.store[b].timer
    ensures Active(e, b) && !e.store[b].completed
  {}

  lemma TimedOutFollows(net: Net, e: Engine, b: BatchRef)
    requires Core(e) && Live(e)
    ensures Follows(e, TimedOut(b), Step(net, e, TimedOut(b)))
  {
    if b < |e.store| && e.store[b].timer {
      TimerIsActive(e, b);
      hide Outstanding, Waiting, Answered, Moves, ClearUp, Report;
      ClearKeeps(net, e, b);
      var e1 := ClearUp(net, e, b);
      ActiveStays(e, e1, b);
      ReportKeeps(net, e1, Some(b), false);
      hide Keeps;
      Chain(e, e1, Report(net, e1, Some(b), false));
      KeepsFollows(e, TimedOut(b), Report(net, e1, Some(b), false));
    } else {
      NothingKeeps(e);
      KeepsFollows(e, TimedOut(b), e);
    }
  }

  lemma ScriptFollows(net: Net, e: Engine, commands: seq<Command>)
    requires Core(e) && Live(e)
    ensures Follows(e, ServerScript(commands), RunScript(net, e, commands).engine)
  {
    hide Outstanding, Waiting, Answered, Moves, RunScript, Keeps;
    ScriptKeeps(net, e, commands);
    KeepsFollows(e, ServerScript(commands), RunScript(net, e, commands).engine);
  }

  lemma {:induction false} ClearEachKeeps(net: Net, e: Engine, order: seq<nat>)
    requires Core(e) && Live(e)
    ensures Keeps(e, ClearEach(net, e, order)) && StaysSingle(e, ClearEach(net, e, order))
    ensures |ClearEach(net, e, order).queue| <= |e.queue|
    decreases |order|
  {
    NothingKeeps(e);
    if order != [] {
      TargetsActive(e, Some(order[0]));
      hide Outstanding, Waiting, Answered, Moves, ClearUp;
      if order[0] in e.batches {
        ClearKeeps(net, e, e.batches[order[0]]);
        var e1 := ClearUp(net, e, e.batches[order[0]]);
        ClearEachKeeps(net, e1, order[1..]);
        hide Keeps;
        Chain(e, e1, ClearEach(net, e1, order[1..]));
      } else {
        ClearEachKeeps(net, e, order[1..]);
      }
    }
  }

  lemma UnloadFollows(net: Net, e: Engine, order: seq<nat>)
    requires Core(e) && Live(e)
    ensures Follows(e, Unload(order), Step(net, e, Unload(order)))
  {
    var e1 := e.(unloading := true, queue := []);
    EmptiedCore(e);
    hide Outstanding, Waiting, Answered, Moves, ClearEach;
    ClearEachKeeps(net, e1, order);
    Unloaded(e, e1, ClearEach(net, e1, order), order);
  }

  lemma Unloaded(e: Engine, e1: Engine, r: Engine, order: seq<nat>)
    requires InStore(e) && Moves(e, e1) && e1 == e.(unloading := true, queue := [])
    requires InStore(e1) && Keeps(e1, r) && StaysSingle(e1, r) && |r.queue| <= 0
    ensures Follows(e, Unload(order), r)
  {
    hide Core, Moves;
    assert r.queue == [];
    assert e1.sent + [] == e1.sent && r.sent + [] == r.sent;
    MovesCompose(e, e1, r);
  }

  lemma EmptiedCore(e: Engine)
    requires Core(e)
    ensures var r := e.(unloading := true, queue := []); Core(r) && Live(r) && Moves(e, r)
  {}

  /** Every event keeps the invariant and moves the batches as it should. */
  lemma StepFollows(net: Net, e: Engine, event: Event)
    requires Core(e) && Live(e)
    ensures Follows(e, event, Step(net, e, event))
  {
    hide Outstanding, Waiting, Answered, Follows, ExecuteCall, EndBatch, PollServer, RunScript, BeginBatch, StateChange, AbortRequest, ClearEach;
    match event
    case Begin => BeginFollows(net, e);
    case Execute(path, handlers, options) => ExecuteFollows(net, e, path, handlers, options);
    case End(options) => EndFollows(net, e, options);
    case SetOrdered(_) => SettingFollows(e, event, Step(net, e, event));
    case SetAsync(_) => SettingFollows(e, event, Step(net, e, event));
    case SetTimeout(_) => SettingFollows(e, event, Step(net, e, event));
    case Poll => PollFollows(net, e);
    case StateChanged(b, reply) => StateChangedFollows(net, e, b, reply);
    case TimedOut(b) => TimedOutFollows(net, e, b);
    case ServerScript(commands) => ScriptFollows(net, e, commands);
    case Unload(order) => UnloadFollows(net, e, order);
  }

  // ----- Runs

  /** The invariant that every reachable state has */
  ghost predicate Good(e: Engine) {
    Core(e) && Live(e)
  }

  lemma InitialIsGood()
    ensures Good(INITIAL)
  {}

  /** Every run keeps the invariant; batches only move forward, and the log only grows by answers
      to calls of batches that were not done. */
  lemma {:induction false} RunsAreGood(net: Net, e: Engine, events: seq<Event>)
    requires Good(e)
    ensures Good(Run(net, e, events)) && Moves(e, Run(net, e, events))
    decreases |events|
  {
    hide Outstanding, Waiting, Answered, Moves, Live, Flows, Step;
    MovesNowhere(e);
    if events != [] {
      StepFollows(net, e, events[0]);
      var e1 := Step(net, e, events[0]);
      RunsAreGood(net, e1, events[1..]);
      MovesCompose(e, e1, Run(net, e1, events[1..]));
    }
  }

  /** In every reachable state the counter is the number of outstanding batches, ids are not shared,
      and batches wait only while there is one outstanding. */
  lemma EveryStateIsConsistent(net: Net, events: seq<Event>)
    ensures var e := Run(net, INITIAL, events);
            && e.batchesLength == |e.batches|
            && (e.queue != [] ==> |e.batches| > 0)
            && (forall a, b :: 0 <= a < b < |e.store| && e.store[a].id.Some? ==> e.store[a].id != e.store[b].id)
            && (forall id, b :: (id in e.batches && e.batches[id] == b)
                  <==> (0 <= b < |e.store| && e.store[b].id == Some(id) && !e.store[b].completed))
  {
    InitialIsGood();
    RunsAreGood(net, INITIAL, events);
  }

  predicate Answers(n: Note, b: BatchRef, call: nat) {
    IsCall(n) && n.batch == b && n.call == call
  }

  /** Over any run each call of a batch gets at most one answer, and none after its batch is done. */
  lemma AnsweredAtMostOnce(net: Net, before: seq<Event>, after: seq<Event>, b: BatchRef, call: nat)
    ensures var e := Run(net, INITIAL, before); var r := Run(net, e, after);
            && e.log <= r.log
            && (forall i, j :: 0 <= i < j < |r.log| && Answers(r.log[i], b, call) ==> !Answers(r.log[j], b, call))
            && (Done(e, b) ==> Done(r, b) && forall i :: |e.log| <= i < |r.log| ==> !Answers(r.log[i], b, call))
  {
    hide Run, Outstanding, Waiting;
    InitialIsGood();
    RunsAreGood(net, INITIAL, before);
    var e := Run(net, INITIAL, before);
    RunsAreGood(net, e, after);
    var r := Run(net, e, after);
    if Done(e, b) {
      assert Moved(e.store[b], r.store[b]);
    }
  }

  /** Once a batch is done, whatever still comes in about it changes nothing at all. */
  lemma LateRepliesAreIgnored(net: Net, e: Engine, b: BatchRef, reply: Reply, commands: seq<Command>)
    requires Good(e) && Done(e, b)
    requires forall i :: 0 <= i < |commands| ==>
               (commands[i].Callback? || commands[i].Exception?) && commands[i].id == e.store[b].id.value
    ensures Step(net, e, StateChanged(b, reply)) == e
    ensures Step(net, e, TimedOut(b)) == e
    ensures Step(net, e, ServerScript(commands)) == e
  {
    assert e.store[b].id.value !in e.batches;
    hide Outstanding, Waiting, Answered;
    UnknownIdsRun(net, e, commands, e.store[b].id.value);
  }

  lemma {:induction false} UnknownIdsRun(net: Net, e: Engine, commands: seq<Command>, id: nat)
    requires InStore(e) && id !in e.batches
    requires forall i :: 0 <= i < |commands| ==> (commands[i].Callback? || commands[i].Exception?) && commands[i].id == id
    ensures RunScript(net, e, commands) == Ran(e, false)
    decreases |commands|
  {
    if commands != [] {
      assert commands[0].id == id;
      UnknownIdsRun(net, e, commands[1..], id);
    }
  }

  // ----- Order

  /** What endBatch accepted so far is what was sent, polls aside, and then what waits. */
  predicate Fifo(e: Engine) {
    e.accepted == e.sent + e.queue
  }

  /** The two ways to fall out of order: a batch sent at once while others wait, which takes ordered
      mode to have been switched off, and the page being left while some wait */
  predicate Overtakes(e: Engine, event: Event)
    requires e.current.Some? ==> e.current.value < |e.store|
  {
    e.queue != [] && (event.Unload? || (Takes(e, event) && !e.ordered))
  }

  /** One event keeps the order exactly when it is neither. */
  lemma OrderExactly(net: Net, e: Engine, event: Event)
    requires Good(e) && Fifo(e)
    ensures Fifo(Step(net, e, event)) <==> !Overtakes(e, event)
  {
    LengthIsSize(e);
    StepFollows(net, e, event);
    hide Outstanding, Waiting, Answered, Moves, Step;
    FlowsInOrder(e, event, Step(net, e, event));
  }

  lemma FlowsInOrder(e: Engine, event: Event, r: Engine)
    requires InStore(e) && Fifo(e) && Flows(e, event, r) && (SendsAtOnce(e) ==> !e.ordered || e.queue == [])
    requires e.queue != [] ==> e.batchesLength != 0
    ensures Fifo(r) <==> !Overtakes(e, event)
  {
    if Takes(e, event) && e.queue != [] && SendsAtOnce(e) {
      Apart(e.sent, Newcomer(e), e.queue);
    } else if e.queue == [] {
      assert e.sent + [] == e.sent && e.sent + [Newcomer(e)] + [] == e.sent + [] + [Newcomer(e)];
    }
  }

  lemma Apart(s: seq<nat>, b: nat, q: seq<nat>)
    requires q != [] && b !in q
    ensures s + [b] + q != s + q + [b]
  {
    assert (s + [b] + q)[|s|] == b && (s + q + [b])[|s|] == q[0];
  }

  /** While ordered mode stays on, whatever else happens, batches are sent in the order in which
      endBatch accepted them. */
  lemma {:induction false} OrderedRuns(net: Net, e: Engine, events: seq<Event>)
    requires Good(e) && e.ordered && Fifo(e)
    requires forall i :: 0 <= i < |events| ==> (events[i].SetOrdered? ==> events[i].on) && !events[i].Unload?
    ensures var r := Run(net, e, events); r.ordered && Fifo(r) && r.sent <= r.accepted && e.accepted <= r.accepted
    decreases |events|
  {
    hide Outstanding, Waiting, Answered, Moves, Step;
    if events != [] {
      StepFollows(net, e, events[0]);
      OrderExactly(net, e, events[0]);
      OrderedRuns(net, Step(net, e, events[0]), events[1..]);
    }
  }

  /** Leaving the page drops what waits and only that: what was sent is still in order. */
  lemma UnloadDropsTheQueue(net: Net, e: Engine, order: seq<nat>)
    requires Good(e) && Fifo(e)
    ensures var r := Step(net, e, Unload(order)); r.sent == e.sent && r.queue == [] && r.sent + e.queue == r.accepted
  {
    hide Outstanding, Waiting, Answered, Moves, ClearEach;
    UnloadFollows(net, e, order);
    EmptiedCore(e);
    ClearEachKeeps(net, e.(unloading := true, queue := []), order);
    var r := Step(net, e, Unload(order));
    assert r.queue == [];
    assert r.sent + r.queue == r.sent;
  }

  predicate MayAddAnother(e: Engine, event: Event)
    requires e.current.Some? ==> e.current.value < |e.store|
  {
    event.Poll? || IsMismatch(e, event) || (event.SetOrdered? && !event.on)
  }

  ghost predicate Quiet(net: Net, e: Engine, events: seq<Event>)
    requires InStore(e)
    decreases |events|
  {
    events == [] || (!MayAddAnother(e, events[0]) && Quiet(net, Step(net, e, events[0]), events[1..]))
  }

  /** Ordered, without polling and without calls to two servlets in one batch, there is never more
      than one batch outstanding. */
  lemma {:induction false} OneAtATime(net: Net, e: Engine, events: seq<Event>)
    requires Good(e) && e.ordered && |e.batches| <= 1 && Quiet(net, e, events)
    ensures |Run(net, e, events).batches| <= 1
    decreases |events|
  {
    hide Outstanding, Waiting, Answered, Moves, Step, Flows;
    if events != [] {
      StepFollows(net, e, events[0]);
      OneAtATime(net, Step(net, e, events[0]), events[1..]);
    }
  }
}
