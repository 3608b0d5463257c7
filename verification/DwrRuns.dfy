/** What holds of the scheduler in every state that any run can reach. */
module DwrRuns {
  import opened Options
  import opened DwrEngine

  // ----- The invariant

  predicate IsCall(n: Note) {
    n.Called? || n.Excepted?
  }

  /** Batches by id are exactly those sent and not completed; ids are never shared. */
  ghost predicate Outstanding(e: Engine) {
    && InStore(e)
    && (forall id :: id in e.batches ==> e.store[e.batches[id]].id == Some(id) && !e.store[e.batches[id]].completed)
    && (forall b :: 0 <= b < |e.store| && e.store[b].id.Some? ==>
          e.store[b].id.value < e.nextId && (!e.store[b].completed ==> e.store[b].id.value in e.batches && e.store[b].req))
    && (forall a, b :: 0 <= a < b < |e.store| && e.store[a].id.Some? ==> e.store[a].id != e.store[b].id)
    && e.batchesLength == |e.batches|
    && (e.received.Some? ==> e.store[e.received.value].id.Some?)
    && (forall b :: 0 <= b < |e.store| && e.store[b].timer ==> e.store[b].id.Some? && !e.store[b].completed)
  }

  /** Waiting batches, each once, and the one being built have not been sent and are no polls. */
  ghost predicate Waiting(e: Engine) {
    && InStore(e)
    && (forall i :: 0 <= i < |e.queue| ==> Idle(e.store[e.queue[i]]))
    && (forall i, j :: 0 <= i < j < |e.queue| ==> e.queue[i] != e.queue[j])
    && (e.current.Some? ==> Idle(e.store[e.current.value]) && e.current.value !in e.queue)
  }

  predicate Idle(batch: Batch) {
    batch.id.None? && !batch.isPoll
  }

  /** Handlers belong to calls that were made; a call that was answered has none left, and none
      was answered twice. */
  ghost predicate Answered(e: Engine) {
    && (forall b, c :: 0 <= b < |e.store| && c in e.store[b].handlers ==> c < e.store[b].callCount)
    && (forall i :: 0 <= i < |e.log| && IsCall(e.log[i]) ==> Spent(e, e.log[i].batch, e.log[i].call))
    && (forall i, j :: 0 <= i < j < |e.log| && IsCall(e.log[i]) && IsCall(e.log[j]) ==>
          e.log[i].batch != e.log[j].batch || e.log[i].call != e.log[j].call)
  }

  predicate Spent(e: Engine, b: BatchRef, c: nat) {
    b < |e.store| && e.store[b].id.Some? && c !in e.store[b].handlers
  }

  ghost predicate Core(e: Engine) {
    InStore(e) && Outstanding(e) && Waiting(e) && Answered(e)
  }

  /** Something is outstanding that will release the queue. */
  predicate Live(e: Engine) {
    e.queue != [] ==> |e.batches| > 0
  }

  // ----- How a state may follow another

  predicate Done(e: Engine, b: BatchRef) {
    b < |e.store| && e.store[b].id.Some? && e.store[b].completed
  }

  /** A sent batch keeps its id, never gets handlers back, and stays completed. */
  predicate Moved(a: Batch, b: Batch) {
    a.isPoll == b.isPoll
    && (a.id.Some? ==> b.id == a.id && b.callCount == a.callCount && b.handlers.Keys <= a.handlers.Keys
                       && (a.completed ==> b.completed))
  }

  ghost predicate Moves(e: Engine, r: Engine) {
    && |e.store| <= |r.store|
    && (forall b :: 0 <= b < |e.store| ==> Moved(e.store[b], r.store[b]))
    && e.log <= r.log
    && (forall i :: |e.log| <= i < |r.log| && IsCall(r.log[i]) ==> !Done(e, r.log[i].batch))
  }

  predicate SameSettings(e: Engine, r: Engine) {
    r.ordered == e.ordered && r.async == e.async && r.timeout == e.timeout && r.current == e.current
    && r.unloading == e.unloading && r.accepted == e.accepted
  }

  /** Sent and waiting batches, in this order, stay what they were. */
  ghost predicate Keeps(e: Engine, r: Engine) {
    && Core(r) && Live(r) && Moves(e, r) && SameSettings(e, r)
    && r.sent + r.queue == e.sent + e.queue
  }

  predicate StaysSingle(e: Engine, r: Engine) {
    |e.batches| <= 1 ==> |r.batches| <= 1
  }

  lemma MovesCompose(e: Engine, m: Engine, r: Engine)
    requires Moves(e, m) && Moves(m, r)
    ensures Moves(e, r)
  {}

  lemma KeepsCompose(e: Engine, m: Engine, r: Engine)
    requires Keeps(e, m) && Keeps(m, r)
    ensures Keeps(e, r)
  {
    hide Core, Moves, Live;
    MovesCompose(e, m, r);
  }

  // ----- Single changes

  lemma SizeWithout<T>(m: map<nat, T>, k: nat)
    ensures |Forget(m, k)| == if k in m then |m| - 1 else |m|
  {
    var r := Forget(m, k);
    assert |r| == |r.Keys| && |m| == |m.Keys|;
    if k !in m {
      assert m.Keys - {k} == m.Keys;
    }
  }

  /** Registering changes one batch and the table of outstanding ones. */
  lemma RegisteredShape(e: Engine, b: BatchRef)
    requires b < |e.store|
    ensures var r := Registered(e, b);
            && |r.store| == |e.store| && r.queue == e.queue && r.log == e.log && r.nextId == e.nextId + 1
            && SameSettings(e, r) && r.received == e.received
            && (forall x :: 0 <= x < |e.store| && x != b ==> r.store[x] == e.store[x])
            && r.store[b] == e.store[b].(id := Some(e.nextId), completed := false, req := true, timer := e.store[b].timeout)
            && r.batches == e.batches[e.nextId := b] && r.batchesLength == e.batchesLength + 1
  {}

  lemma RegisteredOutstanding(e: Engine, b: BatchRef)
    requires Outstanding(e) && b < |e.store| && e.store[b].id.None?
    ensures Outstanding(Registered(e, b)) && |Registered(e, b).batches| == |e.batches| + 1
  {
    hide Registered;
    RegisteredShape(e, b);
    var r := Registered(e, b);
    assert e.nextId !in e.batches;
    forall id | id in r.batches
      ensures r.batches[id] < |r.store| && r.store[r.batches[id]].id == Some(id) && !r.store[r.batches[id]].completed
    {
      if id != e.nextId {
        assert e.batches[id] != b;
      }
    }
    RegisteredIds(e, b);
  }

  lemma RegisteredIds(e: Engine, b: BatchRef)
    requires Outstanding(e) && b < |e.store| && e.store[b].id.None?
    ensures var r := Registered(e, b);
            && InStore(r)
            && (forall x :: 0 <= x < |r.store| && r.store[x].id.Some? ==>
                  r.store[x].id.value < r.nextId && (!r.store[x].completed ==> r.store[x].id.value in r.batches && r.store[x].req))
            && (forall x, y :: 0 <= x < y < |r.store| && r.store[x].id.Some? ==> r.store[x].id != r.store[y].id)
  {
    assert InStore(Registered(e, b));
    hide Registered, InStore;
    RegisteredShape(e, b);
  }

  lemma RegisteredWaiting(e: Engine, b: BatchRef)
    requires Waiting(e) && b < |e.store| && b !in e.queue && e.current != Some(b)
    ensures Waiting(Registered(e, b))
  {}

  lemma RegisteredAnswered(e: Engine, b: BatchRef)
    requires Answered(e) && b < |e.store| && e.store[b].id.None?
    ensures Answered(Registered(e, b)) && Moves(e, Registered(e, b))
  {
    hide Registered;
    RegisteredShape(e, b);
  }

  /** Completing changes one batch, and nothing of it that the other invariants speak of. */
  lemma CompletedShape(e: Engine, b: BatchRef)
    requires b < |e.store|
    ensures var r := Completed(e, b);
            && |r.store| == |e.store| && r.queue == e.queue && r.log == e.log && r.nextId == e.nextId
            && r.sent == e.sent && SameSettings(e, r) && r.received == e.received
            && (forall x :: 0 <= x < |e.store| && x != b ==> r.store[x] == e.store[x])
            && r.store[b] == e.store[b].(completed := true, req := false, timer := false)
            && r.batches == (if e.store[b].id.Some? then Forget(e.batches, e.store[b].id.value) else e.batches)
            && r.batchesLength == (if e.store[b].id.Some? then e.batchesLength - 1 else e.batchesLength)
  {}

  lemma CompletedOutstanding(e: Engine, b: BatchRef)
    requires Outstanding(e) && b < |e.store| && !e.store[b].completed
    ensures Outstanding(Completed(e, b))
    ensures |Completed(e, b).batches| == if e.store[b].id.Some? then |e.batches| - 1 else |e.batches|
  {
    hide Completed;
    CompletedShape(e, b);
    var r := Completed(e, b);
    if e.store[b].id.Some? {
      SizeWithout(e.batches, e.store[b].id.value);
    }
    forall id | id in r.batches
      ensures r.batches[id] < |r.store| && r.store[r.batches[id]].id == Some(id) && !r.store[r.batches[id]].completed
    {
      assert e.batches[id] != b;
    }
  }

  lemma CompletedWaiting(e: Engine, b: BatchRef)
    requires Waiting(e) && b < |e.store|
    ensures Waiting(Completed(e, b))
  {
    hide Completed;
    CompletedShape(e, b);
    assert InStore(Completed(e, b)) by {
      CompletedInStore(e, b);
    }
  }

  lemma CompletedInStore(e: Engine, b: BatchRef)
    requires InStore(e) && b < |e.store|
    ensures InStore(Completed(e, b))
  {}

  lemma CompletedAnswered(e: Engine, b: BatchRef)
    requires Answered(e) && b < |e.store|
    ensures Answered(Completed(e, b)) && Moves(e, Completed(e, b))
  {
    hide Completed;
    CompletedShape(e, b);
  }

  lemma Popped(e: Engine)
    requires Core(e) && e.queue != []
    ensures Core(e.(queue := e.queue[1..]))
    ensures Idle(e.store[e.queue[0]]) && e.queue[0] !in e.queue[1..] && e.current != Some(e.queue[0])
  {
    var q := e.queue[1..];
    assert forall i :: 0 <= i < |q| ==> q[i] == e.queue[i + 1];
  }

  // ----- The mutually recursive functions

  /** A batch that may be sent now */
  ghost predicate Sendable(e: Engine, b: BatchRef) {
    b < |e.store| && e.store[b].id.None? && b !in e.queue && e.current != Some(b)
  }

  /** Sending: the batch comes right behind those sent before, in front of the waiting ones. */
  ghost predicate Sends(e: Engine, b: BatchRef, r: Engine)
    requires b < |e.store|
  {
    && Core(r) && Live(r) && Moves(e, r) && SameSettings(e, r)
    && r.sent + r.queue == (if e.store[b].isPoll then e.sent else e.sent + [b]) + e.queue
    && (|e.batches| == 0 ==> |r.batches| <= 1)
  }

  lemma RegisteredSends(e: Engine, b: BatchRef)
    requires Core(e) && Sendable(e, b)
    ensures var r := Registered(e, b); Sends(e, b, r) && |r.batches| == |e.batches| + 1 && Active(r, b)
  {
    RegisteredOutstanding(e, b);
    RegisteredWaiting(e, b);
    RegisteredAnswered(e, b);
  }

  /** A batch that has been sent, completed or not */
  predicate Active(e: Engine, b: BatchRef) {
    b < |e.store| && e.store[b].id.Some?
  }

  lemma ActiveStays(e: Engine, r: Engine, b: BatchRef)
    requires Active(e, b) && Moves(e, r)
    ensures Active(r, b)
  {
    assert Moved(e.store[b], r.store[b]);
  }

  /** The batch has been sent from e, and x came of it. */
  ghost predicate SentTo(e: Engine, b: BatchRef, x: Engine) {
    b < |e.store| && Sends(e, b, x) && Active(x, b) && |x.queue| <= |e.queue|
  }

  lemma SentThenKeeps(e: Engine, b: BatchRef, m: Engine, r: Engine)
    requires SentTo(e, b, m) && Keeps(m, r) && StaysSingle(m, r) && |r.queue| <= |m.queue|
    ensures SentTo(e, b, r)
  {
    hide Core;
    MovesCompose(e, m, r);
    ActiveStays(m, r, b);
  }

  /** Something goes wrong before the request is on its way. */
  predicate Fails(o: Outcome) {
    o.safari || o.openThrows || o.headersThrow || o.sendThrows
  }

  lemma {:induction false} SendKeeps(net: Net, e: Engine, b: BatchRef)
    requires Core(e) && Sendable(e, b)
    ensures SentTo(e, b, SendData(net, e, b))
    ensures Fails(net(e.nextId)) ==> Done(SendData(net, e, b), b)
    decreases |e.queue|, 5, 0
  {
    hide Outstanding, Waiting, Answered, Moves, Live, SentTo, Registered, Report, StateChange;
    RegisteredSends(e, b);
    var o := net(e.nextId);
    var e1 := Registered(e, b);
    SentToIs(e, b, e1);
    var e2 := if o.safari then Report(net, e1, Some(b), true) else e1;
    if o.safari {
      ReportAfter(net, e, b, e1, true);
    }
    if o.openThrows || !e2.store[b].req {
      ReportAfter(net, e, b, e2, false);
    } else {
      var e3 := if o.headersThrow then Report(net, e2, Some(b), true) else e2;
      if o.headersThrow {
        ReportAfter(net, e, b, e2, true);
      }
      if o.sendThrows || !e3.store[b].req {
        ReportAfter(net, e, b, e3, false);
      } else if !e3.store[b].async {
        StateAfter(net, e, b, e3, o.reply);
        var s := StateChange(net, e3, b, o.reply);
        if s.threw {
          ReportAfter(net, e, b, s.engine, false);
        }
      }
    }
  }

  lemma SentToIs(e: Engine, b: BatchRef, x: Engine)
    requires b < |e.store| && Sends(e, b, x) && Active(x, b) && |x.queue| <= |e.queue|
    ensures SentTo(e, b, x)
  {}

  lemma {:induction false} ReportAfter(net: Net, e: Engine, b: BatchRef, x: Engine, warning: bool)
    requires SentTo(e, b, x)
    ensures InStore(x) && b < |x.store| && SentTo(e, b, Report(net, x, Some(b), warning))
    ensures Done(Report(net, x, Some(b), warning), b)
    decreases |x.queue|, 1, 1
  {
    hide Outstanding, Answered, Moves, Report;
    ReportKeeps(net, x, Some(b), warning);
    SentThenKeeps(e, b, x, Report(net, x, Some(b), warning));
  }

  lemma {:induction false} StateAfter(net: Net, e: Engine, b: BatchRef, x: Engine, reply: Reply)
    requires SentTo(e, b, x)
    ensures InStore(x) && b < |x.store| && SentTo(e, b, StateChange(net, x, b, reply).engine)
    ensures Done(x, b) ==> Done(StateChange(net, x, b, reply).engine, b)
    decreases |x.queue|, 4, 1
  {
    hide Outstanding, Answered, Moves, StateChange;
    StateKeeps(net, x, b, reply);
    SentThenKeeps(e, b, x, StateChange(net, x, b, reply).engine);
    DoneKept(x, StateChange(net, x, b, reply).engine, b);
  }

  lemma DoneKept(e: Engine, r: Engine, b: BatchRef)
    requires Keeps(e, r)
    ensures Done(e, b) ==> Done(r, b)
  {
    hide Core;
    if Done(e, b) {
      assert Moved(e.store[b], r.store[b]);
    }
  }

  /** A completed batch, and then the first one waiting if there is any */
  lemma {:induction false} ClearKeeps(net: Net, e: Engine, b: BatchRef)
    requires Core(e) && Live(e) && b < |e.store|
    ensures Keeps(e, ClearUp(net, e, b))
    ensures Active(e, b) ==> StaysSingle(e, ClearUp(net, e, b)) && Done(ClearUp(net, e, b), b)
    decreases |e.queue|, 0, 0
  {
    hide Outstanding, Waiting, Answered, Moves, SentTo, Completed, SendData;
    if e.store[b].completed {
      MovesNowhere(e);
    } else {
      CompletedCore(e, b);
      CompletedShape(e, b);
      var e1 := Completed(e, b);
      if e1.queue != [] {
        Popped(e1);
        var e2 := e1.(queue := e1.queue[1..]);
        SendKeeps(net, e2, e1.queue[0]);
        SentMeansKept(e, e1, SendData(net, e2, e1.queue[0]));
        DoneStays(e2, e1.queue[0], SendData(net, e2, e1.queue[0]), b);
      }
    }
  }

  lemma DoneStays(e: Engine, x: BatchRef, r: Engine, b: BatchRef)
    requires SentTo(e, x, r)
    ensures Done(e, b) ==> Done(r, b)
  {
    hide Core;
    if Done(e, b) {
      assert Moved(e.store[b], r.store[b]);
    }
  }

  lemma MovesNowhere(e: Engine)
    ensures Moves(e, e)
  {}

  lemma CompletedCore(e: Engine, b: BatchRef)
    requires Core(e) && b < |e.store| && !e.store[b].completed
    ensures Core(Completed(e, b)) && Moves(e, Completed(e, b))
    ensures |Completed(e, b).batches| == if e.store[b].id.Some? then |e.batches| - 1 else |e.batches|
  {
    hide Outstanding, Waiting, Answered, Moves, Completed;
    CompletedOutstanding(e, b);
    CompletedWaiting(e, b);
    CompletedAnswered(e, b);
  }

  lemma SentMeansKept(e: Engine, e1: Engine, r: Engine)
    requires Moves(e, e1) && SameSettings(e, e1) && e1.sent == e.sent && e1.queue == e.queue && e1.queue != []
    requires e1.queue[0] < |e1.store| && !e1.store[e1.queue[0]].isPoll
    requires SentTo(e1.(queue := e1.queue[1..]), e1.queue[0], r)
    ensures Keeps(e, r)
    ensures |e1.batches| == 0 ==> |r.batches| <= 1
  {
    hide Core;
    MovesCompose(e, e1.(queue := e1.queue[1..]), r);
    assert e1.sent + [e1.queue[0]] + e1.queue[1..] == e1.sent + e1.queue;
  }

  lemma {:induction false} ReportKeeps(net: Net, e: Engine, b: Option<BatchRef>, warning: bool)
    requires Core(e) && Live(e) && (b.Some? ==> b.value < |e.store|)
    ensures Keeps(e, Report(net, e, b, warning))
    ensures b.None? || Active(e, b.value) ==> StaysSingle(e, Report(net, e, b, warning))
    ensures b.Some? && Active(e, b.value) ==> Done(Report(net, e, b, warning), b.value)
    decreases |e.queue|, 1, 0
  {
    hide Outstanding, Waiting, Answered, Moves, ClearUp, Keeps;
    var e1 := e.(log := e.log + [Told(b, warning)]);
    NotedKeeps(e, Told(b, warning));
    if b.Some? {
      ClearKeeps(net, e1, b.value);
      KeepsCompose(e, e1, ClearUp(net, e1, b.value));
    }
  }

  /** A message to a handler changes nothing else. */
  lemma NotedKeeps(e: Engine, n: Note)
    requires Core(e) && Live(e) && !IsCall(n)
    ensures Keeps(e, e.(log := e.log + [n])) && Core(e.(log := e.log + [n]))
  {
    var r := e.(log := e.log + [n]);
    SettledCore(e, r);
    NotedAnswered(e, n);
    hide Outstanding, Waiting, Answered, InStore, Moves;
  }

  lemma NotedAnswered(e: Engine, n: Note)
    requires Answered(e) && !IsCall(n)
    ensures Answered(e.(log := e.log + [n])) && Moves(e, e.(log := e.log + [n]))
  {}

  lemma ReceivedKeeps(e: Engine, b: Option<BatchRef>)
    requires Core(e) && Live(e) && (b.Some? ==> Active(e, b.value))
    ensures Keeps(e, e.(received := b)) && StaysSingle(e, e.(received := b))
  {}

  /** The two Keeps of a step followed by another */
  lemma Chain(e: Engine, m: Engine, r: Engine)
    requires Keeps(e, m) && StaysSingle(e, m) && Keeps(m, r) && StaysSingle(m, r)
    ensures Keeps(e, r) && StaysSingle(e, r)
  {
    hide Keeps;
    KeepsCompose(e, m, r);
  }

  lemma {:induction false} StateKeeps(net: Net, e: Engine, b: BatchRef, reply: Reply)
    requires Core(e) && Live(e) && Active(e, b)
    ensures Keeps(e, StateChange(net, e, b, reply).engine) && StaysSingle(e, StateChange(net, e, b, reply).engine)
    ensures reply.StateThrows? || (!reply.NotDone? && !e.unloading && !StateChange(net, e, b, reply).threw) ==>
              Done(StateChange(net, e, b, reply).engine, b)
    decreases |e.queue|, 4, 0
  {
    hide Outstanding, Waiting, Answered, Moves, ClearUp, Report, RunScript, Validated;
    MovesNowhere(e);
    if e.store[b].completed || reply.NotDone? {
    } else if reply.StateThrows? {
      ReportKeeps(net, e, Some(b), true);
      var e1 := Report(net, e, Some(b), true);
      ActiveStays(e, e1, b);
      ClearKeeps(net, e1, b);
      KeepsCompose(e, e1, ClearUp(net, e1, b));
    } else if e.unloading {
    } else {
      var e1 := match reply
                case Warned => Report(net, e, Some(b), true)
                case Failed => Report(net, e, Some(b), false)
                case _ => e;
      assert Keeps(e, e1) && StaysSingle(e, e1) && |e1.queue| <= |e.queue| by {
        if reply.Warned? {
          ReportKeeps(net, e, Some(b), true);
        } else if reply.Failed? {
          ReportKeeps(net, e, Some(b), false);
        }
      }
      ActiveStays(e, e1, b);
      EvaluationKeeps(net, e1, b, if reply.Script? then reply.commands else []);
      Chain(e, e1, Evaluated(net, e1, b, if reply.Script? then reply.commands else []).engine);
    }
  }

  lemma {:induction false} EvaluationKeeps(net: Net, e: Engine, b: BatchRef, commands: seq<Command>)
    requires Core(e) && Live(e) && Active(e, b)
    ensures Keeps(e, Evaluated(net, e, b, commands).engine) && StaysSingle(e, Evaluated(net, e, b, commands).engine)
    ensures !Evaluated(net, e, b, commands).threw ==> Done(Evaluated(net, e, b, commands).engine, b)
    decreases |e.queue|, 3, |commands|, 1
  {
    hide Outstanding, Waiting, Answered, Moves, ClearUp, Report, RunScript, Validated;
    var e0 := e.(received := Some(b));
    ReceivedKeeps(e, Some(b));
    var s := RunScript(net, e0, commands);
    ScriptKeeps(net, e0, commands);
    Chain(e, e0, s.engine);
    if !s.threw {
      ReceivedKeeps(s.engine, None);
      var e1 := s.engine.(received := None);
      Chain(e, s.engine, e1);
      ActiveStays(e, e1, b);
      ValidatedKeeps(net, e1, b);
      var e2 := Validated(net, e1, b);
      Chain(e, e1, e2);
      ActiveStays(e, e2, b);
      if !e2.store[b].completed {
        ClearKeeps(net, e2, b);
        Chain(e, e2, ClearUp(net, e2, b));
      }
    }
  }

  lemma {:induction false} ValidatedKeeps(net: Net, e: Engine, b: BatchRef)
    requires Core(e) && Live(e) && Active(e, b)
    ensures Keeps(e, Validated(net, e, b)) && StaysSingle(e, Validated(net, e, b))
    decreases |e.queue|, 2, 0
  {
    hide Outstanding, Waiting, Answered, Moves, Report, Unanswered;
    MovesNowhere(e);
    ReportKeeps(net, e, Some(b), true);
  }

  lemma {:induction false} ScriptKeeps(net: Net, e: Engine, commands: seq<Command>)
    requires Core(e) && Live(e)
    ensures Keeps(e, RunScript(net, e, commands).engine) && StaysSingle(e, RunScript(net, e, commands).engine)
    decreases |e.queue|, 3, |commands|, 0
  {
    hide Outstanding, Waiting, Answered, Moves, Obey;
    MovesNowhere(e);
    if commands != [] && !commands[0].Throw? {
      ObeyKeeps(net, e, commands[0]);
      var e1 := Obey(net, e, commands[0]);
      ScriptKeeps(net, e1, commands[1..]);
      Chain(e, e1, RunScript(net, e1, commands[1..]).engine);
    }
  }

  lemma {:induction false} ObeyKeeps(net: Net, e: Engine, c: Command)
    requires Core(e) && Live(e)
    ensures Keeps(e, Obey(net, e, c)) && StaysSingle(e, Obey(net, e, c))
    decreases |e.queue|, 2, 1
  {
    hide Waiting, Answered, Moves, HandleCallback, HandleException, HandleBatchException;
    MovesNowhere(e);
    match c
    case Callback(id, call, throws) =>
      if id in e.batches {
        CallbackKeeps(net, e, e.batches[id], call, throws);
      }
    case Exception(id, call) =>
      if id in e.batches {
        ExceptionKeeps(e, e.batches[id], call);
      }
    case BatchException(about) => BatchExceptionKeeps(net, e, about);
    case Throw =>
  }

  lemma TakenKeeps(e: Engine, b: BatchRef, call: nat)
    requires Core(e) && Live(e) && Active(e, b)
    ensures Keeps(e, Taken(e, b, call)) && StaysSingle(e, Taken(e, b, call))
  {
    TakenOutstanding(e, b, call);
    TakenAnswered(e, b, call);
  }

  /** Taking handlers out changes nothing of any batch but its handlers. */
  lemma TakenShape(e: Engine, b: BatchRef, call: nat)
    requires b < |e.store|
    ensures var r := Taken(e, b, call);
            && r == e.(store := r.store) && |r.store| == |e.store|
            && (forall x :: 0 <= x < |e.store| ==> SameButHandlers(e.store[x], r.store[x]))
            && (call !in r.store[b].handlers)
  {}

  predicate SameButHandlers(a: Batch, b: Batch) {
    a.id == b.id && a.completed == b.completed && a.req == b.req && a.timer == b.timer && a.isPoll == b.isPoll && a.callCount == b.callCount
    && b.handlers.Keys <= a.handlers.Keys
  }

  lemma TakenOutstanding(e: Engine, b: BatchRef, call: nat)
    requires InStore(e) && Outstanding(e) && Waiting(e) && b < |e.store|
    ensures Outstanding(Taken(e, b, call)) && Waiting(Taken(e, b, call))
  {
    hide Taken;
    TakenShape(e, b, call);
  }

  lemma TakenAnswered(e: Engine, b: BatchRef, call: nat)
    requires Answered(e) && b < |e.store|
    ensures Answered(Taken(e, b, call)) && Moves(e, Taken(e, b, call))
    ensures call !in Taken(e, b, call).store[b].handlers
  {
    hide Taken;
    TakenShape(e, b, call);
  }

  /** The one handler of an outstanding batch's call is used. */
  lemma CallNoted(e: Engine, b: BatchRef, call: nat, n: Note)
    requires Core(e) && Live(e) && Active(e, b) && !e.store[b].completed && call in e.store[b].handlers
    requires n == Called(b, call) || n == Excepted(b, call)
    ensures var e1 := Taken(e, b, call); var r := e1.(log := e1.log + [n]);
            Keeps(e, r) && StaysSingle(e, r)
  {
    TakenOutstanding(e, b, call);
    TakenAnswered(e, b, call);
    TakenShape(e, b, call);
    var e1 := Taken(e, b, call);
    var r := e1.(log := e1.log + [n]);
    SettledCore(e1, r);
    NotAnsweredYet(e, b, call);
    AnsweredNow(e, e1, b, call, n);
    hide Outstanding, Waiting, InStore, Answered, Moves, Taken;
  }

  /** While a call has handlers, no answer to it has been noted. */
  lemma NotAnsweredYet(e: Engine, b: BatchRef, call: nat)
    requires Answered(e) && b < |e.store| && call in e.store[b].handlers
    ensures forall i :: 0 <= i < |e.log| && IsCall(e.log[i]) ==> e.log[i].batch != b || e.log[i].call != call
  {}

  lemma AnsweredNow(e: Engine, e1: Engine, b: BatchRef, call: nat, n: Note)
    requires Answered(e1) && Moves(e, e1) && e1.log == e.log && Active(e1, b) && call !in e1.store[b].handlers
    requires n == Called(b, call) || n == Excepted(b, call)
    requires b < |e.store| && !e.store[b].completed
    requires forall i :: 0 <= i < |e.log| && IsCall(e.log[i]) ==> e.log[i].batch != b || e.log[i].call != call
    ensures var r := e1.(log := e1.log + [n]); Answered(r) && Moves(e, r)
  {}

  /** Only the log differs. */
  lemma SettledCore(e: Engine, r: Engine)
    requires InStore(e) && Outstanding(e) && Waiting(e) && r == e.(log := r.log)
    ensures InStore(r) && Outstanding(r) && Waiting(r)
  {}

  lemma {:induction false} CallbackKeeps(net: Net, e: Engine, b: BatchRef, call: nat, throws: bool)
    requires Core(e) && Live(e) && Active(e, b) && !e.store[b].completed
    ensures Keeps(e, HandleCallback(net, e, b, call, throws)) && StaysSingle(e, HandleCallback(net, e, b, call, throws))
    decreases |e.queue|, 2, 0
  {
    hide Outstanding, Waiting, Answered, Moves, Report, Taken;
    var handlers := e.store[b].handlers;
    if call !in handlers || !handlers[call].callback {
      TakenKeeps(e, b, call);
    } else {
      CallNoted(e, b, call, Called(b, call));
      var e1 := Taken(e, b, call);
      var e2 := e1.(log := e1.log + [Called(b, call)]);
      if throws {
        ActiveStays(e, e2, b);
        ReportKeeps(net, e2, Some(b), false);
        Chain(e, e2, Report(net, e2, Some(b), false));
      }
    }
  }

  lemma ExceptionKeeps(e: Engine, b: BatchRef, call: nat)
    requires Core(e) && Live(e) && Active(e, b) && !e.store[b].completed
    ensures Keeps(e, HandleException(e, b, call)) && StaysSingle(e, HandleException(e, b, call))
  {
    hide Outstanding, Waiting, Answered, Moves, Taken;
    var handlers := e.store[b].handlers;
    if call in handlers && handlers[call].exceptionHandler {
      CallNoted(e, b, call, Excepted(b, call));
    } else {
      TakenKeeps(e, b, call);
      var e1 := Taken(e, b, call);
      NotedKeeps(e1, Told(Some(b), false));
      Chain(e, e1, e1.(log := e1.log + [Told(Some(b), false)]));
    }
  }

  lemma TargetsActive(e: Engine, about: Option<nat>)
    requires InStore(e) && Outstanding(e)
    ensures e.received.Some? ==> Active(e, e.received.value)
    ensures about.Some? && Find(e, about.value).Some? ==> Active(e, Find(e, about.value).value)
  {}

  lemma {:induction false} BatchExceptionKeeps(net: Net, e: Engine, about: Option<nat>)
    requires Core(e) && Live(e)
    ensures Keeps(e, HandleBatchException(net, e, about)) && StaysSingle(e, HandleBatchException(net, e, about))
    decreases |e.queue|, 2, 0
  {
    hide Outstanding, Waiting, Answered, Moves, Report, ClearUp;
    var search := e.received.None? && about.Some?;
    var target := if search then Find(e, about.value) else e.received;
    TargetsActive(e, about);
    ReceivedKeeps(e, target);
    var e0 := e.(received := target);
    ReportKeeps(net, e0, target, false);
    var e1 := Report(net, e0, target, false);
    Chain(e, e0, e1);
    if search {
      ReceivedKeeps(e1, None);
      var e2 := e1.(received := None);
      Chain(e, e1, e2);
      var again := Find(e2, about.value);
      TargetsActive(e2, about);
      if again.Some? {
        ClearKeeps(net, e2, again.value);
        Chain(e, e2, ClearUp(net, e2, again.value));
      }
    }
  }

  // ----- Events

  lemma NewBatchCore(e: Engine, batch: Batch)
    requires Core(e) && batch.id.None? && !batch.timer
    requires forall c :: c in batch.handlers ==> c < batch.callCount
    ensures var r := e.(store := e.store + [batch]); Core(r) && Moves(e, r)
  {
    var r := e.(store := e.store + [batch]);
    assert r.store[|e.store|] == batch;
    assert forall b :: 0 <= b < |e.store| ==> r.store[b] == e.store[b];
  }

  lemma CurrentCore(e: Engine, current: Option<BatchRef>)
    requires Core(e)
    requires current.Some? ==> current.value < |e.store| && Idle(e.store[current.value]) && current.value !in e.queue
    ensures var r := e.(current := current); Core(r) && Moves(e, r)
  {
    hide Answered, Outstanding;
    CurrentOutstanding(e, current);
    CurrentAnswered(e, current);
  }

  lemma CurrentOutstanding(e: Engine, current: Option<BatchRef>)
    requires Outstanding(e) && (current.Some? ==> current.value < |e.store|)
    ensures Outstanding(e.(current := current))
  {}

  lemma CurrentAnswered(e: Engine, current: Option<BatchRef>)
    requires Answered(e)
    ensures Answered(e.(current := current)) && Moves(e, e.(current := current))
  {}

  /** Changing a batch that was not sent yet, and giving it no handlers beyond its calls */
  lemma UnsentCore(e: Engine, b: BatchRef, batch: Batch)
    requires Core(e) && b < |e.store| && Idle(e.store[b]) && Idle(batch) && !batch.timer
    requires forall c :: c in batch.handlers ==> c < batch.callCount
    ensures var r := e.(store := e.store[b := batch]); Core(r) && Moves(e, r)
  {
    var r := e.(store := e.store[b := batch]);
    assert forall x :: 0 <= x < |e.store| && x != b ==> r.store[x] == e.store[x];
    assert r.store[b] == batch;
  }

  lemma BeginKeeps(e: Engine)
    requires Core(e) && Live(e)
    ensures var r := BeginBatch(e);
            && Core(r) && Live(r) && Moves(e, r) && r.batches == e.batches && r.queue == e.queue && r.sent == e.sent
            && r.accepted == e.accepted && r.ordered == e.ordered && r.batchesLength == e.batchesLength
            && r.current.Some? && Idle(r.store[r.current.value]) && (e.current.None? ==> r.store[r.current.value].handlers == map[])
  {
    if e.current.Some? {
      NotedKeeps(e, Told(None, false));
    } else {
      NewBatchCore(e, NewBatch(e));
      var e1 := e.(store := e.store + [NewBatch(e)]);
      CurrentCore(e1, Some(|e.store|));
      hide Core;
      MovesCompose(e, e1, e1.(current := Some(|e.store|)));
    }
  }

  /** The batch that endBatch accepts, if it accepts one */
  predicate Accepts(e: Engine)
    requires e.current.Some? ==> e.current.value < |e.store|
  {
    e.current.Some? && e.store[e.current.value].callCount != 0
  }

  predicate SendsAtOnce(e: Engine) {
    !(e.ordered && e.batchesLength != 0)
  }

  /** What endBatch comes to: nothing, or one more batch accepted that is sent at once or waits. */
  ghost predicate EndsAs(e: Engine, r: Engine)
    requires InStore(e)
  {
    && Core(r) && Live(r) && Moves(e, r) && r.ordered == e.ordered
    && (!Accepts(e) ==> r.accepted == e.accepted && r.sent + r.queue == e.sent + e.queue && r.batches == e.batches)
    && (Accepts(e) ==> r.accepted == e.accepted + [e.current.value])
    && (Accepts(e) && SendsAtOnce(e) ==> r.sent + r.queue == e.sent + [e.current.value] + e.queue)
    && (Accepts(e) && !SendsAtOnce(e) ==> r.sent + r.queue == e.sent + e.queue + [e.current.value] && r.batches == e.batches)
    && (Accepts(e) && SendsAtOnce(e) && |e.batches| == 0 ==> |r.batches| <= 1)
  }

  lemma EndKeeps(net: Net, e: Engine, options: Overrides)
    requires Core(e) && Live(e)
    ensures EndsAs(e, EndBatch(net, e, options))
  {
    hide Outstanding, Waiting, Answered, Moves, SendData;
    if e.current.None? {
      NotedKeeps(e, Told(None, false));
    } else if e.store[e.current.value].callCount == 0 {
      CurrentCore(e, None);
    } else {
      AcceptKeeps(net, e, e.current.value, options);
    }
  }

  /** The queue grew by a batch that was not in it, which is no longer the current one. */
  lemma QueuedCore(e: Engine, b: BatchRef)
    requires Core(e) && b < |e.store| && Idle(e.store[b]) && b !in e.queue && e.current.None?
    ensures var r := e.(queue := e.queue + [b]); Core(r) && Moves(e, r)
  {
    hide Outstanding, Answered;
    var r := e.(queue := e.queue + [b]);
    assert forall i :: 0 <= i < |e.queue| ==> r.queue[i] == e.queue[i];
    QueueOutstanding(e, r.queue);
  }

  lemma QueueOutstanding(e: Engine, queue: seq<BatchRef>)
    requires Outstanding(e) && Answered(e) && forall i :: 0 <= i < |queue| ==> queue[i] < |e.store|
    ensures var r := e.(queue := queue); Outstanding(r) && Answered(r) && Moves(e, r)
  {}

  lemma AcceptedCore(e: Engine, accepted: seq<BatchRef>)
    requires Core(e)
    ensures var r := e.(accepted := accepted); Core(r) && Moves(e, r)
  {}

  /** The batch is no longer current, has its options and counts as accepted. */
  function AcceptedBatch(e: Engine, b: BatchRef, options: Overrides): Engine
    requires b < |e.store|
  {
    e.(current := None, store := e.store[b := Merged(e.store[b], options)], accepted := e.accepted + [b])
  }

  lemma AcceptReady(e: Engine, b: BatchRef, options: Overrides)
    requires Core(e) && e.current == Some(b)
    ensures var e3 := AcceptedBatch(e, b, options);
            && Core(e3) && Moves(e, e3) && Sendable(e3, b) && Idle(e3.store[b])
            && e.batchesLength == |e.batches|
  {
    CurrentIdle(e);
    HandlersInRange(e, b);
    LengthIsSize(e);
    CurrentCore(e, None);
    hide Outstanding, Waiting, Answered, Moves, InStore;
    var e1 := e.(current := None);
    UnsentCore(e1, b, Merged(e.store[b], options));
    var e2 := e1.(store := e1.store[b := Merged(e.store[b], options)]);
    AcceptedCore(e2, e.accepted + [b]);
    MovesCompose(e, e1, e2);
    MovesCompose(e, e2, AcceptedBatch(e, b, options));
  }

  lemma AcceptKeeps(net: Net, e: Engine, b: BatchRef, options: Overrides)
    requires Core(e) && Live(e) && e.current == Some(b) && e.store[b].callCount != 0
    ensures EndsAs(e, EndBatch(net, e, options))
  {
    hide Outstanding, Waiting, Answered, Moves, SendData, Sendable;
    AcceptReady(e, b, options);
    var e3 := AcceptedBatch(e, b, options);
    if SendsAtOnce(e) {
      SendKeeps(net, e3, b);
      SentAtOnce(e, e3, b, SendData(net, e3, b));
    } else {
      Waits(e, e3, b);
    }
  }

  lemma SentAtOnce(e: Engine, e3: Engine, b: BatchRef, r: Engine)
    requires InStore(e) && Moves(e, e3) && SentTo(e3, b, r) && !e3.store[b].isPoll
    requires e.current == Some(b) && Accepts(e) && SendsAtOnce(e)
    requires e3.accepted == e.accepted + [b] && e3.sent == e.sent && e3.queue == e.queue && e3.batches == e.batches && e3.ordered == e.ordered
    ensures EndsAs(e, r)
  {
    hide Core;
    MovesCompose(e, e3, r);
  }

  lemma Waits(e: Engine, e3: Engine, b: BatchRef)
    requires InStore(e) && Core(e3) && Moves(e, e3) && Sendable(e3, b) && Idle(e3.store[b])
    requires e.current == Some(b) && Accepts(e) && !SendsAtOnce(e) && e.batchesLength == |e.batches|
    requires e3.accepted == e.accepted + [b] && e3.sent == e.sent && e3.queue == e.queue && e3.batches == e.batches
    requires e3.ordered == e.ordered && e3.current == None
    ensures EndsAs(e, e3.(queue := e.queue + [b]))
  {
    QueuedCore(e3, b);
    hide Core;
    MovesCompose(e, e3, e3.(queue := e.queue + [b]));
    assert e.sent + (e.queue + [b]) == e.sent + e.queue + [b];
  }

  lemma LengthIsSize(e: Engine)
    requires Outstanding(e)
    ensures e.batchesLength == |e.batches|
  {}

  lemma CurrentIdle(e: Engine)
    requires Core(e)
    ensures e.current.Some? ==> Idle(e.store[e.current.value]) && e.current.value !in e.queue && !e.store[e.current.value].timer
  {}

  lemma HandlersInRange(e: Engine, b: BatchRef)
    requires Core(e) && b < |e.store|
    ensures forall c :: c in e.store[b].handlers ==> c < e.store[b].callCount
  {}
}
