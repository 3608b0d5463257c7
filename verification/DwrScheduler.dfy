/** The engine itself: batch objects and the fields of the engine, updated in place by functions that
    call one another. Each is proved against its counterpart on values. */
module DwrScheduler {
  import opened Options
  import opened DwrEngine
  import opened DwrRuns
  import opened DwrSafety

  class BatchObject {
    /** Where it stands among all batches made */
    const ref: BatchRef
    var path: Option<string>
    var callCount: nat
    var handlers: map<nat, Handlers>
    var isPoll: bool
    var async: bool
    var timeout: bool
    var id: Option<nat>
    var completed: bool
    var req: bool
    var timer: bool

    ghost function Value(): Batch
      reads this
    {
      Batch(path, callCount, handlers, isPoll, async, timeout, id, completed, req, timer)
    }

    constructor (ref: BatchRef, async: bool, timeout: bool)
      ensures this.ref == ref
      ensures Value() == Batch(None, 0, map[], false, async, timeout, None, false, false, false)
    {
      this.ref := ref;
      path, callCount, handlers, isPoll := None, 0, map[], false;
      this.async, this.timeout := async, timeout;
      id, completed, req, timer := None, false, false, false;
    }

    /** It is sent under an id: not completed, with a request and, if it may take only so long, a timer. */
    method Start(batchId: nat)
      modifies this
      ensures Value() == old(Value()).(id := Some(batchId), completed := false, req := true, timer := old(timeout))
    {
      id := Some(batchId);
      completed := false;
      timer := timeout;
      req := true;
    }

    method Stop()
      modifies this
      ensures Value() == old(Value()).(completed := true, req := false, timer := false)
    {
      req := false;
      timer := false;
      completed := true;
    }

    method MakePoll()
      modifies this
      ensures Value() == old(Value()).(path := Some(DEFAULT_PATH), callCount := 1, handlers := map[0 := Handlers(true, false)],
                                       isPoll := true, async := true, timeout := false)
    {
      callCount := 1;
      isPoll := true;
      async := true;
      timeout := false;
      path := Some(DEFAULT_PATH);
      handlers := map[0 := Handlers(true, false)];
    }

    method AddCall(options: Overrides, callHandlers: Handlers)
      requires path.Some?
      modifies this
      ensures Value() == WithCall(old(Value()), old(path).value, callHandlers, options)
    {
      Merge(options);
      handlers := handlers[callCount := callHandlers];
      callCount := callCount + 1;
    }

    /** _mergeBatch */
    method Merge(options: Overrides)
      modifies this
      ensures Value() == Merged(old(Value()), options)
    {
      if options.async.Some? {
        async := options.async.value;
      }
      if options.timeout.Some? {
        timeout := options.timeout.value;
      }
    }
  }

  // ----- Objects and the references that stand for them

  /** Every object stands at its own reference. */
  ghost predicate Listed(objs: seq<BatchObject>) {
    forall i :: 0 <= i < |objs| ==> objs[i].ref == i
  }

  ghost predicate AllIn(objs: seq<BatchObject>, bs: seq<BatchObject>) {
    forall i :: 0 <= i < |bs| ==> bs[i] in objs
  }

  ghost predicate TableIn(objs: seq<BatchObject>, m: map<nat, BatchObject>) {
    forall id :: id in m ==> m[id] in objs
  }

  ghost predicate OneIn(objs: seq<BatchObject>, b: BatchObject?) {
    b != null ==> b in objs
  }

  ghost function RefOf(b: BatchObject?): Option<BatchRef> {
    if b == null then None else Some(b.ref)
  }

  ghost function Refs(bs: seq<BatchObject>): (r: seq<BatchRef>)
    ensures |r| == |bs| && forall i :: 0 <= i < |bs| ==> r[i] == bs[i].ref
  {
    seq(|bs|, i requires 0 <= i < |bs| => bs[i].ref)
  }

  ghost function Table(m: map<nat, BatchObject>): (r: map<nat, BatchRef>)
    ensures r.Keys == m.Keys && forall k :: k in m ==> r[k] == m[k].ref
  {
    map k | k in m :: m[k].ref
  }

  lemma TableWith(objs: seq<BatchObject>, m: map<nat, BatchObject>, k: nat, b: BatchObject)
    requires TableIn(objs, m) && b in objs
    ensures TableIn(objs, m[k := b]) && Table(m[k := b]) == Table(m)[k := b.ref]
  {}

  lemma TableWithout(objs: seq<BatchObject>, m: map<nat, BatchObject>, k: nat)
    requires TableIn(objs, m)
    ensures TableIn(objs, Forget(m, k)) && Table(Forget(m, k)) == Forget(Table(m), k)
  {
    assert Table(Forget(m, k)).Keys == Forget(Table(m), k).Keys;
  }

  lemma QueueTail(objs: seq<BatchObject>, bs: seq<BatchObject>)
    requires AllIn(objs, bs) && bs != []
    ensures AllIn(objs, bs[1..]) && Refs(bs[1..]) == Refs(bs)[1..] && bs[0] in objs && Refs(bs)[0] == bs[0].ref
  {}

  lemma QueueWith(objs: seq<BatchObject>, bs: seq<BatchObject>, b: BatchObject)
    requires AllIn(objs, bs) && b in objs
    ensures AllIn(objs, bs + [b]) && Refs(bs + [b]) == Refs(bs) + [b.ref]
  {}

  lemma OneMore(objs: seq<BatchObject>, b: BatchObject, bs: seq<BatchObject>, m: map<nat, BatchObject>)
    requires Listed(objs) && b.ref == |objs| && AllIn(objs, bs) && TableIn(objs, m)
    ensures Listed(objs + [b]) && AllIn(objs + [b], bs) && TableIn(objs + [b], m)
  {}

  class Scheduler {
    const net: Net
    var batches: map<nat, BatchObject>
    var batchesLength: int
    var batchQueue: seq<BatchObject>
    var nextBatchId: nat
    var ordered: bool
    var async: bool
    var timeout: bool
    var batch: BatchObject?
    var receivedBatch: BatchObject?
    var unloading: bool
    ghost var log: seq<Note>
    ghost var accepted: seq<BatchRef>
    ghost var sent: seq<BatchRef>
    /** Every batch object made so far; the callbacks of requests and timers hold on to them. */
    var objs: seq<BatchObject>

    ghost predicate Valid()
      reads this
    {
      Listed(objs) && AllIn(objs, batchQueue) && TableIn(objs, batches) && OneIn(objs, batch) && OneIn(objs, receivedBatch)
    }

    ghost function Values(): (r: seq<Batch>)
      reads this, objs
      ensures |r| == |objs| && forall i :: 0 <= i < |objs| ==> r[i] == objs[i].Value()
    {
      seq(|objs|, i requires 0 <= i < |objs| reads this, objs => objs[i].Value())
    }

    ghost function Model(): (r: Engine)
      requires Valid()
      reads this, objs
      ensures InStore(r)
    {
      Engine(Values(), Table(batches), batchesLength, Refs(batchQueue), nextBatchId, ordered, async, timeout,
             RefOf(batch), RefOf(receivedBatch), unloading, log, accepted, sent)
    }

    /** A batch object is found in the model under its reference. */
    lemma At(b: BatchObject)
      requires Valid() && b in objs
      ensures b.ref < |objs| && objs[b.ref] == b && |Model().store| == |objs| && Model().store[b.ref] == b.Value()
      ensures Model().nextId == nextBatchId && Model().unloading == unloading
    {}

    lemma Received()
      requires Valid()
      ensures Model().received == RefOf(receivedBatch) && OneIn(objs, receivedBatch)
    {}

    lemma Found(id: nat)
      requires Valid()
      ensures id in batches <==> id in Model().batches
      ensures id in batches ==> batches[id] in objs && Model().batches[id] == batches[id].ref
    {}

    constructor (net: Net)
      ensures Valid() && Model() == INITIAL && fresh(objs) && this.net == net
    {
      this.net := net;
      batches, batchesLength, batchQueue, nextBatchId := map[], 0, [], 0;
      ordered, async, timeout := false, true, false;
      batch, receivedBatch, unloading, log := null, null, false, [];
      accepted, sent, objs := [], [], [];
    }

    /** Changing one batch object changes its value in the model and no other. */
    twostate lemma OneChanged(b: BatchObject)
      requires old(Valid()) && b in objs && objs == old(objs)
      requires forall x :: x in objs && x != b ==> unchanged(x)
      ensures Values() == old(Values())[b.ref := b.Value()]
    {
      forall i | 0 <= i < |objs| && i != b.ref
        ensures objs[i].Value() == old(objs[i].Value())
      {
        assert objs[i] in objs && unchanged(objs[i]);
      }
    }

    /** The first part of _sendData */
    method Register(b: BatchObject)
      requires Valid() && b in objs
      modifies this, b
      ensures Valid() && objs == old(objs)
      ensures Model() == Registered(old(Model()), b.ref)
    {
      hide Valid, Model, InStore;
      At(b);
      StartBatch(b);
      At(b);
      Enter(b);
    }

    method StartBatch(b: BatchObject)
      requires Valid() && b in objs
      modifies b
      ensures Valid() && b.Value() == old(b.Value()).(id := Some(nextBatchId), completed := false, req := true, timer := old(b.timeout))
      ensures var e := old(Model()); Model() == e.(store := e.store[b.ref := b.Value()]) && e.nextId == nextBatchId
    {
      hide InStore, Table, TableIn, AllIn, Listed, Refs, Values, RefOf;
      b.Start(nextBatchId);
      OneChanged(b);
    }

    method Enter(b: BatchObject)
      requires Valid() && b in objs
      modifies this`batches, this`nextBatchId, this`batchesLength, this`sent
      ensures Valid() && old(Model()).nextId == old(nextBatchId)
      ensures var e := old(Model());
              Model() == e.(batches := e.batches[e.nextId := b.ref], nextId := e.nextId + 1, batchesLength := e.batchesLength + 1,
                            sent := if b.isPoll then e.sent else e.sent + [b.ref])
    {
      hide InStore, Table, TableIn, AllIn, Listed, Refs, Values, RefOf;
      TableWith(objs, batches, nextBatchId, b);
      batches := batches[nextBatchId := b];
      nextBatchId := nextBatchId + 1;
      batchesLength := batchesLength + 1;
      if !b.isPoll {
        sent := sent + [b.ref];
      }
    }

    /** _sendData */
    method SendData(b: BatchObject)
      requires Valid() && b in objs
      modifies this, objs
      ensures Valid() && objs == old(objs)
      ensures Model() == DwrEngine.SendData(net, old(Model()), b.ref)
      decreases |batchQueue|, 5, 0
    {
      hide Model, Valid, Registered, DwrEngine.Report, DwrEngine.StateChange, InStore;
      At(b);
      QueueSize();
      var outcome := net(nextBatchId);
      Register(b);
      At(b);
      QueueSize();
      if outcome.safari {
        Report(b, true);
        At(b);
        QueueSize();
      }
      if outcome.openThrows || !b.req {
        Report(b, false);
        return;
      }
      if outcome.headersThrow {
        Report(b, true);
        At(b);
        QueueSize();
      }
      if outcome.sendThrows || !b.req {
        Report(b, false);
        return;
      }
      if !b.async {
        var threw := StateChange(b, outcome.reply);
        QueueSize();
        if threw {
          Report(b, false);
        }
      }
    }

    method Complete(b: BatchObject)
      requires Valid() && b in objs
      modifies this, b
      ensures Valid() && objs == old(objs)
      ensures Model() == Completed(old(Model()), b.ref)
    {
      hide Valid, Model, InStore;
      At(b);
      StopBatch(b);
      At(b);
      if b.id.Some? {
        Remove(b.id.value);
      }
    }

    method StopBatch(b: BatchObject)
      requires Valid() && b in objs
      modifies b
      ensures Valid() && b.Value() == old(b.Value()).(completed := true, req := false, timer := false)
      ensures var e := old(Model()); Model() == e.(store := e.store[b.ref := b.Value()])
    {
      hide InStore, Table, TableIn, AllIn, Listed, Refs, Values, RefOf;
      b.Stop();
      OneChanged(b);
    }

    method Remove(batchId: nat)
      requires Valid()
      modifies this`batches, this`batchesLength
      ensures Valid()
      ensures var e := old(Model()); Model() == e.(batches := Forget(e.batches, batchId), batchesLength := e.batchesLength - 1)
    {
      hide InStore, Table, TableIn, AllIn, Listed, Refs, Values, RefOf, Forget;
      TableWithout(objs, batches, batchId);
      batches := Forget(batches, batchId);
      batchesLength := batchesLength - 1;
    }

    /** The two fields that these functions set besides: what has been said, and whose reply is being run */
    ghost method Say(n: Note)
      requires Valid()
      modifies this`log
      ensures Valid() && Model() == old(Model()).(log := old(Model()).log + [n])
    {
      log := log + [n];
    }

    method Receive(b: BatchObject?)
      requires Valid() && OneIn(objs, b)
      modifies this`receivedBatch
      ensures Valid() && receivedBatch == b && Model() == old(Model()).(received := RefOf(b))
    {
      receivedBatch := b;
    }

    method Shift() returns (first: BatchObject)
      requires Valid() && batchQueue != []
      modifies this`batchQueue
      ensures Valid() && |batchQueue| == old(|batchQueue|) - 1 && first in objs
      ensures var e := old(Model()); e.queue != [] && first.ref == e.queue[0] && Model() == e.(queue := e.queue[1..])
    {
      hide Refs, AllIn, TableIn, Listed, Table;
      QueueTail(objs, batchQueue);
      first := batchQueue[0];
      batchQueue := batchQueue[1..];
    }

    lemma QueueSize()
      requires Valid()
      ensures |Model().queue| == |batchQueue|
    {}

    /** _clearUp */
    method ClearUp(b: BatchObject)
      requires Valid() && b in objs
      modifies this, objs
      ensures Valid() && objs == old(objs)
      ensures Model() == DwrEngine.ClearUp(net, old(Model()), b.ref)
      decreases |batchQueue|, 0, 0
    {
      hide Model, Valid, Completed, DwrEngine.SendData, InStore;
      At(b);
      QueueSize();
      if b.completed {
        return;
      }
      Complete(b);
      QueueSize();
      if batchQueue != [] {
        var first := Shift();
        SendData(first);
      }
    }

    /** _handleError and _handleWarning */
    method Report(b: BatchObject?, warning: bool)
      requires Valid() && (b != null ==> b in objs)
      modifies this, objs
      ensures Valid() && objs == old(objs)
      ensures Model() == DwrEngine.Report(net, old(Model()), RefOf(b), warning)
      decreases |batchQueue|, 1, 0
    {
      hide Model, Valid, DwrEngine.ClearUp, InStore;
      Say(Told(RefOf(b), warning));
      if b != null {
        ClearUp(b);
      }
    }

    /** _stateChange */
    method StateChange(b: BatchObject, reply: Reply) returns (threw: bool)
      requires Valid() && b in objs
      modifies this, objs
      ensures Valid() && objs == old(objs)
      ensures Ran(Model(), threw) == DwrEngine.StateChange(net, old(Model()), b.ref, reply)
      decreases |batchQueue|, 4, 0
    {
      hide Model, Valid, InStore, DwrEngine.Report, DwrEngine.ClearUp, DwrEngine.RunScript, DwrEngine.Validated;
      At(b);
      QueueSize();
      threw := false;
      if b.completed || reply.NotDone? {
        return;
      }
      if reply.StateThrows? {
        Report(b, true);
        QueueSize();
        ClearUp(b);
        return;
      }
      if unloading {
        return;
      }
      if reply.Warned? || reply.Failed? {
        Report(b, reply.Warned?);
        QueueSize();
      }
      ghost var e1 := Model();
      var commands := if reply.Script? then reply.commands else [];
      Receive(b);
      QueueSize();
      threw := Eval(commands);
      QueueSize();
      if threw {
        assert Evaluated(net, e1, b.ref, commands) == Ran(Model(), true);
        return;
      }
      ghost var e2 := Model();
      Receive(null);
      QueueSize();
      ValidateBatch(b);
      At(b);
      QueueSize();
      if !b.completed {
        ClearUp(b);
      }
      assert Finish(net, e2, b.ref) == Model();
      assert Evaluated(net, e1, b.ref, commands) == Ran(Model(), false);
    }

    /** _validateBatch */
    method ValidateBatch(b: BatchObject)
      requires Valid() && b in objs
      modifies this, objs
      ensures Valid() && objs == old(objs)
      ensures Model() == DwrEngine.Validated(net, old(Model()), b.ref)
      decreases |batchQueue|, 2, 0
    {
      hide Model, Valid, InStore, DwrEngine.Report;
      At(b);
      if !b.completed {
        var i := 0;
        while i < b.callCount
          invariant Valid() && objs == old(objs) && Model() == old(Model())
          invariant 0 <= i <= b.callCount
          invariant forall j :: 0 <= j < i ==> j !in b.handlers
        {
          if i in b.handlers {
            assert Unanswered(b.Value());
            Report(b, true);
            return;
          }
          i := i + 1;
        }
      }
    }

    /** The script of a reply, statement by statement */
    method Eval(commands: seq<Command>) returns (threw: bool)
      requires Valid()
      modifies this, objs
      ensures Valid() && objs == old(objs)
      ensures Ran(Model(), threw) == DwrEngine.RunScript(net, old(Model()), commands)
      decreases |batchQueue|, 3, |commands|
    {
      hide Model, Valid, InStore, DwrEngine.Obey;
      QueueSize();
      var i := 0;
      while i < |commands|
        invariant Valid() && objs == old(objs) && |batchQueue| <= old(|batchQueue|)
        invariant 0 <= i <= |commands|
        invariant DwrEngine.RunScript(net, Model(), commands[i..]) == DwrEngine.RunScript(net, old(Model()), commands)
      {
        assert commands[i..][0] == commands[i] && commands[i..][1..] == commands[i + 1..];
        if commands[i].Throw? {
          return true;
        }
        QueueSize();
        Obey(commands[i]);
        QueueSize();
        i := i + 1;
      }
      return false;
    }

    method Obey(c: Command)
      requires Valid()
      modifies this, objs
      ensures Valid() && objs == old(objs)
      ensures Model() == DwrEngine.Obey(net, old(Model()), c)
      decreases |batchQueue|, 2, 1
    {
      hide Model, Valid, DwrEngine.HandleCallback, DwrEngine.HandleException, DwrEngine.HandleBatchException;
      match c
      case Callback(id, call, throws) => HandleCallback(id, call, throws);
      case Exception(id, call) => HandleException(id, call);
      case BatchException(about) => HandleBatchException(about);
      case Throw =>
    }

    method Take(b: BatchObject, call: nat)
      requires Valid() && b in objs
      modifies b
      ensures Valid() && objs == old(objs)
      ensures Model() == Taken(old(Model()), b.ref, call)
    {
      hide InStore, Table, TableIn, AllIn, Listed, Refs, Forget;
      At(b);
      b.handlers := Forget(b.handlers, call);
      OneChanged(b);
      assert b.Value() == old(b.Value()).(handlers := b.handlers);
    }

    /** _remoteHandleCallback */
    method HandleCallback(id: nat, call: nat, throws: bool)
      requires Valid()
      modifies this, objs
      ensures Valid() && objs == old(objs)
      ensures Model() == DwrEngine.Obey(net, old(Model()), Callback(id, call, throws))
      decreases |batchQueue|, 2, 0
    {
      hide Model, Valid, InStore, DwrEngine.Report, Taken;
      Found(id);
      QueueSize();
      if id !in batches {
        return;
      }
      var b := batches[id];
      At(b);
      var handlers := b.handlers;
      Take(b, call);
      if call in handlers && handlers[call].callback {
        QueueSize();
        Say(Called(b.ref, call));
        if throws {
          Report(b, false);
        }
      }
    }

    /** _remoteHandleException */
    method HandleException(id: nat, call: nat)
      requires Valid()
      modifies this, objs
      ensures Valid() && objs == old(objs)
      ensures Model() == DwrEngine.Obey(net, old(Model()), Exception(id, call))
    {
      hide Model, Valid, InStore, Taken;
      Found(id);
      if id !in batches {
        return;
      }
      var b := batches[id];
      At(b);
      var handlers := b.handlers;
      Take(b, call);
      if call in handlers {
        Say(if handlers[call].exceptionHandler then Excepted(b.ref, call) else Told(Some(b.ref), false));
      }
    }

    /** _remoteHandleBatchException */
    method HandleBatchException(about: Option<nat>)
      requires Valid()
      modifies this, objs
      ensures Valid() && objs == old(objs)
      ensures Model() == DwrEngine.HandleBatchException(net, old(Model()), about)
      decreases |batchQueue|, 2, 0
    {
      hide Model, Valid, InStore, DwrEngine.Report, DwrEngine.ClearUp;
      var search := receivedBatch == null && about.Some?;
      Received();
      QueueSize();
      if search {
        Found(about.value);
        Receive(if about.value in batches then batches[about.value] else null);
      }
      Received();
      QueueSize();
      Report(receivedBatch, false);
      QueueSize();
      if search {
        Receive(null);
        Found(about.value);
        QueueSize();
        if about.value in batches {
          ClearUp(batches[about.value]);
        }
      }
    }

    // ----- What the page does

    method CreateBatch() returns (b: BatchObject)
      requires Valid()
      modifies this`objs
      ensures Valid() && fresh(b) && objs == old(objs) + [b]
      ensures b.ref == |old(objs)| && b.Value() == NewBatch(old(Model()))
      ensures Model() == old(Model()).(store := old(Model()).store + [b.Value()])
    {
      hide InStore, Table, TableIn, AllIn, Listed, Refs;
      b := new BatchObject(|objs|, async, timeout);
      OneMore(objs, b, batchQueue, batches);
      objs := objs + [b];
      assert Values() == old(Values()) + [b.Value()];
    }

    /** The batch being built is b, or none is. */
    method Select(b: BatchObject?)
      requires Valid() && OneIn(objs, b)
      modifies this`batch
      ensures Valid() && batch == b && Model() == old(Model()).(current := RefOf(b))
    {
      batch := b;
    }

    lemma Selected()
      requires Valid()
      ensures Model().current == RefOf(batch) && OneIn(objs, batch)
      ensures Model().ordered == ordered && Model().batchesLength == batchesLength
    {}

    /** beginBatch */
    method BeginBatch()
      requires Valid()
      modifies this
      ensures Valid() && old(objs) <= objs && (forall i :: |old(objs)| <= i < |objs| ==> fresh(objs[i]))
      ensures Model() == DwrEngine.BeginBatch(old(Model()))
      ensures batch != null && (old(batch) != null ==> objs == old(objs))
    {
      hide Model, Valid, InStore, NewBatch;
      Selected();
      if batch != null {
        Say(Told(None, false));
        return;
      }
      StoreSize();
      var b := CreateBatch();
      Select(b);
    }

    lemma StoreSize()
      requires Valid()
      ensures |Model().store| == |objs|
    {}

    /** The options of a batch are merged in, and it counts as accepted. */
    method Accept(b: BatchObject, options: Overrides)
      requires Valid() && b in objs && batch == null
      modifies this`accepted, b
      ensures Valid() && b.Value() == Merged(old(b.Value()), options)
      ensures Model() == AcceptedBatch(old(Model()), b.ref, options)
    {
      hide InStore, Table, TableIn, AllIn, Listed, Refs, Merged, Values;
      At(b);
      b.Merge(options);
      accepted := accepted + [b.ref];
      OneChanged(b);
    }

    method Enqueue(b: BatchObject)
      requires Valid() && b in objs
      modifies this`batchQueue
      ensures Valid() && Model() == old(Model()).(queue := old(Model()).queue + [b.ref])
    {
      hide InStore, Table, TableIn, AllIn, Listed, Refs;
      QueueWith(objs, batchQueue, b);
      batchQueue := batchQueue + [b];
    }

    /** endBatch */
    method EndBatch(options: Overrides)
      requires Valid()
      modifies this, objs
      ensures Valid() && objs == old(objs)
      ensures Model() == DwrEngine.EndBatch(net, old(Model()), options)
    {
      hide Model, Valid, InStore, DwrEngine.SendData, Merged;
      Selected();
      var b := batch;
      if b == null {
        Say(Told(None, false));
        return;
      }
      At(b);
      Select(null);
      At(b);
      if b.callCount == 0 {
        return;
      }
      Accept(b, options);
      Selected();
      if ordered && batchesLength != 0 {
        Enqueue(b);
      } else {
        SendData(b);
      }
    }

    /** Another call is noted in the batch, which from the first one on has a servlet to go to. */
    method AddCall(b: BatchObject, path: string, handlers: Handlers, options: Overrides)
      requires Valid() && b in objs && (b.path.Some? ==> b.path.value == path)
      modifies b
      ensures Valid()
      ensures var e := old(Model()); Model() == e.(store := e.store[b.ref := WithCall(e.store[b.ref], path, handlers, options)])
    {
      hide InStore, Table, TableIn, AllIn, Listed, Refs, Values, RefOf;
      At(b);
      if b.path.None? {
        b.path := Some(path);
      }
      b.AddCall(options, handlers);
      OneChanged(b);
    }

    /** _execute, as far as the scheduler goes */
    method Execute(path: string, handlers: Handlers, options: Overrides)
      requires Valid()
      modifies this, objs
      ensures Valid() && old(objs) <= objs && (forall i :: |old(objs)| <= i < |objs| ==> fresh(objs[i]))
      ensures Model() == ExecuteCall(net, old(Model()), path, handlers, options)
    {
      hide Model, Valid, InStore, DwrEngine.EndBatch, DwrEngine.Report, WithCall;
      Selected();
      var singleShot := batch == null;
      if singleShot {
        BeginBatch();
        Selected();
      }
      var b := batch;
      At(b);
      if b.path.Some? && b.path.value != path {
        Report(b, false);
        return;
      }
      AddCall(b, path, handlers, options);
      if singleShot {
        EndBatch(Overrides(None, None));
      }
    }

    /** _poll */
    method Poll()
      requires Valid()
      modifies this, objs
      ensures Valid() && old(objs) <= objs && (forall i :: |old(objs)| <= i < |objs| ==> fresh(objs[i]))
      ensures Model() == PollServer(net, old(Model()))
    {
      hide Model, Valid, InStore, DwrEngine.SendData;
      StoreSize();
      var b := CreatePoll();
      SendData(b);
    }

    /** A batch from _createBatch, made a poll */
    method CreatePoll() returns (b: BatchObject)
      requires Valid()
      modifies this`objs
      ensures Valid() && fresh(b) && objs == old(objs) + [b] && b.ref == |old(objs)|
      ensures Model() == old(Model()).(store := old(Model()).store + [PollBatch()])
    {
      hide InStore, Table, TableIn, AllIn, Listed, Refs, Values;
      StoreSize();
      ghost var e := Model();
      b := CreateBatch();
      At(b);
      b.MakePoll();
      assert b.Value() == PollBatch();
      PolledValues(b, e.store);
    }

    lemma PolledValues(b: BatchObject, before: seq<Batch>)
      requires Valid() && objs != [] && objs[|objs| - 1] == b && |before| == |objs| - 1
      requires forall i :: 0 <= i < |before| ==> objs[i].Value() == before[i]
      ensures Values() == before + [b.Value()]
    {}

    /** _abortRequest */
    method AbortRequest(b: BatchObject)
      requires Valid() && b in objs
      modifies this, objs
      ensures Valid() && objs == old(objs)
      ensures Model() == DwrEngine.AbortRequest(net, old(Model()), b.ref)
    {
      hide Model, Valid, InStore, DwrEngine.ClearUp, DwrEngine.Report;
      At(b);
      if !b.completed {
        ClearUp(b);
        Report(b, false);
      }
    }

    /** The page is being left, and what waits is dropped. */
    method StartUnloading()
      requires Valid()
      modifies this`unloading, this`batchQueue
      ensures Valid() && Model() == old(Model()).(unloading := true, queue := [])
    {
      unloading := true;
      batchQueue := [];
    }

    /** _unloader; the order in which it comes by the outstanding batches is left open. */
    method Unload(order: seq<nat>)
      requires Valid()
      modifies this, objs
      ensures Valid() && objs == old(objs)
      ensures Model() == Step(net, old(Model()), DwrEngine.Unload(order))
    {
      hide Model, Valid, InStore, DwrEngine.ClearUp;
      StartUnloading();
      ghost var e1 := Model();
      var i := 0;
      while i < |order|
        invariant Valid() && objs == old(objs) && 0 <= i <= |order|
        invariant ClearEach(net, Model(), order[i..]) == ClearEach(net, e1, order)
      {
        Found(order[i]);
        assert order[i..][0] == order[i] && order[i..][1..] == order[i + 1..];
        if order[i] in batches {
          ClearUp(batches[order[i]]);
        }
        i := i + 1;
      }
    }

    /** setOrdered, setAsync and setTimeout */
    method SetOrdered(on: bool)
      requires Valid()
      modifies this`ordered
      ensures Valid() && Model() == old(Model()).(ordered := on)
    {
      ordered := on;
    }

    method SetAsync(on: bool)
      requires Valid()
      modifies this`async
      ensures Valid() && Model() == old(Model()).(async := on)
    {
      async := on;
    }

    method SetTimeout(on: bool)
      requires Valid()
      modifies this`timeout
      ensures Valid() && Model() == old(Model()).(timeout := on)
    {
      timeout := on;
    }

    /** A request calls back. */
    method Changed(ref: BatchRef, reply: Reply)
      requires Valid()
      modifies this, objs
      ensures Valid() && objs == old(objs)
      ensures Model() == Step(net, old(Model()), StateChanged(ref, reply))
    {
      hide Model, Valid, InStore, DwrEngine.StateChange;
      StoreSize();
      if ref < |objs| {
        Nth(ref);
        At(objs[ref]);
        if objs[ref].id.Some? && objs[ref].async {
          var threw := StateChange(objs[ref], reply);
        }
      }
    }

    /** A timer runs out. */
    method RunOut(ref: BatchRef)
      requires Valid()
      modifies this, objs
      ensures Valid() && objs == old(objs)
      ensures Model() == Step(net, old(Model()), TimedOut(ref))
    {
      hide Model, Valid, InStore, DwrEngine.AbortRequest;
      StoreSize();
      if ref < |objs| {
        Nth(ref);
        At(objs[ref]);
        if objs[ref].timer {
          AbortRequest(objs[ref]);
        }
      }
    }

    lemma Nth(ref: BatchRef)
      requires Valid() && ref < |objs|
      ensures objs[ref].ref == ref
    {}

    method Dispatch(event: Event)
      requires Valid()
      modifies this, objs
      ensures Valid() && old(objs) <= objs && (forall i :: |old(objs)| <= i < |objs| ==> fresh(objs[i]))
      ensures Model() == Step(net, old(Model()), event)
    {
      hide Model, Valid, InStore, DwrEngine.BeginBatch, DwrEngine.EndBatch, ExecuteCall, PollServer, DwrEngine.StateChange, DwrEngine.AbortRequest, DwrEngine.RunScript, ClearEach;
      match event
      case Begin => BeginBatch();
      case Execute(path, handlers, options) => Execute(path, handlers, options);
      case End(options) => EndBatch(options);
      case SetOrdered(on) => SetOrdered(on);
      case SetAsync(on) => SetAsync(on);
      case SetTimeout(on) => SetTimeout(on);
      case Poll => Poll();
      case StateChanged(b, reply) => Changed(b, reply);
      case TimedOut(b) => RunOut(b);
      case ServerScript(commands) => var threw := Eval(commands);
      case Unload(order) => Unload(order);
    }

    /** A whole run: the engine ends as the model does, and so with everything proved of its runs. */
    method Play(events: seq<Event>)
      requires Valid()
      modifies this, objs
      ensures Valid()
      ensures Model() == Run(net, old(Model()), events)
      ensures old(Good(Model())) ==> Good(Model()) && Moves(old(Model()), Model())
    {
      hide Model, Valid, InStore, Step, Outstanding, Waiting, Answered, Live, Moves;
      if Good(Model()) {
        RunsAreGood(net, Model(), events);
      }
      var i := 0;
      while i < |events|
        invariant Valid() && 0 <= i <= |events|
        invariant old(objs) <= objs && (forall i :: |old(objs)| <= i < |objs| ==> fresh(objs[i]))
        invariant Run(net, Model(), events[i..]) == Run(net, old(Model()), events)
      {
        assert events[i..][0] == events[i] && events[i..][1..] == events[i + 1..];
        Dispatch(events[i]);
        i := i + 1;
      }
    }
  }
}
