/** The request scheduler of the engine on values: batches that are being built, waiting, sent or
    completed, and every way a reply, a timeout or a failure to send can move them. */
module DwrEngine {
  import opened Options

  /** The handlers of one call that are functions */
  datatype Handlers = Handlers(callback: bool, exceptionHandler: bool)

  /** A batch; its identity is its index in the engine's store. The id is given when it is sent. */
  datatype Batch = Batch(
    path: Option<string>,
    callCount: nat,
    handlers: map<nat, Handlers>,
    isPoll: bool,
    async: bool,
    timeout: bool,
    id: Option<nat>,
    completed: bool,
    req: bool,
    timer: bool)

  type BatchRef = nat

  /** What user code gets to see */
  datatype Note =
    | Called(batch: BatchRef, call: nat)
    | Excepted(batch: BatchRef, call: nat)
    | Told(about: Option<BatchRef>, warning: bool)

  datatype Engine = Engine(
    store: seq<Batch>,
    batches: map<nat, BatchRef>,
    batchesLength: int,
    queue: seq<BatchRef>,
    nextId: nat,
    ordered: bool,
    async: bool,
    timeout: bool,
    current: Option<BatchRef>,
    received: Option<BatchRef>,
    unloading: bool,
    log: seq<Note>,
    accepted: seq<BatchRef>,
    sent: seq<BatchRef>)

  // ----- What the outside does

  /** One statement of a script the server sends. Throw stands for any that throws. */
  datatype Command =
    | Callback(id: nat, call: nat, throws: bool)
    | Exception(id: nat, call: nat)
    | BatchException(about: Option<nat>)
    | Throw

  /** What a request shows when its state changes. */
  datatype Reply =
    | NotDone
    | StateThrows
    | Warned
    | Failed
    | Html
    | Script(commands: seq<Command>)

  /** How a send goes: whether the old-Safari warning is given, which step throws, and the reply
      that a synchronous request has at once. */
  datatype Outcome = Outcome(safari: bool, openThrows: bool, headersThrow: bool, sendThrows: bool, reply: Reply)

  /** The outcome of every send, by the id it is sent under */
  type Net = nat -> Outcome

  // ----- The functions of the engine

  function Forget<T>(m: map<nat, T>, k: nat): (r: map<nat, T>)
    ensures r.Keys == m.Keys - {k}
    ensures forall x :: x in r ==> r[x] == m[x]
  {
    map x | x in m && x != k :: m[x]
  }

  ghost predicate InStore(e: Engine) {
    && (forall i :: 0 <= i < |e.queue| ==> e.queue[i] < |e.store|)
    && (forall id :: id in e.batches ==> e.batches[id] < |e.store|)
    && (e.current.Some? ==> e.current.value < |e.store|)
    && (e.received.Some? ==> e.received.value < |e.store|)
  }

  /** The batch is registered under the next id, with its request and timer. */
  function Registered(e: Engine, b: BatchRef): (r: Engine)
    requires b < |e.store|
    ensures InStore(e) ==> InStore(r)
    ensures |r.store| == |e.store| && r.queue == e.queue
  {
    var batch := e.store[b];
    e.(store := e.store[b := batch.(id := Some(e.nextId), completed := false, req := true, timer := batch.timeout)],
       nextId := e.nextId + 1,
       batches := e.batches[e.nextId := b],
       batchesLength := e.batchesLength + 1,
       sent := if batch.isPoll then e.sent else e.sent + [b])
  }

  /** The batch is completed and, if it was sent, no longer outstanding. */
  function Completed(e: Engine, b: BatchRef): (r: Engine)
    requires b < |e.store|
    ensures InStore(e) ==> InStore(r)
    ensures |r.store| == |e.store| && r.queue == e.queue
  {
    var batch := e.store[b];
    var e1 := e.(store := e.store[b := batch.(completed := true, req := false, timer := false)]);
    match batch.id
    case Some(id) => e1.(batches := Forget(e.batches, id), batchesLength := e.batchesLength - 1)
    case None => e1
  }

  /** The queue got no longer, and no batch object was lost. */
  ghost predicate Within(e: Engine, r: Engine) {
    InStore(r) && |r.queue| <= |e.queue| && |r.store| == |e.store|
  }

  /** _sendData, for XMLHttpRequest */
  ghost function SendData(net: Net, e: Engine, b: BatchRef): (r: Engine)
    requires InStore(e) && b < |e.store|
    ensures Within(e, r)
    decreases |e.queue|, 5, 0
  {
    var o := net(e.nextId);
    var e1 := Registered(e, b);
    var e2 := if o.safari then Report(net, e1, Some(b), true) else e1;
    if o.openThrows || !e2.store[b].req then Report(net, e2, Some(b), false)
    else
      var e3 := if o.headersThrow then Report(net, e2, Some(b), true) else e2;
      if o.sendThrows || !e3.store[b].req then Report(net, e3, Some(b), false)
      else if e3.store[b].async then e3
      else
        var s := StateChange(net, e3, b, o.reply);
        if s.threw then Report(net, s.engine, Some(b), false) else s.engine
  }

  /** _clearUp */
  ghost function ClearUp(net: Net, e: Engine, b: BatchRef): (r: Engine)
    requires InStore(e) && b < |e.store|
    ensures Within(e, r)
    decreases |e.queue|, 0, 0
  {
    if e.store[b].completed then e
    else
      var e1 := Completed(e, b);
      if e1.queue == [] then e1 else SendData(net, e1.(queue := e1.queue[1..]), e1.queue[0])
  }

  /** _handleError and _handleWarning */
  ghost function Report(net: Net, e: Engine, b: Option<BatchRef>, warning: bool): (r: Engine)
    requires InStore(e) && (b.Some? ==> b.value < |e.store|)
    ensures Within(e, r)
    decreases |e.queue|, 1, 0
  {
    var e1 := e.(log := e.log + [Told(b, warning)]);
    if b.Some? then ClearUp(net, e1, b.value) else e1
  }

  /** The state after a piece of script, and whether it threw */
  datatype Ran = Ran(engine: Engine, threw: bool)

  /** _stateChange */
  ghost function StateChange(net: Net, e: Engine, b: BatchRef, reply: Reply): (r: Ran)
    requires InStore(e) && b < |e.store|
    ensures Within(e, r.engine)
    decreases |e.queue|, 4, 1
  {
    if e.store[b].completed || reply.NotDone? then Ran(e, false)
    else if reply.StateThrows? then Ran(ClearUp(net, Report(net, e, Some(b), true), b), false)
    else if e.unloading then Ran(e, false)
    else
      var e1 := match reply
                case Warned => Report(net, e, Some(b), true)
                case Failed => Report(net, e, Some(b), false)
                case _ => e;
      Evaluated(net, e1, b, if reply.Script? then reply.commands else [])
  }

  /** The script of a reply, and the end of it */
  ghost function Evaluated(net: Net, e: Engine, b: BatchRef, commands: seq<Command>): (r: Ran)
    requires InStore(e) && b < |e.store|
    ensures Within(e, r.engine)
    decreases |e.queue|, 4, 0
  {
    var s := RunScript(net, e.(received := Some(b)), commands);
    if s.threw then s else Ran(Finish(net, s.engine, b), false)
  }

  /** The check for unanswered calls, and the clearing up */
  ghost function Finish(net: Net, e: Engine, b: BatchRef): (r: Engine)
    requires InStore(e) && b < |e.store|
    ensures Within(e, r)
    decreases |e.queue|, 3, 0
  {
    var e1 := Validated(net, e.(received := None), b);
    if e1.store[b].completed then e1 else ClearUp(net, e1, b)
  }

  /** Whether some call of the batch still has its handlers. */
  ghost predicate Unanswered(batch: Batch) {
    exists i :: 0 <= i < batch.callCount && i in batch.handlers
  }

  /** _validateBatch */
  ghost function Validated(net: Net, e: Engine, b: BatchRef): (r: Engine)
    requires InStore(e) && b < |e.store|
    ensures Within(e, r)
    decreases |e.queue|, 2, 0
  {
    if !e.store[b].completed && Unanswered(e.store[b]) then Report(net, e, Some(b), true) else e
  }

  ghost function RunScript(net: Net, e: Engine, commands: seq<Command>): (r: Ran)
    requires InStore(e)
    ensures Within(e, r.engine)
    decreases |e.queue|, 3, |commands|
  {
    if commands == [] then Ran(e, false)
    else if commands[0].Throw? then Ran(e, true)
    else RunScript(net, Obey(net, e, commands[0]), commands[1..])
  }

  ghost function Obey(net: Net, e: Engine, c: Command): (r: Engine)
    requires InStore(e)
    ensures Within(e, r)
    decreases |e.queue|, 2, 1
  {
    match c
    case Callback(id, call, throws) =>
      if id in e.batches then HandleCallback(net, e, e.batches[id], call, throws) else e
    case Exception(id, call) =>
      if id in e.batches then HandleException(e, e.batches[id], call) else e
    case BatchException(about) => HandleBatchException(net, e, about)
    case Throw => e
  }

  /** A call's handlers are taken out before either of them is used. */
  function Taken(e: Engine, b: BatchRef, call: nat): (r: Engine)
    requires b < |e.store|
    ensures InStore(e) ==> InStore(r)
    ensures |r.store| == |e.store| && r.queue == e.queue
  {
    e.(store := e.store[b := e.store[b].(handlers := Forget(e.store[b].handlers, call))])
  }

  /** _remoteHandleCallback, once the batch is found */
  ghost function HandleCallback(net: Net, e: Engine, b: BatchRef, call: nat, throws: bool): (r: Engine)
    requires InStore(e) && b < |e.store|
    ensures Within(e, r)
    decreases |e.queue|, 2, 0
  {
    var handlers := e.store[b].handlers;
    var e1 := Taken(e, b, call);
    if call !in handlers || !handlers[call].callback then e1
    else
      var e2 := e1.(log := e1.log + [Called(b, call)]);
      if throws then Report(net, e2, Some(b), false) else e2
  }

  /** _remoteHandleException, once the batch is found */
  function HandleException(e: Engine, b: BatchRef, call: nat): (r: Engine)
    requires b < |e.store|
    ensures InStore(e) ==> Within(e, r)
  {
    var handlers := e.store[b].handlers;
    var e1 := Taken(e, b, call);
    if call !in handlers then e1
    else e1.(log := e1.log + [if handlers[call].exceptionHandler then Excepted(b, call) else Told(Some(b), false)])
  }

  /** _remoteHandleBatchException */
  ghost function HandleBatchException(net: Net, e: Engine, about: Option<nat>): (r: Engine)
    requires InStore(e)
    ensures Within(e, r)
    decreases |e.queue|, 2, 0
  {
    var search := e.received.None? && about.Some?;
    var target := if search then Find(e, about.value) else e.received;
    var e1 := Report(net, e.(received := target), target, false);
    if !search then e1
    else
      var e2 := e1.(received := None);
      var again := Find(e2, about.value);
      if again.Some? then ClearUp(net, e2, again.value) else e2
  }

  function Find(e: Engine, id: nat): Option<BatchRef> {
    if id in e.batches then Some(e.batches[id]) else None
  }

  // ----- What the page and the network do to it

  /** Settings that a call or endBatch may override for its batch */
  datatype Overrides = Overrides(async: Option<bool>, timeout: Option<bool>)

  datatype Event =
    | Begin
    | Execute(path: string, handlers: Handlers, options: Overrides)
    | End(options: Overrides)
    | SetOrdered(on: bool)
    | SetAsync(on: bool)
    | SetTimeout(on: bool)
    | Poll
    | StateChanged(batch: BatchRef, reply: Reply)
    | TimedOut(batch: BatchRef)
    | ServerScript(commands: seq<Command>)
    | Unload(order: seq<nat>)

  const DEFAULT_PATH := "/locate/dwr"

  /** _createBatch */
  function NewBatch(e: Engine): Batch {
    Batch(None, 0, map[], false, e.async, e.timeout, None, false, false, false)
  }

  function PollBatch(): Batch {
    Batch(Some(DEFAULT_PATH), 1, map[0 := Handlers(true, false)], true, true, false, None, false, false, false)
  }

  function Merged(batch: Batch, options: Overrides): Batch {
    batch.(async := if options.async.Some? then options.async.value else batch.async,
           timeout := if options.timeout.Some? then options.timeout.value else batch.timeout)
  }

  /** beginBatch */
  function BeginBatch(e: Engine): (r: Engine)
    ensures InStore(e) ==> InStore(r)
    ensures r.current.Some?
  {
    if e.current.Some? then e.(log := e.log + [Told(None, false)])
    else e.(store := e.store + [NewBatch(e)], current := Some(|e.store|))
  }

  /** endBatch */
  ghost function EndBatch(net: Net, e: Engine, options: Overrides): (r: Engine)
    requires InStore(e)
    ensures InStore(r)
  {
    if e.current.None? then e.(log := e.log + [Told(None, false)])
    else
      var b := e.current.value;
      var e1 := e.(current := None);
      if e.store[b].callCount == 0 then e1
      else
        var e2 := e1.(store := e.store[b := Merged(e.store[b], options)], accepted := e.accepted + [b]);
        if e.ordered && e.batchesLength != 0 then e2.(queue := e.queue + [b]) else SendData(net, e2, b)
  }

  /** The batch with one more call in it */
  function WithCall(batch: Batch, path: string, handlers: Handlers, options: Overrides): Batch {
    Merged(batch, options).(path := Some(path), handlers := batch.handlers[batch.callCount := handlers],
                            callCount := batch.callCount + 1)
  }

  /** Two calls of one batch must be to the same servlet. */
  predicate Mismatch(e: Engine, path: string)
    requires e.current.Some? ==> e.current.value < |e.store|
  {
    e.current.Some? && e.store[e.current.value].path.Some? && e.store[e.current.value].path.value != path
  }

  /** _execute, as far as the scheduler goes */
  ghost function ExecuteCall(net: Net, e: Engine, path: string, handlers: Handlers, options: Overrides): (r: Engine)
    requires InStore(e)
    ensures InStore(r)
  {
    if Mismatch(e, path) then Report(net, e, e.current, false)
    else
      var e1 := if e.current.None? then BeginBatch(e) else e;
      var b := e1.current.value;
      var e2 := e1.(store := e1.store[b := WithCall(e1.store[b], path, handlers, options)]);
      if e.current.None? then EndBatch(net, e2, Overrides(None, None)) else e2
  }

  /** _poll */
  ghost function PollServer(net: Net, e: Engine): (r: Engine)
    requires InStore(e)
    ensures InStore(r)
  {
    SendData(net, e.(store := e.store + [PollBatch()]), |e.store|)
  }

  /** _abortRequest */
  ghost function AbortRequest(net: Net, e: Engine, b: BatchRef): (r: Engine)
    requires InStore(e) && b < |e.store|
    ensures InStore(r)
  {
    if e.store[b].completed then e else Report(net, ClearUp(net, e, b), Some(b), false)
  }

  ghost function ClearEach(net: Net, e: Engine, order: seq<nat>): (r: Engine)
    requires InStore(e)
    ensures InStore(r)
    decreases |order|
  {
    if order == [] then e
    else ClearEach(net, if order[0] in e.batches then ClearUp(net, e, e.batches[order[0]]) else e, order[1..])
  }

  /** One event. A state change is only reported for a batch sent asynchronously, and a timeout
      only while the batch's timer is set. */
  ghost function Step(net: Net, e: Engine, event: Event): (r: Engine)
    requires InStore(e)
    ensures InStore(r)
  {
    match event
    case Begin => BeginBatch(e)
    case Execute(path, handlers, options) => ExecuteCall(net, e, path, handlers, options)
    case End(options) => EndBatch(net, e, options)
    case SetOrdered(on) => e.(ordered := on)
    case SetAsync(on) => e.(async := on)
    case SetTimeout(on) => e.(timeout := on)
    case Poll => PollServer(net, e)
    case StateChanged(b, reply) =>
      if b < |e.store| && e.store[b].id.Some? && e.store[b].async then StateChange(net, e, b, reply).engine else e
    case TimedOut(b) => if b < |e.store| && e.store[b].timer then AbortRequest(net, e, b) else e
    case ServerScript(commands) => RunScript(net, e, commands).engine
    case Unload(order) => ClearEach(net, e.(unloading := true, queue := []), order)
  }

  ghost function Run(net: Net, e: Engine, events: seq<Event>): (r: Engine)
    requires InStore(e)
    ensures InStore(r)
    decreases |events|
  {
    if events == [] then e else Run(net, Step(net, e, events[0]), events[1..])
  }

  const INITIAL := Engine([], map[], 0, [], 0, false, true, false, None, None, false, [], [], [])
}
