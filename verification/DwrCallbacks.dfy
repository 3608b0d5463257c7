/** A batch from its first call to the reply that answers all of them. */
module DwrCallbacks {
  import opened Options
  import opened DwrEngine
  import opened DwrRuns
  import opened DwrSafety
  import opened DwrRelease
  import opened DwrScripts
  import opened DwrHandlers

  const PLAIN := Overrides(None, None)

  // ----- Building the batch

  /** The calls to one servlet, with their handlers */
  function Calls(path: string, hs: seq<Handlers>): (events: seq<Event>)
    ensures |events| == |hs|
  {
    seq(|hs|, i requires 0 <= i < |hs| => Execute(path, hs[i], PLAIN))
  }

  /** The handlers of the calls from i on, by the numbers of their calls */
  function Table(hs: seq<Handlers>, i: nat): map<nat, Handlers> {
    map k: nat | i <= k < |hs| :: hs[k]
  }

  /** The batch being built holds these handlers by the numbers of their calls, and no others. */
  ghost predicate Building(e: Engine, b: BatchRef, path: string, hs: seq<Handlers>) {
    && InStore(e) && e.current == Some(b) && b < |e.store|
    && e.store[b].callCount == |hs| && e.store[b].handlers == Table(hs, 0)
    && (e.store[b].path == if hs == [] then None else Some(path))
  }

  lemma OneMoreCall(net: Net, e: Engine, b: BatchRef, path: string, hs: seq<Handlers>, h: Handlers)
    requires Building(e, b, path, hs)
    ensures var r := Step(net, e, Execute(path, h, PLAIN));
            Building(r, b, path, hs + [h]) && r == e.(store := r.store)
            && |r.store| == |e.store| && (forall x :: 0 <= x < |e.store| && x != b ==> r.store[x] == e.store[x])
            && r.store[b].async == e.store[b].async && r.store[b].isPoll == e.store[b].isPoll && r.store[b].id == e.store[b].id
  {
    hide Report, EndBatch, BeginBatch;
    CallIsAdded(e.store[b], path, h, PLAIN);
    hide WithCall;
    var all := hs + [h];
    var batch := WithCall(e.store[b], path, h, PLAIN);
    assert batch.handlers == Table(all, 0);
  }

  lemma {:induction false} CallsBuild(net: Net, e: Engine, b: BatchRef, path: string, hs: seq<Handlers>, more: seq<Handlers>)
    requires Building(e, b, path, hs)
    ensures var r := Run(net, e, Calls(path, more));
            Building(r, b, path, hs + more) && r == e.(store := r.store)
            && |r.store| == |e.store| && r.store[b].async == e.store[b].async
    decreases |more|
  {
    hide Building, Step;
    if more == [] {
      assert hs + more == hs && Calls(path, more) == [];
      BuildingMeans(e, b, path, hs);
    } else {
      OneMoreCall(net, e, b, path, hs, more[0]);
      BuildingMeans(e, b, path, hs);
      var e1 := Step(net, e, Execute(path, more[0], PLAIN));
      CallsBuild(net, e1, b, path, hs + [more[0]], more[1..]);
      assert hs + [more[0]] + more[1..] == hs + more;
      assert Calls(path, more)[0] == Execute(path, more[0], PLAIN) && Calls(path, more)[1..] == Calls(path, more[1..]);
    }
  }

  lemma BuildingMeans(e: Engine, b: BatchRef, path: string, hs: seq<Handlers>)
    requires Building(e, b, path, hs)
    ensures InStore(e) && b < |e.store|
  {}

  /** beginBatch and n calls make a batch with the n handlers, each under the number of its call. */
  lemma BatchIsBuilt(net: Net, e: Engine, path: string, hs: seq<Handlers>)
    requires Good(e) && e.current.None?
    ensures var r := Run(net, e, [Begin] + Calls(path, hs));
            && Good(r) && Building(r, |e.store|, path, hs)
            && r == e.(store := r.store, current := Some(|e.store|)) && |r.store| == |e.store| + 1
            && r.store[|e.store|].async == e.async
  {
    hide Outstanding, Waiting, Answered, Live, Moves, Building, Step;
    var b, events := |e.store|, [Begin] + Calls(path, hs);
    RunsAreGood(net, e, events);
    BeginBuilds(net, e, path);
    var e1 := Step(net, e, Begin);
    BuildingMeans(e1, b, path, []);
    CallsBuild(net, e1, b, path, [], hs);
    assert [] + hs == hs;
    assert events[0] == Begin && events[1..] == Calls(path, hs);
    assert Run(net, e, events) == Run(net, e1, Calls(path, hs));
  }

  lemma BeginBuilds(net: Net, e: Engine, path: string)
    requires InStore(e) && e.current.None?
    ensures var r := Step(net, e, Begin); var b := |e.store|;
            && Building(r, b, path, []) && r == e.(store := r.store, current := Some(b)) && |r.store| == b + 1
            && r.store[b].async == e.async
  {
    assert BeginBatch(e).store[|e.store|] == NewBatch(e);
    assert Table([], 0) == map[];
  }

  /** Whatever happens later, each of these calls keeps its handlers until it is answered. */
  lemma BuiltBatchKeepsHandlers(net: Net, e: Engine, path: string, hs: seq<Handlers>, later: seq<Event>, k: nat)
    requires Good(e) && e.current.None? && k < |hs| && hs[k].callback && hs[k].exceptionHandler
    ensures var built := Run(net, e, [Begin] + Calls(path, hs)); var r := Run(net, built, later); var b := |e.store|;
            && b < |r.store|
            && ((k in r.store[b].handlers && r.store[b].handlers[k] == hs[k]) || Noted(built.log, r.log, b, k))
  {
    BatchIsBuilt(net, e, path, hs);
    var built := Run(net, e, [Begin] + Calls(path, hs));
    hide Run, Good;
    HandlersAreRetained(net, built, later);
    assert Kept(built, Run(net, built, later), |e.store|, k);
  }

  // ----- Answering it

  /** A script that answers the calls from i on, and what it calls */
  function AnswersFrom(id: nat, i: nat, n: nat): (commands: seq<Command>)
    requires i <= n
    ensures |commands| == n - i
    decreases n - i
  {
    if i == n then [] else [Callback(id, i, false)] + AnswersFrom(id, i + 1, n)
  }

  function CallsFrom(b: BatchRef, hs: seq<Handlers>, i: nat): seq<Note>
    requires i <= |hs|
    decreases |hs| - i
  {
    if i == |hs| then [] else (if hs[i].callback then [Called(b, i)] else []) + CallsFrom(b, hs, i + 1)
  }

  lemma {:induction false} EveryCallbackIsCalled(b: BatchRef, hs: seq<Handlers>, i: nat, k: nat)
    requires i <= k < |hs| && hs[k].callback
    ensures Called(b, k) in CallsFrom(b, hs, i)
    decreases |hs| - i
  {
    if i < k {
      EveryCallbackIsCalled(b, hs, i + 1, k);
    }
  }

  /** The calls from i on have their handlers, and those before have none. */
  ghost predicate HasFrom(e: Engine, b: BatchRef, id: nat, hs: seq<Handlers>, i: nat) {
    && InStore(e) && b < |e.store| && id in e.batches && e.batches[id] == b
    && e.store[b].handlers == Table(hs, i)
  }

  lemma AnswerOne(net: Net, e: Engine, b: BatchRef, id: nat, hs: seq<Handlers>, i: nat)
    requires HasFrom(e, b, id, hs, i) && i < |hs|
    ensures InStore(e)
    ensures var r := Obey(net, e, Callback(id, i, false));
            && HasFrom(r, b, id, hs, i + 1) && r == e.(store := r.store, log := r.log)
            && r.log == e.log + (if hs[i].callback then [Called(b, i)] else [])
            && r.store[b] == e.store[b].(handlers := r.store[b].handlers)
  {
    assert Forget(e.store[b].handlers, i) == Table(hs, i + 1);
    assert e.log + [] == e.log;
  }

  lemma HasMeans(e: Engine, b: BatchRef, id: nat, hs: seq<Handlers>, i: nat)
    requires HasFrom(e, b, id, hs, i)
    ensures InStore(e) && b < |e.store| && id in e.batches && e.batches[id] == b
    ensures i == |hs| ==> e.store[b].handlers == map[] && e.store[b] == e.store[b].(handlers := map[])
  {
    if i == |hs| {
      assert Table(hs, i) == map[];
    }
  }

  lemma {:induction false} AnswerAll(net: Net, e: Engine, b: BatchRef, id: nat, hs: seq<Handlers>, i: nat)
    requires HasFrom(e, b, id, hs, i) && i <= |hs|
    ensures InStore(e)
    ensures var s := RunScript(net, e, AnswersFrom(id, i, |hs|)); var r := s.engine;
            && !s.threw && HasFrom(r, b, id, hs, |hs|) && r == e.(store := r.store, log := r.log)
            && r.log == e.log + CallsFrom(b, hs, i)
            && r.store[b] == e.store[b].(handlers := map[])
    decreases |hs| - i
  {
    hide Obey, HasFrom, Forget;
    HasMeans(e, b, id, hs, i);
    if i == |hs| {
      assert e.log + [] == e.log;
    } else {
      AnswerOne(net, e, b, id, hs, i);
      var e1 := Obey(net, e, Callback(id, i, false));
      AnswerAll(net, e1, b, id, hs, i + 1);
      var one := if hs[i].callback then [Called(b, i)] else [];
      assert e.log + one + CallsFrom(b, hs, i + 1) == e.log + (one + CallsFrom(b, hs, i + 1));
      assert AnswersFrom(id, i, |hs|)[0] == Callback(id, i, false);
      assert AnswersFrom(id, i, |hs|)[1..] == AnswersFrom(id, i + 1, |hs|);
    }
  }

  /** The reply to an outstanding batch that answers each of its calls has every callback called, in
      the order of the calls, and completes the batch. */
  lemma AnsweredInFull(net: Net, e: Engine, b: BatchRef, id: nat, hs: seq<Handlers>)
    requires Good(e) && HasFrom(e, b, id, hs, 0) && e.store[b].async && !e.unloading
    ensures var r := Step(net, e, StateChanged(b, Script(AnswersFrom(id, 0, |hs|))));
            e.log + CallsFrom(b, hs, 0) <= r.log && Done(r, b)
  {
    OutstandingBatch(e, id);
    var commands := AnswersFrom(id, 0, |hs|);
    var e1 := e.(received := Some(b));
    ReceivedKeeps(e, Some(b));
    AnswerAll(net, e1, b, id, hs, 0);
    hide Outstanding, Waiting, Answered, Moves, HasFrom, RunScript, AnswersFrom, CallsFrom, Step;
    ReplyCompletesExactly(net, e, b, Script(commands));
    ThrowsExactly(net, e1, commands);
    ScriptKeeps(net, e1, commands);
    ReplyThenFinish(net, e, b, commands);
  }

  lemma ReplyThenFinish(net: Net, e: Engine, b: BatchRef, commands: seq<Command>)
    requires InStore(e) && b < |e.store| && e.store[b].id.Some? && e.store[b].async && !e.store[b].completed && !e.unloading
    requires !RunScript(net, e.(received := Some(b)), commands).threw
    ensures RunScript(net, e.(received := Some(b)), commands).engine.log <= Step(net, e, StateChanged(b, Script(commands))).log
  {
    hide RunScript, Finish, Retains;
    assert StateChange(net, e, b, Script(commands)) == Evaluated(net, e, b, commands);
    var m := RunScript(net, e.(received := Some(b)), commands).engine;
    FinishRetains(net, m, b);
    LogRetained(m, Finish(net, m, b));
  }

  lemma LogRetained(e: Engine, r: Engine)
    requires Retains(e, r)
    ensures e.log <= r.log
  {}

  // ----- From the first call to the last callback

  /** Main result: calls made in one batch, sent at once and answered by one reply: every callback is
      called, in the order of the calls. */
  lemma BatchIsAnswered(net: Net, e: Engine, path: string, hs: seq<Handlers>)
    requires Good(e) && e.current.None? && hs != [] && SendsAtOnce(e) && e.async && !e.unloading && !Fails(net(e.nextId))
    ensures var sent := Run(net, e, [Begin] + Calls(path, hs) + [End(PLAIN)]); var b := |e.store|;
            && e.nextId in sent.batches && sent.batches[e.nextId] == b && sent.log == e.log
            && var r := Step(net, sent, StateChanged(b, Script(AnswersFrom(e.nextId, 0, |hs|))));
               && e.log + CallsFrom(b, hs, 0) <= r.log && Done(r, b)
               && (forall k :: 0 <= k < |hs| && hs[k].callback ==> Called(b, k) in r.log)
  {
    hide Run, Step, Outstanding, Waiting, Answered, Live, Moves, Building, HasFrom, CallsFrom, AnswersFrom;
    var b := |e.store|;
    BatchIsSent(net, e, path, hs);
    var sent := Run(net, e, [Begin] + Calls(path, hs) + [End(PLAIN)]);
    HasMeans(sent, b, e.nextId, hs, 0);
    AnsweredInFull(net, sent, b, e.nextId, hs);
    var r := Step(net, sent, StateChanged(b, Script(AnswersFrom(e.nextId, 0, |hs|))));
    forall k | 0 <= k < |hs| && hs[k].callback
      ensures Called(b, k) in r.log
    {
      EveryCallbackIsCalled(b, hs, 0, k);
      InPrefix(e.log, CallsFrom(b, hs, 0), r.log, Called(b, k));
    }
  }

  lemma BatchIsSent(net: Net, e: Engine, path: string, hs: seq<Handlers>)
    requires Good(e) && e.current.None? && hs != [] && SendsAtOnce(e) && e.async && !Fails(net(e.nextId))
    ensures var sent := Run(net, e, [Begin] + Calls(path, hs) + [End(PLAIN)]); var b := |e.store|;
            && Good(sent) && HasFrom(sent, b, e.nextId, hs, 0)
            && sent.log == e.log && sent.store[b].async && sent.unloading == e.unloading
  {
    hide Run, Step, Outstanding, Waiting, Answered, Live, Moves, Building, HasFrom;
    var b, built := |e.store|, Run(net, e, [Begin] + Calls(path, hs));
    RunsAreGood(net, e, [Begin] + Calls(path, hs) + [End(PLAIN)]);
    BatchIsBuilt(net, e, path, hs);
    EndsBySending(net, built, b, path, hs);
    RunLast(net, e, [Begin] + Calls(path, hs), End(PLAIN));
  }

  lemma InPrefix(a: seq<Note>, b: seq<Note>, c: seq<Note>, n: Note)
    requires a + b <= c && n in b
    ensures n in c
  {
    var i :| 0 <= i < |b| && b[i] == n;
    assert (a + b)[|a| + i] == n;
  }

  lemma {:induction false} RunLast(net: Net, e: Engine, events: seq<Event>, last: Event)
    requires InStore(e)
    ensures Run(net, e, events + [last]) == Step(net, Run(net, e, events), last)
    decreases |events|
  {
    hide Step, InStore;
    if events == [] {
      assert events + [last] == [last] && [last][1..] == [];
    } else {
      assert (events + [last])[0] == events[0] && (events + [last])[1..] == events[1..] + [last];
      RunLast(net, Step(net, e, events[0]), events[1..], last);
    }
  }

  /** A batch that endBatch sends without fault is outstanding with all its handlers. */
  lemma EndsBySending(net: Net, e: Engine, b: BatchRef, path: string, hs: seq<Handlers>)
    requires Good(e) && Building(e, b, path, hs) && hs != [] && SendsAtOnce(e) && e.store[b].async && !Fails(net(e.nextId))
    ensures var r := Step(net, e, End(PLAIN));
            HasFrom(r, b, e.nextId, hs, 0) && r.log == e.log && r.store[b].async && r.unloading == e.unloading
  {
    EndIsRegistered(net, e, b);
    var e3 := AcceptedBatch(e, b, PLAIN);
    RegisteredShape(e3, b);
    hide Registered, Step, Outstanding, Waiting, Answered, Live, Table;
    assert e3.store[b] == e.store[b];
  }

  lemma EndIsRegistered(net: Net, e: Engine, b: BatchRef)
    requires InStore(e) && e.current == Some(b) && b < |e.store| && e.store[b].callCount != 0
    requires SendsAtOnce(e) && e.store[b].async && !Fails(net(e.nextId))
    ensures Step(net, e, End(PLAIN)) == Registered(AcceptedBatch(e, b, PLAIN), b)
  {
    hide Report, StateChange;
    var e3 := AcceptedBatch(e, b, PLAIN);
    assert e3.store[b].async;
    assert SendData(net, e3, b) == Registered(e3, b);
  }
}
