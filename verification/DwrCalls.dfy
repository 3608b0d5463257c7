/** What the map of a batch holds when all its calls have been added. */
module DwrCalls {
  import opened Options
  import opened TextLists
  import opened DwrWire
  import opened DwrMarshal
  import opened DwrRoundTrip
  import opened DwrFunctions
  import opened DwrExact

  // ----- A whole batch

  /** One remote call: the graph its arguments live in, and the arguments */
  datatype Call = Call(heap: Heap, scriptName: string, methodName: string, args: seq<Value>)

  ghost predicate Marshallable(c: Call) {
    WellFormed(c.heap) && forall v :: v in c.args ==> Exists(c.heap, v)
  }

  /** The map of a batch, its parameter counter and its number of calls */
  datatype BatchMap = BatchMap(texts: map<string, string>, count: nat, callCount: nat)

  function ParamName(call: nat, i: nat): string {
    Prefix(call) + "param" + Decimal(i)
  }

  /** The arguments from the i-th on, each with an empty table of objects met. */
  function SerializeArgs(h: Heap, call: nat, texts: map<string, string>, count: nat, args: seq<Value>, i: nat): State
    requires WellFormed(h) && i <= |args| && forall v :: v in args ==> Exists(h, v)
    decreases |args| - i
  {
    if i == |args| then State(texts, count, [])
    else
      var t := SerializeAll(h, call, State(texts, count, []), args[i], ParamName(call, i));
      SerializeArgs(h, call, t.texts, t.count, args, i + 1)
  }

  function WithHead(b: BatchMap, c: Call): map<string, string> {
    var p := Prefix(b.callCount);
    b.texts[p + "scriptName" := c.scriptName][p + "methodName" := c.methodName][p + "id" := Decimal(b.callCount)]
  }

  /** _execute, as far as the map goes */
  function AddCall(b: BatchMap, c: Call): BatchMap
    requires Marshallable(c)
  {
    var t := SerializeArgs(c.heap, b.callCount, WithHead(b, c), b.count, c.args, 0);
    BatchMap(t.texts, t.count, b.callCount + 1)
  }

  function AddCalls(b: BatchMap, calls: seq<Call>): BatchMap
    requires forall c :: c in calls ==> Marshallable(c)
    decreases |calls|
  {
    if calls == [] then b else AddCalls(AddCall(b, calls[0]), calls[1..])
  }

  /** No key belongs to a call that is still to come. */
  ghost predicate Fresh(b: BatchMap) {
    forall k, n: nat :: k in b.texts && n >= b.callCount ==> !(Prefix(n) <= k)
  }

  /** The prefixes of different calls exclude one another. */
  lemma PrefixUnique(a: nat, b: nat, k: string)
    requires Prefix(a) <= k && Prefix(b) <= k
    ensures a == b
  {
    DecimalRoundTrip(a);
    DecimalRoundTrip(b);
    var m, n := |Decimal(a)|, |Decimal(b)|;
    assert k[m + 1] == '-' && k[n + 1] == '-';
    assert k[1..m + 1] == Decimal(a) && k[1..n + 1] == Decimal(b);
    assert forall i :: 1 <= i <= m ==> k[i] == Decimal(a)[i - 1] && k[i] != '-';
    assert forall i :: 1 <= i <= n ==> k[i] == Decimal(b)[i - 1] && k[i] != '-';
    assert m == n;
  }

  lemma SerialHasPrefix(call: nat, k: string)
    requires Serial(call, k).Some?
    ensures Prefix(call) <= k
  {
    assert Prefix(call) <= Prefix(call) + "e";
  }

  lemma ParamIsNoElement(call: nat, i: nat)
    ensures Serial(call, ParamName(call, i)).None? && PlainName(ParamName(call, i)) && Prefix(call) <= ParamName(call, i)
  {
    var p := Prefix(call);
    DecimalRoundTrip(i);
    DecimalRoundTrip(call);
    assert ParamName(call, i)[|p|] == 'p' && (p + "e")[|p|] == 'e';
    assert ParamName(call, i)[..|p|] == p;
  }

  lemma ParamsDiffer(call: nat, i: nat, j: nat)
    requires i != j
    ensures ParamName(call, i) != ParamName(call, j)
  {
    var p := Prefix(call) + "param";
    DecimalRoundTrip(i);
    DecimalRoundTrip(j);
    assert ParamName(call, i)[|p|..] == Decimal(i) && ParamName(call, j)[|p|..] == Decimal(j);
  }

  /** Between two arguments of a call: the state is in order and the later parameters' names are
      not taken. */
  ghost predicate Ready(h: Heap, call: nat, texts: map<string, string>, count: nat, i: nat) {
    && Ordered(h, call, State(texts, count, []))
    && forall j :: j >= i ==> ParamName(call, j) !in texts
  }

  /** The graph stands in the map under the name, and does so in every map that this one grows to. */
  ghost predicate Stands(h: Heap, v: Value, m: map<string, string>, name: string) {
    exists refs: seq<Entry> :: StandsFor(h, v, m, name, refs)
  }

  lemma StandsGrows(h: Heap, v: Value, m: map<string, string>, m2: map<string, string>, name: string)
    requires Stands(h, v, m, name) && MapGrows(m, m2)
    ensures Stands(h, v, m2, name)
  {
    hide Read, Image, Visits, Children, ToWire, Follow;
    var refs: seq<Entry> :| StandsFor(h, v, m, name, refs);
    FollowGrows(m, m2, name);
    forall i | 0 <= i < |refs|
      ensures WrittenNode(h, m2, refs, refs[i])
    {
      var names := MemberNames(Read(m[refs[i].name]).value);
      forall j | 0 <= j < |names|
        ensures Follow(m, names[j]).Some? ==> Follow(m2, names[j]) == Follow(m, names[j])
      {
        FollowGrows(m, m2, names[j]);
      }
    }
    assert StandsFor(h, v, m2, name, refs);
  }

  lemma FollowGrows(m: map<string, string>, m2: map<string, string>, name: string)
    requires MapGrows(m, m2)
    ensures Follow(m, name).Some? ==> Follow(m2, name) == Follow(m, name)
  {
    hide Read;
  }

  /** The map grew by keys of this call only. */
  ghost predicate GrewBy(call: nat, m: map<string, string>, m2: map<string, string>) {
    MapGrows(m, m2) && forall k :: k in m2 && k !in m ==> Prefix(call) <= k
  }

  lemma ArgDone(h: Heap, call: nat, texts: map<string, string>, count: nat, v: Value, i: nat)
    requires WellFormed(h) && Exists(h, v) && Ready(h, call, texts, count, i)
    ensures var t := SerializeAll(h, call, State(texts, count, []), v, ParamName(call, i));
            && GrewBy(call, texts, t.texts)
            && Ready(h, call, t.texts, t.count, i + 1)
            && (!v.Function? ==> Stands(h, v, t.texts, ParamName(call, i)))
  {
    hide StandsFor, WellFormed, ArraysHoldData, Serial, Described, Prefix, ParamName, IsContainer, StandHeap, Text;
    var st, name := State(texts, count, []), ParamName(call, i);
    if !v.Function? {
      ParamIsNoElement(call, i);
      var t := SerializeAll(h, call, st, v, name);
      EveryGraphIsWritten(h, call, st, v, name);
      ArgGrows(h, call, st, v, name);
      forall k | k in t.texts && k !in texts
        ensures Prefix(call) <= k
      {
        if k != name {
          SerialHasPrefix(call, k);
        }
      }
      forall j | j >= i + 1
        ensures ParamName(call, j) !in t.texts
      {
        ParamsDiffer(call, i, j);
        ParamIsNoElement(call, j);
      }
    }
  }

  /** Whatever the graph holds, nothing is overwritten, and every new name is a new element name or
      the caller's own. */
  lemma ArgGrows(h: Heap, call: nat, st: State, v: Value, name: string)
    requires WellFormed(h) && Exists(h, v) && !v.Function?
    requires Ordered(h, call, st) && Vacant(call, st, name) && st.refs == []
    ensures var t := SerializeAll(h, call, st, v, name);
            && MapGrows(st.texts, t.texts)
            && (forall k :: k in t.texts && k !in st.texts ==> k == name || Between(call, k, st.count, t.count))
            && (forall k :: k in t.texts ==> NotAfter(call, k, t.count))
  {
    hide Shows, WellFormed, StandHeap, SerializeAll, Text, Vacant, Ordered, Grows, Shadows, Between, NotAfter;
    ShadowOf(Nil, h, call, st, v, name);
    ShadowOf(Bool(true), h, call, st, v, name);
    var t := SerializeAll(h, call, st, v, name);
    var a, b := SerializeAll(StandHeap(Nil, h), call, st, v, name), SerializeAll(StandHeap(Bool(true), h), call, st, v, name);
    FromShadows(StandHeap(Nil, h), StandHeap(Bool(true), h), call, st, name, t, a, b);
  }

  lemma FromShadows(g: Heap, g2: Heap, call: nat, st: State, name: string, t: State, a: State, b: State)
    requires Shadows(Nil, t, a) && Grows(g, call, st, a, Some(name)) && Ordered(g, call, a)
    requires Shadows(Bool(true), t, b) && Grows(g2, call, st, b, Some(name))
    ensures MapGrows(st.texts, t.texts)
    ensures forall k :: k in t.texts && k !in st.texts ==> k == name || Between(call, k, st.count, t.count)
    ensures forall k :: k in t.texts ==> NotAfter(call, k, t.count)
  {
    ReadText(WNull);
    ReadText(WBool(true));
    hide Text, Read, Described, Between, NotAfter, IsContainer, Met, Unique;
    forall k | k in st.texts
      ensures k in t.texts
    {
      assert a.texts[k] == st.texts[k] == b.texts[k];
    }
  }

  lemma {:induction false} ArgsDone(h: Heap, call: nat, texts: map<string, string>, count: nat, args: seq<Value>, i: nat)
    requires WellFormed(h) && i <= |args| && forall v :: v in args ==> Exists(h, v)
    requires Ready(h, call, texts, count, i)
    ensures var t := SerializeArgs(h, call, texts, count, args, i);
            && GrewBy(call, texts, t.texts)
            && forall j :: i <= j < |args| && !args[j].Function? ==> Stands(h, args[j], t.texts, ParamName(call, j))
    decreases |args| - i
  {
    hide Stands, WellFormed, Ready, Prefix, ParamName, SerializeAll;
    if i < |args| {
      assert args[i] in args;
      ArgDone(h, call, texts, count, args[i], i);
      var t := SerializeAll(h, call, State(texts, count, []), args[i], ParamName(call, i));
      ArgsDone(h, call, t.texts, t.count, args, i + 1);
      var u := SerializeArgs(h, call, t.texts, t.count, args, i + 1);
      if !args[i].Function? {
        StandsGrows(h, args[i], t.texts, u.texts, ParamName(call, i));
      }
    }
  }

  /** The head of the n-th call, under the names the server looks for */
  ghost predicate Headed(m: map<string, string>, n: nat, c: Call) {
    var head := "c" + Decimal(n);
    && head + "-scriptName" in m && m[head + "-scriptName"] == c.scriptName
    && head + "-methodName" in m && m[head + "-methodName"] == c.methodName
    && head + "-id" in m && m[head + "-id"] == Decimal(n)
  }

  lemma HeadWritten(b: BatchMap, c: Call)
    ensures Headed(WithHead(b, c), b.callCount, c)
  {
    hide Decimal;
    var head := "c" + Decimal(b.callCount);
    var p := Prefix(b.callCount);
    assert p == head + "-";
    HeadName(head, "scriptName", "-scriptName");
    HeadName(head, "methodName", "-methodName");
    HeadName(head, "id", "-id");
    assert (p + "scriptName")[|p|] == 's' && (p + "methodName")[|p|] == 'm' && (p + "id")[|p|] == 'i';
  }

  lemma HeadName(head: string, word: string, tail: string)
    requires tail == "-" + word
    ensures head + "-" + word == head + tail
  {}

  lemma HeadedGrows(m: map<string, string>, m2: map<string, string>, n: nat, c: Call)
    requires Headed(m, n, c) && MapGrows(m, m2)
    ensures Headed(m2, n, c)
  {
    hide Decimal;
  }

  lemma HeadReady(b: BatchMap, c: Call)
    requires Fresh(b)
    ensures GrewBy(b.callCount, b.texts, WithHead(b, c))
    ensures Ready(c.heap, b.callCount, WithHead(b, c), b.count, 0)
  {
    hide Serial, Prefix;
    var p := Prefix(b.callCount);
    HeadKey(b.callCount, "scriptName");
    HeadKey(b.callCount, "methodName");
    HeadKey(b.callCount, "id");
    forall k | k in b.texts
      ensures Serial(b.callCount, k).None?
    {
      if Serial(b.callCount, k).Some? {
        SerialHasPrefix(b.callCount, k);
        assert false;
      }
    }
    forall j: nat
      ensures ParamName(b.callCount, j) !in WithHead(b, c)
    {
      ParamIsNoElement(b.callCount, j);
      assert ParamName(b.callCount, j)[|p|] == 'p';
    }
  }

  lemma HeadKey(call: nat, word: string)
    requires word != "" && word[0] != 'e' && word[0] != 'p'
    ensures Serial(call, Prefix(call) + word).None?
    ensures Prefix(call) <= Prefix(call) + word && (Prefix(call) + word)[|Prefix(call)|] == word[0]
  {
    assert (Prefix(call) + "e")[|Prefix(call)|] == 'e';
  }

  lemma CallDone(b: BatchMap, c: Call)
    requires Fresh(b) && Marshallable(c)
    ensures var b2 := AddCall(b, c);
            && Fresh(b2) && MapGrows(b.texts, b2.texts) && Headed(b2.texts, b.callCount, c)
            && forall j :: 0 <= j < |c.args| && !c.args[j].Function?
                           ==> Stands(c.heap, c.args[j], b2.texts, ParamName(b.callCount, j))
  {
    hide Stands, Headed, WellFormed, Ready, Prefix, ParamName, WithHead, SerializeArgs;
    HeadReady(b, c);
    HeadWritten(b, c);
    ArgsDone(c.heap, b.callCount, WithHead(b, c), b.count, c.args, 0);
    var b2 := AddCall(b, c);
    HeadedGrows(WithHead(b, c), b2.texts, b.callCount, c);
    forall k, n: nat | k in b2.texts && n >= b2.callCount
      ensures !(Prefix(n) <= k)
    {
      if Prefix(n) <= k && k !in b.texts {
        assert Prefix(b.callCount) <= k;
        PrefixUnique(b.callCount, n, k);
      }
    }
  }

  lemma {:induction false} BatchDone(b: BatchMap, calls: seq<Call>)
    requires Fresh(b) && forall c :: c in calls ==> Marshallable(c)
    ensures MapGrows(b.texts, AddCalls(b, calls).texts) && AddCalls(b, calls).callCount == b.callCount + |calls|
    ensures forall i :: 0 <= i < |calls| ==> Headed(AddCalls(b, calls).texts, b.callCount + i, calls[i])
    ensures forall i, j :: 0 <= i < |calls| && 0 <= j < |calls[i].args| && !calls[i].args[j].Function?
              ==> Stands(calls[i].heap, calls[i].args[j], AddCalls(b, calls).texts, ParamName(b.callCount + i, j))
    decreases |calls|
  {
    hide Stands, Headed, Marshallable, Fresh, ParamName, AddCall;
    if calls != [] {
      CallDone(b, calls[0]);
      var b2 := AddCall(b, calls[0]);
      BatchDone(b2, calls[1..]);
      CountStep(b, calls[0]);
      var end := AddCalls(b2, calls[1..]);
      forall i | 0 <= i < |calls|
        ensures Headed(end.texts, b.callCount + i, calls[i])
      {
        if i == 0 {
          HeadedGrows(b2.texts, end.texts, b.callCount, calls[0]);
        } else {
          assert calls[1..][i - 1] == calls[i] && b2.callCount + (i - 1) == b.callCount + i;
        }
      }
      forall i, j | 0 <= i < |calls| && 0 <= j < |calls[i].args| && !calls[i].args[j].Function?
        ensures Stands(calls[i].heap, calls[i].args[j], end.texts, ParamName(b.callCount + i, j))
      {
        if i == 0 {
          StandsGrows(calls[0].heap, calls[0].args[j], b2.texts, end.texts, ParamName(b.callCount, j));
        } else {
          assert calls[1..][i - 1] == calls[i] && b2.callCount + (i - 1) == b.callCount + i;
        }
      }
    }
  }

  lemma CountStep(b: BatchMap, c: Call)
    requires Marshallable(c)
    ensures AddCall(b, c).callCount == b.callCount + 1
  {}

  /** Main result: from a fresh batch, the finished map holds the head of every call, and it tells the
      number of calls. */
  lemma EveryCallIsHeaded(base: map<string, string>, calls: seq<Call>, i: nat)
    requires Fresh(BatchMap(base, 0, 0)) && forall c :: c in calls ==> Marshallable(c)
    requires i < |calls|
    ensures var b := AddCalls(BatchMap(base, 0, 0), calls); var head := "c" + Decimal(i);
            && b.callCount == |calls|
            && (forall k :: k in base ==> k in b.texts && b.texts[k] == base[k])
            && head + "-scriptName" in b.texts && b.texts[head + "-scriptName"] == calls[i].scriptName
            && head + "-methodName" in b.texts && b.texts[head + "-methodName"] == calls[i].methodName
            && head + "-id" in b.texts && b.texts[head + "-id"] == Decimal(i)
  {
    hide Fresh, AddCalls, Decimal, Marshallable;
    BatchDone(BatchMap(base, 0, 0), calls);
    assert Headed(AddCalls(BatchMap(base, 0, 0), calls).texts, 0 + i, calls[i]);
  }

  lemma ParamNameIs(i: nat, j: nat)
    ensures ParamName(i, j) == "c" + Decimal(i) + "-param" + Decimal(j)
  {
    hide Decimal;
    assert "-" + "param" == "-param";
  }

  /** Main result: from a fresh batch, an argument of any call of the batch can be read back from the
      finished map, whatever was marshalled before and after it, if and only if every node it
      reaches is plainspoken. */
  lemma EveryArgumentDecodes(base: map<string, string>, calls: seq<Call>, i: nat, j: nat)
    requires Fresh(BatchMap(base, 0, 0)) && forall c :: c in calls ==> Marshallable(c)
    requires i < |calls| && j < |calls[i].args| && !calls[i].args[j].Function?
    ensures Decodes(calls[i].heap, calls[i].args[j], AddCalls(BatchMap(base, 0, 0), calls).texts, "c" + Decimal(i) + "-param" + Decimal(j))
            <==> DataOnly(calls[i].heap, calls[i].args[j])
  {
    ParamNameIs(i, j);
    hide Decimal, Decodes, DataOnly, Fresh, AddCalls, ParamName, StandsFor, WellFormed;
    BatchDone(BatchMap(base, 0, 0), calls);
    var texts := AddCalls(BatchMap(base, 0, 0), calls).texts;
    var h, v := calls[i].heap, calls[i].args[j];
    assert Marshallable(calls[i]) && Stands(h, v, texts, ParamName(0 + i, j));
    var refs: seq<Entry> :| StandsFor(h, v, texts, ParamName(i, j), refs);
    DecodesExactly(h, v, texts, ParamName(i, j), refs);
  }
}
