/** Graphs in which what is taken for an array may hold functions: what is written of them, and what is
    left dangling. */
module DwrFunctions {
  import opened Options
  import opened DwrWire
  import opened DwrMarshal
  import opened DwrRoundTrip

  // ----- A stand-in for functions

  predicate Scalar(x: Value) {
    !x.Ref? && !x.Function?
  }

  function Stand(x: Value, v: Value): Value {
    if v.Function? then x else v
  }

  function StandAll(x: Value, values: seq<Value>): (r: seq<Value>)
    ensures |r| == |values|
  {
    seq(|values|, i requires 0 <= i < |values| => Stand(x, values[i]))
  }

  /** The heap with arrays for all that is taken for one, and x in them for every function */
  function StandHeap(x: Value, h: Heap): (r: Heap)
    ensures r.Keys == h.Keys
  {
    map o | o in h :: if Taken(h[o]).AsArray? then Array(StandAll(x, Elements(h[o]))) else h[o]
  }

  lemma {:induction false} KeptIsData(members: seq<Member>)
    ensures forall v :: v in ValuesOf(Kept(members)) ==> !v.Function?
  {
    if members != [] {
      KeptIsData(members[1..]);
      var kept := Kept(members);
      forall i | 0 <= i < |kept|
        ensures !kept[i].value.Function?
      {
        var rest := Kept(members[1..]);
        assert forall j :: 0 <= j < |rest| ==> ValuesOf(rest)[j] == rest[j].value;
        if !members[0].value.Function? && i > 0 {
          assert kept[i] == rest[i - 1] && ValuesOf(rest)[i - 1] in ValuesOf(rest);
        } else if members[0].value.Function? {
          assert kept[i] == rest[i] && ValuesOf(rest)[i] in ValuesOf(rest);
        }
      }
    }
  }

  lemma ArrayElements(values: seq<Value>)
    ensures Taken(Array(values)).AsArray? && Elements(Array(values)) == values
  {}

  lemma StandChildren(x: Value, h: Heap, o: nat)
    requires o in h
    ensures Children(StandHeap(x, h)[o]) == StandAll(x, Children(h[o]))
    ensures forall own, names :: ToWire(StandHeap(x, h)[o], own, names) == ToWire(h[o], own, names)
    ensures Taken(StandHeap(x, h)[o]) == Taken(h[o])
    ensures Function in Children(h[o]) ==> Taken(h[o]).AsArray?
  {
    hide Find, Elements, Kept, ValuesOf;
    match Taken(h[o])
    case AsArray =>
      ArrayElements(StandAll(x, Elements(h[o])));
    case AsXml =>
    case AsObject =>
      KeptIsData(h[o].members);
      assert forall i :: 0 <= i < |Children(h[o])| ==> Children(h[o])[i] in Children(h[o]);
      assert StandAll(x, Children(h[o])) == Children(h[o]);
  }

  lemma StandIsData(x: Value, h: Heap)
    requires Scalar(x) && WellFormed(h)
    ensures WellFormed(StandHeap(x, h)) && ArraysHoldData(StandHeap(x, h))
  {
    var r := StandHeap(x, h);
    forall o | o in r
      ensures forall v :: v in Children(r[o]) ==> Exists(r, v) && !v.Function?
      ensures forall v :: v in Parts(r[o]) ==> Exists(r, v)
      ensures r[o].Object? ==> PlainName(r[o].className)
    {
      StandChildren(x, h, o);
      forall v | v in Children(r[o])
        ensures Exists(r, v) && !v.Function?
      {
        var i :| 0 <= i < |Children(r[o])| && Children(r[o])[i] == v;
        assert Children(h[o])[i] in Children(h[o]);
      }
    }
  }

  lemma StandReaches(x: Value, h: Heap, v: Value, s: set<nat>)
    requires Scalar(x)
    ensures VisitSet(StandHeap(x, h), v, s) <==> VisitSet(h, v, s)
  {
    var r := StandHeap(x, h);
    forall o | o in s && o in h
      ensures (forall c :: c in Children(r[o]) && c.Ref? ==> c.o in s) <==> (forall c :: c in Children(h[o]) && c.Ref? ==> c.o in s)
    {
      StandChildren(x, h, o);
      var a, b := Children(h[o]), Children(r[o]);
      forall c | c in a && c.Ref?
        ensures c in b
      {
        var i :| 0 <= i < |a| && a[i] == c;
        assert b[i] == c;
      }
      forall c | c in b && c.Ref?
        ensures c in a
      {
        var i :| 0 <= i < |b| && b[i] == c;
        assert a[i] == c;
      }
    }
  }

  // ----- The two marshallings side by side

  /** The second state has all that the first has, and besides only the texts of stand-ins. */
  ghost predicate Shadows(x: Value, s: State, r: State)
    requires Scalar(x)
  {
    && s.count == r.count && s.refs == r.refs && MapGrows(s.texts, r.texts)
    && forall k :: k in r.texts && k !in s.texts ==> r.texts[k] == Text(Plainly(x))
  }

  lemma ShadowsWrite(x: Value, s: State, r: State, name: string, text: string)
    requires Scalar(x) && Shadows(x, s, r)
    ensures Shadows(x, s.(texts := s.texts[name := text]), r.(texts := r.texts[name := text]))
  {}

  lemma ShadowsStandIn(x: Value, call: nat, s: State, r: State, name: string)
    requires Scalar(x) && Shadows(x, s, r) && Vacant(call, r, name)
    ensures Shadows(x, s, r.(texts := r.texts[name := Text(Plainly(x))]))
  {}

  lemma ShadowsEnter(x: Value, s: State, r: State, o: nat, name: string)
    requires Scalar(x) && Shadows(x, s, r)
    ensures s.refs == r.refs && s.count == r.count
    ensures Shadows(x, Entered(s, o, name), Entered(r, o, name))
    ensures Shadows(x, s.(count := s.count + 1), r.(count := s.count + 1))
  {}

  lemma ChildrenExist(h: Heap, o: nat)
    requires WellFormed(h) && o in h
    ensures forall v :: v in Children(h[o]) ==> Exists(h, v)
  {}

  lemma StandList(x: Value, h: Heap, values: seq<Value>)
    requires Scalar(x) && forall v :: v in values ==> Exists(h, v)
    ensures forall v :: v in StandAll(x, values) ==> Exists(StandHeap(x, h), v) && !v.Function?
    ensures values != [] ==>
              Exists(h, values[0]) && StandAll(x, values)[0] == Stand(x, values[0]) && StandAll(x, values)[1..] == StandAll(x, values[1..])
  {
    hide StandHeap;
    forall v | v in StandAll(x, values)
      ensures Exists(StandHeap(x, h), v) && !v.Function?
    {
      var i :| 0 <= i < |values| && StandAll(x, values)[i] == v;
      assert values[i] in values;
    }
  }

  /** A node is shadowed once its children are. */
  lemma NodeShadows(x: Value, h: Heap, call: nat, s: State, r: State, o: nat, name: string)
    requires Scalar(x) && WellFormed(h) && o in h && s.refs == r.refs && Lookup(s.refs, o).None?
    requires (forall v :: v in Children(h[o]) ==> Exists(h, v))
    requires var g := StandHeap(x, h); var values := StandAll(x, Children(h[o]));
             && WellFormed(g) && (forall v :: v in values ==> Exists(g, v))
             && var a := SerializeList(h, call, Entered(s, o, name), Children(h[o]));
                var b := SerializeList(g, call, Entered(r, o, name), values);
                a.names == b.names && Shadows(x, a.state, b.state)
    ensures Shadows(x, SerializeAll(h, call, s, Ref(o), name), SerializeAll(StandHeap(x, h), call, r, Ref(o), name))
  {
    hide Text, WellFormed, Children, ToWire, StandHeap, StandAll, Shadows, SerializeList, Unseen;
    var inner := SerializeList(h, call, Entered(s, o, name), Children(h[o]));
    var inner2 := SerializeList(StandHeap(x, h), call, Entered(r, o, name), StandAll(x, Children(h[o])));
    StandChildren(x, h, o);
    NamesFit(h[o], name, inner.names);
    ShadowsWrite(x, inner.state, inner2.state, name, Text(ToWire(h[o], name, inner.names)));
  }

  lemma {:induction false} AllShadows(x: Value, h: Heap, call: nat, s: State, r: State, v: Value, name: string)
    requires Scalar(x) && WellFormed(h) && Exists(h, v) && Shadows(x, s, r)
    requires Ordered(StandHeap(x, h), call, r) && Vacant(call, r, name)
    ensures var g := StandHeap(x, h);
            && WellFormed(g) && Exists(g, Stand(x, v))
            && Shadows(x, SerializeAll(h, call, s, v, name), SerializeAll(g, call, r, Stand(x, v), name))
    decreases Unseen(h, s.refs), 0, 0
  {
    hide Ordered, Vacant, Text, WellFormed, ArraysHoldData, Children, ToWire, StandHeap, StandAll, Shadows, Unseen, SerializeList;
    StandIsData(x, h);
    ShadowsEnter(x, s, r, 0, name);
    match v
    case Function =>
      ShadowsStandIn(x, call, s, r, name);
    case Ref(o) =>
      if Lookup(s.refs, o).Some? {
        ShadowsWrite(x, s, r, name, Text(WLink(Lookup(s.refs, o).value)));
      } else {
        hide SerializeAll;
        UnseenLess(h, s.refs, Entry(o, name));
        MetObject(StandHeap(x, h), call, r, o, name);
        ShadowsEnter(x, s, r, o, name);
        ChildrenExist(h, o);
        ListShadows(x, h, call, Entered(s, o, name), Entered(r, o, name), Children(h[o]));
        NodeShadows(x, h, call, s, r, o, name);
      }
    case Nil | Bool(_) | Number(_) | Str(_) =>
      ShadowsWrite(x, s, r, name, Text(Plainly(v)));
  }

  lemma {:induction false} ListShadows(x: Value, h: Heap, call: nat, s: State, r: State, values: seq<Value>)
    requires Scalar(x) && WellFormed(h) && Shadows(x, s, r) && Ordered(StandHeap(x, h), call, r)
    requires forall v :: v in values ==> Exists(h, v)
    ensures var g := StandHeap(x, h);
            && WellFormed(g) && (forall v :: v in StandAll(x, values) ==> Exists(g, v))
            && var a := SerializeList(h, call, s, values); var b := SerializeList(g, call, r, StandAll(x, values));
               a.names == b.names && Shadows(x, a.state, b.state)
    decreases Unseen(h, s.refs), 1, |values|
  {
    hide Ordered, Vacant, WellFormed, ArraysHoldData, StandHeap, StandAll, Stand, Shadows, SerializeAll, Grows, Denotes, Unseen, ElementName, Exists;
    var g := StandHeap(x, h);
    StandIsData(x, h);
    StandList(x, h, values);
    ShadowsEnter(x, s, r, 0, "");
    if values != [] {
      var name := ElementName(call, s.count + 1);
      var v, w := values[0], Stand(x, values[0]);
      NextIsVacant(g, call, r);
      var s1, r1 := s.(count := s.count + 1), r.(count := s.count + 1);
      assert w in StandAll(x, values);
      AllShadows(x, h, call, s1, r1, v, name);
      AllGrows(g, call, r1, w, name);
      var first := SerializeAll(h, call, s1, v, name);
      UnseenMono(h, s.refs, first.refs);
      ListShadows(x, h, call, first, SerializeAll(g, call, r1, w, name), values[1..]);
    }
  }

  // ----- What is written of any graph

  /** The object is in every set that holds the value and, with an object, the values marshalled as
      its children. */
  ghost predicate Visits(h: Heap, v: Value, o: nat) {
    forall s: set<nat> :: VisitSet(h, v, s) ==> o in s
  }

  /** The node is written as ShowsNode says, except perhaps for children that are functions. */
  ghost predicate WrittenNode(h: Heap, m: map<string, string>, refs: seq<Entry>, e: Entry) {
    && e.data in h && e.name in m && Read(m[e.name]).Some?
    && var w := Read(m[e.name]).value; var names := MemberNames(w); var values := Children(h[e.data]);
    && w == ToWire(h[e.data], e.name, names) && |names| == |values|
    && forall i :: 0 <= i < |names| && !values[i].Function? ==> Leads(m, refs, names[i], values[i])
  }

  ghost predicate Leads(m: map<string, string>, refs: seq<Entry>, name: string, v: Value) {
    name in m && Image(refs, v).Some? && Follow(m, name) == Image(refs, v)
  }

  /** A child that is a function has a name with no text. */
  ghost predicate Dangles(h: Heap, m: map<string, string>, e: Entry) {
    && e.data in h && e.name in m && Read(m[e.name]).Some?
    && var names := MemberNames(Read(m[e.name]).value); var values := Children(h[e.data]);
    && |names| == |values|
    && forall i :: 0 <= i < |names| && values[i].Function? ==> names[i] !in m
  }

  /** What the map holds of a graph, and goes on holding when it grows: every object visited and no
      other, each once and under a name of its own, as what it was taken for, with a link for every
      child, and the links of all that are no functions lead to them. */
  ghost predicate StandsFor(h: Heap, v: Value, m: map<string, string>, name: string, refs: seq<Entry>) {
    && Unique(refs)
    && Image(refs, v).Some? && Follow(m, name) == Image(refs, v)
    && (forall i :: 0 <= i < |refs| ==> WrittenNode(h, m, refs, refs[i]))
    && (forall o :: o in SeenIn(refs) <==> Visits(h, v, o))
  }

  /** What a name leads to in both of two shadows, with stand-ins that differ, it leads to in the map
      itself; a name of a stand-in is in neither. */
  lemma BothShadows(m: map<string, string>, a: map<string, string>, b: map<string, string>, refs: seq<Entry>, name: string, v: Value)
    requires MapGrows(m, a) && MapGrows(m, b)
    requires forall k :: k in a && k !in m ==> a[k] == Text(WNull)
    requires forall k :: k in b && k !in m ==> b[k] == Text(WBool(true))
    requires Image(refs, Stand(Nil, v)).Some? && Follow(a, name) == Image(refs, Stand(Nil, v))
    requires Image(refs, Stand(Bool(true), v)).Some? && Follow(b, name) == Image(refs, Stand(Bool(true), v))
    ensures if v.Function? then name !in m else Leads(m, refs, name, v)
  {
    ReadText(WNull);
    ReadText(WBool(true));
    hide Read, Text, Lookup;
  }

  lemma WrittenFromShadows(h: Heap, m: map<string, string>, a: map<string, string>, b: map<string, string>, refs: seq<Entry>, e: Entry)
    requires MapGrows(m, a) && MapGrows(m, b)
    requires forall k :: k in a && k !in m ==> a[k] == Text(WNull)
    requires forall k :: k in b && k !in m ==> b[k] == Text(WBool(true))
    requires ShowsNode(StandHeap(Nil, h), a, refs, e) && ShowsNode(StandHeap(Bool(true), h), b, refs, e)
    ensures WrittenNode(h, m, refs, e) && Dangles(h, m, e)
  {
    StandChildren(Nil, h, e.data);
    StandChildren(Bool(true), h, e.data);
    ReadText(WNull);
    NeverNull(h[e.data], e.name);
    hide Read, Text, StandHeap, Children, Follow, Image, ToWire, Leads;
    assert e.name in m;
    var names, values := MemberNames(Read(m[e.name]).value), Children(h[e.data]);
    forall i | 0 <= i < |names|
      ensures if values[i].Function? then names[i] !in m else Leads(m, refs, names[i], values[i])
    {
      BothShadows(m, a, b, refs, names[i], values[i]);
    }
  }

  lemma NeverNull(node: Node, own: string)
    ensures forall names :: ToWire(node, own, names) != WNull
  {}

  /** What marshalling writes of any graph: all that StandsFor says, and the link of a child that is
      a function leads nowhere. */
  lemma EveryGraphIsWritten(h: Heap, call: nat, st: State, v: Value, name: string)
    requires WellFormed(h) && Exists(h, v) && !v.Function?
    requires Ordered(h, call, st) && Vacant(call, st, name) && st.refs == []
    ensures var t := SerializeAll(h, call, st, v, name);
            && StandsFor(h, v, t.texts, name, t.refs)
            && forall i :: 0 <= i < |t.refs| ==> WrittenNode(h, t.texts, t.refs, t.refs[i]) && Dangles(h, t.texts, t.refs[i])
  {
    hide Read, Text, Follow, Image, ShowsNode, VisitSet, WrittenNode, Dangles, Leads, SerializeAll, WellFormed, StandHeap, Vacant, Ordered, Grows, Visits, SeenIn, Unique;
    ShadowOf(Nil, h, call, st, v, name);
    ShadowOf(Bool(true), h, call, st, v, name);
    FromBoth(h, v, name, SerializeAll(h, call, st, v, name), SerializeAll(StandHeap(Nil, h), call, st, v, name),
             SerializeAll(StandHeap(Bool(true), h), call, st, v, name));
  }

  lemma FromBoth(h: Heap, v: Value, name: string, t: State, a: State, b: State)
    requires !v.Function? && Shadows(Nil, t, a) && Shadows(Bool(true), t, b)
    requires Shows(StandHeap(Nil, h), v, a.texts, name, a.refs) && Shows(StandHeap(Bool(true), h), v, b.texts, name, b.refs)
    ensures StandsFor(h, v, t.texts, name, t.refs)
    ensures forall i :: 0 <= i < |t.refs| ==> WrittenNode(h, t.texts, t.refs, t.refs[i]) && Dangles(h, t.texts, t.refs[i])
  {
    hide Read, Text, Follow, Image, ShowsNode, VisitSet, WrittenNode, Dangles, Leads, StandHeap, Visits, SeenIn, Unique;
    forall i | 0 <= i < |t.refs|
      ensures WrittenNode(h, t.texts, t.refs, t.refs[i]) && Dangles(h, t.texts, t.refs[i])
    {
      WrittenFromShadows(h, t.texts, a.texts, b.texts, t.refs, t.refs[i]);
    }
    BothShadows(t.texts, a.texts, b.texts, t.refs, name, v);
    LeadsMeans(t.texts, t.refs, name, v);
    ReachedIsSeen(Nil, h, v, t.refs);
  }

  lemma LeadsMeans(m: map<string, string>, refs: seq<Entry>, name: string, v: Value)
    requires Leads(m, refs, name, v)
    ensures Image(refs, v).Some? && Follow(m, name) == Image(refs, v)
  {}

  lemma ReachedIsSeen(x: Value, h: Heap, v: Value, refs: seq<Entry>)
    requires Scalar(x)
    requires VisitSet(StandHeap(x, h), v, SeenIn(refs))
    requires forall s: set<nat> :: VisitSet(StandHeap(x, h), v, s) ==> SeenIn(refs) <= s
    ensures forall o :: o in SeenIn(refs) <==> Visits(h, v, o)
  {
    hide VisitSet, SeenIn;
    StandReaches(x, h, v, SeenIn(refs));
    forall o | o in SeenIn(refs)
      ensures Visits(h, v, o)
    {
      forall s: set<nat> | VisitSet(h, v, s)
        ensures o in s
      {
        StandReaches(x, h, v, s);
      }
    }
  }

  /** Marshalling the heap with the stand-in: the round trip holds there, and its map shadows the
      one of the heap itself. */
  lemma ShadowOf(x: Value, h: Heap, call: nat, st: State, v: Value, name: string)
    requires Scalar(x) && WellFormed(h) && Exists(h, v) && !v.Function?
    requires Ordered(h, call, st) && Vacant(call, st, name) && st.refs == []
    ensures var g := StandHeap(x, h);
            && WellFormed(g) && Exists(g, v)
            && var t := SerializeAll(h, call, st, v, name); var r := SerializeAll(g, call, st, v, name);
               && Shadows(x, t, r) && Shows(g, v, r.texts, name, r.refs)
               && Grows(g, call, st, r, Some(name)) && Ordered(g, call, r)
  {
    assert Ordered(StandHeap(x, h), call, st) && Shadows(x, st, st);
    StandIsData(x, h);
    hide StandHeap, WellFormed, ArraysHoldData, Ordered, Vacant, Shadows, SerializeAll, Shows, Grows;
    AllShadows(x, h, call, st, st, v, name);
    GraphIsShown(StandHeap(x, h), call, st, v, name);
    AllGrows(StandHeap(x, h), call, st, v, name);
  }

  /** Every node visited that is taken for an array is written with a link for each element, and a
      link dangles if and only if its element is a function. */
  lemma DanglingExactly(h: Heap, call: nat, st: State, v: Value, name: string, o: nat)
    requires WellFormed(h) && Exists(h, v) && !v.Function?
    requires Ordered(h, call, st) && Vacant(call, st, name) && st.refs == []
    requires o in h && Taken(h[o]).AsArray? && Visits(h, v, o)
    ensures var t := SerializeAll(h, call, st, v, name);
            exists i, names ::
              && 0 <= i < |t.refs| && t.refs[i].data == o && t.refs[i].name in t.texts
              && Read(t.texts[t.refs[i].name]) == Some(WArray(names)) && |names| == |Elements(h[o])|
              && forall j :: 0 <= j < |names| ==> (names[j] !in t.texts <==> Elements(h[o])[j].Function?)
  {
    hide Read, Visits, WellFormed, Ordered, Vacant, SerializeAll, Follow, Image, Taken, Elements;
    EveryGraphIsWritten(h, call, st, v, name);
    var t := SerializeAll(h, call, st, v, name);
    assert o in SeenIn(t.refs);
    var i :| 0 <= i < |t.refs| && t.refs[i].data == o;
    assert WrittenNode(h, t.texts, t.refs, t.refs[i]) && Dangles(h, t.texts, t.refs[i]);
    var names := MemberNames(Read(t.texts[t.refs[i].name]).value);
    assert Read(t.texts[t.refs[i].name]) == Some(WArray(names));
  }

  /** Every object visited is written as what it is taken for, and as nothing else. */
  lemma WrittenAsTaken(h: Heap, call: nat, st: State, v: Value, name: string, o: nat)
    requires WellFormed(h) && Exists(h, v) && !v.Function?
    requires Ordered(h, call, st) && Vacant(call, st, name) && st.refs == []
    requires o in h && Visits(h, v, o)
    ensures var t := SerializeAll(h, call, st, v, name);
            exists i ::
              && 0 <= i < |t.refs| && t.refs[i].data == o && t.refs[i].name in t.texts
              && var r := Read(t.texts[t.refs[i].name]);
                 r.Some?
                 && (r.value.WArray? <==> Taken(h[o]).AsArray?)
                 && (r.value == WLink(t.refs[i].name) <==> Taken(h[o]).AsXml?)
                 && (r.value.WObject? <==> Taken(h[o]).AsObject?)
  {
    hide Read, Visits, WellFormed, Ordered, Vacant, SerializeAll, Follow, Image, Taken, Elements;
    EveryGraphIsWritten(h, call, st, v, name);
    var t := SerializeAll(h, call, st, v, name);
    assert o in SeenIn(t.refs);
    var i :| 0 <= i < |t.refs| && t.refs[i].data == o;
    assert WrittenNode(h, t.texts, t.refs, t.refs[i]);
  }

  /** Each object visited is written out exactly once: the new container texts are those under the
      names of the objects met, which are all different, but for those taken for part of a document. */
  lemma WrittenOnce(h: Heap, call: nat, st: State, v: Value, name: string, k: string)
    requires WellFormed(h) && Exists(h, v) && !v.Function?
    requires Ordered(h, call, st) && Vacant(call, st, name) && st.refs == []
    requires var t := SerializeAll(h, call, st, v, name); k in t.texts && k !in st.texts
    ensures var t := SerializeAll(h, call, st, v, name);
            && (forall i :: 0 <= i < |t.refs| ==> t.refs[i].data in h)
            && (IsContainer(t.texts[k])
                <==> exists i :: 0 <= i < |t.refs| && t.refs[i].name == k && !Taken(h[t.refs[i].data]).AsXml?)
  {
    hide Read, Serial, Described, Denotes, SerializeAll, IsContainer, StandHeap, WellFormed, Shows, Text, Ordered, Vacant, Taken;
    ShadowOf(Nil, h, call, st, v, name);
    var t, g := SerializeAll(h, call, st, v, name), StandHeap(Nil, h);
    var r := SerializeAll(g, call, st, v, name);
    forall i | 0 <= i < |t.refs|
      ensures t.refs[i].data in h && t.refs[i].name in r.texts && (IsContainer(r.texts[t.refs[i].name]) <==> !Taken(h[t.refs[i].data]).AsXml?)
    {
      assert Described(g, r.texts, r.refs, r.refs[i]);
      DescribedIsContainer(g, r.texts, r.refs, r.refs[i]);
      StandChildren(Nil, h, t.refs[i].data);
    }
    if IsContainer(t.texts[k]) {
      assert Met(st, r, k);
    }
  }

  lemma DescribedIsContainer(h: Heap, m: map<string, string>, refs: seq<Entry>, e: Entry)
    requires Described(h, m, refs, e)
    ensures e.data in h && e.name in m && (IsContainer(m[e.name]) <==> !Taken(h[e.data]).AsXml?)
  {
    hide Read, Denotes, Children, Taken;
  }
}
