/** Exactly which graphs can be read back from what is marshalled of them. */
module DwrExact {
  import opened Options
  import opened TextLists
  import opened DwrWire
  import opened DwrMarshal
  import opened DwrRoundTrip
  import opened DwrFunctions

  // ----- The graph that was meant

  /** The text that tells a node: an array as an array, any other object as an object. */
  function FormOf(node: Node, names: seq<string>): Wire {
    match node
    case Array(_) => WArray(names)
    case Object(className, members, _) => WObject(className, KeysOf(Kept(members)), names)
  }

  /** The node's text has the kind, class name and keys of the node, and its members stand for the
      values it holds. */
  ghost predicate MirrorsNode(h: Heap, m: map<string, string>, refs: seq<Entry>, e: Entry) {
    && e.data in h && e.name in m && Read(m[e.name]).Some?
    && var w := Read(m[e.name]).value; var names := MemberNames(w); var values := Parts(h[e.data]);
    && w == FormOf(h[e.data], names) && |names| == |values|
    && forall i :: 0 <= i < |names| ==> Image(refs, values[i]).Some? && Follow(m, names[i]) == Image(refs, values[i])
  }

  /** s contains the object of v, and with an object those of the values it holds. */
  ghost predicate ClosedSet(h: Heap, v: Value, s: set<nat>) {
    && (v.Ref? ==> v.o in s)
    && forall o :: o in s && o in h ==> forall c :: c in Parts(h[o]) && c.Ref? ==> c.o in s
  }

  /** The object is in every such set. */
  ghost predicate Reaches(h: Heap, v: Value, o: nat) {
    forall s: set<nat> :: ClosedSet(h, v, s) ==> o in s
  }

  /** The map read from the root name is the graph reached from the value: `refs` pairs each
      reachable object with one name and no name twice, so what was shared is shared and what was
      distinct is distinct. */
  ghost predicate Mirrors(h: Heap, v: Value, m: map<string, string>, name: string, refs: seq<Entry>) {
    && Unique(refs)
    && Image(refs, v).Some? && Follow(m, name) == Image(refs, v)
    && (forall i :: 0 <= i < |refs| ==> MirrorsNode(h, m, refs, refs[i]))
    && (forall o :: o in SeenIn(refs) <==> Reaches(h, v, o))
  }

  ghost predicate Decodes(h: Heap, v: Value, m: map<string, string>, name: string) {
    exists refs: seq<Entry> :: Mirrors(h, v, m, name, refs)
  }

  // ----- The graphs that the marshaller treats as what they are

  /** The node is an array that holds no function, or an object that has no `join` and not both a
      `nodeName` and a `nodeType` on which a test succeeds. */
  predicate Plainspoken(node: Node) {
    match node
    case Array(elems) => Function !in elems
    case Object(_, members, _) =>
      !Truthy(Find(members, "join")) && !(Truthy(Find(members, "nodeName")) && Truthy(Find(members, "nodeType")))
  }

  ghost predicate DataOnly(h: Heap, v: Value) {
    forall o :: o in h && Reaches(h, v, o) ==> Plainspoken(h[o])
  }

  lemma PlainspokenIsTaken(node: Node, own: string, names: seq<string>)
    ensures node.Array? || Taken(node).AsObject? ==> ToWire(node, own, names) == FormOf(node, names) && Children(node) == Parts(node)
    ensures Plainspoken(node) <==> (node.Array? || Taken(node).AsObject?) && Function !in Parts(node)
    ensures node.Object? && ToWire(node, own, names).WObject? ==> Taken(node).AsObject?
  {
    if node.Object? {
      KeptIsData(node.members);
    }
  }

  // ----- What is read back was plainspoken

  /** Two pairings of objects with names give the object the same name. */
  predicate Agree(a: seq<Entry>, b: seq<Entry>, o: nat) {
    Lookup(a, o).Some? && Lookup(b, o) == Lookup(a, o)
  }

  lemma NeverFunction(m: map<string, string>, name: string)
    ensures Follow(m, name) != Some(Leaf(Function))
  {
    hide Read;
  }

  lemma EntryOf(refs: seq<Entry>, o: nat) returns (i: nat)
    requires Lookup(refs, o).Some?
    ensures i < |refs| && refs[i] == Entry(o, Lookup(refs, o).value)
  {
    i :| 0 <= i < |refs| && refs[i] == Entry(o, Lookup(refs, o).value);
  }

  lemma AgreeingNode(h: Heap, m: map<string, string>, a: seq<Entry>, b: seq<Entry>, e: Entry)
    requires WrittenNode(h, m, a, e) && MirrorsNode(h, m, b, e)
    ensures Plainspoken(h[e.data])
    ensures forall c :: c in Parts(h[e.data]) && c.Ref? ==> Agree(a, b, c.o)
  {
    hide Read, Follow, Lookup, Parts, Children, FormOf, ToWire, Taken, Plainspoken;
    var node, w := h[e.data], Read(m[e.name]).value;
    var names := MemberNames(w);
    FormMeans(node, names);
    PlainspokenIsTaken(node, e.name, names);
    var parts := Parts(node);
    forall i | 0 <= i < |parts|
      ensures !parts[i].Function? && (parts[i].Ref? ==> Agree(a, b, parts[i].o))
    {
      NeverFunction(m, names[i]);
      if !parts[i].Function? {
        assert Leads(m, a, names[i], parts[i]);
      }
    }
  }

  lemma FormMeans(node: Node, names: seq<string>)
    ensures node.Object? <==> FormOf(node, names).WObject?
  {}

  lemma AgreeStays(h: Heap, v: Value, m: map<string, string>, name: string, a: seq<Entry>, b: seq<Entry>, o: nat)
    requires StandsFor(h, v, m, name, a) && Mirrors(h, v, m, name, b) && Agree(a, b, o)
    ensures o in h && Plainspoken(h[o])
    ensures forall c :: c in Parts(h[o]) && c.Ref? ==> Agree(a, b, c.o)
  {
    hide Read, Follow, Image, WrittenNode, MirrorsNode, Plainspoken, Visits, Reaches, SeenIn, Lookup;
    var i := EntryOf(a, o);
    var j := EntryOf(b, o);
    assert WrittenNode(h, m, a, a[i]) && MirrorsNode(h, m, b, b[j]);
    WrittenInHeap(h, m, a, a[i]);
    AgreeingNode(h, m, a, b, a[i]);
  }

  lemma WrittenInHeap(h: Heap, m: map<string, string>, refs: seq<Entry>, e: Entry)
    requires WrittenNode(h, m, refs, e)
    ensures e.data in h
  {}

  lemma MirroredIsData(h: Heap, v: Value, m: map<string, string>, name: string, a: seq<Entry>)
    requires StandsFor(h, v, m, name, a) && Decodes(h, v, m, name)
    ensures DataOnly(h, v)
  {
    hide StandsFor, Mirrors, Agree, Plainspoken, Reaches;
    var b: seq<Entry> :| Mirrors(h, v, m, name, b);
    var s := set o | o in h && Agree(a, b, o);
    if v.Ref? {
      RootsAgree(h, v, m, name, a, b);
      AgreeStays(h, v, m, name, a, b, v.o);
    }
    forall o | o in s
      ensures Plainspoken(h[o]) && forall c :: c in Parts(h[o]) && c.Ref? ==> c.o in s
    {
      AgreeStays(h, v, m, name, a, b, o);
      forall c | c in Parts(h[o]) && c.Ref?
        ensures c.o in s
      {
        AgreeStays(h, v, m, name, a, b, c.o);
      }
    }
    ClosedCovers(h, v, s);
  }

  lemma ClosedCovers(h: Heap, v: Value, s: set<nat>)
    requires ClosedSet(h, v, s) && forall o :: o in s && o in h ==> Plainspoken(h[o])
    ensures DataOnly(h, v)
  {
    hide ClosedSet, Plainspoken;
  }

  lemma RootsAgree(h: Heap, v: Value, m: map<string, string>, name: string, a: seq<Entry>, b: seq<Entry>)
    requires StandsFor(h, v, m, name, a) && Mirrors(h, v, m, name, b) && v.Ref?
    ensures Agree(a, b, v.o)
  {
    hide Follow, Lookup, Visits, Reaches;
  }

  // ----- What was plainspoken is read back

  lemma PartsExist(h: Heap, o: nat, c: Value)
    requires WellFormed(h) && o in h && c in Parts(h[o])
    ensures Exists(h, c)
  {}

  /** The objects reached, and those of them in a given closed set, are a closed set. */
  lemma ReachedIsClosed(h: Heap, v: Value, s: set<nat>)
    requires WellFormed(h) && Exists(h, v) && ClosedSet(h, v, s)
    ensures ClosedSet(h, v, set o | o in h && o in s && Reaches(h, v, o))
  {
    hide WellFormed;
    var r := set o | o in h && o in s && Reaches(h, v, o);
    forall o, c | o in r && c in Parts(h[o]) && c.Ref?
      ensures c.o in r
    {
      PartsExist(h, o, c);
      forall q: set<nat> | ClosedSet(h, v, q)
        ensures c.o in q
      {
        assert o in q;
      }
    }
  }

  /** Among plainspoken nodes, what is reached is what is visited. */
  lemma SameSets(h: Heap, v: Value, s: set<nat>)
    requires forall o :: o in s && o in h ==> Plainspoken(h[o])
    ensures ClosedSet(h, v, s) <==> VisitSet(h, v, s)
  {
    hide Parts, Children, Plainspoken, Taken;
    forall o | o in s && o in h
      ensures Parts(h[o]) == Children(h[o])
    {
      PlainspokenIsTaken(h[o], "", []);
    }
  }

  lemma VisitedIsReached(h: Heap, v: Value, refs: seq<Entry>)
    requires WellFormed(h) && Exists(h, v) && DataOnly(h, v)
    requires forall o :: o in SeenIn(refs) <==> Visits(h, v, o)
    requires forall o :: o in SeenIn(refs) ==> o in h
    ensures forall o :: o in SeenIn(refs) <==> Reaches(h, v, o)
  {
    hide WellFormed, VisitSet, ClosedSet, Plainspoken, SeenIn, Exists;
    var seen := SeenIn(refs);
    forall s: set<nat> | ClosedSet(h, v, s)
      ensures seen <= s
    {
      ReachedIsClosed(h, v, s);
      var r := set o | o in h && o in s && Reaches(h, v, o);
      SameSets(h, v, r);
      assert VisitSet(h, v, r);
    }
    VisitedIsVisitSet(h, v, seen);
    forall o | o in seen
      ensures Reaches(h, v, o) && Plainspoken(h[o])
    {
      forall s: set<nat> | ClosedSet(h, v, s)
        ensures o in s
      {}
    }
    SameSets(h, v, seen);
  }

  lemma VisitedIsVisitSet(h: Heap, v: Value, seen: set<nat>)
    requires forall o :: o in seen <==> Visits(h, v, o)
    ensures VisitSet(h, v, seen)
  {
    forall o, c | o in seen && o in h && c in Children(h[o]) && c.Ref?
      ensures c.o in seen
    {
      forall s: set<nat> | VisitSet(h, v, s)
        ensures c.o in s
      {
        assert o in s;
      }
    }
  }

  lemma DataNode(h: Heap, m: map<string, string>, refs: seq<Entry>, e: Entry)
    requires WrittenNode(h, m, refs, e) && Plainspoken(h[e.data])
    ensures MirrorsNode(h, m, refs, e)
  {
    hide Read, Follow, Image, Parts, Children, FormOf, ToWire, Taken, Plainspoken;
    var node := h[e.data];
    var names := MemberNames(Read(m[e.name]).value);
    PlainspokenIsTaken(node, e.name, names);
    forall i | 0 <= i < |names|
      ensures Image(refs, Parts(node)[i]).Some? && Follow(m, names[i]) == Image(refs, Parts(node)[i])
    {
      assert Parts(node)[i] in Parts(node);
      assert Leads(m, refs, names[i], Parts(node)[i]);
    }
  }

  lemma DataIsMirrored(h: Heap, v: Value, m: map<string, string>, name: string, refs: seq<Entry>)
    requires WellFormed(h) && Exists(h, v) && StandsFor(h, v, m, name, refs) && DataOnly(h, v)
    ensures Mirrors(h, v, m, name, refs)
  {
    hide WellFormed, WrittenNode, MirrorsNode, Plainspoken, Visits, Reaches, Follow, Image, Exists;
    forall o | o in SeenIn(refs)
      ensures o in h
    {
      var i :| 0 <= i < |refs| && refs[i].data == o;
      WrittenInHeap(h, m, refs, refs[i]);
    }
    VisitedIsReached(h, v, refs);
    forall i | 0 <= i < |refs|
      ensures MirrorsNode(h, m, refs, refs[i])
    {
      assert refs[i].data in SeenIn(refs);
      DataNode(h, m, refs, refs[i]);
    }
  }

  // ----- The exact condition

  /** Wherever a graph stands in a map, it can be read back if and only if every node the value
      reaches is plainspoken. */
  lemma DecodesExactly(h: Heap, v: Value, m: map<string, string>, name: string, refs: seq<Entry>)
    requires WellFormed(h) && Exists(h, v) && StandsFor(h, v, m, name, refs)
    ensures Decodes(h, v, m, name) <==> DataOnly(h, v)
  {
    hide WellFormed, StandsFor, Mirrors, DataOnly;
    if DataOnly(h, v) {
      DataIsMirrored(h, v, m, name, refs);
    } else if Decodes(h, v, m, name) {
      MirroredIsData(h, v, m, name, refs);
    }
  }

  /** Main result: the marshalled map gives back the graph of a value if and only if the value reaches
      no array that holds a function, no object with a `join` that is not false, null or the like,
      and none with such a `nodeName` and such a `nodeType`. */
  lemma RoundTripExactly(h: Heap, call: nat, st: State, v: Value, name: string)
    requires WellFormed(h) && Exists(h, v) && !v.Function?
    requires Ordered(h, call, st) && Vacant(call, st, name) && st.refs == []
    ensures Decodes(h, v, SerializeAll(h, call, st, v, name).texts, name) <==> DataOnly(h, v)
  {
    hide StandsFor, Decodes, DataOnly, WellFormed, Ordered, Vacant, SerializeAll;
    EveryGraphIsWritten(h, call, st, v, name);
    var t := SerializeAll(h, call, st, v, name);
    DecodesExactly(h, v, t.texts, name, t.refs);
  }

  // ----- The least inputs that are not read back

  lemma FreshName(call: nat, name: string, h: Heap)
    requires Vacant(call, State(map[], 0, []), name)
    ensures Ordered(h, call, State(map[], 0, []))
  {}

  lemma RootReached(h: Heap)
    ensures Reaches(h, Ref(0), 0)
  {}

  /** An array of one function */
  lemma OneFunctionDangles(call: nat, name: string)
    requires Vacant(call, State(map[], 0, []), name) && name != ElementName(call, 1)
    ensures var h: Heap := map[0 := Array([Function])];
            && WellFormed(h)
            && var t := SerializeAll(h, call, State(map[], 0, []), Ref(0), name);
               && t.texts == map[name := Text(WArray([ElementName(call, 1)]))] && ElementName(call, 1) !in t.texts
               && !Decodes(h, Ref(0), t.texts, name)
  {
    var h: Heap := map[0 := Array([Function])];
    FreshName(call, name, h);
    RootReached(h);
    OneFunctionTexts(call, name, h);
    hide Text, Decodes, SerializeAll, Vacant, Ordered, Reaches;
    RoundTripExactly(h, call, State(map[], 0, []), Ref(0), name);
  }

  lemma OneFunctionTexts(call: nat, name: string, h: Heap)
    requires h == map[0 := Array([Function])] && name != ElementName(call, 1)
    ensures WellFormed(h)
    ensures var t := SerializeAll(h, call, State(map[], 0, []), Ref(0), name);
            t.texts == map[name := Text(WArray([ElementName(call, 1)]))] && ElementName(call, 1) !in t.texts
  {
    hide Text, ElementName;
    assert Children(h[0]) == [Function] && [Function][1..] == [];
    var st := State(map[], 0, [Entry(0, name)]);
    assert [] + [Entry(0, name)] == st.refs;
    var rest := SerializeList(h, call, st.(count := 1), []);
    assert SerializeList(h, call, st, [Function]) == Listed(rest.state, [ElementName(call, 1)] + rest.names);
    assert rest == Listed(st.(count := 1), []);
    assert [ElementName(call, 1)] + [] == [ElementName(call, 1)];
  }

  /** A node with no children to be marshalled, and no links in it */
  lemma LeafIsWritten(call: nat, name: string, node: Node)
    requires Children(node) == [] && (forall v :: v in Parts(node) ==> !v.Ref?) && node.Object? && PlainName(node.className)
    requires Vacant(call, State(map[], 0, []), name) && !Plainspoken(node)
    ensures var h: Heap := map[0 := node];
            && WellFormed(h) && WellShaped(ToWire(node, name, []))
            && var t := SerializeAll(h, call, State(map[], 0, []), Ref(0), name);
               t.texts == map[name := Text(ToWire(node, name, []))] && !Decodes(h, Ref(0), t.texts, name)
  {
    var h: Heap := map[0 := node];
    FreshName(call, name, h);
    RootReached(h);
    hide Children, Parts, Text, ToWire, Plainspoken, Vacant, Ordered, Decodes, Reaches;
    NamesFit(node, name, []);
    assert SerializeList(h, call, State(map[], 0, [Entry(0, name)]), []) == Listed(State(map[], 0, [Entry(0, name)]), []);
    assert [] + [Entry(0, name)] == [Entry(0, name)];
    RoundTripExactly(h, call, State(map[], 0, []), Ref(0), name);
  }

  lemma EmptyArrayText()
    ensures Text(WArray([])) == "Array:[]"
  {
    assert Links([]) == [];
  }

  /** An object with a `join` and no `length` becomes an empty array. */
  lemma JoinLosesObject(call: nat, name: string)
    requires Vacant(call, State(map[], 0, []), name)
    ensures var h: Heap := map[0 := Object("Object", [Member("join", Str("x"))], 0)];
            && WellFormed(h)
            && var t := SerializeAll(h, call, State(map[], 0, []), Ref(0), name);
               t.texts == map[name := "Array:[]"] && !Decodes(h, Ref(0), t.texts, name)
  {
    var node := Object("Object", [Member("join", Str("x"))], 0);
    assert [Member("join", Str("x"))][1..] == [];
    assert Find(node.members, "join") == Str("x") && Find(node.members, "length") == Nil;
    assert Elements(node) == [];
    EmptyArrayText();
    hide SerializeAll, Decodes, Vacant, Text;
    LeafIsWritten(call, name, node);
  }

  /** A node of a document becomes a link to itself. */
  lemma NodeLinksToItself(call: nat, name: string)
    requires Vacant(call, State(map[], 0, []), name)
    ensures var h: Heap := map[0 := Object("Element", [Member("nodeName", Str("P")), Member("nodeType", Number("1"))], 0)];
            && WellFormed(h)
            && var t := SerializeAll(h, call, State(map[], 0, []), Ref(0), name);
               t.texts == map[name := "reference:" + name] && !Decodes(h, Ref(0), t.texts, name)
  {
    var node := Object("Element", [Member("nodeName", Str("P")), Member("nodeType", Number("1"))], 0);
    assert node.members[1..] == [Member("nodeType", Number("1"))] && node.members[1..][1..] == [];
    assert Find(node.members, "nodeName") == Str("P") && Find(node.members, "nodeType") == Number("1") && Find(node.members, "join") == Nil;
    hide SerializeAll, Decodes, Vacant;
    LeafIsWritten(call, name, node);
  }
}
