/** Following the links of a marshalled map gives back the graph as the marshaller took it. Whether
    that is the graph that was meant is the subject of module DwrExact. */
module DwrRoundTrip {
  import opened Options
  import opened TextLists
  import opened DwrWire
  import opened DwrMarshal

  // ----- Reading a map by following its links

  /** What a name stands for: a plain value, or the node whose text is under a name. */
  datatype Meaning = Leaf(v: Value) | NodeAt(name: string)

  function Follow(m: map<string, string>, name: string): Option<Meaning> {
    if name !in m then None
    else
      match Read(m[name])
      case None => None
      case Some(w) =>
        match w
        case WNull => Some(Leaf(Nil))
        case WBool(b) => Some(Leaf(Bool(b)))
        case WNumber(text) => Some(Leaf(Number(text)))
        case WString(s) => Some(Leaf(Str(s)))
        case WLink(to) => Some(NodeAt(to))
        case WArray(_) => Some(NodeAt(name))
        case WObject(_, _, _) => Some(NodeAt(name))
  }

  /** The same for a value of the original graph, given the names of its objects. */
  function Image(refs: seq<Entry>, v: Value): Option<Meaning> {
    if !v.Ref? then Some(Leaf(v))
    else
      match Lookup(refs, v.o)
      case Some(name) => Some(NodeAt(name))
      case None => None
  }

  /** The node's text is that of what the node was taken for, and its members stand for the values
      that were marshalled as its children. */
  ghost predicate ShowsNode(h: Heap, m: map<string, string>, refs: seq<Entry>, e: Entry) {
    && e.data in h && e.name in m && Read(m[e.name]).Some?
    && var w := Read(m[e.name]).value; var names := MemberNames(w); var values := Children(h[e.data]);
    && w == ToWire(h[e.data], e.name, names) && |names| == |values|
    && forall i :: 0 <= i < |names| ==> Image(refs, values[i]).Some? && Follow(m, names[i]) == Image(refs, values[i])
  }

  /** s contains the object of v, and with an object those of the values marshalled as its children. */
  ghost predicate VisitSet(h: Heap, v: Value, s: set<nat>) {
    && (v.Ref? ==> v.o in s)
    && forall o :: o in s && o in h ==> forall c :: c in Children(h[o]) && c.Ref? ==> c.o in s
  }

  /** The map read from the root name is the graph visited from the value: `refs` pairs each object
      visited with one name and no name twice, so what was shared is shared and what was distinct
      is distinct. */
  ghost predicate Shows(h: Heap, v: Value, m: map<string, string>, name: string, refs: seq<Entry>) {
    && Unique(refs)
    && Image(refs, v).Some? && Follow(m, name) == Image(refs, v)
    && (forall i :: 0 <= i < |refs| ==> ShowsNode(h, m, refs, refs[i]))
    && VisitSet(h, v, SeenIn(refs))
    && forall s: set<nat> :: VisitSet(h, v, s) ==> SeenIn(refs) <= s
  }

  // ----- The objects met are the reachable ones

  lemma {:induction false} AllStaysIn(h: Heap, call: nat, st: State, v: Value, name: string, root: Value, s: set<nat>)
    requires WellFormed(h) && Exists(h, v) && SeenIn(st.refs) <= s && (v.Ref? ==> v.o in s)
    requires VisitSet(h, root, s)
    ensures SeenIn(SerializeAll(h, call, st, v, name).refs) <= s
    decreases Unseen(h, st.refs), 0, 0
  {
    hide Text;
    if v.Ref? && Lookup(st.refs, v.o).None? {
      var e := Entry(v.o, name);
      UnseenLess(h, st.refs, e);
      SeenAppend(st.refs, e);
      ListStaysIn(h, call, st.(refs := st.refs + [e]), Children(h[v.o]), root, s);
    }
  }

  lemma SeenAppend(refs: seq<Entry>, e: Entry)
    ensures SeenIn(refs + [e]) == SeenIn(refs) + {e.data}
  {
    forall o | o in SeenIn(refs) + {e.data}
      ensures o in SeenIn(refs + [e])
    {
      if o == e.data {
        assert (refs + [e])[|refs|].data == o;
      } else {
        var i :| 0 <= i < |refs| && refs[i].data == o;
        assert (refs + [e])[i].data == o;
      }
    }
  }

  lemma {:induction false} ListStaysIn(h: Heap, call: nat, st: State, values: seq<Value>, root: Value, s: set<nat>)
    requires WellFormed(h) && SeenIn(st.refs) <= s && VisitSet(h, root, s)
    requires forall v :: v in values ==> Exists(h, v) && (v.Ref? ==> v.o in s)
    ensures SeenIn(SerializeList(h, call, st, values).state.refs) <= s
    decreases Unseen(h, st.refs), 1, |values|
  {
    if values != [] {
      var st1 := st.(count := st.count + 1);
      var name := ElementName(call, st.count + 1);
      AllStaysIn(h, call, st1, values[0], name, root, s);
      var first := SerializeAll(h, call, st1, values[0], name);
      UnseenMono(h, st.refs, first.refs);
      ListStaysIn(h, call, first, values[1..], root, s);
    }
  }

  lemma SeenIsClosed(h: Heap, v: Value, m: map<string, string>, name: string, refs: seq<Entry>)
    requires Denotes(m, refs, name, v)
    requires forall i :: 0 <= i < |refs| ==> Described(h, m, refs, refs[i])
    ensures VisitSet(h, v, SeenIn(refs))
  {
    hide Read;
    forall o, c | o in SeenIn(refs) && o in h && c in Children(h[o]) && c.Ref?
      ensures c.o in SeenIn(refs)
    {
      var i :| 0 <= i < |refs| && refs[i].data == o;
      assert Described(h, m, refs, refs[i]);
      var j :| 0 <= j < |Children(h[o])| && Children(h[o])[j] == c;
      assert Denotes(m, refs, MemberNames(Read(m[refs[i].name]).value)[j], c);
    }
  }

  // ----- Denotation is what following the links finds

  lemma DenotesFollows(h: Heap, m: map<string, string>, refs: seq<Entry>, name: string, v: Value)
    requires Denotes(m, refs, name, v)
    requires forall i :: 0 <= i < |refs| ==> Described(h, m, refs, refs[i])
    ensures Image(refs, v).Some? && Follow(m, name) == Image(refs, v)
  {
    hide Read, Described, Children;
    if v.Ref? {
      var at := Lookup(refs, v.o).value;
      if at == name {
        var i :| 0 <= i < |refs| && refs[i] == Entry(v.o, at);
        NodeTextFollows(h, m, refs, refs[i]);
      }
    }
  }

  lemma NodeTextFollows(h: Heap, m: map<string, string>, refs: seq<Entry>, e: Entry)
    requires Described(h, m, refs, e)
    ensures Follow(m, e.name) == Some(NodeAt(e.name))
  {
    hide Read, Denotes, Children;
  }

  lemma DescribedShows(h: Heap, m: map<string, string>, refs: seq<Entry>, e: Entry)
    requires Described(h, m, refs, e)
    requires forall i :: 0 <= i < |refs| ==> Described(h, m, refs, refs[i])
    ensures ShowsNode(h, m, refs, e)
  {
    hide Read, Follow, Image;
    var names, values := MemberNames(Read(m[e.name]).value), Children(h[e.data]);
    forall i | 0 <= i < |names|
      ensures Image(refs, values[i]).Some? && Follow(m, names[i]) == Image(refs, values[i])
    {
      assert Denotes(m, refs, names[i], values[i]);
      DenotesFollows(h, m, refs, names[i], values[i]);
    }
  }

  /** Marshal any value, shared and cyclic parts included, under a vacant name with nothing met
      before, and the map read back from that name is the graph visited from it. */
  lemma GraphIsShown(h: Heap, call: nat, st: State, v: Value, name: string)
    requires WellFormed(h) && ArraysHoldData(h) && Exists(h, v) && !v.Function?
    requires Ordered(h, call, st) && Vacant(call, st, name) && st.refs == []
    ensures var t := SerializeAll(h, call, st, v, name);
            Shows(h, v, t.texts, name, t.refs)
  {
    hide Read, Follow, Image, Described, Denotes, ShowsNode, VisitSet, Serial;
    var t := SerializeAll(h, call, st, v, name);
    AllGrows(h, call, st, v, name);
    DenotesFollows(h, t.texts, t.refs, name, v);
    forall i | 0 <= i < |t.refs|
      ensures ShowsNode(h, t.texts, t.refs, t.refs[i])
    {
      DescribedShows(h, t.texts, t.refs, t.refs[i]);
    }
    SeenIsClosed(h, v, t.texts, name, t.refs);
    forall s: set<nat> | VisitSet(h, v, s)
      ensures SeenIn(t.refs) <= s
    {
      RootInside(h, v, s);
      AllStaysIn(h, call, st, v, name, v, s);
    }
  }

  lemma RootInside(h: Heap, v: Value, s: set<nat>)
    requires VisitSet(h, v, s)
    ensures v.Ref? ==> v.o in s
  {}
}
