/** Marshalling of an object graph, which may be shared and cyclic, into a flat map from names to
    texts, on values. The imperative form is in module DwrBatchMap. */
module DwrMarshal {
  import opened Options
  import opened TextLists
  import opened DwrWire
  import UriComponent

  // ----- The data

  /** Nil stands for null and undefined; a number is the text it prints as. */
  datatype Value = Nil | Bool(b: bool) | Number(text: string) | Str(s: string) | Ref(o: nat) | Function

  datatype Member = Member(key: string, value: Value)

  /** An array with its elements, or any other object: the class name found for it, its members, and,
      where it has a `length` that is neither absent nor plainly a whole number, how many of 0, 1,
      2 and so on compare below that. */
  datatype Node = Array(elems: seq<Value>) | Object(className: string, members: seq<Member>, passes: nat)

  /** All objects and arrays by their identity */
  type Heap = map<nat, Node>

  /** Members that are functions are not marshalled. */
  function Kept(members: seq<Member>): seq<Member> {
    if members == [] then []
    else (if members[0].value.Function? then [] else [members[0]]) + Kept(members[1..])
  }

  function KeysOf(members: seq<Member>): (ks: seq<string>)
    ensures |ks| == |members|
  {
    seq(|members|, i requires 0 <= i < |members| => members[i].key)
  }

  function ValuesOf(members: seq<Member>): (vs: seq<Value>)
    ensures |vs| == |members|
  {
    seq(|members|, i requires 0 <= i < |members| => members[i].value)
  }

  /** The member under a key; an absent one is undefined. */
  function Find(members: seq<Member>, key: string): Value {
    if members == [] then Nil
    else if members[0].key == key then members[0].value
    else Find(members[1..], key)
  }

  /** Whether a test of the value succeeds */
  predicate Truthy(v: Value) {
    match v
    case Nil => false
    case Bool(b) => b
    case Number(text) => text != "0" && text != "NaN"
    case Str(s) => s != ""
    case Ref(_) => true
    case Function => true
  }

  // ----- What the marshaller takes a node for

  /** It does not ask whether an object is an array, but whether it has a `join`, and takes one with a
      `nodeName` and a `nodeType` for part of a document. */
  datatype Taking = AsArray | AsXml | AsObject

  function Taken(node: Node): Taking {
    match node
    case Array(_) => AsArray
    case Object(_, members, _) =>
      if Truthy(Find(members, "join")) then AsArray
      else if Truthy(Find(members, "nodeName")) && Truthy(Find(members, "nodeType")) then AsXml
      else AsObject
  }

  /** How many of 0, 1, 2 and so on compare below a length, where that is plain */
  function PassesOf(length: Value): Option<nat> {
    match length
    case Nil => Some(0)
    case Function => Some(0)
    case Bool(b) => Some(if b then 1 else 0)
    case Number(text) =>
      if Numeral(text) then Some(NumberOf(text))
      else if text == "NaN" || (text != "" && text[0] == '-') then Some(0)
      else None
    case Str(s) => if s == "" then Some(0) else if Numeral(s) then Some(NumberOf(s)) else None
    case Ref(_) => None
  }

  /** What the loop from 0 up to the length finds in a node */
  function Elements(node: Node): seq<Value> {
    match node
    case Array(elems) => elems
    case Object(_, members, passes) =>
      var length := PassesOf(Find(members, "length"));
      seq(if length.Some? then length.value else passes, i requires i >= 0 => Find(members, Decimal(i)))
  }

  /** The values a node is marshalled with, in order. */
  function Children(node: Node): seq<Value> {
    match Taken(node)
    case AsArray => Elements(node)
    case AsXml => []
    case AsObject => ValuesOf(Kept(node.members))
  }

  /** The values it holds, functions in an object left aside */
  function Parts(node: Node): seq<Value> {
    match node
    case Array(elems) => elems
    case Object(_, members, _) => ValuesOf(Kept(members))
  }

  predicate Exists(h: Heap, v: Value) {
    v.Ref? ==> v.o in h
  }

  /** No dangling identities, and class names made of word characters. */
  ghost predicate WellFormed(h: Heap) {
    forall o :: o in h ==> (forall v :: v in Children(h[o]) || v in Parts(h[o]) ==> Exists(h, v))
                           && (h[o].Object? ==> PlainName(h[o].className))
  }

  /** Nothing taken for an array holds a function; there the original leaves a link to nothing. */
  ghost predicate ArraysHoldData(h: Heap) {
    forall o :: o in h ==> Function !in Children(h[o])
  }

  // ----- The marshaller

  /** An object met before, and the name it was met under */
  datatype Entry = Entry(data: nat, name: string)

  datatype State = State(texts: map<string, string>, count: nat, refs: seq<Entry>)

  function Lookup(refs: seq<Entry>, o: nat): (r: Option<string>)
    ensures r.None? <==> forall i :: 0 <= i < |refs| ==> refs[i].data != o
    ensures r.Some? ==> Entry(o, r.value) in refs
  {
    if refs == [] then None
    else if refs[0].data == o then Some(refs[0].name)
    else Lookup(refs[1..], o)
  }

  function Prefix(call: nat): string {
    "c" + Decimal(call) + "-"
  }

  function ElementName(call: nat, n: nat): string {
    Prefix(call) + "e" + Decimal(n)
  }

  /** The text of a node met under the name `own`. What is taken for part of a document is looked up
      a second time, and so becomes a link to itself. */
  function ToWire(node: Node, own: string, names: seq<string>): Wire {
    match Taken(node)
    case AsArray => WArray(names)
    case AsXml => WLink(own)
    case AsObject => WObject(node.className, KeysOf(Kept(node.members)), names)
  }

  function SeenIn(refs: seq<Entry>): set<nat> {
    set i | 0 <= i < |refs| :: refs[i].data
  }

  function Unseen(h: Heap, refs: seq<Entry>): nat {
    |h.Keys - SeenIn(refs)|
  }

  lemma UnseenMono(h: Heap, a: seq<Entry>, b: seq<Entry>)
    requires a <= b
    ensures Unseen(h, b) <= Unseen(h, a)
  {
    assert SeenIn(a) <= SeenIn(b);
    SubsetSize(h.Keys - SeenIn(b), h.Keys - SeenIn(a));
  }

  lemma UnseenLess(h: Heap, refs: seq<Entry>, e: Entry)
    requires e.data in h && Lookup(refs, e.data).None?
    ensures Unseen(h, refs + [e]) < Unseen(h, refs)
  {
    var a, b := h.Keys - SeenIn(refs), h.Keys - SeenIn(refs + [e]);
    assert (refs + [e])[|refs|] == e;
    forall i | 0 <= i < |refs|
      ensures refs[i].data in SeenIn(refs + [e])
    {
      assert (refs + [e])[i] == refs[i];
    }
    assert SeenIn(refs) <= SeenIn(refs + [e]);
    assert e.data in a && e.data !in b && b <= a - {e.data};
    SubsetSize(b, a - {e.data});
  }

  lemma SubsetSize(a: set<nat>, b: set<nat>)
    requires a <= b
    ensures |a| <= |b|
  {
    assert b == a + (b - a);
  }

  datatype Listed = Listed(state: State, names: seq<string>)

  /** _serializeAll, with _serializeObject and _serializeArray */
  function SerializeAll(h: Heap, call: nat, st: State, data: Value, name: string): (t: State)
    requires WellFormed(h) && Exists(h, data)
    ensures st.refs <= t.refs && st.count <= t.count
    decreases Unseen(h, st.refs), 0, 0
  {
    match data
    case Function => st
    case Ref(o) =>
      (match Lookup(st.refs, o)
       case Some(known) => st.(texts := st.texts[name := Text(WLink(known))])
       case None =>
         UnseenLess(h, st.refs, Entry(o, name));
         var inner := SerializeList(h, call, st.(refs := st.refs + [Entry(o, name)]), Children(h[o]));
         NamesFit(h[o], name, inner.names);
         inner.state.(texts := inner.state.texts[name := Text(ToWire(h[o], name, inner.names))]))
    case _ => st.(texts := st.texts[name := Text(Plainly(data))])
  }

  /** The children of a node, each under the next element name. */
  function SerializeList(h: Heap, call: nat, st: State, values: seq<Value>): (r: Listed)
    requires WellFormed(h) && forall v :: v in values ==> Exists(h, v)
    ensures st.refs <= r.state.refs && st.count <= r.state.count && |r.names| == |values|
    decreases Unseen(h, st.refs), 1, |values|
  {
    if values == [] then Listed(st, [])
    else
      var name := ElementName(call, st.count + 1);
      var first := SerializeAll(h, call, st.(count := st.count + 1), values[0], name);
      UnseenMono(h, st.refs, first.refs);
      var rest := SerializeList(h, call, first, values[1..]);
      Listed(rest.state, [name] + rest.names)
  }

  function Plainly(v: Value): Wire
    requires !v.Ref? && !v.Function?
  {
    match v
    case Nil => WNull
    case Bool(b) => WBool(b)
    case Number(text) => WNumber(text)
    case Str(s) => WString(s)
  }

  lemma NamesFit(node: Node, own: string, names: seq<string>)
    requires |names| == |Children(node)|
    ensures WellShaped(ToWire(node, own, names))
  {}

  // ----- Names

  /** The number of an element name of this call, if it is one. */
  function Serial(call: nat, name: string): Option<nat> {
    var p := Prefix(call) + "e";
    if p <= name && NumberOf(name[|p|..]) >= 0 && name == ElementName(call, NumberOf(name[|p|..]))
    then Some(NumberOf(name[|p|..]))
    else None
  }

  lemma SerialOfElement(call: nat, n: nat)
    ensures Serial(call, ElementName(call, n)) == Some(n)
    ensures PlainName(ElementName(call, n))
  {
    var p := Prefix(call) + "e";
    DecimalRoundTrip(n);
    DecimalRoundTrip(call);
    assert ElementName(call, n)[|p|..] == Decimal(n);
  }

  predicate NotAfter(call: nat, name: string, n: nat) {
    Serial(call, name).Some? ==> Serial(call, name).value <= n
  }

  predicate Between(call: nat, name: string, lo: nat, hi: nat) {
    Serial(call, name).Some? && lo < Serial(call, name).value <= hi
  }

  /** The name is free, and no element name still to come is equal to it. */
  ghost predicate Vacant(call: nat, st: State, name: string) {
    && name !in st.texts && NotAfter(call, name, st.count) && PlainName(name)
    && forall i :: 0 <= i < |st.refs| ==> st.refs[i].name != name
  }

  ghost predicate Unique(refs: seq<Entry>) {
    forall i, j :: 0 <= i < j < |refs| ==> refs[i].data != refs[j].data && refs[i].name != refs[j].name
  }

  ghost predicate Ordered(h: Heap, call: nat, st: State) {
    && Unique(st.refs)
    && (forall i :: 0 <= i < |st.refs| ==>
          st.refs[i].data in h && NotAfter(call, st.refs[i].name, st.count) && PlainName(st.refs[i].name))
    && (forall k :: k in st.texts ==> NotAfter(call, k, st.count))
  }

  // ----- What the texts say

  /** The text under the name stands for the value, given the names of the objects. */
  predicate Denotes(m: map<string, string>, refs: seq<Entry>, name: string, v: Value) {
    && name in m
    && match v
       case Ref(o) =>
         Lookup(refs, o).Some? && (Lookup(refs, o) == Some(name) || Read(m[name]) == Some(WLink(Lookup(refs, o).value)))
       case Function => false
       case _ => Read(m[name]) == Some(Plainly(v))
  }

  function MemberNames(w: Wire): seq<string> {
    match w
    case WArray(names) => names
    case WObject(_, _, names) => names
    case _ => []
  }

  /** The text under the entry's name is that of the entry's node, member for member. */
  predicate Described(h: Heap, m: map<string, string>, refs: seq<Entry>, e: Entry) {
    && e.data in h && e.name in m
    && Read(m[e.name]).Some?
    && var w := Read(m[e.name]).value; var names := MemberNames(w); var values := Children(h[e.data]);
    && w == ToWire(h[e.data], e.name, names) && |names| == |values|
    && forall i :: 0 <= i < |names| ==> Denotes(m, refs, names[i], values[i])
  }

  predicate IsContainer(text: string) {
    Read(text).Some? && (Read(text).value.WArray? || Read(text).value.WObject?)
  }

  ghost predicate MapGrows(m: map<string, string>, m2: map<string, string>) {
    forall k :: k in m ==> k in m2 && m2[k] == m[k]
  }

  /** From st to t nothing was overwritten; every new name is an element name not used before, or
      the caller's own; every object met since is described, and every container text is the
      one text of one object met since. */
  ghost predicate Grows(h: Heap, call: nat, st: State, t: State, own: Option<string>) {
    && st.refs <= t.refs && st.count <= t.count && MapGrows(st.texts, t.texts)
    && (forall k :: k in t.texts && k !in st.texts ==> own == Some(k) || Between(call, k, st.count, t.count))
    && (forall i :: |st.refs| <= i < |t.refs| ==>
          own == Some(t.refs[i].name) || Between(call, t.refs[i].name, st.count, t.count))
    && (forall i :: |st.refs| <= i < |t.refs| ==> Described(h, t.texts, t.refs, t.refs[i]))
    && (forall k :: k in t.texts && k !in st.texts && IsContainer(t.texts[k]) ==> Met(st, t, k))
  }

  ghost predicate Met(st: State, t: State, name: string) {
    exists i :: |st.refs| <= i < |t.refs| && t.refs[i].name == name
  }

  lemma LookupGrows(refs: seq<Entry>, refs2: seq<Entry>, o: nat)
    requires refs <= refs2 && Lookup(refs, o).Some?
    ensures Lookup(refs2, o) == Lookup(refs, o)
  {
    if refs[0].data != o {
      assert refs[1..] <= refs2[1..];
      LookupGrows(refs[1..], refs2[1..], o);
    }
  }

  lemma DenotesGrows(m: map<string, string>, refs: seq<Entry>, m2: map<string, string>, refs2: seq<Entry>, name: string, v: Value)
    requires Denotes(m, refs, name, v) && MapGrows(m, m2) && refs <= refs2
    ensures Denotes(m2, refs2, name, v)
  {
    hide Read;
    if v.Ref? {
      LookupGrows(refs, refs2, v.o);
    }
  }

  lemma DescribedGrows(h: Heap, m: map<string, string>, refs: seq<Entry>, m2: map<string, string>, refs2: seq<Entry>, e: Entry)
    requires Described(h, m, refs, e) && MapGrows(m, m2) && refs <= refs2
    ensures Described(h, m2, refs2, e)
  {
    hide Read, Denotes, ToWire;
    var names, values := MemberNames(Read(m[e.name]).value), Children(h[e.data]);
    forall i | 0 <= i < |names|
      ensures Denotes(m2, refs2, names[i], values[i])
    {
      DenotesGrows(m, refs, m2, refs2, names[i], values[i]);
    }
  }

  // ----- The marshaller does what the texts should say

  lemma GrowsCompose(h: Heap, call: nat, st: State, t: State, u: State)
    requires Grows(h, call, st, t, None) && Grows(h, call, t, u, None)
    ensures Grows(h, call, st, u, None)
  {
    hide Described, IsContainer, Serial;
    forall i | |st.refs| <= i < |u.refs|
      ensures Between(call, u.refs[i].name, st.count, u.count)
      ensures Described(h, u.texts, u.refs, u.refs[i])
    {
      if i < |t.refs| {
        assert u.refs[i] == t.refs[i];
        DescribedGrows(h, t.texts, t.refs, u.texts, u.refs, t.refs[i]);
      }
    }
    forall k | k in u.texts && k !in st.texts && IsContainer(u.texts[k])
      ensures Met(st, u, k)
    {
      if k in t.texts {
        var i :| |st.refs| <= i < |t.refs| && t.refs[i].name == k;
        assert u.refs[i] == t.refs[i];
      }
    }
  }

  /** Seen from outside, the caller's own name is just the next element name. */
  lemma GrowsOutside(h: Heap, call: nat, st: State, t: State)
    requires Grows(h, call, st.(count := st.count + 1), t, Some(ElementName(call, st.count + 1)))
    ensures Grows(h, call, st, t, None)
  {
    hide Described, IsContainer, Serial, ElementName;
    var st1 := st.(count := st.count + 1);
    SerialOfElement(call, st.count + 1);
    forall k | k in t.texts && k !in st.texts && IsContainer(t.texts[k])
      ensures Met(st, t, k)
    {
      assert Met(st1, t, k);
    }
  }

  /** Writing a text that is no container under a vacant name */
  lemma PlainTextGrows(h: Heap, call: nat, st: State, name: string, w: Wire)
    requires Ordered(h, call, st) && Vacant(call, st, name)
    requires Plain(w) && !w.WArray? && !w.WObject?
    ensures var t := st.(texts := st.texts[name := Text(w)]);
            Grows(h, call, st, t, Some(name)) && Ordered(h, call, t) && Read(t.texts[name]) == Some(w)
  {
    hide Described, Read, Text, Serial;
    ReadText(w);
  }

  lemma MetObject(h: Heap, call: nat, st: State, o: nat, name: string)
    requires Ordered(h, call, st) && Vacant(call, st, name) && o in h && Lookup(st.refs, o).None?
    ensures Ordered(h, call, st.(refs := st.refs + [Entry(o, name)]))
  {}

  lemma {:induction false} LookupLast(refs: seq<Entry>, e: Entry)
    requires Lookup(refs, e.data).None?
    ensures Lookup(refs + [e], e.data) == Some(e.name)
  {
    if refs != [] {
      assert (refs + [e])[1..] == refs[1..] + [e];
      LookupLast(refs[1..], e);
    }
  }

  /** The state in which the children of a node are marshalled, and the one its text leads to */
  function Entered(st: State, o: nat, name: string): State {
    st.(refs := st.refs + [Entry(o, name)])
  }

  function Closed(u: State, name: string, text: string): State {
    u.(texts := u.texts[name := text])
  }

  ghost predicate InsideNode(h: Heap, call: nat, st: State, o: nat, name: string, u: State) {
    && o in h && Ordered(h, call, st) && Vacant(call, st, name) && Lookup(st.refs, o).None?
    && Grows(h, call, Entered(st, o, name), u, None) && Ordered(h, call, u)
  }

  lemma ClosedNames(h: Heap, call: nat, st: State, o: nat, name: string, u: State, text: string)
    requires InsideNode(h, call, st, o, name, u)
    ensures name !in u.texts
    ensures var t := Closed(u, name, text);
            && MapGrows(u.texts, t.texts) && Ordered(h, call, t)
            && st.refs <= t.refs && st.count <= t.count && MapGrows(st.texts, t.texts)
            && (forall k :: k in t.texts && k !in st.texts ==> k == name || Between(call, k, st.count, t.count))
            && (forall i :: |st.refs| <= i < |t.refs| ==>
                  t.refs[i].name == name || Between(call, t.refs[i].name, st.count, t.count))
  {
    hide Described, IsContainer, Serial, Unique, Met, Lookup;
    assert u.refs[|st.refs|] == Entered(st, o, name).refs[|st.refs|] == Entry(o, name);
  }

  lemma ClosedDescribed(h: Heap, call: nat, st: State, o: nat, name: string, u: State, text: string)
    requires InsideNode(h, call, st, o, name, u)
    requires var t := Closed(u, name, text);
             MapGrows(u.texts, t.texts) && Described(h, t.texts, t.refs, Entry(o, name))
    ensures var t := Closed(u, name, text);
            forall i :: |st.refs| <= i < |t.refs| ==> Described(h, t.texts, t.refs, t.refs[i])
  {}

  lemma ClosedContainers(h: Heap, call: nat, st: State, o: nat, name: string, u: State, text: string)
    requires InsideNode(h, call, st, o, name, u)
    ensures var t := Closed(u, name, text);
            forall k :: k in t.texts && k !in st.texts && IsContainer(t.texts[k]) ==> Met(st, t, k)
  {
    hide Described, IsContainer, Serial, Unique, Lookup;
    var t := Closed(u, name, text);
    assert u.refs[|st.refs|] == Entered(st, o, name).refs[|st.refs|] == Entry(o, name);
    forall k | k in t.texts && k !in st.texts && IsContainer(t.texts[k])
      ensures Met(st, t, k)
    {
      if k != name {
        assert Met(Entered(st, o, name), u, k);
      }
    }
  }

  /** The children are done: the node's own text completes the step. */
  lemma NodeGrows(h: Heap, call: nat, st: State, o: nat, name: string, inner: Listed)
    requires WellFormed(h) && InsideNode(h, call, st, o, name, inner.state)
    requires |inner.names| == |Children(h[o])|
    requires forall i :: 0 <= i < |inner.names| ==> ChildDone(call, inner.state, st.count, inner.names[i], Children(h[o])[i])
    ensures WellShaped(ToWire(h[o], name, inner.names))
    ensures var t := Closed(inner.state, name, Text(ToWire(h[o], name, inner.names)));
            && Grows(h, call, st, t, Some(name)) && Ordered(h, call, t)
            && Denotes(t.texts, t.refs, name, Ref(o))
  {
    hide Described, Read, Text, Serial, Children, Denotes, ToWire, Taken, IsContainer, Ordered, MapGrows, ChildDone, Met, WellFormed;
    var u, w := inner.state, ToWire(h[o], name, inner.names);
    NodeWire(h, call, o, name, st.count, inner);
    ReadText(w);
    var t := Closed(u, name, Text(w));
    ClosedNames(h, call, st, o, name, u, Text(w));
    NodeDescribed(h, call, st, o, name, inner, t);
    ClosedDescribed(h, call, st, o, name, u, Text(w));
    ClosedContainers(h, call, st, o, name, u, Text(w));
    LookupLast(st.refs, Entry(o, name));
    LookupGrows(st.refs + [Entry(o, name)], t.refs, o);
    OwnNameDenotes(t, name, o);
  }

  lemma NodeWire(h: Heap, call: nat, o: nat, name: string, lo: nat, inner: Listed)
    requires PlainName(name) && WellFormed(h) && o in h && |inner.names| == |Children(h[o])|
    requires forall i :: 0 <= i < |inner.names| ==> ChildDone(call, inner.state, lo, inner.names[i], Children(h[o])[i])
    ensures Plain(ToWire(h[o], name, inner.names))
  {
    hide Denotes, Serial;
    assert forall i :: 0 <= i < |inner.names| ==> PlainName(inner.names[i]);
    WireOfNode(h, o, name, inner.names);
  }

  lemma OwnNameDenotes(t: State, name: string, o: nat)
    requires name in t.texts && Lookup(t.refs, o) == Some(name)
    ensures Denotes(t.texts, t.refs, name, Ref(o))
  {}

  /** A child is denoted by its name, which is an element name used since the count lo. */
  ghost predicate ChildDone(call: nat, u: State, lo: nat, name: string, v: Value) {
    Denotes(u.texts, u.refs, name, v) && Between(call, name, lo, u.count) && PlainName(name)
  }

  lemma WireOfNode(h: Heap, o: nat, own: string, names: seq<string>)
    requires PlainName(own) && WellFormed(h) && o in h && |names| == |Children(h[o])|
    requires forall i :: 0 <= i < |names| ==> PlainName(names[i])
    ensures Plain(ToWire(h[o], own, names)) && MemberNames(ToWire(h[o], own, names)) == names
  {}

  lemma NodeDescribed(h: Heap, call: nat, st: State, o: nat, name: string, inner: Listed, t: State)
    requires PlainName(name) && WellFormed(h) && o in h && |inner.names| == |Children(h[o])|
    requires forall i :: 0 <= i < |inner.names| ==> ChildDone(call, inner.state, st.count, inner.names[i], Children(h[o])[i])
    requires MapGrows(inner.state.texts, t.texts) && inner.state.refs <= t.refs
    requires name in t.texts && Read(t.texts[name]) == Some(ToWire(h[o], name, inner.names))
    ensures Described(h, t.texts, t.refs, Entry(o, name))
  {
    hide Read, Serial, Children, Denotes, ToWire;
    WireOfNode(h, o, name, inner.names);
    forall i | 0 <= i < |inner.names|
      ensures Denotes(t.texts, t.refs, inner.names[i], Children(h[o])[i])
    {
      assert ChildDone(call, inner.state, st.count, inner.names[i], Children(h[o])[i]);
      DenotesGrows(inner.state.texts, inner.state.refs, t.texts, t.refs, inner.names[i], Children(h[o])[i]);
    }
  }

  /** A value goes under its name: nothing else changes but what the marshalled objects need. */
  lemma {:induction false} AllGrows(h: Heap, call: nat, st: State, v: Value, name: string)
    requires WellFormed(h) && ArraysHoldData(h) && Exists(h, v) && !v.Function?
    requires Ordered(h, call, st) && Vacant(call, st, name)
    ensures var t := SerializeAll(h, call, st, v, name);
            Grows(h, call, st, t, Some(name)) && Ordered(h, call, t) && Denotes(t.texts, t.refs, name, v)
    decreases Unseen(h, st.refs), 0, 0
  {
    hide Grows, Ordered, Vacant, Read, Text, Denotes, ArraysHoldData;
    match v
    case Ref(o) =>
      if Lookup(st.refs, o).Some? {
        KnownGrows(h, call, st, o, name);
      } else {
        UnseenLess(h, st.refs, Entry(o, name));
        MetObject(h, call, st, o, name);
        ChildrenData(h, o);
        var inner := SerializeList(h, call, Entered(st, o, name), Children(h[o]));
        ListGrows(h, call, Entered(st, o, name), Children(h[o]));
        NodeGrows(h, call, st, o, name, inner);
      }
    case Nil | Bool(_) | Number(_) | Str(_) =>
      PlainTextGrows(h, call, st, name, Plainly(v));
      ScalarDenotes(st.(texts := st.texts[name := Text(Plainly(v))]), name, v);
  }

  lemma ScalarDenotes(t: State, name: string, v: Value)
    requires !v.Ref? && !v.Function? && name in t.texts && Read(t.texts[name]) == Some(Plainly(v))
    ensures Denotes(t.texts, t.refs, name, v)
  {}

  lemma KnownGrows(h: Heap, call: nat, st: State, o: nat, name: string)
    requires Ordered(h, call, st) && Vacant(call, st, name) && Lookup(st.refs, o).Some?
    ensures var t := st.(texts := st.texts[name := Text(WLink(Lookup(st.refs, o).value))]);
            Grows(h, call, st, t, Some(name)) && Ordered(h, call, t) && Denotes(t.texts, t.refs, name, Ref(o))
  {
    hide Grows, Ordered, Vacant, Read, Text;
    PlainTextGrows(h, call, st, name, WLink(Lookup(st.refs, o).value));
  }

  lemma ChildrenData(h: Heap, o: nat)
    requires WellFormed(h) && ArraysHoldData(h) && o in h
    ensures forall v :: v in Children(h[o]) ==> Exists(h, v) && !v.Function?
  {}

  lemma {:induction false} ListGrows(h: Heap, call: nat, st: State, values: seq<Value>)
    requires WellFormed(h) && ArraysHoldData(h) && Ordered(h, call, st)
    requires forall v :: v in values ==> Exists(h, v) && !v.Function?
    ensures var r := SerializeList(h, call, st, values);
            && Grows(h, call, st, r.state, None) && Ordered(h, call, r.state)
            && forall i :: 0 <= i < |values| ==> ChildDone(call, r.state, st.count, r.names[i], values[i])
    decreases Unseen(h, st.refs), 1, |values|
  {
    hide Grows, Ordered, Vacant, Read, Text, Denotes, ArraysHoldData, WellFormed;
    if values == [] {
      GrowsNothing(h, call, st);
    } else {
      var name := ElementName(call, st.count + 1);
      NextIsVacant(h, call, st);
      var st1 := st.(count := st.count + 1);
      var first := SerializeAll(h, call, st1, values[0], name);
      AllGrows(h, call, st1, values[0], name);
      GrowsOutside(h, call, st, first);
      UnseenMono(h, st.refs, first.refs);
      ListGrows(h, call, first, values[1..]);
      var rest := SerializeList(h, call, first, values[1..]);
      GrowsCompose(h, call, st, first, rest.state);
      FirstChildDone(h, call, st, first, rest.state, values[0]);
      ListDone(call, rest, st.count, first.count, name, values);
    }
  }

  lemma ListDone(call: nat, rest: Listed, lo: nat, mid: nat, name: string, values: seq<Value>)
    requires values != [] && |rest.names| == |values| - 1 && lo <= mid
    requires ChildDone(call, rest.state, lo, name, values[0])
    requires forall i :: 0 <= i < |rest.names| ==> ChildDone(call, rest.state, mid, rest.names[i], values[1..][i])
    ensures forall i :: 0 <= i < |values| ==> ChildDone(call, rest.state, lo, ([name] + rest.names)[i], values[i])
  {
    hide Denotes, Serial;
    forall i | 0 <= i < |values|
      ensures ChildDone(call, rest.state, lo, ([name] + rest.names)[i], values[i])
    {
      if i > 0 {
        assert ([name] + rest.names)[i] == rest.names[i - 1] && values[1..][i - 1] == values[i];
      }
    }
  }

  lemma FirstChildDone(h: Heap, call: nat, st: State, t: State, u: State, v: Value)
    requires var name := ElementName(call, st.count + 1); Denotes(t.texts, t.refs, name, v)
    requires Grows(h, call, t, u, None) && st.count + 1 <= t.count
    ensures ChildDone(call, u, st.count, ElementName(call, st.count + 1), v)
  {
    hide Denotes, Serial, ElementName, Described;
    var name := ElementName(call, st.count + 1);
    SerialOfElement(call, st.count + 1);
    DenotesGrows(t.texts, t.refs, u.texts, u.refs, name, v);
  }

  lemma GrowsNothing(h: Heap, call: nat, st: State)
    ensures Grows(h, call, st, st, None)
  {}

  lemma NextIsVacant(h: Heap, call: nat, st: State)
    requires Ordered(h, call, st)
    ensures var st1 := st.(count := st.count + 1);
            Ordered(h, call, st1) && Vacant(call, st1, ElementName(call, st.count + 1))
  {
    hide Serial, ElementName, Unique;
    SerialOfElement(call, st.count + 1);
  }

  // ----- The names and the tests themselves

  lemma ElementNameIs(call: nat, n: nat)
    ensures ElementName(call, n) == "c" + Decimal(call) + "-e" + Decimal(n)
  {
    hide Decimal;
    assert "-" + "e" == "-e";
  }

  /** A test fails of nothing but null, undefined, false, zero, a number that is none and the empty text. */
  lemma TestsFailOf(v: Value)
    ensures !Truthy(v) <==> v == Nil || v == Bool(false) || v == Number("0") || v == Number("NaN") || v == Str("")
  {}

  /** All members that are no functions are kept, in their order. */
  lemma {:induction false} KeptInOrder(a: seq<Member>, b: seq<Member>)
    ensures Kept(a + b) == Kept(a) + Kept(b)
    decreases |a|
  {
    if a == [] {
      assert a + b == b;
    } else {
      assert (a + b)[0] == a[0] && (a + b)[1..] == a[1..] + b;
      KeptInOrder(a[1..], b);
    }
  }

  lemma KeptIfData(m: Member)
    ensures Kept([m]) == if m.value == Function then [] else [m]
  {
    assert [m][1..] == [];
  }

  /** The members by which the elements of an array are found */
  function Numbered(elems: seq<Value>, from: nat): (members: seq<Member>)
    ensures |members| == |elems|
  {
    seq(|elems|, i requires 0 <= i < |elems| => Member(Decimal(from + i), elems[i]))
  }

  lemma {:induction false} FindNumbered(elems: seq<Value>, from: nat, i: nat)
    requires i < |elems|
    ensures Find(Numbered(elems, from), Decimal(from + i)) == elems[i]
  {
    var members := Numbered(elems, from);
    if i > 0 {
      DecimalRoundTrip(from);
      DecimalRoundTrip(from + i);
      assert members[1..] == Numbered(elems[1..], from + 1);
      FindNumbered(elems[1..], from + 1, i - 1);
    }
  }

  lemma NumeralIsNoWord(n: nat)
    ensures Decimal(n) != "join" && Decimal(n) != "length"
  {
    DecimalRoundTrip(n);
    assert IsDigit(Decimal(n)[0]);
  }

  /** An object with a `join`, a `length` and members by number is marshalled just as the array of these
      members is. */
  lemma LikeAnArray(className: string, join: Value, elems: seq<Value>, passes: nat)
    requires Truthy(join)
    ensures var node := Object(className, [Member("join", join), Member("length", Number(Decimal(|elems|)))] + Numbered(elems, 0), passes);
            && Taken(node).AsArray? && Children(node) == elems
            && forall own, names :: ToWire(node, own, names) == ToWire(Array(elems), own, names)
  {
    var members := [Member("join", join), Member("length", Number(Decimal(|elems|)))] + Numbered(elems, 0);
    FindBehind(Member("join", join), Member("length", Number(Decimal(|elems|))), Numbered(elems, 0), "join");
    FindBehind(Member("join", join), Member("length", Number(Decimal(|elems|))), Numbered(elems, 0), "length");
    DecimalRoundTrip(|elems|);
    NumeralOf(|elems|);
    hide Decimal, NumberOf, Find, Truthy, Numbered;
    forall i | 0 <= i < |elems|
      ensures Find(members, Decimal(i)) == elems[i]
    {
      NumeralIsNoWord(i);
      FindNumbered(elems, 0, i);
      FindBehind(Member("join", join), Member("length", Number(Decimal(|elems|))), Numbered(elems, 0), Decimal(i));
    }
  }

  lemma NumeralOf(n: nat)
    ensures Numeral(Decimal(n))
  {
    DecimalRoundTrip(n);
  }

  lemma FindBehind(a: Member, b: Member, rest: seq<Member>, key: string)
    ensures Find([a, b] + rest, key) == if a.key == key then a.value else if b.key == key then b.value else Find(rest, key)
  {
    var all := [a, b] + rest;
    assert all[0] == a && all[1..][0] == b && all[1..][1..] == rest;
  }

  /** How often the loop up to a `length` runs that is no plain number */
  lemma OtherLengths(text: string)
    ensures PassesOf(Nil) == PassesOf(Function) == PassesOf(Bool(false)) == PassesOf(Str("")) == PassesOf(Number("NaN")) == Some(0)
    ensures PassesOf(Bool(true)) == Some(1)
    ensures text != "" && text[0] == '-' ==> PassesOf(Number(text)) == Some(0)
    ensures Numeral(text) ==> PassesOf(Str(text)) == PassesOf(Number(text)) == Some(NumberOf(text))
  {
    assert !IsDigit("NaN"[0]);
  }
}
