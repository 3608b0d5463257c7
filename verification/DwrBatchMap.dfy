/** The marshalling functions as the engine runs them: they fill the batch's map, count its
    parameters and push onto the table of objects met, all in place. */
module DwrBatchMap {
  import opened Options
  import opened TextLists
  import opened DwrWire
  import M = DwrMarshal
  import C = DwrCalls
  import UriComponent

  /** The parts of a batch that marshalling updates. */
  class Batch {
    var texts: map<string, string>
    var paramCount: nat
    var callCount: nat

    constructor ()
      ensures texts == map[] && paramCount == 0 && callCount == 0
    {
      texts, paramCount, callCount := map[], 0, 0;
    }
  }

  /** The array `referto` */
  class RefTable {
    var entries: seq<M.Entry>

    constructor ()
      ensures entries == []
    {
      entries := [];
    }
  }

  function StateOf(batch: Batch, referto: RefTable): M.State
    reads batch, referto
  {
    M.State(batch.texts, batch.paramCount, referto.entries)
  }

  /** _lookup: a link if the object was met before; otherwise it is entered. */
  method Lookup(referto: RefTable, data: nat, name: string) returns (link: Option<string>)
    modifies referto
    ensures match M.Lookup(old(referto.entries), data)
            case Some(known) => link == Some(Text(WLink(known))) && referto.entries == old(referto.entries)
            case None => link == None && referto.entries == old(referto.entries) + [M.Entry(data, name)]
  {
    hide Text;
    var i := 0;
    while i < |referto.entries| && referto.entries[i].data != data
      invariant 0 <= i <= |referto.entries|
      invariant M.Lookup(referto.entries, data) == M.Lookup(referto.entries[i..], data)
    {
      assert referto.entries[i..][1..] == referto.entries[i + 1..];
      i := i + 1;
    }
    if i < |referto.entries| {
      LinkText(referto.entries[i].name);
      return Some(LINK + referto.entries[i].name);
    }
    referto.entries := referto.entries + [M.Entry(data, name)];
    return None;
  }

  lemma LinkText(name: string)
    ensures Text(WLink(name)) == LINK + name
  {}

  // ----- The texts that the loops build up

  lemma {:induction false} JoinOneMore(parts: seq<string>, part: string, sep: string)
    ensures Join(parts + [part], sep) == if parts == [] then part else Join(parts, sep) + sep + part
    decreases |parts|
  {
    if parts == [] {
      assert parts + [part] == [part];
    } else {
      assert (parts + [part])[0] == parts[0] && (parts + [part])[1..] == parts[1..] + [part];
      JoinOneMore(parts[1..], part, sep);
      if |parts| > 1 {
        assert parts[0] + sep + (Join(parts[1..], sep) + sep + part) == parts[0] + sep + Join(parts[1..], sep) + sep + part;
      } else {
        assert Join(parts, sep) == parts[0];
      }
    }
  }

  /** Every part with the separator behind it */
  function Trailing(parts: seq<string>): string {
    if parts == [] then "" else Join(parts, ", ") + ", "
  }

  lemma TrailingOneMore(parts: seq<string>, part: string)
    ensures Trailing(parts + [part]) == Trailing(parts) + part + ", "
  {
    JoinOneMore(parts, part, ", ");
  }

  lemma LinksOneMore(names: seq<string>, name: string)
    ensures Links(names + [name]) == Links(names) + [LINK + name]
  {}

  lemma FieldsOneMore(keys: seq<string>, names: seq<string>, key: string, name: string)
    requires |keys| == |names|
    ensures Fields(keys + [key], names + [name]) == Fields(keys, names) + [Field(key, name)]
  {}

  // ----- The loop over the children

  ghost predicate Known(h: M.Heap, values: seq<M.Value>) {
    forall v :: v in values ==> M.Exists(h, v)
  }

  /** Some children have their names; what is left of the list goes on from the state s. */
  ghost predicate Along(h: M.Heap, call: nat, st1: M.State, all: seq<M.Value>, names: seq<string>, s: M.State, left: seq<M.Value>) {
    && M.WellFormed(h) && Known(h, all) && Known(h, left)
    && st1.refs <= s.refs
    && M.SerializeList(h, call, st1, all).state == M.SerializeList(h, call, s, left).state
    && M.SerializeList(h, call, st1, all).names == names + M.SerializeList(h, call, s, left).names
  }

  lemma AlongStart(h: M.Heap, call: nat, st1: M.State, all: seq<M.Value>)
    requires M.WellFormed(h) && Known(h, all)
    ensures Along(h, call, st1, all, [], st1, all)
  {
    hide M.SerializeList;
    assert [] + M.SerializeList(h, call, st1, all).names == M.SerializeList(h, call, st1, all).names;
  }

  lemma AlongNext(h: M.Heap, call: nat, st1: M.State, all: seq<M.Value>, names: seq<string>, s: M.State, left: seq<M.Value>)
    requires left != [] && Along(h, call, st1, all, names, s, left)
    ensures M.Exists(h, left[0]) && M.Unseen(h, s.refs) <= M.Unseen(h, st1.refs)
  {
    hide M.SerializeList, M.WellFormed;
    M.UnseenMono(h, st1.refs, s.refs);
  }

  lemma AlongStep(h: M.Heap, call: nat, st1: M.State, all: seq<M.Value>, names: seq<string>, s: M.State, left: seq<M.Value>, t: M.State)
    requires left != [] && Along(h, call, st1, all, names, s, left) && M.WellFormed(h) && M.Exists(h, left[0])
    requires t == M.SerializeAll(h, call, s.(count := s.count + 1), left[0], M.ElementName(call, s.count + 1))
    ensures Along(h, call, st1, all, names + [M.ElementName(call, s.count + 1)], t, left[1..])
  {
    hide M.SerializeAll, M.WellFormed;
    var name := M.ElementName(call, s.count + 1);
    var rest := M.SerializeList(h, call, t, left[1..]);
    assert M.SerializeList(h, call, s, left) == M.Listed(rest.state, [name] + rest.names);
    assert names + ([name] + rest.names) == names + [name] + rest.names;
  }

  lemma AlongEnd(h: M.Heap, call: nat, st: M.State, o: nat, name: string, names: seq<string>, s: M.State, left: seq<M.Value>)
    requires o in h && M.Lookup(st.refs, o).None? && left == []
    requires Along(h, call, st.(refs := st.refs + [M.Entry(o, name)]), M.Children(h[o]), names, s, left)
    ensures M.WellFormed(h) && |names| == |M.Children(h[o])|
    ensures Replies(h, call, st, o, name, s, Text(M.ToWire(h[o], name, names)))
  {
    hide Text, M.ToWire, M.WellFormed;
    assert M.SerializeList(h, call, s, left) == M.Listed(s, []);
    assert names + [] == names;
  }

  /** What a container function returns, and the state it leaves behind */
  ghost predicate Replies(h: M.Heap, call: nat, st: M.State, o: nat, name: string, t: M.State, reply: string)
    requires M.WellFormed(h) && o in h
  {
    match M.Lookup(st.refs, o)
    case Some(known) => t == st && reply == Text(WLink(known))
    case None =>
      var inner := M.SerializeList(h, call, st.(refs := st.refs + [M.Entry(o, name)]), M.Children(h[o]));
      t == inner.state && |inner.names| == |M.Children(h[o])| && reply == Text(M.ToWire(h[o], name, inner.names))
  }

  /** _serializeAll */
  method SerializeAll(h: M.Heap, batch: Batch, referto: RefTable, data: M.Value, name: string)
    requires M.WellFormed(h) && M.Exists(h, data)
    modifies batch`texts, batch`paramCount, referto
    ensures StateOf(batch, referto) == M.SerializeAll(h, batch.callCount, old(StateOf(batch, referto)), data, name)
    decreases M.Unseen(h, referto.entries), 2
  {
    match data
    case Nil => batch.texts := batch.texts[name := "null:null"];
    case Bool(b) =>
      assert "boolean:" + "true" == "boolean:true" && "boolean:" + "false" == "boolean:false";
      batch.texts := batch.texts[name := "boolean:" + (if b then "true" else "false")];
    case Number(text) => batch.texts := batch.texts[name := "number:" + text];
    case Str(s) => batch.texts := batch.texts[name := "string:" + UriComponent.Encode(s)];
    case Function =>
    case Ref(o) =>
      hide M.WellFormed, M.SerializeList, Text;
      var reply;
      if M.Taken(h[o]).AsArray? {
        reply := SerializeArray(h, batch, referto, o, name);
      } else {
        reply := SerializeObject(h, batch, referto, o, name);
      }
      batch.texts := batch.texts[name := reply];
  }

  /** The next element name, and the child under it */
  method NextChild(h: M.Heap, batch: Batch, referto: RefTable, v: M.Value) returns (childName: string)
    requires M.WellFormed(h) && M.Exists(h, v)
    modifies batch`texts, batch`paramCount, referto
    ensures childName == M.ElementName(batch.callCount, old(batch.paramCount) + 1)
    ensures var s := old(StateOf(batch, referto));
            StateOf(batch, referto) == M.SerializeAll(h, batch.callCount, s.(count := s.count + 1), v, childName)
    decreases M.Unseen(h, referto.entries), 3
  {
    hide M.SerializeAll, M.WellFormed, M.Unseen;
    batch.paramCount := batch.paramCount + 1;
    childName := "c" + Decimal(batch.callCount) + "-e" + Decimal(batch.paramCount);
    ChildNameIs(batch.callCount, batch.paramCount);
    SerializeAll(h, batch, referto, v, childName);
  }

  /** _serializeArray */
  method SerializeArray(h: M.Heap, batch: Batch, referto: RefTable, o: nat, name: string) returns (reply: string)
    requires M.WellFormed(h) && o in h && M.Taken(h[o]).AsArray?
    modifies batch`texts, batch`paramCount, referto
    ensures Replies(h, batch.callCount, old(StateOf(batch, referto)), o, name, StateOf(batch, referto), reply)
    decreases M.Unseen(h, referto.entries), 1
  {
    ghost var st := StateOf(batch, referto);
    var link := Lookup(referto, o, name);
    if link.Some? {
      return link.value;
    }
    M.UnseenLess(h, st.refs, M.Entry(o, name));
    reply := ArrayLoop(h, batch, referto, o, name, st);
  }

  method ArrayLoop(h: M.Heap, batch: Batch, referto: RefTable, o: nat, name: string, ghost st: M.State) returns (reply: string)
    requires M.WellFormed(h) && o in h && M.Taken(h[o]).AsArray? && M.Lookup(st.refs, o).None?
    requires StateOf(batch, referto) == st.(refs := st.refs + [M.Entry(o, name)])
    modifies batch`texts, batch`paramCount, referto
    ensures Replies(h, batch.callCount, st, o, name, StateOf(batch, referto), reply)
    decreases M.Unseen(h, referto.entries), 4
  {
    hide M.WellFormed, M.SerializeAll, M.SerializeList, Join, Along, Replies, M.Unseen, Links;
    ghost var st1, call := StateOf(batch, referto), batch.callCount;
    var data := M.Elements(h[o]);
    KnownChildren(h, o);
    AlongStart(h, call, st1, data);
    reply := "Array:[";
    ghost var names: seq<string> := [];
    assert data[0..] == data;
    assert Join(Links(names), ",") == "" by {
      NoLinks();
    }
    for i := 0 to |data|
      invariant |names| == i
      invariant Along(h, call, st1, data, names, StateOf(batch, referto), data[i..])
      invariant reply == "Array:[" + Join(Links(names), ",")
    {
      ghost var s := StateOf(batch, referto);
      assert data[i..][0] == data[i] && data[i..][1..] == data[i + 1..];
      AlongNext(h, call, st1, data, names, s, data[i..]);
      if i != 0 {
        reply := reply + ",";
      }
      var childName := NextChild(h, batch, referto, data[i]);
      reply := reply + LINK;
      reply := reply + childName;
      AlongStep(h, call, st1, data, names, s, data[i..], StateOf(batch, referto));
      LinksJoined(names, childName);
      names := names + [childName];
    }
    AlongEnd(h, call, st, o, name, names, StateOf(batch, referto), data[|data|..]);
    reply := reply + "]";
  }

  lemma KnownChildren(h: M.Heap, o: nat)
    requires M.WellFormed(h) && o in h
    ensures Known(h, M.Children(h[o]))
  {}

  lemma NoLinks()
    ensures Join(Links([]), ",") == ""
  {}

  lemma LinksJoined(names: seq<string>, name: string)
    ensures Join(Links(names + [name]), ",") == (if names == [] then "" else Join(Links(names), ",") + ",") + LINK + name
  {
    LinksOneMore(names, name);
    JoinOneMore(Links(names), LINK + name, ",");
    if names != [] {
      assert Links(names) != [];
      assert Join(Links(names), ",") + "," + (LINK + name) == Join(Links(names), ",") + "," + LINK + name;
    }
  }

  lemma ChildNameIs(call: nat, n: nat)
    ensures "c" + Decimal(call) + "-e" + Decimal(n) == M.ElementName(call, n)
  {
    assert "-e" == "-" + "e";
  }

  /** _serializeObject */
  method SerializeObject(h: M.Heap, batch: Batch, referto: RefTable, o: nat, name: string) returns (reply: string)
    requires M.WellFormed(h) && o in h && !M.Taken(h[o]).AsArray?
    modifies batch`texts, batch`paramCount, referto
    ensures Replies(h, batch.callCount, old(StateOf(batch, referto)), o, name, StateOf(batch, referto), reply)
    decreases M.Unseen(h, referto.entries), 1
  {
    ghost var st := StateOf(batch, referto);
    var link := Lookup(referto, o, name);
    if link.Some? {
      return link.value;
    }
    M.UnseenLess(h, st.refs, M.Entry(o, name));
    if M.Truthy(M.Find(h[o].members, "nodeName")) && M.Truthy(M.Find(h[o].members, "nodeType")) {
      M.LookupLast(st.refs, M.Entry(o, name));
      reply := SerializeXml(referto, o, name);
      hide M.WellFormed, Text, M.Unseen;
      XmlReplies(h, batch.callCount, st, o, name);
    } else {
      reply := ObjectLoop(h, batch, referto, o, name, st);
    }
  }

  /** _serializeXml, which finds the entry that its caller has made */
  method SerializeXml(referto: RefTable, o: nat, name: string) returns (reply: string)
    requires M.Lookup(referto.entries, o) == Some(name)
    modifies referto
    ensures referto.entries == old(referto.entries) && reply == Text(WLink(name))
  {
    var link := Lookup(referto, o, name);
    return link.value;
  }

  lemma XmlReplies(h: M.Heap, call: nat, st: M.State, o: nat, name: string)
    requires M.WellFormed(h) && o in h && M.Taken(h[o]).AsXml? && M.Lookup(st.refs, o).None?
    ensures Replies(h, call, st, o, name, st.(refs := st.refs + [M.Entry(o, name)]), Text(WLink(name)))
  {
    hide Text, M.WellFormed;
    assert M.Children(h[o]) == [];
  }

  method ObjectLoop(h: M.Heap, batch: Batch, referto: RefTable, o: nat, name: string, ghost st: M.State) returns (reply: string)
    requires M.WellFormed(h) && o in h && M.Taken(h[o]).AsObject? && M.Lookup(st.refs, o).None?
    requires StateOf(batch, referto) == st.(refs := st.refs + [M.Entry(o, name)])
    modifies batch`texts, batch`paramCount, referto
    ensures Replies(h, batch.callCount, st, o, name, StateOf(batch, referto), reply)
    decreases M.Unseen(h, referto.entries), 4
  {
    hide M.WellFormed, M.SerializeAll, M.SerializeList, Join, Along, Replies, M.Unseen, M.Kept, M.ValuesOf, M.KeysOf, Trailing, Fields, Field, UriComponent.Encode;
    ghost var st1, call := StateOf(batch, referto), batch.callCount;
    var data := h[o].members;
    ghost var all := M.Children(h[o]);
    KnownChildren(h, o);
    AlongStart(h, call, st1, all);
    var head := "Object_" + h[o].className + ":{";
    reply := head;
    ghost var names: seq<string> := [];
    ghost var keys: seq<string> := [];
    assert data[0..] == data;
    NoFields(head, M.KeysOf(M.Kept(data)));
    for i := 0 to |data|
      invariant |names| == |keys|
      invariant Along(h, call, st1, all, names, StateOf(batch, referto), M.ValuesOf(M.Kept(data[i..])))
      invariant M.KeysOf(M.Kept(data)) == keys + M.KeysOf(M.Kept(data[i..]))
      invariant reply == head + Trailing(Fields(keys, names))
    {
      ghost var s, left := StateOf(batch, referto), M.ValuesOf(M.Kept(data[i..]));
      KeptStep(data[i..]);
      assert data[i..][0] == data[i] && data[i..][1..] == data[i + 1..];
      if !data[i].value.Function? {
        AlongNext(h, call, st1, all, names, s, left);
        var childName := NextChild(h, batch, referto, data[i].value);
        reply := reply + (UriComponent.Encode(data[i].key) + ":reference:" + childName + ", ");
        AlongStep(h, call, st1, all, names, s, left, StateOf(batch, referto));
        FieldsTrailing(head, keys, names, data[i].key, childName);
        names := names + [childName];
        keys := keys + [data[i].key];
        assert keys + M.KeysOf(M.Kept(data[i + 1..]))
            == keys[..|keys| - 1] + ([data[i].key] + M.KeysOf(M.Kept(data[i + 1..])));
      }
    }
    KeptNothing(data[|data|..]);
    AlongEnd(h, call, st, o, name, names, StateOf(batch, referto), M.ValuesOf(M.Kept(data[|data|..])));
    assert keys + [] == keys;
    StripTrailing(head, Fields(keys, names));
    if |reply| >= 2 && reply[|reply| - 2..] == ", " {
      reply := reply[..|reply| - 2];
    }
    reply := reply + "}";
  }

  lemma NoFields(head: string, keys: seq<string>)
    ensures head + Trailing(Fields([], [])) == head && [] + keys == keys
  {}

  lemma KeptNothing(members: seq<M.Member>)
    requires members == []
    ensures M.ValuesOf(M.Kept(members)) == [] && M.KeysOf(M.Kept(members)) == []
  {}

  lemma FieldsTrailing(head: string, keys: seq<string>, names: seq<string>, key: string, name: string)
    requires |keys| == |names|
    ensures head + Trailing(Fields(keys + [key], names + [name]))
         == head + Trailing(Fields(keys, names)) + (UriComponent.Encode(key) + ":reference:" + name + ", ")
  {
    hide Trailing, UriComponent.Encode, Fields;
    FieldsOneMore(keys, names, key, name);
    TrailingOneMore(Fields(keys, names), Field(key, name));
    assert ":" + LINK == ":reference:";
    assert Field(key, name) == UriComponent.Encode(key) + ":reference:" + name;
  }

  lemma KeptStep(members: seq<M.Member>)
    requires members != []
    ensures var kept, tail := M.Kept(members), M.Kept(members[1..]);
            if members[0].value.Function? then kept == tail
            else M.ValuesOf(kept) == [members[0].value] + M.ValuesOf(tail) && M.ValuesOf(kept)[1..] == M.ValuesOf(tail)
                 && M.KeysOf(kept) == [members[0].key] + M.KeysOf(tail)
  {}

  /** Cutting off a trailing separator leaves the joined parts; the head alone has none. */
  lemma StripTrailing(head: string, parts: seq<string>)
    requires head != "" && head[|head| - 1] == '{'
    ensures var reply := head + Trailing(parts);
            (if |reply| >= 2 && reply[|reply| - 2..] == ", " then reply[..|reply| - 2] else reply) == head + Join(parts, ", ")
  {
    var reply := head + Trailing(parts);
    if parts == [] {
      assert reply == head;
      if |reply| >= 2 {
        assert reply[|reply| - 2..][1] == '{';
      }
    } else {
      var joined := Join(parts, ", ");
      assert reply == head + joined + ", ";
      assert reply[|reply| - 2..] == ", " && reply[..|reply| - 2] == head + joined;
    }
  }

  // ----- One call

  function MapOf(batch: Batch): C.BatchMap
    reads batch
  {
    C.BatchMap(batch.texts, batch.paramCount, batch.callCount)
  }

  /** _execute, as far as the map goes: the head of the call, then every argument with a table of
      its own, then the count of calls. */
  method Execute(batch: Batch, c: C.Call)
    requires C.Marshallable(c)
    modifies batch
    ensures MapOf(batch) == C.AddCall(old(MapOf(batch)), c)
  {
    hide M.WellFormed, M.SerializeAll, M.Prefix, Decimal;
    var prefix := "c" + Decimal(batch.callCount) + "-";
    PrefixIs(batch.callCount);
    ghost var b := MapOf(batch);
    batch.texts := batch.texts[prefix + "scriptName" := c.scriptName];
    batch.texts := batch.texts[prefix + "methodName" := c.methodName];
    batch.texts := batch.texts[prefix + "id" := Decimal(batch.callCount)];
    for i := 0 to |c.args|
      invariant batch.callCount == b.callCount
      invariant C.SerializeArgs(c.heap, b.callCount, C.WithHead(b, c), b.count, c.args, 0)
             == C.SerializeArgs(c.heap, b.callCount, batch.texts, batch.paramCount, c.args, i)
    {
      assert c.args[i] in c.args;
      var referto := new RefTable();
      SerializeAll(c.heap, batch, referto, c.args[i], prefix + "param" + Decimal(i));
    }
    batch.callCount := batch.callCount + 1;
  }

  lemma PrefixIs(call: nat)
    ensures "c" + Decimal(call) + "-" == M.Prefix(call)
  {}
}
