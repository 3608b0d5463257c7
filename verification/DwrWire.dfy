/** The text the marshaller writes for one value, and a reader for it. */
module DwrWire {
  import opened Options
  import opened TextLists
  import UriComponent

  /** One entry of the flat map: a plain value, a link to another entry, or a container whose
      members are links. */
  datatype Wire =
    | WNull
    | WBool(b: bool)
    | WNumber(text: string)
    | WString(s: string)
    | WLink(name: string)
    | WArray(names: seq<string>)
    | WObject(className: string, keys: seq<string>, names: seq<string>)

  const LINK := "reference:"

  function Links(names: seq<string>): (parts: seq<string>)
    ensures |parts| == |names|
  {
    seq(|names|, i requires 0 <= i < |names| => LINK + names[i])
  }

  function Field(key: string, name: string): string {
    UriComponent.Encode(key) + ":" + LINK + name
  }

  function Fields(keys: seq<string>, names: seq<string>): (parts: seq<string>)
    requires |keys| == |names|
    ensures |parts| == |names|
  {
    seq(|names|, i requires 0 <= i < |names| => Field(keys[i], names[i]))
  }

  predicate WellShaped(w: Wire) {
    w.WObject? ==> |w.keys| == |w.names|
  }

  function Text(w: Wire): string
    requires WellShaped(w)
  {
    match w
    case WNull => "null:null"
    case WBool(b) => if b then "boolean:true" else "boolean:false"
    case WNumber(text) => "number:" + text
    case WString(s) => "string:" + UriComponent.Encode(s)
    case WLink(name) => LINK + name
    case WArray(names) => "Array:[" + Join(Links(names), ",") + "]"
    case WObject(className, keys, names) => "Object_" + className + ":{" + Join(Fields(keys, names), ", ") + "}"
  }

  // ----- Reading

  /** What stands before and after the first colon. */
  function AtColon(t: string): Option<(string, string)> {
    if t == "" then None
    else if t[0] == ':' then Some(("", t[1..]))
    else
      match AtColon(t[1..])
      case None => None
      case Some((a, b)) => Some(([t[0]] + a, b))
  }

  function ReadLink(t: string): Option<string> {
    if LINK <= t then Some(t[|LINK|..]) else None
  }

  function ReadLinks(parts: seq<string>): Option<seq<string>> {
    if parts == [] then Some([])
    else
      match (ReadLink(parts[0]), ReadLinks(parts[1..]))
      case (Some(name), Some(names)) => Some([name] + names)
      case _ => None
  }

  datatype Read2 = Read2(keys: seq<string>, names: seq<string>)

  function ReadField(t: string): Option<(string, string)> {
    match AtColon(if t != "" && t[0] == ' ' then t[1..] else t)
    case None => None
    case Some((k, link)) =>
      match (UriComponent.Decode(k), ReadLink(link))
      case (Some(key), Some(name)) => Some((key, name))
      case _ => None
  }

  function ReadFields(parts: seq<string>): Option<Read2> {
    if parts == [] then Some(Read2([], []))
    else
      match (ReadField(parts[0]), ReadFields(parts[1..]))
      case (Some((key, name)), Some(rest)) => Some(Read2([key] + rest.keys, [name] + rest.names))
      case _ => None
  }

  function Unwrap(t: string, open: char, close: char): Option<string> {
    if |t| >= 2 && t[0] == open && t[|t| - 1] == close then Some(t[1..|t| - 1]) else None
  }

  function Pieces(inner: string): seq<string> {
    if inner == "" then [] else Split(inner, ',')
  }

  function ReadArray(rest: string): Option<Wire> {
    match Unwrap(rest, '[', ']')
    case None => None
    case Some(inner) =>
      match ReadLinks(Pieces(inner))
      case Some(names) => Some(WArray(names))
      case None => None
  }

  function ReadObject(className: string, rest: string): Option<Wire> {
    match Unwrap(rest, '{', '}')
    case None => None
    case Some(inner) =>
      match ReadFields(Pieces(inner))
      case Some(r) => Some(WObject(className, r.keys, r.names))
      case None => None
  }

  function ReadTagged(tag: string, rest: string): Option<Wire> {
    if "Object_" <= tag then ReadObject(tag[|"Object_"|..], rest)
    else if tag == "Array" then ReadArray(rest)
    else if tag == "null" then Some(WNull)
    else if tag == "boolean" then Some(WBool(rest == "true"))
    else if tag == "number" then Some(WNumber(rest))
    else if tag == "reference" then Some(WLink(rest))
    else if tag == "string" then
      (match UriComponent.Decode(rest)
       case Some(s) => Some(WString(s))
       case None => None)
    else None
  }

  function Read(t: string): Option<Wire> {
    match AtColon(t)
    case None => None
    case Some((tag, rest)) => ReadTagged(tag, rest)
  }

  // ----- The reader undoes the writer

  /** Names and class names are made of letters, digits, '_' and '-', so none of the marks that
      hold a text together occurs in them. */
  predicate PlainName(s: string) {
    forall i :: 0 <= i < |s| ==> s[i] != ',' && s[i] != ':'
  }

  predicate Plain(w: Wire) {
    && WellShaped(w)
    && (w.WArray? || w.WObject? ==> forall i :: 0 <= i < |w.names| ==> PlainName(w.names[i]))
    && (w.WObject? ==> PlainName(w.className))
  }

  lemma {:induction false} ColonAfter(a: string, b: string)
    requires Lacks(a, ':')
    ensures AtColon(a + ":" + b) == Some((a, b))
  {
    var t := a + ":" + b;
    if a == "" {
      assert t[1..] == b;
    } else {
      assert t[1..] == a[1..] + ":" + b;
      ColonAfter(a[1..], b);
      assert [a[0]] + a[1..] == a;
    }
  }

  lemma {:induction false} LinksRead(names: seq<string>)
    ensures ReadLinks(Links(names)) == Some(names)
  {
    if names != [] {
      assert Links(names)[1..] == Links(names[1..]);
      LinksRead(names[1..]);
      assert (LINK + names[0])[|LINK|..] == names[0];
      assert [names[0]] + names[1..] == names;
    }
  }

  lemma FieldPlain(key: string, name: string)
    requires PlainName(name)
    ensures Field(key, name) != "" && Lacks(Field(key, name), ',')
    ensures Field(key, name)[0] != ' '
    ensures ReadField(Field(key, name)) == Some((key, name))
    ensures ReadField(" " + Field(key, name)) == Some((key, name))
  {
    var k := UriComponent.Encode(key);
    var t := Field(key, name);
    UriComponent.EncodeSafe(key);
    UriComponent.DecodeEncode(key);
    hide UriComponent.Encode, UriComponent.Decode, AtColon;
    var link := LINK + name;
    assert t == k + ":" + link;
    ColonAfter(k, link);
    assert link[|LINK|..] == name;
    assert (" " + t)[1..] == t;
    assert t[0] == if k == "" then ':' else k[0];
  }

  /** The pieces between the commas: every one but the first starts with the blank. */
  function Spaced(parts: seq<string>): (r: seq<string>)
    ensures |r| == |parts|
  {
    seq(|parts|, i requires 0 <= i < |parts| => if i == 0 then parts[i] else " " + parts[i])
  }

  lemma {:induction false} JoinSpaced(parts: seq<string>)
    ensures Join(parts, ", ") == Join(Spaced(parts), ",")
    decreases |parts|
  {
    if |parts| > 1 {
      JoinSpaced(parts[1..]);
      SpacedTail(parts);
      var s := Spaced(parts)[1..];
      FrontBlank(s, Spaced(parts[1..]));
      assert parts[0] + ", " + Join(parts[1..], ", ") == parts[0] + "," + (" " + Join(Spaced(parts[1..]), ","));
    }
  }

  lemma SpacedTail(parts: seq<string>)
    requires |parts| > 1
    ensures Spaced(parts)[1..] == [" " + parts[1]] + Spaced(parts[1..])[1..]
    ensures Spaced(parts[1..])[0] == parts[1]
  {}

  lemma FrontBlank(a: seq<string>, b: seq<string>)
    requires b != [] && a == [" " + b[0]] + b[1..]
    ensures Join(a, ",") == " " + Join(b, ",")
  {
    assert a[1..] == b[1..];
    if |b| > 1 {
      assert " " + b[0] + "," + Join(b[1..], ",") == " " + (b[0] + "," + Join(b[1..], ","));
    }
  }

  /** The same from the second piece on */
  function Blanked(parts: seq<string>): (r: seq<string>)
    ensures |r| == |parts|
  {
    seq(|parts|, i requires 0 <= i < |parts| => " " + parts[i])
  }

  lemma BlankedTail(parts: seq<string>)
    requires parts != []
    ensures Blanked(parts)[0] == " " + parts[0] && Blanked(parts)[1..] == Blanked(parts[1..])
    ensures Spaced(parts)[0] == parts[0] && Spaced(parts)[1..] == Blanked(parts[1..])
  {}

  lemma FieldsTail(keys: seq<string>, names: seq<string>)
    requires |keys| == |names| && names != []
    ensures Fields(keys, names) != [] && Fields(keys, names)[0] == Field(keys[0], names[0])
    ensures Fields(keys, names)[1..] == Fields(keys[1..], names[1..])
  {}

  lemma {:induction false} FieldsRead(keys: seq<string>, names: seq<string>, first: bool)
    requires |keys| == |names| && forall i :: 0 <= i < |names| ==> PlainName(names[i])
    ensures var parts := Fields(keys, names);
            ReadFields(if first then Spaced(parts) else Blanked(parts)) == Some(Read2(keys, names))
    decreases |names|
  {
    hide Fields, Field, Spaced, Blanked, ReadField, PlainName;
    if names != [] {
      FieldsTail(keys, names);
      BlankedTail(Fields(keys, names));
      FieldPlain(keys[0], names[0]);
      FieldsRead(keys[1..], names[1..], false);
      assert [keys[0]] + keys[1..] == keys && [names[0]] + names[1..] == names;
    }
  }

  lemma ReadIs(tag: string, rest: string)
    requires Lacks(tag, ':')
    ensures Read(tag + ":" + rest) == ReadTagged(tag, rest)
  {
    ColonAfter(tag, rest);
  }

  lemma NotAnObject(tag: string)
    requires tag != "" && tag[0] != 'O'
    ensures !("Object_" <= tag)
  {
    assert "Object_"[0] == 'O';
  }

  lemma Unwrapped(inner: string, open: char, close: char)
    ensures Unwrap([open] + inner + [close], open, close) == Some(inner)
  {
    var t := [open] + inner + [close];
    assert t[1..|t| - 1] == inner;
  }

  lemma LinksPlain(names: seq<string>)
    requires forall i :: 0 <= i < |names| ==> PlainName(names[i])
    ensures forall i :: 0 <= i < |names| ==> Links(names)[i] != "" && Lacks(Links(names)[i], ',')
  {
    forall i | 0 <= i < |names|
      ensures Links(names)[i] != "" && Lacks(Links(names)[i], ',')
    {
      assert Links(names)[i] == LINK + names[i] && PlainName(names[i]);
    }
  }

  lemma ArrayText(names: seq<string>)
    ensures Text(WArray(names)) == "Array" + ":" + ("[" + Join(Links(names), ",") + "]")
  {
    hide Join, Links;
    assert "Array:[" == "Array" + ":" + "[";
  }

  lemma ArrayRead(names: seq<string>)
    requires forall i :: 0 <= i < |names| ==> PlainName(names[i])
    ensures Read(Text(WArray(names))) == Some(WArray(names))
  {
    hide Join, Links, Split, ReadLinks, Read, AtColon, Pieces, Unwrap, ReadObject, UriComponent.Decode, Text, PlainName;
    var inner := Join(Links(names), ",");
    var rest := "[" + inner + "]";
    ArrayText(names);
    ReadIs("Array", rest);
    NotAnObject("Array");
    Unwrapped(inner, '[', ']');
    LinksRead(names);
    LinksPlain(names);
    PiecesOf(Links(names));
  }

  /** Between the brackets stand the parts, none of which is empty or holds a comma. */
  lemma PiecesOf(parts: seq<string>)
    requires forall i :: 0 <= i < |parts| ==> parts[i] != "" && Lacks(parts[i], ',')
    ensures Pieces(Join(parts, ",")) == parts
  {
    hide Split;
    if parts != [] {
      SplitJoinedPlain(parts, ',');
      JoinNonempty(parts, ",");
    }
  }

  lemma JoinNonempty(parts: seq<string>, sep: string)
    requires parts != [] && parts[0] != ""
    ensures Join(parts, sep) != ""
  {}

  lemma ObjectRead(className: string, keys: seq<string>, names: seq<string>)
    requires Plain(WObject(className, keys, names))
    ensures Read(Text(WObject(className, keys, names))) == Some(WObject(className, keys, names))
  {
    hide Join, Split, ReadFields, Read, AtColon, Field, Pieces, Unwrap;
    var fields := Fields(keys, names);
    var inner := Join(fields, ", ");
    var rest := "{" + inner + "}";
    var tag := "Object_" + className;
    ReadIs(tag, rest);
    assert Text(WObject(className, keys, names)) == tag + ":" + rest;
    assert tag[|"Object_"|..] == className;
    Unwrapped(inner, '{', '}');
    FieldsRead(keys, names, true);
    JoinSpaced(fields);
    forall i | 0 <= i < |fields|
      ensures Lacks(Spaced(fields)[i], ',') && Spaced(fields)[i] != ""
    {
      FieldPlain(keys[i], names[i]);
    }
    PiecesOf(Spaced(fields));
  }

  lemma StringRead(s: string)
    ensures Read(Text(WString(s))) == Some(WString(s))
  {
    hide AtColon, UriComponent.Encode, UriComponent.Decode, Read;
    UriComponent.DecodeEncode(s);
    ReadIs("string", UriComponent.Encode(s));
    NotAnObject("string");
    assert "string"[0] != "number"[0];
    assert Text(WString(s)) == "string" + ":" + UriComponent.Encode(s);
  }

  lemma LinkRead(name: string)
    ensures Read(Text(WLink(name))) == Some(WLink(name))
  {
    hide AtColon, Read;
    ReadIs("reference", name);
    NotAnObject("reference");
    assert Text(WLink(name)) == "reference" + ":" + name;
  }

  lemma ScalarRead(w: Wire)
    requires w.WNull? || w.WBool? || w.WNumber?
    ensures Read(Text(w)) == Some(w)
  {
    hide AtColon, Read;
    match w
    case WNull =>
      ReadIs("null", "null");
      NotAnObject("null");
      assert Text(w) == "null" + ":" + "null";
    case WBool(b) =>
      var v := if b then "true" else "false";
      ReadIs("boolean", v);
      NotAnObject("boolean");
      assert Text(w) == "boolean" + ":" + v;
      assert |"true"| != |"false"|;
    case WNumber(text) =>
      ReadIs("number", text);
      NotAnObject("number");
      assert Text(w) == "number" + ":" + text;
  }

  /** What was written for a value is read as that value. */
  lemma ReadText(w: Wire)
    requires Plain(w)
    ensures Read(Text(w)) == Some(w)
  {
    hide Read, Text;
    match w
    case WNull => ScalarRead(w);
    case WBool(_) => ScalarRead(w);
    case WNumber(_) => ScalarRead(w);
    case WString(s) => StringRead(s);
    case WLink(name) => LinkRead(name);
    case WArray(names) => ArrayRead(names);
    case WObject(c, k, n) => ObjectRead(c, k, n);
  }

  // ----- The texts themselves

  /** What the server is sent for a value of each kind */
  lemma TextsAre(b: bool, s: string, className: string)
    ensures Text(WNull) == "null:null"
    ensures Text(WBool(true)) == "boolean:true" && Text(WBool(false)) == "boolean:false"
    ensures Text(WNumber(s)) == "number:" + s && Text(WString(s)) == "string:" + UriComponent.Encode(s)
    ensures Text(WLink(s)) == "reference:" + s
    ensures Text(WArray([])) == "Array:[]" && Text(WObject(className, [], [])) == "Object_" + className + ":{}"
  {
    assert Links([]) == [] && Fields([], []) == [];
    assert "Object_" + className + ":{" + "" + "}" == "Object_" + className + ":{}";
  }

  lemma JoinTwo(a: string, b: string, sep: string)
    ensures Join([a, b], sep) == a + sep + b
  {
    assert [a, b][1..] == [b];
  }

  lemma ArrayOfTwo(a: string, b: string)
    ensures Text(WArray([a, b])) == "Array:[reference:" + a + ",reference:" + b + "]"
  {
    var x, y := "reference:" + a, "reference:" + b;
    assert Links([a, b]) == [x, y];
    JoinTwo(x, y, ",");
    hide Join, Links;
    assert "Array:[" + (x + "," + y) + "]" == "Array:[reference:" + a + ",reference:" + b + "]";
  }

  lemma ObjectOfTwo(a: string, b: string, k: string, l: string, className: string)
    ensures Text(WObject(className, [k, l], [a, b]))
         == "Object_" + className + ":{" + UriComponent.Encode(k) + ":reference:" + a + ", " + UriComponent.Encode(l) + ":reference:" + b + "}"
  {
    hide UriComponent.Encode;
    var x, y := UriComponent.Encode(k) + ":" + "reference:" + a, UriComponent.Encode(l) + ":" + "reference:" + b;
    assert Fields([k, l], [a, b]) == [x, y];
    JoinTwo(x, y, ", ");
    hide Join, Fields;
    assert x == UriComponent.Encode(k) + ":reference:" + a && y == UriComponent.Encode(l) + ":reference:" + b;
    assert "Object_" + className + ":{" + (x + ", " + y) + "}" == "Object_" + className + ":{" + x + ", " + y + "}";
  }
}
