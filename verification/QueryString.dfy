/** Forms to hashes, hashes to query strings, and query strings back to hashes. */
module QueryString {
  import opened Options
  import opened TextLists
  import UriComponent

  /** A value in a hash: one, possibly undefined (None), or an array of them. */
  datatype Entry = One(value: Option<string>) | Many(values: seq<Option<string>>)

  /** A hash by its keys. The order in which its keys are visited is given where it matters. */
  type Hash = map<string, Entry>

  // ----- Printing

  function ToQueryPair(key: string, value: Option<string>): string {
    match value
    case None => key
    case Some(v) => key + "=" + UriComponent.Encode(v)
  }

  function Pairs(key: string, values: seq<Option<string>>): (ps: seq<string>)
    ensures |ps| == |values|
  {
    seq(|values|, i requires 0 <= i < |values| => ToQueryPair(key, values[i]))
  }

  function Part(key: string, entry: Entry): string {
    var k := UriComponent.Encode(key);
    match entry
    case One(value) => ToQueryPair(k, value)
    case Many(values) => Join(Pairs(k, values), "&")
  }

  /** The keys, each once, in some order */
  ghost predicate Enumerates(order: seq<string>, hash: Hash) {
    && (forall i :: 0 <= i < |order| ==> order[i] in hash)
    && (forall k :: k in hash ==> k in order)
    && (forall i, j :: 0 <= i < j < |order| ==> order[i] != order[j])
  }

  function Parts(hash: Hash, order: seq<string>): (ps: seq<string>)
    requires forall i :: 0 <= i < |order| ==> order[i] in hash
    ensures |ps| == |order|
  {
    seq(|order|, i requires 0 <= i < |order| => Part(order[i], hash[order[i]]))
  }

  function ToQueryString(hash: Hash, order: seq<string>): string
    requires forall i :: 0 <= i < |order| ==> order[i] in hash
  {
    Join(Parts(hash, order), "&")
  }

  // ----- Reading

  /** The white space of regular expressions */
  predicate IsSpace(c: char) {
    var n := c as int;
    9 <= n <= 13 || n == 32 || n == 0xa0 || n == 0x1680 || 0x2000 <= n <= 0x200a
    || n == 0x2028 || n == 0x2029 || n == 0x202f || n == 0x205f || n == 0x3000 || n == 0xfeff
  }

  predicate IsLineEnd(c: char) {
    c == '\n' || c == '\r' || c as int == 0x2028 || c as int == 0x2029
  }

  function StripFront(s: string): string {
    if s != "" && IsSpace(s[0]) then StripFront(s[1..]) else s
  }

  function StripBack(s: string): string {
    if s != "" && IsSpace(s[|s| - 1]) then StripBack(s[..|s| - 1]) else s
  }

  function Strip(s: string): string {
    StripBack(StripFront(s))
  }

  /** How far the text goes without ? or # */
  function PlainLength(s: string): (n: nat)
    ensures n <= |s|
    ensures n < |s| ==> s[n] == '?' || s[n] == '#'
  {
    if s == "" || s[0] == '?' || s[0] == '#' then 0 else 1 + PlainLength(s[1..])
  }

  /** The first group of the leftmost match of ([^?#]*)(#.*)?$ */
  function QueryPart(s: string): string
    decreases |s|
  {
    var n := PlainLength(s);
    if n == |s| then s
    else if s[n] == '#' && (forall i :: n < i < |s| ==> !IsLineEnd(s[i])) then s[..n]
    else QueryPart(s[1..])
  }

  function Put(hash: Hash, key: string, value: Option<string>): Hash {
    if key !in hash then hash[key := One(value)]
    else
      match hash[key]
      case One(first) => hash[key := Many([first, value])]
      case Many(values) => hash[key := Many(values + [value])]
  }

  /** One pair of the query; None where decodeURIComponent throws. */
  function AddPair(hash: Hash, pair: string): Option<Hash> {
    var p := Split(pair, '=');
    if p[0] == "" then Some(hash)
    else
      match UriComponent.Decode(p[0])
      case None => None
      case Some(key) =>
        if |p| == 1 then Some(Put(hash, key, None))
        else
          match UriComponent.Decode(if |p| > 2 then Join(p[1..], "=") else p[1])
          case None => None
          case Some(value) => Some(Put(hash, key, Some(value)))
  }

  function AddPairs(hash: Hash, pairs: seq<string>): Option<Hash>
    decreases |pairs|
  {
    if pairs == [] then Some(hash)
    else
      match AddPair(hash, pairs[0])
      case None => None
      case Some(more) => AddPairs(more, pairs[1..])
  }

  function ParamsOf(s: string): Option<Hash> {
    AddPairs(map[], Split(QueryPart(Strip(s)), '&'))
  }

  /** toQueryParams, filling its result in place. */
  method ToQueryParams(s: string) returns (r: Option<Hash>)
    ensures r == ParamsOf(s)
  {
    var pairs := Split(QueryPart(Strip(s)), '&');
    var hash: Hash := map[];
    for i := 0 to |pairs|
      invariant AddPairs(map[], pairs) == AddPairs(hash, pairs[i..])
    {
      assert pairs[i..][1..] == pairs[i + 1..];
      var next := AddPair(hash, pairs[i]);
      if next == None {
        return None;
      }
      hash := next.value;
    }
    return Some(hash);
  }

  // ----- What reading makes of what was printed

  /** The form a list of values takes once it has been read back. */
  function EntryOf(values: seq<Option<string>>): Entry
    requires values != []
  {
    if |values| == 1 then One(values[0]) else Many(values)
  }

  function ValuesOf(entry: Entry): seq<Option<string>> {
    match entry
    case One(value) => [value]
    case Many(values) => values
  }

  predicate Survives(hash: Hash, key: string) {
    key in hash && key != "" && ValuesOf(hash[key]) != []
  }

  /** Empty keys and empty arrays are lost, and an array of one value becomes that value. */
  function Normal(hash: Hash): Hash {
    map k | k in hash && Survives(hash, k) :: EntryOf(ValuesOf(hash[k]))
  }

  predicate Printed(c: char) {
    UriComponent.Unescaped(c) || c == '%' || c == '=' || c == '&'
  }

  lemma EncodedPrints(s: string)
    ensures Within(UriComponent.Encode(s), Printed)
    ensures Lacks(UriComponent.Encode(s), '&') && Lacks(UriComponent.Encode(s), '=')
    ensures UriComponent.Encode(s) == "" <==> s == ""
  {
    UriComponent.EncodeSafe(s);
  }

  lemma PairPrints(key: string, value: Option<string>)
    ensures var pair := ToQueryPair(UriComponent.Encode(key), value);
            Within(pair, Printed) && Lacks(pair, '&')
  {
    EncodedPrints(key);
    if value.Some? {
      EncodedPrints(value.value);
    }
  }

  lemma PartPrints(key: string, entry: Entry)
    ensures Within(Part(key, entry), Printed)
    ensures Split(Part(key, entry), '&')
         == if ValuesOf(entry) == [] then [""] else Pairs(UriComponent.Encode(key), ValuesOf(entry))
  {
    var k := UriComponent.Encode(key);
    var values := ValuesOf(entry);
    var pairs := Pairs(k, values);
    forall i | 0 <= i < |pairs|
      ensures Within(pairs[i], Printed) && Lacks(pairs[i], '&')
    {
      PairPrints(key, values[i]);
    }
    JoinWithin(pairs, "&", Printed);
    if entry.One? {
      PairPrints(key, entry.value);
      SplitPlain(Part(key, entry), '&');
      assert pairs == [ToQueryPair(k, entry.value)];
    } else if values != [] {
      SplitJoinedPlain(pairs, '&');
    }
  }

  /** One printed pair is read as its key and value. */
  lemma PairIsRead(hash: Hash, key: string, value: Option<string>)
    ensures AddPair(hash, ToQueryPair(UriComponent.Encode(key), value))
         == Some(if key == "" then hash else Put(hash, key, value))
  {
    var k := UriComponent.Encode(key);
    EncodedPrints(key);
    UriComponent.DecodeEncode(key);
    SplitPlain(k, '=');
    if value.Some? {
      var v := UriComponent.Encode(value.value);
      EncodedPrints(value.value);
      UriComponent.DecodeEncode(value.value);
      SplitPlain(v, '=');
      SplitAcross(k, v, '=');
      assert k + ['='] + v == k + "=" + v;
      assert [k] + [v] == [k, v];
    }
  }

  lemma {:induction false} AddPairsAppend(hash: Hash, a: seq<string>, b: seq<string>)
    ensures AddPairs(hash, a + b) == match AddPairs(hash, a)
                                     case None => None
                                     case Some(more) => AddPairs(more, b)
    decreases |a|
  {
    if a == [] {
      assert a + b == b;
    } else {
      assert (a + b)[0] == a[0] && (a + b)[1..] == a[1..] + b;
      if AddPair(hash, a[0]).Some? {
        AddPairsAppend(AddPair(hash, a[0]).value, a[1..], b);
      }
    }
  }

  lemma PutExtends(hash: Hash, key: string, seen: seq<Option<string>>, value: Option<string>)
    requires seen != [] && key in hash && hash[key] == EntryOf(seen)
    ensures Put(hash, key, value) == hash[key := EntryOf(seen + [value])]
  {
    if |seen| == 1 {
      assert seen + [value] == [seen[0], value];
    }
  }

  lemma AddPairsFirst(hash: Hash, key: string, values: seq<Option<string>>)
    requires values != [] && key != ""
    ensures AddPairs(hash, Pairs(UriComponent.Encode(key), values))
         == AddPairs(Put(hash, key, values[0]), Pairs(UriComponent.Encode(key), values[1..]))
  {
    hide AddPair, Put, ToQueryPair;
    PairIsRead(hash, key, values[0]);
    assert Pairs(UriComponent.Encode(key), values)[1..] == Pairs(UriComponent.Encode(key), values[1..]);
  }

  lemma Overwrite(hash: Hash, key: string, a: Entry, b: Entry)
    ensures hash[key := a][key := b] == hash[key := b]
  {}

  /** Repeated pairs of one key collect in order. */
  lemma {:induction false} RepeatedKey(hash: Hash, key: string, seen: seq<Option<string>>, values: seq<Option<string>>)
    requires key != "" && seen != [] && key in hash && hash[key] == EntryOf(seen)
    ensures AddPairs(hash, Pairs(UriComponent.Encode(key), values)) == Some(hash[key := EntryOf(seen + values)])
    decreases |values|
  {
    hide *;
    if values == [] {
      RepeatedNothing(hash, key, seen, values);
    } else {
      var one := seen + [values[0]];
      AddPairsFirst(hash, key, values);
      PutExtends(hash, key, seen, values[0]);
      RepeatedKey(hash[key := EntryOf(one)], key, one, values[1..]);
      assert one + values[1..] == seen + values;
      Overwrite(hash, key, EntryOf(one), EntryOf(seen + values));
    }
  }

  lemma RepeatedNothing(hash: Hash, key: string, seen: seq<Option<string>>, values: seq<Option<string>>)
    requires seen != [] && key in hash && hash[key] == EntryOf(seen) && values == []
    ensures AddPairs(hash, Pairs(UriComponent.Encode(key), values)) == Some(hash[key := EntryOf(seen + values)])
  {
    assert seen + values == seen;
    assert hash[key := hash[key]] == hash;
  }

  lemma {:induction false} EmptyKey(hash: Hash, values: seq<Option<string>>)
    ensures AddPairs(hash, Pairs(UriComponent.Encode(""), values)) == Some(hash)
    decreases |values|
  {
    if values != [] {
      PairIsRead(hash, "", values[0]);
      assert Pairs(UriComponent.Encode(""), values)[1..] == Pairs(UriComponent.Encode(""), values[1..]);
      EmptyKey(hash, values[1..]);
    }
  }

  /** Reading one printed part adds its key in normal form. */
  lemma PartIsRead(hash: Hash, key: string, entry: Entry)
    requires key !in hash
    ensures AddPairs(hash, Split(Part(key, entry), '&'))
         == Some(if key == "" || ValuesOf(entry) == [] then hash else hash[key := EntryOf(ValuesOf(entry))])
  {
    hide AddPairs, Pairs, Part, UriComponent.Encode, Split;
    PartPrints(key, entry);
    var values := ValuesOf(entry);
    if values == [] {
      EmptyPieceIsSkipped(hash);
    } else if key == "" {
      EmptyKey(hash, values);
    } else {
      AddPairsFirst(hash, key, values);
      RepeatedKey(hash[key := One(values[0])], key, [values[0]], values[1..]);
      assert [values[0]] + values[1..] == values;
      Overwrite(hash, key, One(values[0]), EntryOf(values));
    }
  }

  lemma EmptyPieceIsSkipped(hash: Hash)
    ensures AddPairs(hash, [""]) == Some(hash)
  {
    assert Split("", '=') == [""];
    var none: seq<string> := [""][1..];
    assert none == [] && AddPairs(hash, none) == Some(hash);
  }

  /** The part of the normal form that the given keys make up. */
  function NormalOn(hash: Hash, keys: seq<string>): Hash {
    map k | k in hash && k in keys && Survives(hash, k) :: EntryOf(ValuesOf(hash[k]))
  }

  lemma {:induction false} PartsAreRead(hash: Hash, order: seq<string>, soFar: Hash)
    requires forall i :: 0 <= i < |order| ==> order[i] in hash && order[i] !in soFar
    requires forall i, j :: 0 <= i < j < |order| ==> order[i] != order[j]
    ensures AddPairs(soFar, SplitEach(Parts(hash, order), '&')) == Some(soFar + NormalOn(hash, order))
    decreases |order|
  {
    var parts := Parts(hash, order);
    if order == [] {
      assert soFar + NormalOn(hash, order) == soFar;
    } else {
      hide AddPairs, Part, EntryOf, Survives, NormalOn;
      var key, rest := order[0], order[1..];
      assert order == [key] + rest && parts[1..] == Parts(hash, rest);
      PartIsRead(soFar, key, hash[key]);
      AddPairsAppend(soFar, Split(parts[0], '&'), SplitEach(parts[1..], '&'));
      var more := if Survives(hash, key) then soFar[key := EntryOf(ValuesOf(hash[key]))] else soFar;
      SurvivesMeans(hash, key);
      PartsAreRead(hash, rest, more);
      NormalOnCons(hash, key, rest, soFar, more);
    }
  }

  lemma SurvivesMeans(hash: Hash, key: string)
    requires key in hash
    ensures Survives(hash, key) <==> !(key == "" || ValuesOf(hash[key]) == [])
  {}

  lemma NormalOnCons(hash: Hash, key: string, rest: seq<string>, soFar: Hash, more: Hash)
    requires key in hash && key !in rest && key !in soFar
    requires more == if Survives(hash, key) then soFar[key := EntryOf(ValuesOf(hash[key]))] else soFar
    ensures more + NormalOn(hash, rest) == soFar + NormalOn(hash, [key] + rest)
  {}

  lemma {:induction false} PlainToTheEnd(s: string)
    requires Within(s, Printed)
    ensures PlainLength(s) == |s|
  {}

  lemma PrintedIsKept(s: string)
    requires Within(s, Printed)
    ensures QueryPart(Strip(s)) == s
  {
    PlainToTheEnd(s);
    if s != "" {
      assert Printed(s[0]) && Printed(s[|s| - 1]);
    }
  }

  /** Main result: reading a printed hash gives its normal form, in whatever order the keys were
      printed. */
  lemma ReadPrinted(hash: Hash, order: seq<string>)
    requires Enumerates(order, hash)
    ensures ParamsOf(ToQueryString(hash, order)) == Some(Normal(hash))
  {
    var parts := Parts(hash, order);
    forall i | 0 <= i < |parts|
      ensures Within(parts[i], Printed)
    {
      PartPrints(order[i], hash[order[i]]);
    }
    JoinWithin(parts, "&", Printed);
    PrintedIsKept(ToQueryString(hash, order));
    PartsAreRead(hash, order, map[]);
    assert map[] + NormalOn(hash, order) == Normal(hash);
    if order == [] {
      EmptyPieceIsSkipped(map[]);
    } else {
      SplitJoined(parts, '&');
    }
  }

  predicate IsNormal(hash: Hash) {
    forall k :: k in hash ==> k != "" && (hash[k].Many? ==> |hash[k].values| >= 2)
  }

  /** The round trip is exact for exactly the hashes without empty keys and without arrays of
      fewer than two values. */
  lemma RoundTripExactly(hash: Hash, order: seq<string>)
    requires Enumerates(order, hash)
    ensures ParamsOf(ToQueryString(hash, order)) == Some(hash) <==> IsNormal(hash)
  {
    ReadPrinted(hash, order);
    NormalExactly(hash);
  }

  lemma NormalExactly(hash: Hash)
    ensures Normal(hash) == hash <==> IsNormal(hash)
  {}
}
