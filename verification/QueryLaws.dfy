/** Where in a text the query is found, and what is made of it when it was not printed by toQueryString. */
module QueryLaws {
  import opened Options
  import opened TextLists
  import opened QueryString
  import UriComponent

  // ----- Finding the query

  /** Nothing, or a fragment: a # and what follows it on the line */
  predicate Fragment(t: string) {
    t == "" || (t[0] == '#' && forall i :: 1 <= i < |t| ==> t[i] != '\n' && t[i] != '\r' && t[i] as int != 0x2028 && t[i] as int != 0x2029)
  }

  lemma {:induction false} PlainUpTo(q: string, t: string)
    requires Lacks(q, '?') && Lacks(q, '#') && (t == "" || t[0] == '?' || t[0] == '#')
    ensures PlainLength(q + t) == |q|
    decreases |q|
  {
    if q == "" {
      assert q + t == t;
    } else {
      assert (q + t)[0] == q[0] && (q + t)[1..] == q[1..] + t;
      PlainUpTo(q[1..], t);
    }
  }

  lemma QueryInFront(q: string, t: string)
    requires Lacks(q, '?') && Lacks(q, '#') && Fragment(t)
    ensures QueryPart(q + t) == q
  {
    PlainUpTo(q, t);
    if t == "" {
      assert q + t == q;
    } else {
      assert (q + t)[|q|] == '#' && (q + t)[..|q|] == q;
      forall i | |q| < i < |q + t|
        ensures !IsLineEnd((q + t)[i])
      {
        assert (q + t)[i] == t[i - |q|];
      }
    }
  }

  /** What stands behind the last ? is the query, if no # comes before it. */
  lemma {:induction false} QueryBehind(p: string, q: string, t: string)
    requires Lacks(p, '#') && Lacks(q, '?') && Lacks(q, '#') && Fragment(t)
    ensures QueryPart(p + "?" + q + t) == q
    decreases |p|
  {
    var s := p + "?" + q + t;
    FirstMark(p, q + t);
    assert s == p + "?" + (q + t);
    if p == "" {
      assert s[1..] == q + t;
      QueryInFront(q, t);
    } else {
      assert s[1..] == p[1..] + "?" + q + t;
      QueryBehind(p[1..], q, t);
    }
  }

  lemma {:induction false} FirstMark(p: string, rest: string)
    requires Lacks(p, '#')
    ensures var s := p + "?" + rest; PlainLength(s) < |s| && s[PlainLength(s)] == '?'
    decreases |p|
  {
    var s := p + "?" + rest;
    if p != "" && p[0] != '?' {
      assert s[1..] == p[1..] + "?" + rest;
      FirstMark(p[1..], rest);
    }
  }

  // ----- Blanks around the text

  lemma {:induction false} StripFrontOf(p: string, rest: string)
    requires rest != "" && !IsSpace(rest[0])
    ensures StripFront(p + rest) == StripFront(p) + rest
    decreases |p|
  {
    if p == "" {
      assert p + rest == rest;
    } else {
      assert (p + rest)[0] == p[0] && (p + rest)[1..] == p[1..] + rest;
      if IsSpace(p[0]) {
        StripFrontOf(p[1..], rest);
      }
    }
  }

  lemma {:induction false} StripFrontLacks(p: string, c: char)
    requires Lacks(p, c)
    ensures Lacks(StripFront(p), c)
    decreases |p|
  {
    if p != "" && IsSpace(p[0]) {
      StripFrontLacks(p[1..], c);
    }
  }

  lemma PrintedLacks(q: string)
    requires Within(q, Printed)
    ensures Lacks(q, '?') && Lacks(q, '#') && (forall i :: 0 <= i < |q| ==> !IsSpace(q[i]))
  {
    forall i | 0 <= i < |q|
      ensures q[i] != '?' && q[i] != '#' && !IsSpace(q[i])
    {
      assert Printed(q[i]);
    }
  }

  /** Main result: a query is read alike by itself and as part of an address: behind any text without
      a #, and in front of a fragment. */
  lemma QueryOfAddress(p: string, q: string, t: string)
    requires Within(q, Printed) && Lacks(p, '#') && Fragment(t)
    requires t != "" ==> !IsSpace(t[|t| - 1])
    ensures ParamsOf(p + "?" + q + t) == ParamsOf(q)
    ensures ParamsOf(q + t) == ParamsOf(q)
  {
    hide AddPairs, Split, QueryPart, Strip, Fragment;
    PrintedIsKept(q);
    QueryOfText(p, q, t);
    QueryOfItself(q, t);
  }

  lemma QueryOfText(p: string, q: string, t: string)
    requires Within(q, Printed) && Lacks(p, '#') && Fragment(t)
    requires t != "" ==> !IsSpace(t[|t| - 1])
    ensures QueryPart(Strip(p + "?" + q + t)) == q
  {
    hide QueryPart, PlainLength, StripFront, StripBack, Fragment, Printed, Within;
    PrintedLacks(q);
    var rest := "?" + q + t;
    assert p + "?" + q + t == p + rest;
    StripFrontOf(p, rest);
    StripFrontLacks(p, '#');
    var front := StripFront(p);
    assert front + rest == front + "?" + q + t;
    EndsSolid(front + rest, q, t);
    QueryBehind(front, q, t);
  }

  lemma QueryOfItself(q: string, t: string)
    requires Within(q, Printed) && Fragment(t)
    requires t != "" ==> !IsSpace(t[|t| - 1])
    ensures QueryPart(Strip(q + t)) == q
  {
    hide QueryPart, PlainLength, StripBack, Printed, Within;
    PrintedLacks(q);
    if q + t != "" {
      assert StripFront(q + t) == q + t;
      EndsSolid(q + t, q, t);
    } else {
      StripNothing();
    }
    hide StripFront, Fragment;
    QueryInFront(q, t);
  }

  lemma StripNothing()
    ensures StripFront("") == "" && StripBack("") == ""
  {}

  lemma EndsSolid(s: string, q: string, t: string)
    requires s != "" && |q + t| <= |s| && s[|s| - |q + t|..] == q + t
    requires (forall i :: 0 <= i < |q| ==> !IsSpace(q[i])) && (t != "" ==> !IsSpace(t[|t| - 1]))
    requires |q + t| == 0 ==> !IsSpace(s[|s| - 1])
    ensures StripBack(s) == s
  {
    if t != "" {
      assert s[|s| - 1] == (q + t)[|q + t| - 1] == t[|t| - 1];
    } else if q != "" {
      assert s[|s| - 1] == (q + t)[|q + t| - 1] == q[|q| - 1];
    }
  }

  /** White space and ends of lines, as a regular expression's \s has them, one by one */
  const BLANKS: seq<int> := [0x09, 0x0a, 0x0b, 0x0c, 0x0d, 0x20, 0xa0, 0x1680, 0x2000, 0x2001, 0x2002, 0x2003, 0x2004, 0x2005,
                             0x2006, 0x2007, 0x2008, 0x2009, 0x200a, 0x2028, 0x2029, 0x202f, 0x205f, 0x3000, 0xfeff]

  lemma BlanksAre(c: char)
    ensures IsSpace(c) <==> c as int in BLANKS
  {
    var n := c as int;
    if 9 <= n <= 13 {
      assert BLANKS[n - 9] == n;
    } else if 0x2000 <= n <= 0x200a {
      assert BLANKS[8 + (n - 0x2000)] == n;
    } else if IsSpace(c) {
      assert BLANKS[5] == 0x20 && BLANKS[6] == 0xa0 && BLANKS[7] == 0x1680 && BLANKS[19..] == [0x2028, 0x2029, 0x202f, 0x205f, 0x3000, 0xfeff];
    }
  }

  /** A text of nothing but blanks */
  predicate Blank(s: string) {
    forall i :: 0 <= i < |s| ==> s[i] as int in BLANKS
  }

  lemma {:induction false} FrontBlanks(a: string, s: string)
    requires Blank(a)
    ensures StripFront(a + s) == StripFront(s)
    decreases |a|
  {
    if a == "" {
      assert a + s == s;
    } else {
      assert (a + s)[0] == a[0] && (a + s)[1..] == a[1..] + s;
      BlanksAre(a[0]);
      FrontBlanks(a[1..], s);
    }
  }

  lemma {:induction false} BackBlanks(s: string, b: string)
    requires Blank(b)
    ensures StripBack(s + b) == StripBack(s)
    decreases |b|
  {
    if b == "" {
      assert s + b == s;
    } else {
      var n := |b| - 1;
      assert (s + b)[|s + b| - 1] == b[n] && (s + b)[..|s + b| - 1] == s + b[..n];
      BlanksAre(b[n]);
      BackBlanks(s, b[..n]);
    }
  }

  /** Blanks around a printed query are not part of it. */
  lemma BlanksAround(a: string, q: string, b: string)
    requires Blank(a) && Blank(b) && Within(q, Printed) && q != ""
    ensures ParamsOf(a + q + b) == ParamsOf(q)
  {
    hide AddPairs, Split, QueryPart;
    PrintedLacks(q);
    assert a + q + b == a + (q + b);
    FrontBlanks(a, q + b);
    assert StripFront(q + b) == q + b && StripFront(q) == q;
    BackBlanks(q, b);
  }

  // ----- Values that hold a =, and escapes that are none

  lemma {:induction false} DecodeAppend(s: string, t: string, c: char)
    requires c != '%'
    ensures UriComponent.Decode(UriComponent.Encode(s) + [c] + t)
            == match UriComponent.Decode(t) case Some(r) => Some(s + [c] + r) case None => None
    decreases |s|
  {
    hide UriComponent.EncodeChar;
    var all := UriComponent.Encode(s) + [c] + t;
    if s == "" {
      assert all == [c] + t && all[1..] == t;
      assert forall r: string :: "" + [c] + r == [c] + r;
    } else {
      var rest := UriComponent.Encode(s[1..]) + [c] + t;
      assert all == UriComponent.EncodeChar(s[0]) + rest;
      hide UriComponent.Decode, UriComponent.Encode;
      UriComponent.DecodeChar(s[0], rest);
      DecodeAppend(s[1..], t, c);
      assert forall r: string :: [s[0]] + (s[1..] + [c] + r) == s + [c] + r;
    }
  }

  /** Only the first = of a pair parts its key from its value. */
  lemma ValueWithEquals(key: string, v: string, w: string)
    requires key != ""
    ensures var e := UriComponent.Encode;
            ParamsOf(e(key) + "=" + e(v) + "=" + e(w)) == Some(map[key := One(Some(v + "=" + w))])
  {
    hide UriComponent.Encode, UriComponent.Decode, QueryPart, Strip;
    var k, a, b := UriComponent.Encode(key), UriComponent.Encode(v), UriComponent.Encode(w);
    EncodedPrints(key);
    EncodedPrints(v);
    EncodedPrints(w);
    ThreeParts(k, a, b);
    PrintedIsKept(k + "=" + a + "=" + b);
    UriComponent.DecodeEncode(key);
    UriComponent.DecodeEncode(w);
    DecodeAppend(v, b, '=');
    hide Split;
    OnePair(k + "=" + a + "=" + b, key, v + "=" + w);
  }

  lemma ThreeParts(k: string, a: string, b: string)
    requires Within(k, Printed) && Within(a, Printed) && Within(b, Printed)
    requires Lacks(k, '=') && Lacks(a, '=') && Lacks(b, '=') && Lacks(k, '&') && Lacks(a, '&') && Lacks(b, '&')
    ensures var pair := k + "=" + a + "=" + b;
            Within(pair, Printed) && Split(pair, '&') == [pair] && Split(pair, '=') == [k, a, b]
    ensures [k, a, b][1..] == [a, b] && Join([a, b], "=") == a + "=" + b
  {
    var pair := k + "=" + a + "=" + b;
    assert Lacks(pair, '&');
    SplitPlain(pair, '&');
    SplitPlain(k, '=');
    SplitPlain(a, '=');
    SplitPlain(b, '=');
    SplitAcross(k, a, '=');
    SplitAcross(k + "=" + a, b, '=');
    hide Split;
    assert [k] + [a] + [b] == [k, a, b];
    assert [a, b][1..] == [b];
  }

  lemma OnePair(pair: string, key: string, value: string)
    requires AddPair(map[], pair) == Some(map[key := One(Some(value))])
    ensures AddPairs(map[], [pair]) == Some(map[key := One(Some(value))])
  {
    assert [pair][1..] == [];
  }

  lemma LonePercent()
    ensures UriComponent.Decode("%") == None && UriComponent.Decode("a") == Some("a")
  {
    var a := "a";
    assert a[1..] == "" && UriComponent.Decode(a[1..]) == Some("");
    assert [a[0]] + "" == "a";
  }

  /** A % with no digits behind it throws, in a key or in a value. */
  lemma MalformedThrows()
    ensures ParamsOf("a=%") == None && ParamsOf("%=a") == None
  {
    hide ParamsOf;
    ThrowsWhere("a", "%");
    ThrowsWhere("%", "a");
    assert "a" + "=" + "%" == "a=%" && "%" + "=" + "a" == "%=a";
  }

  lemma ThrowsWhere(k: string, v: string)
    requires (k == "a" && v == "%") || (k == "%" && v == "a")
    ensures ParamsOf(k + "=" + v) == None
  {
    LonePercent();
    var pair := k + "=" + v;
    PrintedIsKept(pair);
    hide UriComponent.Decode, QueryPart, Strip;
    SplitPlain(pair, '&');
    SplitAcross(k, v, '=');
    SplitPlain(k, '=');
    SplitPlain(v, '=');
    assert k + ['='] + v == pair;
    hide Split;
    assert Split(pair, '=') == [k, v];
    assert AddPair(map[], pair) == None;
    hide AddPair;
  }

  /** What stands behind a # and then behind the end of a line is no fragment: the query is what follows
      the #. */
  lemma {:induction false} BrokenFragment(q: string, f: string, i: nat)
    requires Lacks(q, '?') && Lacks(q, '#') && Lacks(f, '?') && Lacks(f, '#')
    requires i < |f| && (f[i] == '\n' || f[i] == '\r' || f[i] as int == 0x2028 || f[i] as int == 0x2029)
    ensures QueryPart(q + "#" + f) == f
    decreases |q|
  {
    SkipsOne(q, f, i);
    var s := q + "#" + f;
    hide QueryPart, IsLineEnd;
    if q == "" {
      assert s[1..] == f && f + "" == f;
      QueryInFront(f, "");
    } else {
      assert s[1..] == q[1..] + "#" + f;
      BrokenFragment(q[1..], f, i);
    }
  }

  /** No match begins here. */
  lemma SkipsOne(q: string, f: string, i: nat)
    requires Lacks(q, '?') && Lacks(q, '#') && i < |f| && IsLineEnd(f[i])
    ensures var s := q + "#" + f; QueryPart(s) == QueryPart(s[1..])
  {
    hide IsLineEnd, PlainLength;
    var s := q + "#" + f;
    assert s == q + ("#" + f);
    PlainUpTo(q, "#" + f);
    assert s[|q| + 1 + i] == f[i];
  }

  /** Pairs are parted by &. */
  lemma TwoPairs(k: string, v: string, l: string, w: string)
    requires k != "" && l != "" && k != l
    ensures var a, b := ToQueryPair(UriComponent.Encode(k), Some(v)), ToQueryPair(UriComponent.Encode(l), Some(w));
            && a == UriComponent.Encode(k) + "=" + UriComponent.Encode(v)
            && b == UriComponent.Encode(l) + "=" + UriComponent.Encode(w)
            && ParamsOf(a + "&" + b) == Some(map[k := One(Some(v)), l := One(Some(w))])
  {
    hide UriComponent.Encode, AddPair, AddPairs, Split, QueryPart, Strip, Put, Printed;
    var a, b := ToQueryPair(UriComponent.Encode(k), Some(v)), ToQueryPair(UriComponent.Encode(l), Some(w));
    PairPrints(k, Some(v));
    PairPrints(l, Some(w));
    PairIsRead(map[], k, Some(v));
    PairIsRead(map[k := One(Some(v))], l, Some(w));
    PutTwo(k, Some(v), l, Some(w));
    AddTwo(a, b, map[k := One(Some(v))], map[k := One(Some(v)), l := One(Some(w))]);
    TwoParts(a, b);
    PrintedIsKept(a + "&" + b);
  }

  lemma PutTwo(k: string, v: Option<string>, l: string, w: Option<string>)
    requires k != l
    ensures Put(map[], k, v) == map[k := One(v)]
    ensures Put(map[k := One(v)], l, w) == map[k := One(v), l := One(w)]
  {}

  lemma AddTwo(a: string, b: string, one: Hash, two: Hash)
    requires AddPair(map[], a) == Some(one) && AddPair(one, b) == Some(two)
    ensures AddPairs(map[], [a, b]) == Some(two)
  {
    hide AddPair;
    assert [a, b][1..] == [b] && [b][1..] == [];
    assert AddPairs(two, []) == Some(two);
    assert AddPairs(one, [b]) == Some(two);
  }

  lemma TwoParts(a: string, b: string)
    requires Within(a, Printed) && Within(b, Printed) && Lacks(a, '&') && Lacks(b, '&')
    ensures Within(a + "&" + b, Printed) && Split(a + "&" + b, '&') == [a, b]
  {
    SplitPlain(a, '&');
    SplitPlain(b, '&');
    SplitAcross(a, b, '&');
    hide Split;
    assert [a] + [b] == [a, b];
  }
}
