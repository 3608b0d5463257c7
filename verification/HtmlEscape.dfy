/** escapeHTML and unescapeHTML in their replace-based form. */
module HtmlEscape {

  /** A global replace: matches are taken left to right and do not overlap. */
  function Replace(s: string, pattern: string, sub: string): string
    requires pattern != ""
    decreases |s|
  {
    if |s| < |pattern| then s
    else if s[..|pattern|] == pattern then sub + Replace(s[|pattern|..], pattern, sub)
    else [s[0]] + Replace(s[1..], pattern, sub)
  }

  const AMP := "&amp;"
  const LT := "&lt;"
  const GT := "&gt;"

  function EscapeHTML(s: string): string {
    Replace(Replace(Replace(s, "&", AMP), "<", LT), ">", GT)
  }

  function UnescapeHTML(s: string): string {
    Replace(Replace(Replace(s, AMP, "&"), LT, "<"), GT, ">")
  }

  // ----- Replacing one character is a map over the characters

  lemma {:induction false} ReplaceCharAppend(a: string, b: string, c: char, sub: string)
    ensures Replace(a + b, [c], sub) == Replace(a, [c], sub) + Replace(b, [c], sub)
    decreases |a|
  {
    if a == "" {
      assert a + b == b;
    } else {
      assert (a + b)[0] == a[0] && (a + b)[1..] == a[1..] + b;
      assert a[..1] == [a[0]] == (a + b)[..1];
      ReplaceCharAppend(a[1..], b, c, sub);
      var head := if a[0] == c then sub else [a[0]];
      assert Replace(a, [c], sub) == head + Replace(a[1..], [c], sub);
    }
  }

  lemma ReplaceChar(x: char, c: char, sub: string)
    ensures Replace([x], [c], sub) == if x == c then sub else [x]
  {
    assert [x][..1] == [x];
    var none := [x][1..];
    assert none == "";
    assert Replace(none, [c], sub) == "";
    assert sub + "" == sub;
  }

  function EscapeChar(c: char): string {
    if c == '&' then AMP else if c == '<' then LT else if c == '>' then GT else [c]
  }

  /** A text without the character is not changed. */
  lemma {:induction false} ReplaceAbsent(s: string, c: char, sub: string)
    requires c !in s
    ensures Replace(s, [c], sub) == s
  {
    if s != "" {
      assert s[..1] == [s[0]] && s[0] in s;
      ReplaceAbsent(s[1..], c, sub);
      assert s == [s[0]] + s[1..];
    }
  }

  lemma EscapeCons(s: string)
    requires s != ""
    ensures EscapeHTML(s) == EscapeChar(s[0]) + EscapeHTML(s[1..])
  {
    var h, t := [s[0]], s[1..];
    assert s == h + t;
    ReplaceChar(s[0], '&', AMP);
    ReplaceCharAppend(h, t, '&', AMP);
    var h1, t1 := Replace(h, "&", AMP), Replace(t, "&", AMP);
    ReplaceCharAppend(h1, t1, '<', LT);
    var h2, t2 := Replace(h1, "<", LT), Replace(t1, "<", LT);
    ReplaceCharAppend(h2, t2, '>', GT);
    ReplaceChar(s[0], '<', LT);
    ReplaceChar(s[0], '>', GT);
    ReplaceAbsent(AMP, '<', LT);
    ReplaceAbsent(AMP, '>', GT);
    ReplaceAbsent(LT, '>', GT);
  }

  // ----- Undoing the ampersands first

  lemma NoMatch(x: char, rest: string, pattern: string, sub: string)
    requires pattern != "" && !(pattern <= [x] + rest)
    ensures Replace([x] + rest, pattern, sub) == [x] + Replace(rest, pattern, sub)
  {
    var s := [x] + rest;
    assert s[1..] == rest;
    if |s| >= |pattern| {
      assert s[..|pattern|] != pattern;
    }
  }

  lemma Match(rest: string, pattern: string, sub: string)
    requires pattern != ""
    ensures Replace(pattern + rest, pattern, sub) == sub + Replace(rest, pattern, sub)
  {
    var s := pattern + rest;
    assert s[..|pattern|] == pattern && s[|pattern|..] == rest;
  }

  /** A four-character entity passes a replacement of any other entity unchanged. */
  lemma EntityPasses(entity: string, rest: string, pattern: string, sub: string)
    requires (entity == LT && (pattern == AMP || pattern == GT)) || (entity == GT && (pattern == AMP || pattern == LT))
    ensures Replace(entity + rest, pattern, sub) == entity + Replace(rest, pattern, sub)
  {
    hide Replace;
    var r1, r2, r3 := [entity[3]] + rest, entity[2..] + rest, entity[1..] + rest;
    assert entity + rest == [entity[0]] + r3 && r3 == [entity[1]] + r2 && r2 == [entity[2]] + r1;
    assert ([entity[3]] + rest)[0] == ';' && r2[0] == 't' && r3[0] == entity[1] && pattern[0] == '&';
    NoMatch(entity[3], rest, pattern, sub);
    NoMatch(entity[2], r1, pattern, sub);
    NoMatch(entity[1], r2, pattern, sub);
    assert ([entity[0]] + r3)[1] == entity[1] != pattern[1];
    NoMatch(entity[0], r3, pattern, sub);
  }

  /** Only the angle brackets are escaped. */
  function Brackets(s: string): string {
    if s == "" then "" else (if s[0] == '<' then LT else if s[0] == '>' then GT else [s[0]]) + Brackets(s[1..])
  }

  lemma {:induction false} AmpersandsUndone(s: string)
    ensures Replace(EscapeHTML(s), AMP, "&") == Brackets(s)
  {
    if s == "" {
    } else {
      hide EscapeHTML, Replace;
      EscapeCons(s);
      AmpersandsUndone(s[1..]);
      var rest := EscapeHTML(s[1..]);
      if s[0] == '&' {
        Match(rest, AMP, "&");
      } else if s[0] == '<' {
        EntityPasses(LT, rest, AMP, "&");
      } else if s[0] == '>' {
        EntityPasses(GT, rest, AMP, "&");
      } else {
        assert ([s[0]] + rest)[0] != AMP[0];
        NoMatch(s[0], rest, AMP, "&");
      }
    }
  }

  // ----- Undoing the brackets

  function Closers(s: string): string {
    if s == "" then "" else (if s[0] == '>' then GT else [s[0]]) + Closers(s[1..])
  }

  lemma BracketsKeep(s: string, letters: string)
    requires letters == "lt;" && letters <= Brackets(s)
    ensures letters <= s
  {
    var t := s[1..];
    assert Brackets(s)[0] == 'l' && s[0] == 'l';
    assert Brackets(s)[1..] == Brackets(t) && Brackets(t)[0] == 't' && t[0] == 't';
    assert Brackets(t)[1..] == Brackets(t[1..]) && Brackets(t[1..])[0] == ';' && t[1] == ';';
  }

  lemma ClosersKeep(s: string, letters: string)
    requires letters == "gt;" && letters <= Closers(s)
    ensures letters <= s
  {
    var t := s[1..];
    assert Closers(s)[0] == 'g' && s[0] == 'g';
    assert Closers(s)[1..] == Closers(t) && Closers(t)[0] == 't' && t[0] == 't';
    assert Closers(t)[1..] == Closers(t[1..]) && Closers(t[1..])[0] == ';' && t[1] == ';';
  }

  lemma BracketsOfEntity(s: string)
    requires LT <= s
    ensures Brackets(s) == LT + Brackets(s[4..])
  {
    var t := s[1..];
    assert t[0] == 'l' && t[1..][0] == 't' && t[2..][0] == ';' && s[4..] == t[3..];
    assert t[1..][1..] == t[2..] && t[2..][1..] == t[3..];
    assert Brackets(t[2..]) == ";" + Brackets(t[3..]);
    assert Brackets(t[1..]) == "t" + Brackets(t[2..]);
    assert Brackets(t) == "l" + Brackets(t[1..]);
  }

  lemma ClosersOfEntity(s: string)
    requires GT <= s
    ensures Closers(s) == GT + Closers(s[4..])
  {
    var t := s[1..];
    assert t[0] == 'g' && t[1..][0] == 't' && t[2..][0] == ';' && s[4..] == t[3..];
    assert t[1..][1..] == t[2..] && t[2..][1..] == t[3..];
    assert Closers(t[2..]) == ";" + Closers(t[3..]);
    assert Closers(t[1..]) == "t" + Closers(t[2..]);
    assert Closers(t) == "g" + Closers(t[1..]);
  }

  lemma {:induction false} OpenersUndone(s: string)
    ensures Replace(Brackets(s), LT, "<") == Closers(Replace(s, LT, "<"))
    decreases |s|
  {
    if s == "" {
    } else if LT <= s {
      OpenersUndone(s[4..]);
      BracketsOfEntity(s);
      Match(Brackets(s[4..]), LT, "<");
      assert s == LT + s[4..];
      Match(s[4..], LT, "<");
      ClosersCons('<', Replace(s[4..], LT, "<"));
    } else {
      OpenersUndone(s[1..]);
      var rest := Brackets(s[1..]);
      assert s == [s[0]] + s[1..];
      NoMatch(s[0], s[1..], LT, "<");
      ClosersCons(s[0], Replace(s[1..], LT, "<"));
      if s[0] == '<' {
        Match(rest, LT, "<");
      } else if s[0] == '>' {
        EntityPasses(GT, rest, LT, "<");
      } else {
        if LT <= [s[0]] + rest {
          assert "lt;" <= rest by {
            assert ([s[0]] + rest)[1..4] == rest[..3] == "lt;";
          }
          BracketsKeep(s[1..], "lt;");
          assert false;
        }
        NoMatch(s[0], rest, LT, "<");
      }
    }
  }

  lemma ClosersCons(c: char, rest: string)
    ensures Closers([c] + rest) == (if c == '>' then GT else [c]) + Closers(rest)
  {
    assert ([c] + rest)[1..] == rest;
  }

  lemma {:induction false} ClosersUndone(s: string)
    ensures Replace(Closers(s), GT, ">") == Replace(s, GT, ">")
    decreases |s|
  {
    if s == "" {
    } else if GT <= s {
      ClosersUndone(s[4..]);
      ClosersOfEntity(s);
      Match(Closers(s[4..]), GT, ">");
      assert s == GT + s[4..];
      Match(s[4..], GT, ">");
    } else {
      ClosersUndone(s[1..]);
      var rest := Closers(s[1..]);
      assert s == [s[0]] + s[1..];
      NoMatch(s[0], s[1..], GT, ">");
      if s[0] == '>' {
        Match(rest, GT, ">");
      } else {
        if GT <= [s[0]] + rest {
          assert "gt;" <= rest by {
            assert ([s[0]] + rest)[1..4] == rest[..3] == "gt;";
          }
          ClosersKeep(s[1..], "gt;");
          assert false;
        }
        NoMatch(s[0], rest, GT, ">");
      }
    }
  }

  /** What the pair of functions does to any string: the entities for the brackets that were in
      it already are lost, and nothing else happens. */
  lemma UnescapeEscape(s: string)
    ensures UnescapeHTML(EscapeHTML(s)) == Replace(Replace(s, LT, "<"), GT, ">")
  {
    AmpersandsUndone(s);
    OpenersUndone(s);
    ClosersUndone(Replace(s, LT, "<"));
  }

  // ----- When that is the identity

  predicate Contains(s: string, pattern: string) {
    exists i :: 0 <= i <= |s| && pattern <= s[i..]
  }

  lemma {:induction false} ReplaceShortens(s: string, pattern: string, sub: string)
    requires |sub| < |pattern|
    ensures !Contains(s, pattern) ==> Replace(s, pattern, sub) == s
    ensures Contains(s, pattern) ==> |Replace(s, pattern, sub)| < |s|
    ensures |Replace(s, pattern, sub)| <= |s|
    decreases |s|
  {
    if |s| >= |pattern| {
      if s[..|pattern|] == pattern {
        assert pattern <= s[0..];
        ReplaceShortens(s[|pattern|..], pattern, sub);
      } else {
        var t := s[1..];
        ReplaceShortens(t, pattern, sub);
        assert s == [s[0]] + t;
        forall i | 0 <= i <= |t|
          ensures t[i..] == s[i + 1..]
        {}
        if Contains(s, pattern) {
          var i :| 0 <= i <= |s| && pattern <= s[i..];
          assert i > 0 && t[i - 1..] == s[i..];
        }
      }
    }
  }

  /** Unescaping undoes escaping for exactly the strings that contain neither "&lt;" nor "&gt;";
      any other string comes back strictly shorter. */
  lemma RoundTripExactly(s: string)
    ensures UnescapeHTML(EscapeHTML(s)) == s <==> !Contains(s, LT) && !Contains(s, GT)
    ensures Contains(s, LT) || Contains(s, GT) ==> |UnescapeHTML(EscapeHTML(s))| < |s|
  {
    UnescapeEscape(s);
    ReplaceShortens(s, LT, "<");
    ReplaceShortens(Replace(s, LT, "<"), GT, ">");
  }

  // ----- The entities, letter by letter

  /** Escaping goes character by character. */
  lemma EscapesEach(s: string)
    ensures EscapeHTML("") == ""
    ensures s != "" ==>
              EscapeHTML(s) == (match s[0]
                                case '&' => "&amp;"
                                case '<' => "&lt;"
                                case '>' => "&gt;"
                                case c => [c]) + EscapeHTML(s[1..])
  {
    if s != "" {
      EscapeCons(s);
    }
  }

  lemma EscapedOne(c: char, entity: string)
    requires entity == (match c case '&' => "&amp;" case '<' => "&lt;" case '>' => "&gt;" case _ => [c])
    ensures EscapeHTML([c]) == entity
  {
    EscapesEach([c]);
    hide EscapeHTML;
    assert [c][1..] == "" && entity + "" == entity;
  }

  lemma ReplaceShort(s: string, pattern: string, sub: string)
    requires |s| < |pattern|
    ensures Replace(s, pattern, sub) == s
  {}

  lemma ReplaceWhole(pattern: string, sub: string)
    requires pattern != ""
    ensures Replace(pattern, pattern, sub) == sub
  {
    assert pattern[..|pattern|] == pattern && pattern[|pattern|..] == "";
    assert sub + "" == sub;
  }

  /** Each entity stands for its character. */
  lemma EntitiesUndone()
    ensures UnescapeHTML("&amp;") == "&" && UnescapeHTML("&lt;") == "<" && UnescapeHTML("&gt;") == ">"
  {
    hide Replace, UnescapeHTML, EscapeHTML;
    EscapedOne('&', "&amp;");
    EscapedOne('<', "&lt;");
    EscapedOne('>', "&gt;");
    UnescapeEscape("&");
    UnescapeEscape("<");
    UnescapeEscape(">");
    ReplaceShort("&", LT, "<");
    ReplaceShort("<", LT, "<");
    ReplaceShort(">", LT, "<");
    ReplaceShort("&", GT, ">");
    ReplaceShort("<", GT, ">");
    ReplaceShort(">", GT, ">");
  }

  /** The ampersands are undone first: "&amp;lt;" ends as a bracket, not as "&lt;". */
  lemma AmpersandsFirst()
    ensures UnescapeHTML("&amp;lt;") == "<" && UnescapeHTML("&amp;gt;") == ">"
  {
    hide Replace, UnescapeHTML, EscapeHTML;
    EscapedEntity("&lt;", "lt;");
    EscapedEntity("&gt;", "gt;");
    UnescapeEscape("&lt;");
    UnescapeEscape("&gt;");
    ReplaceWhole(LT, "<");
    ReplaceShort("<", GT, ">");
    ReplaceWhole(GT, ">");
    NoOpener();
    assert "&amp;" + "lt;" == "&amp;lt;" && "&amp;" + "gt;" == "&amp;gt;";
  }

  lemma NoOpener()
    ensures Replace("&gt;", LT, "<") == "&gt;"
  {
    var s := "&gt;";
    assert s[..4] == s && s != LT;
    ReplaceShort(s[1..], LT, "<");
    assert [s[0]] + s[1..] == s;
  }

  lemma EscapedEntity(s: string, letters: string)
    requires s == "&" + letters && (letters == "lt;" || letters == "gt;")
    ensures EscapeHTML(s) == "&amp;" + letters
  {
    EscapesEach(s);
    hide EscapeHTML, Replace;
    assert s[1..] == letters;
    var a, b, c := letters[0], letters[1], letters[2];
    EscapesEach(letters);
    assert letters[1..] == [b, c];
    EscapesEach([b, c]);
    assert [b, c][1..] == [c];
    EscapedOne(c, [c]);
    assert letters == [a] + ([b] + [c]);
  }
}
