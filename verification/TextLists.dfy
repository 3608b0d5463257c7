/** Splitting and joining of strings at separators, and decimal numerals. */
module TextLists {

  function Join(parts: seq<string>, sep: string): string {
    if parts == [] then ""
    else if |parts| == 1 then parts[0]
    else parts[0] + sep + Join(parts[1..], sep)
  }

  /** The pieces of s between the separators; one piece, possibly empty, if there are none. */
  function Split(s: string, sep: char): (parts: seq<string>)
    ensures parts != []
  {
    if s == "" then [""]
    else if s[0] == sep then [""] + Split(s[1..], sep)
    else
      var rest := Split(s[1..], sep);
      [[s[0]] + rest[0]] + rest[1..]
  }

  predicate Lacks(s: string, sep: char) {
    forall i :: 0 <= i < |s| ==> s[i] != sep
  }

  lemma {:induction false} SplitPlain(s: string, sep: char)
    requires Lacks(s, sep)
    ensures Split(s, sep) == [s]
  {
    if s != "" {
      SplitPlain(s[1..], sep);
      assert [s[0]] + s[1..] == s;
    }
  }

  lemma SplitCons(s: string, sep: char)
    ensures Split("", sep) == [""]
    ensures s != "" ==>
              var rest := Split(s[1..], sep);
              Split(s, sep) == if s[0] == sep then [""] + rest else [[s[0]] + rest[0]] + rest[1..]
  {}

  /** A separator between two texts separates their pieces. */
  lemma {:induction false} SplitAcross(a: string, b: string, sep: char)
    ensures Split(a + [sep] + b, sep) == Split(a, sep) + Split(b, sep)
  {
    hide Split;
    var s := a + [sep] + b;
    SplitCons(s, sep);
    SplitCons(a, sep);
    if a == "" {
      assert s[1..] == b;
    } else {
      assert s[0] == a[0] && s[1..] == a[1..] + [sep] + b;
      SplitAcross(a[1..], b, sep);
      var u, v := Split(a[1..], sep), Split(b, sep);
      assert (u + v)[0] == u[0] && (u + v)[1..] == u[1..] + v;
      if a[0] == sep {
        assert [""] + (u + v) == [""] + u + v;
      } else {
        assert [[a[0]] + u[0]] + (u[1..] + v) == [[a[0]] + u[0]] + u[1..] + v;
      }
    }
  }

  function SplitEach(parts: seq<string>, sep: char): seq<string> {
    if parts == [] then [] else Split(parts[0], sep) + SplitEach(parts[1..], sep)
  }

  /** Splitting undoes joining, part by part. */
  lemma {:induction false} SplitJoined(parts: seq<string>, sep: char)
    requires parts != []
    ensures Split(Join(parts, [sep]), sep) == SplitEach(parts, sep)
  {
    if |parts| == 1 {
      assert parts[1..] == [];
      assert SplitEach(parts[1..], sep) == [];
    } else {
      SplitJoined(parts[1..], sep);
      SplitAcross(parts[0], Join(parts[1..], [sep]), sep);
    }
  }

  lemma {:induction false} SplitJoinedPlain(parts: seq<string>, sep: char)
    requires parts != [] && forall i :: 0 <= i < |parts| ==> Lacks(parts[i], sep)
    ensures Split(Join(parts, [sep]), sep) == parts
  {
    SplitJoined(parts, sep);
    SplitEachPlain(parts, sep);
  }

  lemma {:induction false} SplitEachPlain(parts: seq<string>, sep: char)
    requires forall i :: 0 <= i < |parts| ==> Lacks(parts[i], sep)
    ensures SplitEach(parts, sep) == parts
  {
    if parts != [] {
      SplitPlain(parts[0], sep);
      SplitEachPlain(parts[1..], sep);
      assert parts == [parts[0]] + parts[1..];
    }
  }

  predicate Within(s: string, allowed: char -> bool) {
    forall i :: 0 <= i < |s| ==> allowed(s[i])
  }

  lemma {:induction false} JoinWithin(parts: seq<string>, sep: string, allowed: char -> bool)
    requires Within(sep, allowed) && forall i :: 0 <= i < |parts| ==> Within(parts[i], allowed)
    ensures Within(Join(parts, sep), allowed)
  {
    if |parts| > 1 {
      assert Within(parts[0], allowed);
      forall i | 0 <= i < |parts[1..]|
        ensures Within(parts[1..][i], allowed)
      {
        assert Within(parts[i + 1], allowed);
      }
      JoinWithin(parts[1..], sep, allowed);
      AppendWithin(parts[0], sep, allowed);
      AppendWithin(parts[0] + sep, Join(parts[1..], sep), allowed);
    } else if |parts| == 1 {
      assert Within(parts[0], allowed);
    }
  }

  lemma AppendWithin(a: string, b: string, allowed: char -> bool)
    requires Within(a, allowed) && Within(b, allowed)
    ensures Within(a + b, allowed)
  {}

  // ----- Decimal numerals

  function Decimal(n: nat): (s: string)
    ensures s != ""
  {
    if n < 10 then [Digit(n)] else Decimal(n / 10) + [Digit(n % 10)]
  }

  function Digit(n: nat): char
    requires n < 10
  {
    '0' + n as char
  }

  predicate IsDigit(c: char) {
    '0' <= c <= '9'
  }

  /** Digits, and at least one */
  predicate Numeral(s: string) {
    s != "" && forall i :: 0 <= i < |s| ==> IsDigit(s[i])
  }

  function NumberOf(s: string): (n: int)
    ensures Numeral(s) ==> n >= 0
  {
    if s == "" then 0 else NumberOf(s[..|s| - 1]) * 10 + (s[|s| - 1] as int - '0' as int)
  }

  /** A numeral has one meaning, so different numbers have different numerals. */
  lemma {:induction false} DecimalRoundTrip(n: nat)
    ensures NumberOf(Decimal(n)) == n
    ensures forall i :: 0 <= i < |Decimal(n)| ==> IsDigit(Decimal(n)[i])
  {
    if n < 10 {
      assert [Digit(n)][..0] == "";
    } else {
      DecimalRoundTrip(n / 10);
      var s := Decimal(n);
      assert s[..|s| - 1] == Decimal(n / 10);
    }
  }

  /** A numeral is written with its highest digit first. */
  lemma DecimalDigits(n: nat, d: nat)
    requires d < 10
    ensures Decimal(d) == ["0123456789"[d]]
    ensures n > 0 ==> Decimal(10 * n + d) == Decimal(n) + ["0123456789"[d]]
    ensures Numeral(Decimal(n))
  {
    DecimalRoundTrip(n);
    assert (10 * n + d) / 10 == n && (10 * n + d) % 10 == d;
  }
}
