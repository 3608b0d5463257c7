/** Option, for lookups and decoders that can fail. */
module Options {
  datatype Option<+T> = None | Some(value: T)
}

/** encodeURIComponent and decodeURIComponent on strings of Unicode scalar values: UTF-8 octets
    written as %XX (section 2.1 of RFC 3986). */
module UriComponent {
  import opened Options
  import opened Bytes

  // ----- UTF-8

  function Octets(c: char): (o: seq<byte>)
    ensures 1 <= |o| <= 4
  {
    var n := c as int;
    if n < 0x80 then [n]
    else if n < 0x800 then [0xc0 + n / 0x40, 0x80 + n % 0x40]
    else if n < 0x1_0000 then [0xe0 + n / 0x1000, 0x80 + n / 0x40 % 0x40, 0x80 + n % 0x40]
    else [0xf0 + n / 0x4_0000, 0x80 + n / 0x1000 % 0x40, 0x80 + n / 0x40 % 0x40, 0x80 + n % 0x40]
  }

  /** How many octets the first one announces; 0 if it cannot come first. */
  function Announced(first: byte): (n: nat)
    ensures n <= 4
  {
    if first < 0x80 then 1
    else if 0xc0 <= first < 0xe0 then 2
    else if 0xe0 <= first < 0xf0 then 3
    else if 0xf0 <= first < 0xf8 then 4
    else 0
  }

  function Bits(o: byte, mark: int): int {
    o as int - mark
  }

  predicate Continues(o: byte) {
    0x80 <= o < 0xc0
  }

  /** The scalar value of a sequence of octets, unless it is overlong, a surrogate or too large. */
  function FromOctets(o: seq<byte>): Option<char>
    requires 1 <= |o| <= 4
  {
    if |o| == 1 then (if o[0] < 0x80 then Some(o[0] as char) else None)
    else if !(forall i :: 1 <= i < |o| ==> Continues(o[i])) then None
    else if |o| == 2 then
      var n := Bits(o[0], 0xc0) * 0x40 + Bits(o[1], 0x80);
      if 0x80 <= n < 0x800 then Some(n as char) else None
    else if |o| == 3 then
      var n := (Bits(o[0], 0xe0) * 0x40 + Bits(o[1], 0x80)) * 0x40 + Bits(o[2], 0x80);
      if 0x800 <= n < 0xd800 || 0xe000 <= n < 0x1_0000 then Some(n as char) else None
    else
      var n := ((Bits(o[0], 0xf0) * 0x40 + Bits(o[1], 0x80)) * 0x40 + Bits(o[2], 0x80)) * 0x40 + Bits(o[3], 0x80);
      if 0x1_0000 <= n < 0x11_0000 then Some(n as char) else None
  }

  lemma OctetsRoundTrip(c: char)
    ensures Announced(Octets(c)[0]) == |Octets(c)|
    ensures FromOctets(Octets(c)) == Some(c)
  {
    var n := c as int;
    assert n / 0x1000 == n / 0x40 / 0x40 && n / 0x4_0000 == n / 0x1000 / 0x40;
  }

  // ----- Percent escapes

  /** Letters, digits and - _ . ! ~ * ' ( ) are left alone. */
  predicate Unescaped(c: char) {
    'a' <= c <= 'z' || 'A' <= c <= 'Z' || '0' <= c <= '9' || c in "-_.!~*'()"
  }

  function HexDigit(n: int): char
    requires 0 <= n < 16
  {
    if n < 10 then '0' + n as char else 'A' + (n - 10) as char
  }

  function HexValue(c: char): Option<int> {
    if '0' <= c <= '9' then Some(c as int - '0' as int)
    else if 'A' <= c <= 'F' then Some(c as int - 'A' as int + 10)
    else if 'a' <= c <= 'f' then Some(c as int - 'a' as int + 10)
    else None
  }

  lemma HexRoundTrip(n: int)
    requires 0 <= n < 16
    ensures HexValue(HexDigit(n)) == Some(n)
    ensures Unescaped(HexDigit(n))
  {}

  function Escape(o: byte): (s: string)
    ensures |s| == 3
  {
    ['%', HexDigit(o / 16), HexDigit(o % 16)]
  }

  function EscapeAll(o: seq<byte>): (s: string)
    ensures |s| == 3 * |o|
  {
    if o == [] then "" else Escape(o[0]) + EscapeAll(o[1..])
  }

  function EncodeChar(c: char): string {
    if Unescaped(c) then [c] else EscapeAll(Octets(c))
  }

  function Encode(s: string): string {
    if s == "" then "" else EncodeChar(s[0]) + Encode(s[1..])
  }

  /** The first n escapes of t. */
  function TakeOctets(t: string, n: nat): (r: Option<seq<byte>>)
    ensures r.Some? ==> |r.value| == n && 3 * n <= |t|
  {
    if n == 0 then Some([])
    else if |t| < 3 || t[0] != '%' then None
    else
      match (HexValue(t[1]), HexValue(t[2]))
      case (Some(h), Some(l)) =>
        (match TakeOctets(t[3..], n - 1)
         case Some(rest) => Some([Octet(h, l)] + rest)
         case None => None)
      case _ => None
  }

  function Octet(h: int, l: int): byte {
    (h * 16 + l) % 256
  }

  /** decodeURIComponent; None where it throws. */
  function Decode(t: string): Option<string>
    decreases |t|
  {
    if t == "" then Some("")
    else if t[0] != '%' then
      (match Decode(t[1..])
       case Some(rest) => Some([t[0]] + rest)
       case None => None)
    else
      match TakeOctets(t, 1)
      case None => None
      case Some(first) =>
        var n := Announced(first[0]);
        if n == 0 then None
        else
          match TakeOctets(t, n)
          case None => None
          case Some(o) =>
            match FromOctets(o)
            case None => None
            case Some(c) =>
              match Decode(t[3 * n..])
              case Some(rest) => Some([c] + rest)
              case None => None
  }

  lemma {:induction false} TakeEscaped(o: seq<byte>, n: nat, rest: string)
    requires n <= |o|
    ensures TakeOctets(EscapeAll(o) + rest, n) == Some(o[..n])
  {
    if n > 0 {
      var t := EscapeAll(o) + rest;
      HexRoundTrip(o[0] / 16);
      HexRoundTrip(o[0] % 16);
      assert t[3..] == EscapeAll(o[1..]) + rest;
      TakeEscaped(o[1..], n - 1, rest);
      assert [o[0]] + o[1..][..n - 1] == o[..n];
    }
  }

  lemma DecodeChar(c: char, rest: string)
    ensures Decode(EncodeChar(c) + rest) == match Decode(rest)
                                            case Some(s) => Some([c] + s)
                                            case None => None
  {
    var t := EncodeChar(c) + rest;
    if Unescaped(c) {
      assert t[1..] == rest;
    } else {
      var o := Octets(c);
      OctetsRoundTrip(c);
      TakeEscaped(o, 1, rest);
      TakeEscaped(o, |o|, rest);
      assert o[..|o|] == o && o[..1] == [o[0]];
      assert t[0] == '%' && t[3 * |o|..] == rest;
    }
  }

  lemma DecodeNothing()
    ensures Decode("") == Some("") && Encode("") == ""
  {}

  /** Decoding undoes encoding, for every string. */
  lemma {:induction false} DecodeEncode(s: string)
    ensures Decode(Encode(s)) == Some(s)
  {
    DecodeNothing();
    hide Decode, EncodeChar;
    if s != "" {
      DecodeEncode(s[1..]);
      DecodeChar(s[0], Encode(s[1..]));
      assert s == [s[0]] + s[1..];
    }
  }

  /** Every character of an encoded string is left alone by encoding, or is the percent sign. */
  predicate Safe(t: string) {
    forall i :: 0 <= i < |t| ==> Unescaped(t[i]) || t[i] == '%'
  }

  lemma {:induction false} EscapeAllSafe(o: seq<byte>)
    ensures Safe(EscapeAll(o))
  {
    if o != [] {
      HexRoundTrip(o[0] / 16);
      HexRoundTrip(o[0] % 16);
      EscapeAllSafe(o[1..]);
    }
  }

  lemma {:induction false} EncodeSafe(s: string)
    ensures Safe(Encode(s))
    ensures Encode(s) == "" <==> s == ""
  {
    if s != "" {
      EncodeSafe(s[1..]);
      EscapeAllSafe(Octets(s[0]));
    }
  }

  // ----- The characters themselves

  const UPPER := "ABCDEFGHIJKLMNOPQRSTUVWXYZ"
  const LOWER := "abcdefghijklmnopqrstuvwxyz"
  const DIGITS := "0123456789"

  lemma UpperCase(c: char)
    ensures c in UPPER <==> 'A' <= c <= 'Z'
  {
    var s := UPPER;
    assert forall i :: 0 <= i < 26 ==> s[i] as int == 'A' as int + i;
    if 'A' <= c <= 'Z' {
      assert s[c as int - 'A' as int] == c;
    }
  }

  lemma LowerCase(c: char)
    ensures c in LOWER <==> 'a' <= c <= 'z'
  {
    var s := LOWER;
    assert forall i :: 0 <= i < 26 ==> s[i] as int == 'a' as int + i;
    if 'a' <= c <= 'z' {
      assert s[c as int - 'a' as int] == c;
    }
  }

  lemma DecimalDigits(c: char)
    ensures c in DIGITS <==> '0' <= c <= '9'
  {
    var s := DIGITS;
    assert forall i :: 0 <= i < 10 ==> s[i] as int == '0' as int + i;
    if '0' <= c <= '9' {
      assert s[c as int - '0' as int] == c;
    }
  }

  /** The characters that are not escaped */
  lemma LeftAlone(c: char)
    ensures Unescaped(c) <==> c in UPPER || c in LOWER || c in DIGITS || c in "-_.!~*'()"
  {
    UpperCase(c);
    LowerCase(c);
    DecimalDigits(c);
  }

  /** An escape is a percent sign and two upper-case digits; either case is read. */
  lemma EscapesAre(o: byte, n: int)
    requires 0 <= n < 16
    ensures Escape(o) == ['%', "0123456789ABCDEF"[o / 16], "0123456789ABCDEF"[o % 16]]
    ensures HexValue("0123456789ABCDEF"[n]) == HexValue("0123456789abcdef"[n]) == Some(n)
  {}

  /** The octets of a character are its bits, six to an octet but for the first, in as few octets as
      will hold them (section 3 of RFC 3629). */
  lemma OctetsAreUtf8(c: char)
    ensures var o, n := Octets(c), c as int;
            if n <= 0x7f then |o| == 1 && o[0] == n
            else if n <= 0x7ff then |o| == 2 && 0xc0 <= o[0] <= 0xdf && 0x80 <= o[1] <= 0xbf && (o[0] as int - 0xc0) * 64 + (o[1] as int - 0x80) == n
            else if n <= 0xffff then
              |o| == 3 && 0xe0 <= o[0] <= 0xef && 0x80 <= o[1] <= 0xbf && 0x80 <= o[2] <= 0xbf
              && (o[0] as int - 0xe0) * 4096 + (o[1] as int - 0x80) * 64 + (o[2] as int - 0x80) == n
            else
              |o| == 4 && 0xf0 <= o[0] <= 0xf7 && 0x80 <= o[1] <= 0xbf && 0x80 <= o[2] <= 0xbf && 0x80 <= o[3] <= 0xbf
              && (o[0] as int - 0xf0) * 262144 + (o[1] as int - 0x80) * 4096 + (o[2] as int - 0x80) * 64 + (o[3] as int - 0x80) == n
  {
    var n := c as int;
    assert n / 0x1000 == n / 0x40 / 0x40 && n / 0x4_0000 == n / 0x1000 / 0x40;
  }

  /** Octets are read as a character if and only if they are those of the character: nothing overlong,
      no surrogate, nothing too large. */
  lemma OnlyUtf8IsRead(o: seq<byte>, c: char)
    requires 1 <= |o| <= 4
    ensures FromOctets(o) == Some(c) <==> Octets(c) == o
  {
    OctetsRoundTrip(c);
    if FromOctets(o) == Some(c) {
      ReadIsUtf8(o, c);
    }
  }

  lemma SixBits(a: int, b: int)
    requires 0 <= b < 0x40
    ensures (a * 0x40 + b) / 0x40 == a && (a * 0x40 + b) % 0x40 == b
  {}

  lemma ReadIsUtf8(o: seq<byte>, c: char)
    requires 1 <= |o| <= 4 && FromOctets(o) == Some(c)
    ensures Octets(c) == o
  {
    var n := c as int;
    if |o| == 2 {
      SixBits(o[0] as int - 0xc0, o[1] as int - 0x80);
    } else if |o| == 3 {
      var m := (o[0] as int - 0xe0) * 0x40 + (o[1] as int - 0x80);
      SixBits(o[0] as int - 0xe0, o[1] as int - 0x80);
      SixBits(m, o[2] as int - 0x80);
      assert n / 0x1000 == n / 0x40 / 0x40;
    } else if |o| == 4 {
      LongIsUtf8(o, c);
    }
  }

  lemma LongIsUtf8(o: seq<byte>, c: char)
    requires |o| == 4 && FromOctets(o) == Some(c)
    ensures Octets(c) == o
  {
    var n, l := c as int, (o[0] as int - 0xf0) * 0x40 + (o[1] as int - 0x80);
    var m := l * 0x40 + (o[2] as int - 0x80);
    assert Continues(o[1]) && Continues(o[2]) && Continues(o[3]);
    SixBits(o[0] as int - 0xf0, o[1] as int - 0x80);
    SixBits(l, o[2] as int - 0x80);
    SixBits(m, o[3] as int - 0x80);
    assert n == m * 0x40 + (o[3] as int - 0x80);
    assert n / 0x1000 == n / 0x40 / 0x40 && n / 0x4_0000 == n / 0x1000 / 0x40;
  }

  /** Digits, and nothing else, have a value. */
  lemma HexDigitsOnly(c: char)
    ensures HexValue(c).Some? <==> c in DIGITS || 'A' <= c <= 'F' || 'a' <= c <= 'f'
    ensures HexValue(c).Some? ==> 0 <= HexValue(c).value < 16
  {
    DecimalDigits(c);
  }

  /** What is not escaped is left as it is, whatever it is: a + stays a +. */
  lemma {:induction false} PlainStays(t: string)
    requires '%' !in t
    ensures Decode(t) == Some(t)
    decreases |t|
  {
    if t != "" {
      PlainStays(t[1..]);
      assert [t[0]] + t[1..] == t;
    }
  }
}
