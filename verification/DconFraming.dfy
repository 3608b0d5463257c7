/** Framing of DCON command strings: a carriage return at the end, and before it, in the
    checksum mode, two hex digits of the sum of the characters. */
module DconFraming {
  import opened Bytes

  const ASCII_LF: byte := 10
  const ASCII_CR: byte := 13

  predicate Terminator(b: byte) {
    b == 0 || b == ASCII_CR || b == ASCII_LF
  }

  /** The characters before the first NUL, CR or LF. */
  function Body(s: seq<byte>): (body: seq<byte>)
    ensures |body| <= |s| && body == s[..|body|]
    ensures forall i :: 0 <= i < |body| ==> !Terminator(body[i])
    ensures |body| < |s| ==> Terminator(s[|body|])
  {
    if s == [] || Terminator(s[0]) then [] else [s[0]] + Body(s[1..])
  }

  /** A C string: there is something to stop at. */
  predicate Terminated(s: seq<byte>) {
    |Body(s)| < |s|
  }

  lemma {:induction false} BodyIs(s: seq<byte>, body: seq<byte>)
    requires |body| < |s| && body == s[..|body|] && Terminator(s[|body|])
    requires forall i :: 0 <= i < |body| ==> !Terminator(body[i])
    ensures Body(s) == body
  {
    if body == [] {
    } else {
      BodyIs(s[1..], body[1..]);
      assert body == [body[0]] + body[1..];
    }
  }

  function Sum(s: seq<byte>): nat {
    if s == [] then 0 else Sum(s[..|s| - 1]) + s[|s| - 1]
  }

  /** ASCII(i) */
  function HexDigit(n: int): byte
    requires 0 <= n < 16
  {
    if n < 10 then n + 48 else n - 10 + 65
  }

  /** The two check characters of a text. */
  function CheckDigits(s: seq<byte>): (d: seq<byte>)
    ensures |d| == 2 && !Terminator(d[0]) && !Terminator(d[1])
  {
    [HexDigit(Sum(s) / 16 % 16), HexDigit(Sum(s) % 16)]
  }

  /** A received text passes when its last two characters are the check characters of the rest. */
  predicate Accepts(text: seq<byte>)
    requires |text| >= 2
  {
    text[|text| - 2..] == CheckDigits(text[..|text| - 2])
  }

  /** A plain char as an int; whether it is signed depends on the target. */
  function CharValue(signedChar: bool, b: byte): int {
    if signedChar && b >= 128 then b as int - 256 else b as int
  }

  /** The copying loop of both framing functions has reached position i: the first i characters
      are in the output, and neither the rest of the output nor the rest of the command, which
      may be the same buffer, has been touched. */
  ghost predicate Copied(cbuf: array<byte>, cmd: array<byte>, out: seq<byte>, src: seq<byte>, i: nat)
    reads cbuf, cmd
  {
    && |src| == cmd.Length && |out| == cbuf.Length && i <= |src| && i <= |out|
    && (forall j :: i <= j < |src| ==> cmd[j] == src[j])
    && (forall j :: 0 <= j < i ==> cbuf[j] == src[j])
    && (forall j :: i <= j < |out| ==> cbuf[j] == out[j])
  }

  /** _i7k_gum_cr. The two buffers may be the same one. */
  method GumCr(cbuf: array<byte>, cmd: array<byte>)
    requires Terminated(cmd[..]) && cbuf.Length >= |Body(cmd[..])| + 2
    modifies cbuf
    ensures var body := old(Body(cmd[..]));
            cbuf[..] == body + [ASCII_CR, 0] + old(cbuf[..])[|body| + 2..]
  {
    ghost var src, out := cmd[..], cbuf[..];
    ghost var body := Body(src);
    var i := 0;
    while !Terminator(cmd[i])
      invariant 0 <= i <= |body| && Copied(cbuf, cmd, out, src, i)
      decreases |body| - i
    {
      cbuf[i] := cmd[i];
      i := i + 1;
    }
    assert i == |body|;
    cbuf[i] := ASCII_CR;
    cbuf[i + 1] := 0;
  }

  /** _i7k_gum_chksum. The sum is kept in an unsigned int. */
  method GumChksum(cbuf: array<byte>, cmd: array<byte>, signedChar: bool)
    requires Terminated(cmd[..]) && cbuf.Length >= |Body(cmd[..])| + 4
    modifies cbuf
    ensures var body := old(Body(cmd[..]));
            cbuf[..] == body + CheckDigits(body) + [ASCII_CR, 0] + old(cbuf[..])[|body| + 4..]
  {
    hide Body, Sum, CheckDigits, HexDigit, Congruent, AddUnsigned;
    ghost var src, out := cmd[..], cbuf[..];
    ghost var body := Body(src);
    var i, chksum := 0, 0;
    CongruentAtStart(body);
    while !Terminator(cmd[i])
      invariant 0 <= i <= |body| && Copied(cbuf, cmd, out, src, i)
      invariant Congruent(chksum, Sum(body[..i]))
      decreases |body| - i
    {
      SumStep(body, i, chksum, CharValue(signedChar, cmd[i]));
      chksum := AddUnsigned(chksum, CharValue(signedChar, cmd[i]));
      cbuf[i] := cmd[i];
      i := i + 1;
    }
    assert i == |body| && body[..i] == body;
    DigitsOfCongruent(chksum, body);
    var cL, cH := HexDigit(chksum % 16), HexDigit(chksum / 16 % 16);
    cbuf[i] := cH;
    cbuf[i + 1] := cL;
    cbuf[i + 2] := ASCII_CR;
    cbuf[i + 3] := 0;
  }

  /** _i7k_chksum: 0 if the check characters are right, -1 if not. At least two characters must
      come before the terminator, or the original reads in front of its argument. */
  method Chksum(str: array<byte>, signedChar: bool) returns (r: int)
    requires Terminated(str[..]) && |Body(str[..])| >= 2
    ensures r == if Accepts(Body(str[..])) then 0 else -1
  {
    hide Body, Sum, CheckDigits, HexDigit, Congruent, AddUnsigned;
    ghost var body := Body(str[..]);
    var p, chksum := 0, 0;
    CongruentAtStart(body);
    while !Terminator(str[p])
      invariant 0 <= p <= |body|
      invariant Congruent(chksum, Sum(body[..p]))
      decreases |body| - p
    {
      SumStep(body, p, chksum, CharValue(signedChar, str[p]));
      chksum := AddUnsigned(chksum, CharValue(signedChar, str[p]));
      p := p + 1;
    }
    assert p == |body| && body[..p] == body;
    p := p - 1;
    SumBack(body, p, chksum, CharValue(signedChar, str[p]));
    chksum := AddUnsigned(chksum, -CharValue(signedChar, str[p]));
    p := p - 1;
    SumBack(body, p, chksum, CharValue(signedChar, str[p]));
    chksum := AddUnsigned(chksum, -CharValue(signedChar, str[p]));
    DigitsOfCongruent(chksum, body[..p]);
    assert body[p..] == [str[p], str[p + 1]];
    var cL, cH := HexDigit(chksum % 16), HexDigit(chksum / 16 % 16);
    if cH != str[p] {
      return -1;
    }
    p := p + 1;
    if cL != str[p] {
      return -1;
    }
    return 0;
  }

  // ----- Sums modulo 256

  /** Addition in an unsigned int */
  function AddUnsigned(a: nat, b: int): (r: nat)
    ensures r < WORD
  {
    (a + b) % WORD
  }

  ghost predicate Congruent(a: int, b: int) {
    exists k: int :: a == b + 256 * k
  }

  lemma CongruentAtStart(body: seq<byte>)
    ensures Congruent(0, Sum(body[..0]))
  {
    var k := 0;
    assert Sum(body[..0]) == 0 == 0 + 256 * k;
  }

  lemma DigitsOfCongruent(chksum: nat, body: seq<byte>)
    requires Congruent(chksum, Sum(body))
    ensures [HexDigit(chksum / 16 % 16), HexDigit(chksum % 16)] == CheckDigits(body)
  {
    SameDigits(chksum, Sum(body));
  }

  lemma AddCongruent(a: nat, b: int, v: int, w: int)
    requires Congruent(a, b) && (v == w || v == w + 256 || v == w - 256)
    ensures Congruent(AddUnsigned(a, v), b + w)
  {
    var k :| a == b + 256 * k;
    var q := (a + v) / WORD;
    var d := if v == w then 0 else if v == w + 256 then 1 else -1;
    assert AddUnsigned(a, v) == a + v - q * WORD == b + w + 256 * (k + d - q * 0x100_0000);
  }

  lemma SumStep(body: seq<byte>, i: nat, chksum: nat, v: int)
    requires i < |body| && Congruent(chksum, Sum(body[..i]))
    requires v == body[i] as int || v == body[i] as int - 256
    ensures Congruent(AddUnsigned(chksum, v), Sum(body[..i + 1]))
  {
    assert body[..i + 1][..i] == body[..i];
    AddCongruent(chksum, Sum(body[..i]), v, body[i] as int);
  }

  lemma SumBack(body: seq<byte>, i: nat, chksum: nat, v: int)
    requires i < |body| && Congruent(chksum, Sum(body[..i + 1]))
    requires v == body[i] as int || v == body[i] as int - 256
    ensures Congruent(AddUnsigned(chksum, -v), Sum(body[..i]))
  {
    assert body[..i + 1][..i] == body[..i];
    AddCongruent(chksum, Sum(body[..i + 1]), -v, -(body[i] as int));
  }

  lemma SameDigits(a: int, b: int)
    requires Congruent(a, b)
    ensures a % 16 == b % 16 && a / 16 % 16 == b / 16 % 16 && a % 256 == b % 256
  {
    var k :| a == b + 256 * k;
    assert a / 16 == b / 16 + 16 * k;
    LowPart(b / 16, 16, k);
    LowPart(b, 16, 16 * k);
    LowPart(b, 256, k);
  }

  lemma LowPart(b: int, m: int, k: int)
    requires m == 16 || m == 256
    ensures (b + m * k) % m == b % m
  {}

  lemma {:induction false} SumAppend(a: seq<byte>, b: seq<byte>)
    ensures Sum(a + b) == Sum(a) + Sum(b)
    decreases |b|
  {
    if b == [] {
      assert a + b == a;
    } else {
      var n := |b| - 1;
      assert (a + b)[..|a + b| - 1] == a + b[..n];
      SumAppend(a, b[..n]);
    }
  }

  // ----- What the frames are good for

  /** Every framed command passes the check, and what is checked is the command with its digits. */
  lemma FramedIsAccepted(cmd: seq<byte>, rest: seq<byte>)
    ensures var framed := Body(cmd) + CheckDigits(Body(cmd)) + [ASCII_CR, 0] + rest;
            && Terminated(framed)
            && Body(framed) == Body(cmd) + CheckDigits(Body(cmd))
            && Accepts(Body(framed))
  {
    var body := Body(cmd);
    var text := body + CheckDigits(body);
    var framed := text + [ASCII_CR, 0] + rest;
    BodyIs(framed, text);
    assert text[|text| - 2..] == CheckDigits(body) && text[..|text| - 2] == body;
  }

  /** Normalising the end of line first makes no difference to the frame. */
  lemma CrFirstChangesNothing(cmd: seq<byte>, rest: seq<byte>)
    ensures Terminated(Body(cmd) + [ASCII_CR, 0] + rest)
    ensures Body(Body(cmd) + [ASCII_CR, 0] + rest) == Body(cmd)
  {
    BodyIs(Body(cmd) + [ASCII_CR, 0] + rest, Body(cmd));
  }

  lemma DigitsDetermineSum(a: seq<byte>, b: seq<byte>)
    requires CheckDigits(a) == CheckDigits(b)
    ensures Sum(a) % 256 == Sum(b) % 256
  {
    assert CheckDigits(a)[0] == CheckDigits(b)[0] && CheckDigits(a)[1] == CheckDigits(b)[1];
    assert Sum(a) / 16 % 16 == Sum(b) / 16 % 16 && Sum(a) % 16 == Sum(b) % 16;
    Nibbles(Sum(a));
    Nibbles(Sum(b));
  }

  lemma Nibbles(n: int)
    ensures n % 256 == n / 16 % 16 * 16 + n % 16
  {}

  /** Any single changed character of an accepted text is noticed, be it in the command or in the
      check characters themselves. */
  lemma SingleErrorIsRejected(text: seq<byte>, i: nat, b: byte)
    requires |text| >= 2 && Accepts(text) && i < |text| && b != text[i]
    ensures !Accepts(text[i := b])
  {
    var n := |text| - 2;
    var bad := text[i := b];
    hide CheckDigits, Sum;
    if i < n {
      assert bad[..n] == text[..n][i := b] && bad[n..] == text[n..];
      DigitsOfChanged(text[..n], i, b);
    } else {
      assert bad[..n] == text[..n] && bad[n..][i - n] != text[n..][i - n];
    }
  }

  lemma DigitsOfChanged(s: seq<byte>, i: nat, b: byte)
    requires i < |s| && b != s[i]
    ensures CheckDigits(s[i := b]) != CheckDigits(s)
  {
    hide CheckDigits, Sum;
    SumOfChanged(s, i, b);
    SmallChange(Sum(s), s[i], b);
    if CheckDigits(s[i := b]) == CheckDigits(s) {
      DigitsDetermineSum(s[i := b], s);
      assert false;
    }
  }

  lemma SmallChange(a: int, x: byte, y: byte)
    requires x != y
    ensures (a - x as int + y as int) % 256 != a % 256
  {}

  lemma SumOfChanged(s: seq<byte>, i: nat, b: byte)
    requires i < |s|
    ensures Sum(s[i := b]) == Sum(s) - s[i] as int + b as int
  {
    var left, right := s[..i], s[i + 1..];
    assert s == left + [s[i]] + right && s[i := b] == left + [b] + right;
    SumAppend(left, [s[i]]);
    SumAppend(left + [s[i]], right);
    SumAppend(left, [b]);
    SumAppend(left + [b], right);
    SumOne(s[i]);
    SumOne(b);
  }

  lemma SumOne(b: byte)
    ensures Sum([b]) == b
  {
    var none: seq<byte> := [b][..0];
    assert none == [] && Sum(none) == 0;
  }

  // ----- The characters themselves

  /** The digits are those of upper-case hexadecimal, and a command ends at NUL, LF or CR. */
  lemma CharactersAre(n: int, b: byte)
    requires 0 <= n < 16
    ensures HexDigit(n) as char == "0123456789ABCDEF"[n]
    ensures Terminator(b) <==> b == 0 || b == 10 || b == 13
    ensures ASCII_CR == 13
  {}

  /** "$01M", which asks module 01 for its name, is framed as "$01MD2" and a carriage return. */
  lemma KnownCommand()
    ensures CheckDigits([0x24, 0x30, 0x31, 0x4d]) == [0x44, 0x32]
  {
    var a, b, c: seq<byte> := [0x24], [0x24, 0x30], [0x24, 0x30, 0x31];
    var s: seq<byte> := [0x24, 0x30, 0x31, 0x4d];
    SumOne(0x24);
    SumAppend(a, [0x30]);
    SumOne(0x30);
    SumAppend(b, [0x31]);
    SumOne(0x31);
    SumAppend(c, [0x4d]);
    SumOne(0x4d);
    assert a + [0x30] == b && b + [0x31] == c && c + [0x4d] == s;
    hide Sum;
    assert Sum(s) == 0xd2;
  }
}
