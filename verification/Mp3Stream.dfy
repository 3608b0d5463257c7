/** The stream parser on values: a machine that takes one byte at a time, and the positional
    reference scanner it is compared with. The imperative parser is in module Mp32Rtp. */
module Mp3Stream {
  import opened Bytes
  import opened MpegHeader

  /** What four leading bytes announce. */
  datatype Kind = Mpeg | OldTag | Id3
  datatype Heading = Heading(kind: Kind, length: nat) | NoHeading

  const TAG_MARK: seq<byte> := [0x54, 0x41, 0x47]
  const ID3_MARK: seq<byte> := [0x49, 0x44, 0x33]

  function Recognise(buf: seq<byte>): (h: Heading)
    requires |buf| >= 4
    ensures h.Heading? ==> (h.kind == Mpeg <==> buf[0] == 0xff)
  {
    if buf[0] == 0xff && buf[1] >= 0xe0 then
      var n := FrameBytes(buf[..4]);
      if n == 0 then NoHeading else Heading(Mpeg, n)
    else if buf[..3] == TAG_MARK then Heading(OldTag, 128)
    else if buf[..3] == ID3_MARK then Heading(Id3, 24)
    else NoHeading
  }

  lemma RecogniseRange(buf: seq<byte>)
    requires |buf| >= 4
    ensures Recognise(buf).Heading? ==> 24 <= Recognise(buf).length <= 2881
    ensures Recognise(buf) == Recognise(buf[..4])
  {
    FrameBytesRange(buf[..4]);
    assert buf[..4][..4] == buf[..4] && buf[..4][..3] == buf[..3];
  }

  /** A whole frame, TAG block or ID3 block. */
  datatype Item = Item(kind: Kind, bytes: seq<byte>)

  /** What the parser does with bytes it is finished with: whole items, and bytes thrown away. */
  datatype Piece = Whole(item: Item) | Junk(b: byte)

  /** Resync is the moment inside one call when the buffer is empty and bytes other than 0xff
      are being skipped; a call never ends in it, it ends in Start([]) instead. */
  datatype State =
    | Start(held: seq<byte>)
    | Resync
    | Inside(kind: Kind, held: seq<byte>, need: nat)

  function Pending(s: State): seq<byte> {
    if s.Resync? then [] else s.held
  }

  ghost predicate Sound(s: State) {
    match s
    case Start(held) => |held| < 4
    case Resync => true
    case Inside(kind, held, need) =>
      4 <= |held| < need && 24 <= need <= 2881 && Recognise(held) == Heading(kind, need)
  }

  ghost predicate SoundItem(i: Item) {
    4 <= |i.bytes| && Recognise(i.bytes) == Heading(i.kind, |i.bytes|)
  }

  datatype Progress = Progress(state: State, pieces: seq<Piece>)

  function DropToSync(held: seq<byte>): (r: seq<byte>)
    ensures |r| <= |held| && r == held[|held| - |r|..]
    ensures r == [] || r[0] == 0xff
  {
    if held == [] || held[0] == 0xff then held else DropToSync(held[1..])
  }

  function JunkOf(bytes: seq<byte>): (ps: seq<Piece>)
    ensures |ps| == |bytes|
    ensures forall i :: 0 <= i < |bytes| ==> ps[i] == Junk(bytes[i])
  {
    seq(|bytes|, i requires 0 <= i < |bytes| => Junk(bytes[i]))
  }

  /** Four bytes are in the buffer: enter an item, or throw away the first byte and all that
      follow it up to a 0xff. */
  function Decide(buf: seq<byte>): (p: Progress)
    requires |buf| == 4
  {
    match Recognise(buf)
    case Heading(kind, length) => Progress(Inside(kind, buf, length), [])
    case NoHeading =>
      var rest := DropToSync(buf[1..]);
      Progress(if rest == [] then Resync else Start(rest), JunkOf(buf[..4 - |rest|]))
  }

  function Step(s: State, b: byte): (p: Progress)
    requires Sound(s)
  {
    match s
    case Start(held) =>
      if |held| < 3 then Progress(Start(held + [b]), []) else Decide(held + [b])
    case Resync =>
      if b == 0xff then Progress(Start([b]), []) else Progress(Resync, [Junk(b)])
    case Inside(kind, held, need) =>
      if |held| + 1 == need then Progress(Start([]), [Whole(Item(kind, held + [b]))])
      else Progress(Inside(kind, held + [b], need), [])
  }

  lemma StepSound(s: State, b: byte)
    requires Sound(s)
    ensures Sound(Step(s, b).state)
    ensures forall p :: p in Step(s, b).pieces && p.Whole? ==> SoundItem(p.item)
  {
    match s
    case Start(held) =>
      if |held| == 3 {
        RecogniseRange(held + [b]);
      }
    case Resync =>
    case Inside(kind, held, need) =>
      RecogniseRange(held);
      RecogniseRange(held + [b]);
      assert (held + [b])[..4] == held[..4];
  }

  function Run(s: State, data: seq<byte>): (p: Progress)
    requires Sound(s)
    ensures Sound(p.state)
    decreases |data|
  {
    if data == [] then Progress(s, [])
    else
      StepSound(s, data[0]);
      var first := Step(s, data[0]);
      var rest := Run(first.state, data[1..]);
      Progress(rest.state, first.pieces + rest.pieces)
  }

  lemma {:induction false} RunAppend(s: State, a: seq<byte>, b: seq<byte>)
    requires Sound(s)
    ensures var p := Run(s, a); var q := Run(p.state, b);
            Run(s, a + b) == Progress(q.state, p.pieces + q.pieces)
    decreases |a|
  {
    hide Step, Sound;
    if a == [] {
      assert a + b == b;
      assert [] + Run(s, b).pieces == Run(s, b).pieces;
    } else {
      StepSound(s, a[0]);
      assert (a + b)[0] == a[0] && (a + b)[1..] == a[1..] + b;
      var first := Step(s, a[0]);
      RunAppend(first.state, a[1..], b);
      var p := Run(first.state, a[1..]);
      var q := Run(p.state, b);
      assert first.pieces + (p.pieces + q.pieces) == first.pieces + p.pieces + q.pieces;
    }
  }

  lemma RunOne(s: State, b: byte)
    requires Sound(s)
    ensures Run(s, [b]) == Step(s, b)
  {
    var none: seq<byte> := [b][1..];
    assert none == [];
    StepSound(s, b);
    assert Run(Step(s, b).state, none) == Progress(Step(s, b).state, []);
    assert Step(s, b).pieces + [] == Step(s, b).pieces;
  }

  /** Bytes that neither fill the buffer nor finish the item are held. */
  lemma {:induction false} HoldOn(s: State, chunk: seq<byte>)
    requires Sound(s) && !s.Resync?
    requires |s.held| + |chunk| < (if s.Start? then 4 else s.need)
    ensures Run(s, chunk) == Progress(s.(held := s.held + chunk), [])
    decreases |chunk|
  {
    if chunk == [] {
      assert s.held + chunk == s.held;
    } else {
      assert s.held + chunk == s.held + [chunk[0]] + chunk[1..];
      StepSound(s, chunk[0]);
      HoldOn(s.(held := s.held + [chunk[0]]), chunk[1..]);
    }
  }

  /** The byte that fills the buffer, or finishes the item, decides. */
  lemma {:induction false} FillUp(s: State, chunk: seq<byte>)
    requires Sound(s) && !s.Resync? && chunk != []
    requires |s.held| + |chunk| == (if s.Start? then 4 else s.need)
    ensures Run(s, chunk)
         == if s.Start? then Decide(s.held + chunk)
            else Progress(Start([]), [Whole(Item(s.kind, s.held + chunk))])
  {
    hide Run, Recognise, Decide;
    var n := |chunk| - 1;
    HoldOn(s, chunk[..n]);
    RunAppend(s, chunk[..n], [chunk[n]]);
    assert chunk == chunk[..n] + [chunk[n]];
    var t := s.(held := s.held + chunk[..n]);
    RunOne(t, chunk[n]);
    assert s.held + chunk == t.held + [chunk[n]];
    assert [] + Step(t, chunk[n]).pieces == Step(t, chunk[n]).pieces;
  }

  /** The end of a call forgets that bytes were being skipped. */
  function Rest(s: State): (r: State)
    ensures Sound(s) ==> Sound(r)
    ensures Pending(r) == Pending(s)
  {
    if s.Resync? then Start([]) else s
  }

  /** One call of the parser on one block. */
  function ParseBlock(s: State, block: seq<byte>): (p: Progress)
    requires Sound(s)
    ensures Sound(p.state) && !p.state.Resync?
  {
    var p := Run(s, block);
    Progress(Rest(p.state), p.pieces)
  }

  /** One call after another. */
  function ParseBlocks(s: State, blocks: seq<seq<byte>>): (p: Progress)
    requires Sound(s)
    ensures Sound(p.state)
    decreases |blocks|
  {
    if blocks == [] then Progress(s, [])
    else
      var first := ParseBlock(s, blocks[0]);
      var rest := ParseBlocks(first.state, blocks[1..]);
      Progress(rest.state, first.pieces + rest.pieces)
  }

  function Flatten(blocks: seq<seq<byte>>): seq<byte> {
    if blocks == [] then [] else blocks[0] + Flatten(blocks[1..])
  }

  /** The items among the pieces, in order. */
  function Items(pieces: seq<Piece>): seq<Item> {
    if pieces == [] then [] else Taken(pieces[0]) + Items(pieces[1..])
  }

  function Taken(p: Piece): seq<Item> {
    if p.Whole? then [p.item] else []
  }

  /** What a parse amounts to: the whole items, and the one it is in the middle of. */
  datatype Parsed = Parsed(items: seq<Item>, open: seq<Item>)

  function Prepend(items: seq<Item>, p: Parsed): Parsed {
    Parsed(items + p.items, p.open)
  }

  lemma PrependNothing(p: Parsed)
    ensures Prepend([], p) == p
  {
    assert [] + p.items == p.items;
  }

  function Open(s: State): seq<Item> {
    if s.Inside? then [Item(s.kind, s.held)] else []
  }

  function Seen(p: Progress): Parsed {
    Parsed(Items(p.pieces), Open(p.state))
  }

  /** The reference scanner: no buffer, no blocks, no fast skip. At each position it either
      takes the item announced there or moves on by one byte. */
  function Scan(stream: seq<byte>): Parsed
    decreases |stream|
  {
    if |stream| < 4 then Parsed([], [])
    else
      RecogniseRange(stream);
      match Recognise(stream)
      case Heading(kind, length) =>
        if length <= |stream| then Prepend([Item(kind, stream[..length])], Scan(stream[length..]))
        else Parsed([], [Item(kind, stream)])
      case NoHeading => Scan(stream[1..])
  }

  /** In the scanner's reading, no TAG or ID3 block comes right after a skipped byte. The flag
      says whether the byte just before the stream was skipped. */
  predicate Aligned(stream: seq<byte>, afterJunk: bool)
    decreases |stream|
  {
    if |stream| < 4 then true
    else
      RecogniseRange(stream);
      match Recognise(stream)
      case Heading(kind, length) =>
        (kind == Mpeg || !afterJunk) && (length <= |stream| ==> Aligned(stream[length..], false))
      case NoHeading => Aligned(stream[1..], true)
  }

  lemma {:induction false} ItemsAppend(a: seq<Piece>, b: seq<Piece>)
    ensures Items(a + b) == Items(a) + Items(b)
  {
    if a == [] {
      assert a + b == b;
    } else {
      assert (a + b)[0] == a[0] && (a + b)[1..] == a[1..] + b;
      ItemsAppend(a[1..], b);
      assert Taken(a[0]) + (Items(a[1..]) + Items(b)) == Taken(a[0]) + Items(a[1..]) + Items(b);
    }
  }

  lemma {:induction false} ItemsOfJunk(bytes: seq<byte>)
    ensures Items(JunkOf(bytes)) == []
  {
    if bytes != [] {
      assert JunkOf(bytes)[1..] == JunkOf(bytes[1..]);
      ItemsOfJunk(bytes[1..]);
    }
  }

  // ----- One step against the scanner

  lemma AlignedWeaken(stream: seq<byte>)
    requires Aligned(stream, true)
    ensures Aligned(stream, false)
  {}

  /** A byte other than 0xff, right after a skipped one, is skipped by the scanner too. */
  lemma SkipNonSync(stream: seq<byte>)
    requires stream != [] && stream[0] != 0xff
    requires Aligned(stream, true)
    ensures Scan(stream) == Scan(stream[1..])
    ensures Aligned(stream[1..], true)
  {}

  lemma {:induction false} SkipToSync(held: seq<byte>, rest: seq<byte>)
    requires Aligned(held + rest, true)
    ensures Scan(held + rest) == Scan(DropToSync(held) + rest)
    ensures Aligned(DropToSync(held) + rest, true)
  {
    if held != [] && held[0] != 0xff {
      SkipNonSync(held + rest);
      assert (held + rest)[1..] == held[1..] + rest;
      SkipToSync(held[1..], rest);
    }
  }

  lemma {:induction false} DecideAgrees(buf: seq<byte>, rest: seq<byte>)
    requires |buf| == 4 && Aligned(buf + rest, false)
    ensures var p := Decide(buf);
            && Scan(buf + rest) == Prepend(Items(p.pieces), Scan(Pending(p.state) + rest))
            && Aligned(Pending(p.state) + rest, p.state.Resync?)
  {
    hide Recognise, DropToSync, Items, JunkOf;
    var all := buf + rest;
    assert all[..4] == buf;
    RecogniseRange(all);
    PrependNothing(Scan(all));
    if Recognise(buf).NoHeading? {
      var kept := DropToSync(buf[1..]);
      assert all[1..] == buf[1..] + rest;
      assert Scan(all) == Scan(buf[1..] + rest) && Aligned(buf[1..] + rest, true);
      hide Scan, Aligned;
      SkipToSync(buf[1..], rest);
      ItemsOfJunk(buf[..4 - |kept|]);
      PrependNothing(Scan(kept + rest));
      if kept != [] {
        AlignedWeaken(kept + rest);
      }
    } else {
      PrependNoItems(Scan(all));
    }
  }

  lemma ItemsOfOne(p: Piece)
    ensures Items([p]) == Taken(p)
  {
    assert [p][1..] == [] && Taken(p) + [] == Taken(p);
  }

  lemma PrependNoItems(p: Parsed)
    ensures Prepend(Items([]), p) == p
  {}

  lemma {:induction false} CompleteAgrees(kind: Kind, held: seq<byte>, rest: seq<byte>)
    requires SoundItem(Item(kind, held)) && Aligned(held + rest, false)
    ensures Scan(held + rest) == Prepend([Item(kind, held)], Scan(rest))
    ensures Aligned(rest, false)
  {
    var all := held + rest;
    RecogniseRange(held);
    RecogniseRange(all);
    assert all[..4] == held[..4];
    assert all[..|held|] == held && all[|held|..] == rest;
  }

  /** One byte through the machine leaves the scanner's answer for everything still to come. */
  lemma {:induction false} StepAgrees(s: State, b: byte, rest: seq<byte>)
    requires Sound(s)
    requires Aligned(Pending(s) + [b] + rest, s.Resync?)
    ensures var p := Step(s, b);
            && Scan(Pending(s) + [b] + rest) == Prepend(Items(p.pieces), Scan(Pending(p.state) + rest))
            && Aligned(Pending(p.state) + rest, p.state.Resync?)
  {
    hide Scan, Aligned, Recognise, Decide, Items;
    StepSound(s, b);
    var p := Step(s, b);
    PrependNoItems(Scan(Pending(p.state) + rest));
    match s
    case Start(held) =>
      if |held| == 3 {
        DecideAgrees(held + [b], rest);
      }
    case Resync =>
      assert [] + [b] + rest == [b] + rest && [] + rest == rest;
      if b == 0xff {
        AlignedWeaken([b] + rest);
      } else {
        SkipNonSync([b] + rest);
        assert ([b] + rest)[1..] == rest;
        ItemsOfOne(Junk(b));
      }
    case Inside(kind, held, need) =>
      if |held| + 1 == need {
        CompleteAgrees(kind, held + [b], rest);
        ItemsOfOne(Whole(Item(kind, held + [b])));
        assert [] + rest == rest;
      }
  }
}
