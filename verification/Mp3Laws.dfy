/** Consequences for whole streams: conservation of bytes, the law for splitting a block, and
    the streams every chunking reads alike. */
module Mp3Laws {
  import opened Bytes
  import opened MpegHeader
  import opened Mp3Stream
  import opened Mp3Chunking

  // ----- Every byte is accounted for

  function BytesOfPiece(p: Piece): seq<byte> {
    match p
    case Whole(item) => item.bytes
    case Junk(b) => [b]
  }

  function BytesOf(pieces: seq<Piece>): seq<byte> {
    if pieces == [] then [] else BytesOfPiece(pieces[0]) + BytesOf(pieces[1..])
  }

  lemma {:induction false} BytesOfAppend(a: seq<Piece>, b: seq<Piece>)
    ensures BytesOf(a + b) == BytesOf(a) + BytesOf(b)
  {
    if a == [] {
      assert a + b == b;
    } else {
      assert (a + b)[0] == a[0] && (a + b)[1..] == a[1..] + b;
      BytesOfAppend(a[1..], b);
      assert BytesOfPiece(a[0]) + (BytesOf(a[1..]) + BytesOf(b)) == BytesOfPiece(a[0]) + BytesOf(a[1..]) + BytesOf(b);
    }
  }

  lemma {:induction false} BytesOfJunk(bytes: seq<byte>)
    ensures BytesOf(JunkOf(bytes)) == bytes
  {
    if bytes != [] {
      assert JunkOf(bytes)[1..] == JunkOf(bytes[1..]);
      BytesOfJunk(bytes[1..]);
    }
  }

  ghost predicate SoundPieces(pieces: seq<Piece>) {
    forall p :: p in pieces && p.Whole? ==> SoundItem(p.item)
  }

  ghost predicate Conserves(s: State, data: seq<byte>, p: Progress) {
    BytesOf(p.pieces) + Pending(p.state) == Pending(s) + data && SoundPieces(p.pieces)
  }

  lemma ConservesCompose(s: State, a: seq<byte>, b: seq<byte>, p: Progress, q: Progress)
    requires Conserves(s, a, p) && Conserves(p.state, b, q)
    ensures Conserves(s, a + b, Progress(q.state, p.pieces + q.pieces))
  {
    hide BytesOf, SoundItem;
    BytesOfAppend(p.pieces, q.pieces);
    var pp, qp := BytesOf(p.pieces), BytesOf(q.pieces);
    assert pp + qp + Pending(q.state) == pp + (qp + Pending(q.state)) == pp + Pending(p.state) + b;
    assert Pending(s) + (a + b) == Pending(s) + a + b;
  }

  lemma BytesOfNothing()
    ensures BytesOf([]) == []
  {}

  lemma DecideConserves(buf: seq<byte>)
    requires |buf| == 4
    ensures BytesOf(Decide(buf).pieces) + Pending(Decide(buf).state) == buf
  {
    hide Recognise, DropToSync, BytesOf, JunkOf;
    var kept := DropToSync(buf[1..]);
    BytesOfJunk(buf[..4 - |kept|]);
    assert kept == buf[4 - |kept|..];
    assert BytesOf([]) == [] by {
      BytesOfNothing();
    }
  }

  lemma {:induction false} StepConserves(s: State, b: byte)
    requires Sound(s)
    ensures Conserves(s, [b], Step(s, b))
  {
    hide Recognise, SoundItem;
    StepSound(s, b);
    var held := Pending(s) + [b];
    match s
    case Start(_) =>
      if |held| == 4 {
        DecideConserves(held);
      }
    case Resync =>
      BytesOfJunk([b]);
      assert JunkOf([b]) == [Junk(b)];
    case Inside(_, _, _) =>
      var item := Item(s.kind, held);
      assert BytesOf([Whole(item)]) == held + [];
  }

  lemma {:induction false} RunConserves(s: State, data: seq<byte>)
    requires Sound(s)
    ensures Conserves(s, data, Run(s, data))
    decreases |data|
  {
    if data == [] {
    } else {
      StepConserves(s, data[0]);
      StepSound(s, data[0]);
      RunConserves(Step(s, data[0]).state, data[1..]);
      ConservesCompose(s, [data[0]], data[1..], Step(s, data[0]), Run(Step(s, data[0]).state, data[1..]));
      assert [data[0]] + data[1..] == data;
    }
  }

  /** Pieces and held-back bytes, laid end to end, are the input; every item is as long as its
      own heading says. */
  lemma {:induction false} Conservation(s: State, blocks: seq<seq<byte>>)
    requires Sound(s)
    ensures Conserves(s, Flatten(blocks), ParseBlocks(s, blocks))
    decreases |blocks|
  {
    if blocks == [] {
    } else {
      RunConserves(s, blocks[0]);
      var first := ParseBlock(s, blocks[0]);
      Conservation(first.state, blocks[1..]);
      ConservesCompose(s, blocks[0], Flatten(blocks[1..]), first, ParseBlocks(first.state, blocks[1..]));
    }
  }

  function Offset(pieces: seq<Piece>, i: nat): nat
    requires i <= |pieces|
  {
    |BytesOf(pieces[..i])|
  }

  lemma OffsetStep(pieces: seq<Piece>, i: nat)
    requires i < |pieces|
    ensures Offset(pieces, i + 1) == Offset(pieces, i) + |BytesOfPiece(pieces[i])| <= |BytesOf(pieces)|
    ensures BytesOf(pieces)[Offset(pieces, i)..Offset(pieces, i + 1)] == BytesOfPiece(pieces[i])
  {
    var piece := [pieces[i]];
    assert pieces[..i + 1] == pieces[..i] + piece;
    BytesOfAppend(pieces[..i], piece);
    assert BytesOf(piece) == BytesOfPiece(pieces[i]) + [] == BytesOfPiece(pieces[i]);
    assert pieces == pieces[..i + 1] + pieces[i + 1..];
    BytesOfAppend(pieces[..i + 1], pieces[i + 1..]);
  }

  lemma {:induction false} OffsetMono(pieces: seq<Piece>, i: nat, j: nat)
    requires i <= j <= |pieces|
    ensures Offset(pieces, i) <= Offset(pieces, j)
    decreases j
  {
    if i < j {
      OffsetStep(pieces, j - 1);
      OffsetMono(pieces, i, j - 1);
    }
  }

  /** From reset, any two pieces are slices of the input that do not overlap and keep their order. */
  lemma PiecesAreSlices(blocks: seq<seq<byte>>, i: nat, j: nat)
    requires i < j < |ParseBlocks(Start([]), blocks).pieces|
    ensures var stream := Flatten(blocks); var ps := ParseBlocks(Start([]), blocks).pieces;
            && Offset(ps, i) + |BytesOfPiece(ps[i])| <= Offset(ps, j)
            && Offset(ps, j) + |BytesOfPiece(ps[j])| <= |stream|
            && stream[Offset(ps, i)..][..|BytesOfPiece(ps[i])|] == BytesOfPiece(ps[i])
            && stream[Offset(ps, j)..][..|BytesOfPiece(ps[j])|] == BytesOfPiece(ps[j])
  {
    hide ParseBlocks, Flatten, BytesOf, Pending, Offset, BytesOfPiece;
    var p := ParseBlocks(Start([]), blocks);
    Conservation(Start([]), blocks);
    PendingFromReset();
    var stream := BytesOf(p.pieces) + Pending(p.state);
    assert [] + Flatten(blocks) == Flatten(blocks) == stream;
    OffsetStep(p.pieces, i);
    OffsetStep(p.pieces, j);
    OffsetMono(p.pieces, i + 1, j);
    SliceOfPrefix(BytesOf(p.pieces), Pending(p.state), Offset(p.pieces, i), |BytesOfPiece(p.pieces[i])|);
    SliceOfPrefix(BytesOf(p.pieces), Pending(p.state), Offset(p.pieces, j), |BytesOfPiece(p.pieces[j])|);
  }

  lemma PendingFromReset()
    ensures Pending(Start([])) == []
  {}

  lemma SliceOfPrefix(a: seq<byte>, b: seq<byte>, at: nat, n: nat)
    requires at + n <= |a|
    ensures (a + b)[at..][..n] == a[at..at + n]
  {}

  function CountKind(pieces: seq<Piece>, kind: Kind): nat {
    if pieces == [] then 0
    else (if pieces[0].Whole? && pieces[0].item.kind == kind then 1 else 0) + CountKind(pieces[1..], kind)
  }

  function CountJunk(pieces: seq<Piece>): nat {
    if pieces == [] then 0 else (if pieces[0].Junk? then 1 else 0) + CountJunk(pieces[1..])
  }

  function FrameTotal(pieces: seq<Piece>): nat {
    if pieces == [] then 0
    else (if pieces[0].Whole? && pieces[0].item.kind == Mpeg then |pieces[0].item.bytes| else 0) + FrameTotal(pieces[1..])
  }

  lemma {:induction false} TallyOfPieces(pieces: seq<Piece>)
    requires SoundPieces(pieces)
    ensures |BytesOf(pieces)|
         == FrameTotal(pieces) + 24 * CountKind(pieces, Id3) + 128 * CountKind(pieces, OldTag) + CountJunk(pieces)
  {
    if pieces != [] {
      assert pieces[0] in pieces && forall p :: p in pieces[1..] ==> p in pieces;
      TallyOfPieces(pieces[1..]);
      TallyOfPiece(pieces[0]);
    }
  }

  lemma TallyOfPiece(p: Piece)
    requires p.Whole? ==> SoundItem(p.item)
    ensures |BytesOfPiece(p)| == match p
                                 case Junk(_) => 1
                                 case Whole(Item(kind, bytes)) =>
                                   if kind == Mpeg then |bytes| else if kind == Id3 then 24 else 128
  {}

  /** Bytes in = frame bytes + 24 per ID3 block + 128 per TAG block + bytes skipped + bytes held. */
  lemma Tally(blocks: seq<seq<byte>>)
    ensures var p := ParseBlocks(Start([]), blocks);
            |Flatten(blocks)| == FrameTotal(p.pieces) + 24 * CountKind(p.pieces, Id3)
                                 + 128 * CountKind(p.pieces, OldTag) + CountJunk(p.pieces) + |Pending(p.state)|
  {
    Conservation(Start([]), blocks);
    TallyOfPieces(ParseBlocks(Start([]), blocks).pieces);
  }

  /** The state between calls: fewer than four bytes outside an item, and inside one a length of
      24 to 2881 of which the last value belongs to the oversized header class alone. */
  lemma BufferBounds(s: State, blocks: seq<seq<byte>>)
    requires Sound(s) && !s.Resync?
    ensures match ParseBlocks(s, blocks).state
            case Start(held) => |held| < 4
            case Resync => false
            case Inside(kind, held, need) =>
              && 4 <= |held| < need && 24 <= need
              && (need <= 2880 || (need == 2881 && kind == Mpeg && Oversized(HeaderFields(held[..4]))))
    decreases |blocks|
  {
    var t := ParseBlocks(s, blocks).state;
    if blocks != [] {
      BufferBounds(ParseBlock(s, blocks[0]).state, blocks[1..]);
    } else if t.Inside? {
      FrameBytesRange(t.held[..4]);
    }
  }

  // ----- Splitting one block in two

  /** The call ended inside the skip exactly when it ended with nothing held and a byte thrown
      away last. */
  lemma {:induction false} EndedSkipping(s: State, data: seq<byte>)
    requires Sound(s)
    ensures var p := Run(s, data);
            p.pieces != [] && Pending(p.state) == [] ==> (p.state.Resync? <==> p.pieces[|p.pieces| - 1].Junk?)
    ensures Run(s, data).pieces == [] && Pending(Run(s, data).state) == [] ==> data == [] && Run(s, data).state == s
    decreases |data|
  {
    hide Recognise, DropToSync;
    RunConserves(s, data);
    if data != [] {
      var first := Step(s, data[0]);
      StepSound(s, data[0]);
      EndedSkipping(first.state, data[1..]);
      assert first.state.Resync? ==> first.pieces != [];
    }
  }

  /** Parsing a block in two calls is the same as in one, states and pieces alike, unless the
      first call ended inside the skip and the second one starts with a byte to be skipped. */
  lemma {:induction false} SplitLaw(s: State, a: seq<byte>, b: seq<byte>)
    requires Sound(s)
    ensures b == [] || b[0] == 0xff || !Run(s, a).state.Resync? ==> ParseBlocks(s, [a, b]) == ParseBlock(s, a + b)
  {
    RunAppend(s, a, b);
    var p := Run(s, a);
    if p.state.Resync? && b != [] && b[0] == 0xff {
      assert Step(Resync, 0xff) == Step(Start([]), 0xff) == Progress(Start([0xff]), []);
    }
    TwoBlocks(s, a, b);
  }

  lemma TwoBlocks(s: State, a: seq<byte>, b: seq<byte>)
    requires Sound(s)
    ensures var p := ParseBlock(s, a); var q := ParseBlock(p.state, b);
            ParseBlocks(s, [a, b]) == Progress(q.state, p.pieces + q.pieces)
  {
    hide Run, Sound;
    var p := ParseBlock(s, a);
    var q := ParseBlock(p.state, b);
    assert [a, b][1..] == [b] && [b][1..] == [];
    assert ParseBlocks(q.state, []) == Progress(q.state, []);
    assert ParseBlocks(p.state, [b]) == Progress(q.state, q.pieces + []);
    assert q.pieces + [] == q.pieces;
  }

  /** The exact law, as a caller sees it: a cut after `a` is harmless for every continuation if
      and only if parsing `a` did not end with an empty buffer and a byte thrown away last. */
  lemma SplitLawExactly(s: State, a: seq<byte>)
    requires Sound(s) && !s.Resync?
    ensures var p := ParseBlock(s, a);
            (forall b :: ParseBlocks(s, [a, b]) == ParseBlock(s, a + b))
            <==> !(p.state == Start([]) && p.pieces != [] && p.pieces[|p.pieces| - 1].Junk?)
  {
    hide Run, ParseBlocks;
    EndedSkipping(s, a);
    forall b | !Run(s, a).state.Resync?
      ensures ParseBlocks(s, [a, b]) == ParseBlock(s, a + b)
    {
      SplitLaw(s, a, b);
    }
    if Run(s, a).state.Resync? {
      CutInsideSkip(s, a);
    }
  }

  lemma CutInsideSkip(s: State, a: seq<byte>)
    requires Sound(s) && Run(s, a).state.Resync?
    ensures ParseBlocks(s, [a, [0x54]]) != ParseBlock(s, a + [0x54])
  {
    RunAppend(s, a, [0x54]);
    TwoBlocks(s, a, [0x54]);
    RunOne(Resync, 0x54);
    RunOne(Start([]), 0x54);
    hide Run, ParseBlocks;
    assert Step(Start([]), 0x54).state == Start([0x54]) && Step(Resync, 0x54).state == Resync;
  }

  // ----- Streams that every chunking reads alike

  predicate MarkAt(stream: seq<byte>, i: nat) {
    i + 3 <= |stream| && (stream[i..i + 3] == TAG_MARK || stream[i..i + 3] == ID3_MARK)
  }

  predicate TagFree(stream: seq<byte>) {
    forall i :: 0 <= i <= |stream| ==> !MarkAt(stream, i)
  }

  lemma TagFreeSuffix(stream: seq<byte>, k: nat)
    requires TagFree(stream) && k <= |stream|
    ensures TagFree(stream[k..])
  {
    var suffix := stream[k..];
    forall i | 0 <= i <= |suffix|
      ensures !MarkAt(suffix, i)
    {
      assert !MarkAt(stream, k + i);
      assert i + 3 <= |suffix| ==> suffix[i..i + 3] == stream[k + i..k + i + 3];
    }
  }

  lemma TagFreeHead(stream: seq<byte>)
    requires TagFree(stream) && |stream| >= 4
    ensures Recognise(stream).Heading? ==> Recognise(stream).kind == Mpeg
  {
    assert !MarkAt(stream, 0) && stream[0..0 + 3] == stream[..3];
  }

  /** Frames alone: the left-to-right scanner for a stream without tags. */
  function FrameScan(stream: seq<byte>): seq<seq<byte>>
    decreases |stream|
  {
    if |stream| < 4 then []
    else
      FrameBytesRange(stream[..4]);
      var n := FrameBytes(stream[..4]);
      if stream[0] == 0xff && stream[1] >= 0xe0 && n != 0 then
        if n <= |stream| then [stream[..n]] + FrameScan(stream[n..]) else []
      else FrameScan(stream[1..])
  }

  function FramesOf(items: seq<Item>): seq<seq<byte>> {
    if items == [] then []
    else (if items[0].kind == Mpeg then [items[0].bytes] else []) + FramesOf(items[1..])
  }

  lemma {:induction false} TagFreeScan(stream: seq<byte>, afterJunk: bool)
    requires TagFree(stream)
    ensures Aligned(stream, afterJunk)
    ensures FramesOf(Scan(stream).items) == FrameScan(stream)
    decreases |stream|
  {
    if |stream| >= 4 {
      RecogniseRange(stream);
      TagFreeHead(stream);
      FrameBytesRange(stream[..4]);
      match Recognise(stream)
      case Heading(kind, length) =>
        if length <= |stream| {
          TagFreeSuffix(stream, length);
          TagFreeScan(stream[length..], false);
          var rest := Scan(stream[length..]).items;
          assert ([Item(kind, stream[..length])] + rest)[1..] == rest;
        }
      case NoHeading =>
        TagFreeSuffix(stream, 1);
        TagFreeScan(stream[1..], true);
    }
  }

  /** On a stream without tags the frames delivered are those of the plain scanner, under every
      chunking. */
  lemma TagFreeStreams(blocks: seq<seq<byte>>)
    requires TagFree(Flatten(blocks))
    ensures FramesOf(Items(ParseBlocks(Start([]), blocks).pieces)) == FrameScan(Flatten(blocks))
  {
    TagFreeScan(Flatten(blocks), false);
    AnyChunking(blocks);
  }

  /** A stream laid out as whole items with noise between them. */
  datatype Segment = Good(item: Item) | Noise(bytes: seq<byte>)

  /** Noise holds no 0xff and no tag mark. */
  predicate Quiet(bytes: seq<byte>) {
    (forall i :: 0 <= i < |bytes| ==> bytes[i] != 0xff) && TagFree(bytes)
  }

  /** Noise stands at an item boundary, before a frame or at the end of the stream. */
  ghost predicate WellLaid(segments: seq<Segment>) {
    segments == [] ||
    (WellLaid(segments[1..]) &&
     match segments[0]
     case Good(item) => SoundItem(item)
     case Noise(bytes) => Quiet(bytes) && (|segments| == 1 || (segments[1].Good? && segments[1].item.kind == Mpeg)))
  }

  function Layout(segments: seq<Segment>): seq<byte> {
    if segments == [] then []
    else (if segments[0].Good? then segments[0].item.bytes else segments[0].bytes) + Layout(segments[1..])
  }

  function Goods(segments: seq<Segment>): seq<Item> {
    if segments == [] then []
    else (if segments[0].Good? then [segments[0].item] else []) + Goods(segments[1..])
  }

  lemma {:induction false} NoiseIsPassed(noise: seq<byte>, rest: seq<byte>, afterJunk: bool)
    requires Quiet(noise) && (rest == [] || rest[0] == 0xff) && Aligned(rest, false)
    ensures Scan(noise + rest) == Scan(rest) && Aligned(noise + rest, afterJunk)
  {
    var all := noise + rest;
    if noise == [] {
      assert all == rest;
      if rest != [] {
        SyncedAligned(rest);
      }
    } else if |all| >= 4 {
      TagFreeSuffix(noise, 1);
      assert all[1..] == noise[1..] + rest;
      NoiseIsPassed(noise[1..], rest, true);
      NoTagAcross(noise, rest);
    }
  }

  lemma NoTagAcross(noise: seq<byte>, rest: seq<byte>)
    requires noise != [] && Quiet(noise) && (rest == [] || rest[0] == 0xff) && |noise + rest| >= 4
    ensures Recognise(noise + rest).NoHeading?
  {
    var all := noise + rest;
    if |noise| >= 3 {
      assert !MarkAt(noise, 0) && all[..3] == noise[0..0 + 3];
    } else {
      assert all[..3][|noise|] == 0xff;
    }
  }

  lemma {:induction false} ScanOfLayout(segments: seq<Segment>)
    requires WellLaid(segments)
    ensures Scan(Layout(segments)) == Parsed(Goods(segments), [])
    ensures Aligned(Layout(segments), false)
  {
    if segments != [] {
      var rest := Layout(segments[1..]);
      ScanOfLayout(segments[1..]);
      match segments[0]
      case Good(item) =>
        ItemBefore(item, rest);
      case Noise(bytes) =>
        if |segments| > 1 {
          assert rest[0] == segments[1].item.bytes[0] == 0xff;
        }
        NoiseIsPassed(bytes, rest, false);
        assert [] + Goods(segments[1..]) == Goods(segments[1..]);
    }
  }

  lemma ItemBefore(item: Item, rest: seq<byte>)
    requires SoundItem(item) && Aligned(rest, false)
    ensures Scan(item.bytes + rest) == Prepend([item], Scan(rest))
    ensures Aligned(item.bytes + rest, false)
  {
    var all := item.bytes + rest;
    RecogniseRange(item.bytes);
    RecogniseRange(all);
    assert all[..4] == item.bytes[..4];
    assert all[..|item.bytes|] == item.bytes && all[|item.bytes|..] == rest;
  }

  /** Frames, TAG and ID3 blocks, with any amount of noise before frames: every chunking delivers
      exactly the items, in order, and without noise it ends with an empty buffer. */
  lemma LaidOutStreams(segments: seq<Segment>, blocks: seq<seq<byte>>)
    requires WellLaid(segments) && Flatten(blocks) == Layout(segments)
    ensures var p := ParseBlocks(Start([]), blocks);
            && Items(p.pieces) == Goods(segments)
            && p.state.Start?
            && ((forall g :: g in segments ==> g.Good?) ==> p.state == Start([]) && CountJunk(p.pieces) == 0)
  {
    ScanOfLayout(segments);
    AnyChunking(blocks);
    var p := ParseBlocks(Start([]), blocks);
    BufferBounds(Start([]), blocks);
    if forall g :: g in segments ==> g.Good? {
      Conservation(Start([]), blocks);
      LengthOfPieces(p.pieces);
      LengthOfLayout(segments);
    }
  }

  function TotalLength(items: seq<Item>): nat {
    if items == [] then 0 else |items[0].bytes| + TotalLength(items[1..])
  }

  lemma {:induction false} LengthOfPieces(pieces: seq<Piece>)
    ensures |BytesOf(pieces)| == TotalLength(Items(pieces)) + CountJunk(pieces)
  {
    if pieces != [] {
      LengthOfPieces(pieces[1..]);
      if pieces[0].Whole? {
        assert Items(pieces)[1..] == Items(pieces[1..]);
      } else {
        assert [] + Items(pieces[1..]) == Items(pieces[1..]);
      }
    }
  }

  lemma {:induction false} LengthOfLayout(segments: seq<Segment>)
    requires forall g :: g in segments ==> g.Good?
    ensures |Layout(segments)| == TotalLength(Goods(segments))
  {
    if segments != [] {
      assert segments[0] in segments && forall g :: g in segments[1..] ==> g in segments;
      LengthOfLayout(segments[1..]);
      assert Goods(segments)[1..] == Goods(segments[1..]);
    }
  }

  /** Recovery: taking the noise out changes nothing that is delivered. */
  lemma NoiseCostsNothing(noisy: seq<Segment>, clean: seq<Segment>, a: seq<seq<byte>>, b: seq<seq<byte>>)
    requires WellLaid(noisy) && WellLaid(clean) && Goods(noisy) == Goods(clean)
    requires Flatten(a) == Layout(noisy) && Flatten(b) == Layout(clean)
    ensures Items(ParseBlocks(Start([]), a).pieces) == Items(ParseBlocks(Start([]), b).pieces)
  {
    LaidOutStreams(noisy, a);
    LaidOutStreams(clean, b);
  }
}
