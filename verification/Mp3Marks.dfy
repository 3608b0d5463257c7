/** What the first bytes of a stream lead to, however it is cut: the item they announce is the first one
    delivered, and the announcements are those of the formats, byte by byte. */
module Mp3Marks {
  import opened Bytes
  import opened MpegHeader
  import opened Mp3Stream
  import opened Mp3Laws
  import opened RtpStamper
  import opened Mp32Rtp

  // ----- What four bytes announce

  /** Eleven bits set and an allowed header announce a frame; the letters TAG and ID3 announce blocks
      of 128 and of 24 bytes; nothing else announces anything. */
  lemma RecognisedExactly(a: byte, b: byte, c: byte, d: byte)
    ensures var h := Recognise([a, b, c, d]);
            if a == 0xff && b >= 0xe0 && Allowed(HeaderFields([a, b, c, d])) then h == Heading(Mpeg, FrameBytes([a, b, c, d]))
            else if a == 0x54 && b == 0x41 && c == 0x47 then h == Heading(OldTag, 128)
            else if a == 0x49 && b == 0x44 && c == 0x33 then h == Heading(Id3, 24)
            else h == NoHeading
  {
    hide HeaderFields, Allowed, FrameBytes;
    var buf := [a, b, c, d];
    assert buf[..4] == buf && buf[..3] == [a, b, c];
    FrameBytesRange(buf);
  }

  // ----- The first item of a stream

  /** The item that the bytes held and the blocks still to come begin with is under way. */
  ghost predicate Begins(s: State, all: seq<byte>, kind: Kind, length: nat) {
    && Sound(s) && !s.Resync?
    && 4 <= length <= |all| && Recognise(all) == Heading(kind, length)
    && |Pending(s)| < length && Pending(s) <= all
    && (s.Inside? ==> s.kind == kind && s.need == length)
  }

  /** A block that does not complete it is held. */
  lemma HeldOn(s: State, block: seq<byte>, all: seq<byte>, kind: Kind, length: nat)
    requires Begins(s, all, kind, length) && |Pending(s) + block| < length && Pending(s) + block <= all
    ensures var p := Run(s, block);
            p.pieces == [] && Pending(p.state) == Pending(s) + block && Begins(p.state, all, kind, length)
  {
    hide Run, Recognise, Decide;
    if s.Inside? || |s.held| + |block| < 4 {
      HoldOn(s, block);
      if s.Inside? {
        assert s.held[..4] == (s.held + block)[..4];
        RecogniseRange(s.held);
        RecogniseRange(s.held + block);
      }
    } else {
      var n := 4 - |s.held|;
      var four := s.held + block[..n];
      HeadingTaken(s, block[..n], all, kind, length);
      RunAppend(s, block[..n], block[n..]);
      assert block == block[..n] + block[n..];
      HoldOn(Inside(kind, four, length), block[n..]);
      assert four + block[n..] == s.held + block;
      RecogniseRange(four + block[n..]);
      assert (four + block[n..])[..4] == four;
    }
  }

  /** The fourth byte: the item is entered. */
  lemma HeadingTaken(s: State, block: seq<byte>, all: seq<byte>, kind: Kind, length: nat)
    requires Begins(s, all, kind, length) && s.Start? && |s.held| + |block| == 4 && s.held + block <= all
    ensures Run(s, block) == Progress(Inside(kind, s.held + block, length), [])
    ensures Recognise(s.held + block) == Heading(kind, length) && 24 <= length <= 2881
  {
    hide Run, Recognise;
    FillUp(s, block);
    RecogniseRange(all);
    assert all[..4] == s.held + block;
  }

  /** A block that completes it delivers it before anything else. */
  lemma Completed(s: State, block: seq<byte>, all: seq<byte>, kind: Kind, length: nat)
    requires Begins(s, all, kind, length) && |Pending(s) + block| == length && Pending(s) + block <= all
    ensures Run(s, block) == Progress(Start([]), [Whole(Item(kind, all[..length]))])
  {
    hide Run, Recognise, Decide;
    assert all[..length] == Pending(s) + block;
    if s.Inside? {
      FillUp(s, block);
    } else {
      RecogniseRange(all);
      var n := 4 - |s.held|;
      HeadingTaken(s, block[..n], all, kind, length);
      RunAppend(s, block[..n], block[n..]);
      assert block == block[..n] + block[n..];
      FillUp(Inside(kind, s.held + block[..n], length), block[n..]);
      assert s.held + block[..n] + block[n..] == s.held + block;
      assert [] + [Whole(Item(kind, all[..length]))] == [Whole(Item(kind, all[..length]))];
    }
  }

  lemma {:induction false} FirstDelivered(s: State, blocks: seq<seq<byte>>, all: seq<byte>, kind: Kind, length: nat)
    requires Begins(s, all, kind, length) && all == Pending(s) + Flatten(blocks)
    ensures var items := Items(ParseBlocks(s, blocks).pieces);
            items != [] && items[0] == Item(kind, all[..length])
    decreases |blocks|
  {
    hide Run, Recognise, Items;
    if blocks == [] {
      assert false;
    } else {
      var block, more := blocks[0], blocks[1..];
      assert all == Pending(s) + block + Flatten(more);
      var p := ParseBlock(s, block);
      var q := ParseBlocks(p.state, more);
      ItemsAppend(p.pieces, q.pieces);
      if |Pending(s) + block| < length {
        HeldOn(s, block, all, kind, length);
        FirstDelivered(p.state, more, all, kind, length);
        NoItems();
      } else {
        var n := length - |Pending(s)|;
        assert block == block[..n] + block[n..];
        Completed(s, block[..n], all, kind, length);
        RunAppend(s, block[..n], block[n..]);
        var whole := Whole(Item(kind, all[..length]));
        ItemsAppend([whole], Run(Start([]), block[n..]).pieces);
        ItemsOfOne(whole);
      }
    }
  }

  lemma FirstAnnounced(blocks: seq<seq<byte>>)
    requires |Flatten(blocks)| >= 4 && Recognise(Flatten(blocks)).Heading?
    requires Recognise(Flatten(blocks)).length <= |Flatten(blocks)|
    ensures var stream := Flatten(blocks); var h := Recognise(stream);
            var items := Items(ParseBlocks(Start([]), blocks).pieces);
            items != [] && items[0] == Item(h.kind, stream[..h.length])
  {
    hide Recognise, ParseBlocks, Items;
    var stream := Flatten(blocks);
    RecogniseRange(stream);
    assert [] + stream == stream;
    FirstDelivered(Start([]), blocks, stream, Recognise(stream).kind, Recognise(stream).length);
  }

  lemma FirstFour(stream: seq<byte>)
    requires |stream| >= 4
    ensures Recognise(stream) == Recognise([stream[0], stream[1], stream[2], stream[3]])
  {
    hide Recognise;
    RecogniseRange(stream);
    assert stream[..4] == [stream[0], stream[1], stream[2], stream[3]];
  }

  // ----- Blocks of tags, in letters

  /** However a stream that begins with ID3 is cut, its first 24 bytes are the first item, and they go
      to the hook, if there is one, before any other. */
  lemma Id3Found(raw: bool, o: Output, blocks: seq<seq<byte>>)
    requires RtpStamper.Valid(o.counters)
    requires var stream := Flatten(blocks); |stream| >= 24 && stream[0] == 0x49 && stream[1] == 0x44 && stream[2] == 0x33
    ensures var items := Items(ParseBlocks(Start([]), blocks).pieces);
            && SoundItems(items)
            && items != [] && items[0] == Item(Id3, Flatten(blocks)[..24])
            && o.id3Calls + [Flatten(blocks)[..24]] <= Emit(raw, true, o, items).id3Calls
            && Emit(raw, false, o, items).id3Calls == o.id3Calls
  {
    var stream := Flatten(blocks);
    FirstFour(stream);
    RecognisedExactly(stream[0], stream[1], stream[2], stream[3]);
    FirstAnnounced(blocks);
    hide Recognise, ParseBlocks, Items, Flatten, Emit;
    var items := Items(ParseBlocks(Start([]), blocks).pieces);
    Conservation(Start([]), blocks);
    SoundItemsOf(ParseBlocks(Start([]), blocks).pieces);
    EmitMeans(raw, true, o, items);
    EmitMeans(raw, false, o, items);
    FirstCall(items);
    assert o.id3Calls + [] == o.id3Calls;
  }

  lemma FirstCall(items: seq<Item>)
    requires items != [] && items[0].kind == Id3
    ensures Id3Of(items) != [] && Id3Of(items)[0] == items[0].bytes
  {}

  /** The same of TAG and 128 bytes, of which nothing is sent and nothing goes to the hook. */
  lemma TagFound(blocks: seq<seq<byte>>)
    requires var stream := Flatten(blocks); |stream| >= 128 && stream[0] == 0x54 && stream[1] == 0x41 && stream[2] == 0x47
    ensures var items := Items(ParseBlocks(Start([]), blocks).pieces);
            items != [] && items[0] == Item(OldTag, Flatten(blocks)[..128])
  {
    var stream := Flatten(blocks);
    FirstFour(stream);
    RecognisedExactly(stream[0], stream[1], stream[2], stream[3]);
    FirstAnnounced(blocks);
  }

  /** The same of a frame, and it is sent first. */
  lemma FrameFound(raw: bool, hook: bool, o: Output, blocks: seq<seq<byte>>)
    requires RtpStamper.Valid(o.counters)
    requires var stream := Flatten(blocks);
             && |stream| >= 4 && stream[0] == 0xff && stream[1] >= 0xe0
             && FrameBytes(stream[..4]) != 0 && FrameBytes(stream[..4]) <= |stream|
    ensures var items := Items(ParseBlocks(Start([]), blocks).pieces); var frame := Flatten(blocks)[..FrameBytes(Flatten(blocks)[..4])];
            && SoundItems(items)
            && items != [] && items[0] == Item(Mpeg, frame)
            && o.sent + [Packet(o.counters, raw, frame)] <= Emit(raw, hook, o, items).sent
  {
    var stream := Flatten(blocks);
    FirstFour(stream);
    assert stream[..4] == [stream[0], stream[1], stream[2], stream[3]];
    FrameBytesRange(stream[..4]);
    RecognisedExactly(stream[0], stream[1], stream[2], stream[3]);
    FirstAnnounced(blocks);
    hide Recognise, ParseBlocks, Items, Flatten, FrameBytes;
    var items := Items(ParseBlocks(Start([]), blocks).pieces);
    Conservation(Start([]), blocks);
    SoundItemsOf(ParseBlocks(Start([]), blocks).pieces);
    EmitFirst(raw, hook, o, items);
  }

  lemma EmitFirst(raw: bool, hook: bool, o: Output, items: seq<Item>)
    requires RtpStamper.Valid(o.counters) && SoundItems(items) && items != [] && items[0].kind == Mpeg
    ensures o.sent + [Packet(o.counters, raw, items[0].bytes)] <= Emit(raw, hook, o, items).sent
  {
    assert items == [items[0]] + items[1..];
    SoundFrame(items[0]);
    EmitGrows(raw, hook, EmitOne(raw, hook, o, items[0]), items[1..]);
  }

  lemma EmitGrows(raw: bool, hook: bool, o: Output, items: seq<Item>)
    requires RtpStamper.Valid(o.counters) && SoundItems(items)
    ensures o.sent <= Emit(raw, hook, o, items).sent
  {
    hide Emit;
    EmitMeans(raw, hook, o, items);
  }
}
