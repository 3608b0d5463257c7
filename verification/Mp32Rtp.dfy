/** The program itself: one buffer that is filled in place, a parser that remembers its place
    between calls, and the callback that stamps and sends each frame. */
module Mp32Rtp {
  import opened Bytes
  import opened MpegHeader
  import opened Mp3Stream
  import opened Mp3Chunking
  import opened Mp3Laws
  import opened RtpStamper

  datatype Mode = S_START | S_FRAME | S_TAG | S_ID3

  // ----- Runs of several steps, as the loop body takes them

  lemma {:induction false} SkipRun(junk: seq<byte>)
    requires forall i :: 0 <= i < |junk| ==> junk[i] != 0xff
    ensures Run(Resync, junk) == Progress(Resync, JunkOf(junk))
    decreases |junk|
  {
    if junk != [] {
      SkipRun(junk[1..]);
      assert JunkOf(junk) == [Junk(junk[0])] + JunkOf(junk[1..]);
    }
  }

  /** The fourth byte empties the buffer and the skip begins. */
  lemma EmptyThenSkip(held: seq<byte>, chunk: seq<byte>, junk: seq<byte>)
    requires |held| < 4 && |held| + |chunk| == 4
    requires Recognise(held + chunk).NoHeading? && DropToSync((held + chunk)[1..]) == []
    requires forall i :: 0 <= i < |junk| ==> junk[i] != 0xff
    ensures Run(Start(held), chunk + junk).state == Resync
    ensures Items(Run(Start(held), chunk + junk).pieces) == []
  {
    hide Run, Recognise, Step, Items, DropToSync;
    FillUp(Start(held), chunk);
    SkipRun(junk);
    RunAppend(Start(held), chunk, junk);
    ItemsOfJunk((held + chunk)[..4]);
    ItemsOfJunk(junk);
    ItemsAppend(JunkOf((held + chunk)[..4]), JunkOf(junk));
  }

  lemma DropOne(held: seq<byte>)
    requires held != [] && held[0] != 0xff
    ensures DropToSync(held) == DropToSync(held[1..])
  {}

  lemma DropNone(held: seq<byte>)
    requires held == [] || held[0] == 0xff
    ensures DropToSync(held) == held
  {}

  /** What the fourth byte leads to, read off the buffer. */
  lemma FourthByte(held: seq<byte>, chunk: seq<byte>)
    requires |held| < 4 && |held| + |chunk| == 4
    ensures var p := Run(Start(held), chunk); var buf := held + chunk;
            && Items(p.pieces) == []
            && p.state == match Recognise(buf)
                          case Heading(kind, length) => Inside(kind, buf, length)
                          case NoHeading => if DropToSync(buf[1..]) == [] then Resync else Start(DropToSync(buf[1..]))
  {
    hide Run, Recognise, DropToSync;
    FillUp(Start(held), chunk);
    var buf := held + chunk;
    ItemsOfJunk(buf[..4 - |DropToSync(buf[1..])|]);
  }

  /** On a 0xff the skip and the empty buffer behave alike. */
  lemma LeaveSkip(s: State, data: seq<byte>)
    requires Sound(s) && data != [] && (s.Resync? ==> data[0] == 0xff)
    ensures Run(s, data) == Run(Rest(s), data)
  {
    if s.Resync? {
      assert Step(Resync, 0xff) == Progress(Start([0xff]), []);
      assert [] + [data[0]] == [data[0]];
      assert Step(Start([]), 0xff) == Progress(Start([0xff]), []);
    }
  }

  // ----- What the outside world sees

  /** The packet counters, the packets sent, and the blocks given to the ID3 hook. */
  datatype Output = Output(counters: Stamper, sent: seq<seq<byte>>, id3Calls: seq<seq<byte>>)

  ghost predicate SoundItems(items: seq<Item>) {
    forall i :: 0 <= i < |items| ==> SoundItem(items[i])
  }

  lemma SoundFrame(item: Item)
    requires SoundItem(item) && item.kind == Mpeg
    ensures WholeFrame(item.bytes)
  {
    FrameBytesRange(item.bytes[..4]);
  }

  function EmitOne(raw: bool, hook: bool, o: Output, item: Item): (r: Output)
    requires RtpStamper.Valid(o.counters) && SoundItem(item)
    ensures RtpStamper.Valid(r.counters)
  {
    match item.kind
    case Mpeg => Output(Next(o.counters, item.bytes), o.sent + [Packet(o.counters, raw, item.bytes)], o.id3Calls)
    case Id3 => if hook then o.(id3Calls := o.id3Calls + [item.bytes]) else o
    case OldTag => o
  }

  /** Each item in turn: a frame is stamped and sent, an ID3 block goes to the hook if there is
      one, a TAG block is dropped. */
  function Emit(raw: bool, hook: bool, o: Output, items: seq<Item>): (r: Output)
    requires RtpStamper.Valid(o.counters) && SoundItems(items)
    ensures RtpStamper.Valid(r.counters)
    decreases |items|
  {
    if items == [] then o else Emit(raw, hook, EmitOne(raw, hook, o, items[0]), items[1..])
  }

  lemma {:induction false} EmitAppend(raw: bool, hook: bool, o: Output, a: seq<Item>, b: seq<Item>)
    requires RtpStamper.Valid(o.counters) && SoundItems(a) && SoundItems(b)
    ensures SoundItems(a + b)
    ensures Emit(raw, hook, o, a + b) == Emit(raw, hook, Emit(raw, hook, o, a), b)
    decreases |a|
  {
    hide SoundItem, EmitOne;
    if a == [] {
      assert a + b == b;
    } else {
      assert (a + b)[0] == a[0] && (a + b)[1..] == a[1..] + b;
      EmitAppend(raw, hook, EmitOne(raw, hook, o, a[0]), a[1..], b);
    }
  }

  lemma {:induction false} SoundItemsOf(pieces: seq<Piece>)
    requires SoundPieces(pieces)
    ensures SoundItems(Items(pieces))
  {
    hide SoundItem;
    if pieces != [] {
      assert pieces[0] in pieces && forall p :: p in pieces[1..] ==> p in pieces;
      SoundItemsOf(pieces[1..]);
    }
  }

  function Id3Of(items: seq<Item>): seq<seq<byte>> {
    if items == [] then []
    else (if items[0].kind == Id3 then [items[0].bytes] else []) + Id3Of(items[1..])
  }

  /** From o to r: the frames are stamped and sent, the calls are made. */
  predicate Means(raw: bool, o: Output, frames: seq<seq<byte>>, calls: seq<seq<byte>>, r: Output)
    requires RtpStamper.Valid(o.counters) && WholeFrames(frames)
  {
    var st := StampAll(o.counters, raw, frames);
    r == Output(st.stamper, o.sent + st.packets, o.id3Calls + calls)
  }

  lemma MeansFrame(raw: bool, o: Output, frame: seq<byte>, frames: seq<seq<byte>>, calls: seq<seq<byte>>, r: Output)
    requires RtpStamper.Valid(o.counters) && WholeFrame(frame) && WholeFrames(frames)
    requires Means(raw, Output(Next(o.counters, frame), o.sent + [Packet(o.counters, raw, frame)], o.id3Calls), frames, calls, r)
    ensures WholeFrames([frame] + frames) && Means(raw, o, [frame] + frames, calls, r)
  {
    hide WholeFrame, Next, Packet, StampAll;
    var all := [frame] + frames;
    assert all[0] == frame && all[1..] == frames;
    StampCons(o.counters, raw, all);
    var one, rest := [Packet(o.counters, raw, frame)], StampAll(Next(o.counters, frame), raw, frames);
    assert o.sent + one + rest.packets == o.sent + (one + rest.packets);
  }

  lemma MeansCall(raw: bool, o: Output, call: seq<seq<byte>>, frames: seq<seq<byte>>, calls: seq<seq<byte>>, r: Output)
    requires RtpStamper.Valid(o.counters) && WholeFrames(frames)
    requires Means(raw, o.(id3Calls := o.id3Calls + call), frames, calls, r)
    ensures Means(raw, o, frames, call + calls, r)
  {
    assert o.id3Calls + call + calls == o.id3Calls + (call + calls);
  }

  /** The packets sent are the stamped frames, in order; the hook sees the ID3 blocks, in order. */
  lemma {:induction false} EmitMeans(raw: bool, hook: bool, o: Output, items: seq<Item>)
    requires RtpStamper.Valid(o.counters) && SoundItems(items)
    ensures WholeFrames(FramesOf(items))
    ensures Means(raw, o, FramesOf(items), if hook then Id3Of(items) else [], Emit(raw, hook, o, items))
    decreases |items|
  {
    hide SoundItem, WholeFrame, Next, Packet, Means;
    if items == [] {
      MeansNothing(raw, o);
    } else {
      EmitMeans(raw, hook, EmitOne(raw, hook, o, items[0]), items[1..]);
      var r := Emit(raw, hook, o, items);
      var frames, calls := FramesOf(items[1..]), if hook then Id3Of(items[1..]) else [];
      assert [] + frames == frames && [] + calls == calls;
      match items[0].kind
      case Mpeg =>
        SoundFrame(items[0]);
        MeansFrame(raw, o, items[0].bytes, frames, calls, r);
      case Id3 =>
        if hook {
          MeansCall(raw, o, [items[0].bytes], frames, calls, r);
        }
      case OldTag =>
    }
  }

  lemma MeansNothing(raw: bool, o: Output)
    requires RtpStamper.Valid(o.counters)
    ensures Means(raw, o, [], [], o)
  {
    assert o.sent + [] == o.sent && o.id3Calls + [] == o.id3Calls;
  }

  class Sender {
    /** The RTP header, and behind it the frame buffer */
    const rtpBuf: array<byte>
    const rawMpeg: bool
    /** Whether id3_hook is set */
    const id3Hook: bool

    var framebufLen: nat
    var mode: Mode
    var frameLength: nat

    var seqno: nat
    var timestamp: nat

    /** What has been handed to send_packet and to the ID3 hook */
    var sent: seq<seq<byte>>
    var id3Calls: seq<seq<byte>>

    /** The bytes of an old-style TAG block, which are counted but not stored */
    ghost var tagBytes: seq<byte>

    ghost predicate Shaped()
      reads this
    {
      rtpBuf.Length == HEADER_SIZE + 2881 && framebufLen <= 2881 && seqno < WORD
    }

    function Framebuf(): seq<byte>
      requires Shaped()
      reads this, rtpBuf
    {
      rtpBuf[HEADER_SIZE..HEADER_SIZE + framebufLen]
    }

    ghost function Parser(): State
      requires Shaped()
      reads this, rtpBuf
    {
      match mode
      case S_START => Start(Framebuf())
      case S_FRAME => Inside(Mpeg, Framebuf(), frameLength)
      case S_ID3 => Inside(Id3, Framebuf(), frameLength)
      case S_TAG => Inside(OldTag, tagBytes, frameLength)
    }

    ghost function Counters(): Stamper
      requires Shaped()
      reads this, rtpBuf
    {
      Stamper(rtpBuf[..HEADER_SIZE], seqno, timestamp)
    }

    ghost function Outputs(): Output
      requires Shaped()
      reads this, rtpBuf
    {
      Output(Counters(), sent, id3Calls)
    }

    ghost predicate Valid()
      reads this, rtpBuf
    {
      Shaped() && Sound(Parser()) && (mode.S_TAG? ==> |tagBytes| == framebufLen)
    }

    constructor (raw: bool, hook: bool, s0: nat, t0: nat)
      requires s0 < WORD
      ensures Valid() && fresh(rtpBuf)
      ensures Parser() == Start([]) && Counters() == Stamper(FIRST_HEADER, s0, t0)
      ensures sent == [] && id3Calls == [] && rawMpeg == raw && id3Hook == hook
    {
      rtpBuf := new byte[HEADER_SIZE + 2881](i => if 0 <= i < |FIRST_HEADER| then FIRST_HEADER[i] else 0);
      rawMpeg, id3Hook := raw, hook;
      framebufLen, mode, frameLength := 0, S_START, 0;
      seqno, timestamp := s0, t0;
      sent, id3Calls := [], [];
      tagBytes := [];
      new;
      assert rtpBuf[..HEADER_SIZE] == FIRST_HEADER;
    }

    /** mp3_parse_reset: the half-assembled item is dropped; nothing else changes. */
    method Reset()
      requires Valid()
      modifies this
      ensures Valid() && Parser() == Start([]) && Counters() == old(Counters())
      ensures sent == old(sent) && id3Calls == old(id3Calls)
    {
      framebufLen, mode, frameLength := 0, S_START, 0;
    }

    /** transfer_data into the frame buffer (store) or to nowhere. Flag 1: the destination is
        full; flag 2: the source is empty. */
    method TransferData(store: bool, length: nat, data: seq<byte>, pos: nat) returns (flags: nat, next: nat)
      requires Shaped() && framebufLen <= length <= 2881 && pos <= |data|
      modifies this`framebufLen, rtpBuf
      ensures Shaped()
      ensures next == pos + (if length - old(framebufLen) < |data| - pos then length - old(framebufLen) else |data| - pos)
      ensures framebufLen == old(framebufLen) + (next - pos)
      ensures flags == (if framebufLen == length then 1 else 0) + (if next == |data| then 2 else 0)
      ensures store ==> Framebuf() == old(Framebuf()) + data[pos..next]
      ensures rtpBuf[..HEADER_SIZE] == old(rtpBuf[..HEADER_SIZE])
    {
      var room := length - framebufLen;
      var transfer := if room < |data| - pos then room else |data| - pos;
      if store {
        forall i | 0 <= i < transfer {
          rtpBuf[HEADER_SIZE + framebufLen + i] := data[pos + i];
        }
      }
      framebufLen := framebufLen + transfer;
      next := pos + transfer;
      flags := (if framebufLen == length then 1 else 0) + (if next == |data| then 2 else 0);
    }

    /** Throw away the first byte by shifting the other three in place. */
    method DiscardFirst()
      requires Shaped() && framebufLen == 4
      modifies this`framebufLen, rtpBuf
      ensures Shaped() && framebufLen == 3
      ensures Framebuf() == old(Framebuf())[1..]
      ensures rtpBuf[..HEADER_SIZE] == old(rtpBuf[..HEADER_SIZE])
    {
      var f := HEADER_SIZE;
      rtpBuf[f] := rtpBuf[f + 1];
      rtpBuf[f + 1] := rtpBuf[f + 2];
      rtpBuf[f + 2] := rtpBuf[f + 3];
      framebufLen := framebufLen - 1;
    }

    /** The next byte goes the same way; only two bytes need to move. */
    method DiscardNext()
      requires Shaped() && 0 < framebufLen <= 3
      modifies this`framebufLen, rtpBuf
      ensures Shaped() && framebufLen == old(framebufLen) - 1
      ensures Framebuf() == old(Framebuf())[1..]
      ensures rtpBuf[..HEADER_SIZE] == old(rtpBuf[..HEADER_SIZE])
    {
      var f := HEADER_SIZE;
      rtpBuf[f] := rtpBuf[f + 1];
      rtpBuf[f + 1] := rtpBuf[f + 2];
      framebufLen := framebufLen - 1;
    }

    /** Throw away the first byte, and every following one up to a 0xff. */
    method Discard()
      requires Shaped() && framebufLen == 4
      modifies this`framebufLen, rtpBuf
      ensures Shaped() && framebufLen <= 3
      ensures Framebuf() == DropToSync(old(Framebuf())[1..])
      ensures rtpBuf[..HEADER_SIZE] == old(rtpBuf[..HEADER_SIZE])
    {
      hide DropToSync;
      ghost var head := rtpBuf[..HEADER_SIZE];
      DiscardFirst();
      ghost var three := Framebuf();
      while framebufLen > 0 && rtpBuf[HEADER_SIZE] != 0xff
        invariant Shaped() && framebufLen <= 3
        invariant DropToSync(Framebuf()) == DropToSync(three)
        invariant rtpBuf[..HEADER_SIZE] == head
      {
        DropOne(Framebuf());
        DiscardNext();
      }
      DropNone(Framebuf());
    }

    /** Four bytes are read: recognise a frame or a tag, or report that neither is there. */
    method Enter() returns (desync: bool)
      requires Shaped() && framebufLen == 4 && mode == S_START
      modifies this`mode, this`frameLength, this`tagBytes
      ensures Framebuf() == old(Framebuf())
      ensures match Recognise(Framebuf())
              case NoHeading => desync && mode == S_START
              case Heading(kind, length) => !desync && Valid() && Parser() == Inside(kind, Framebuf(), length)
    {
      var buf := Framebuf();
      RecogniseRange(buf);
      assert buf[..4] == buf;
      desync := false;
      if buf[0] == 0xff && buf[1] >= 0xe0 {
        frameLength := FrameBytes(buf);
        if frameLength == 0 {
          desync := true;
        } else {
          mode := S_FRAME;
        }
      } else if buf[..3] == TAG_MARK {
        frameLength := 128;
        mode, tagBytes := S_TAG, buf;
      } else if buf[..3] == ID3_MARK {
        frameLength := 24;
        mode := S_ID3;
      } else {
        desync := true;
      }
    }

    /** The fast skip: over all input up to the next 0xff. */
    method SkipToSync(data: seq<byte>, pos: nat) returns (next: nat)
      requires pos <= |data|
      ensures pos <= next <= |data| && (next < |data| ==> data[next] == 0xff)
      ensures forall i :: pos <= i < next ==> data[i] != 0xff
    {
      next := pos;
      while next < |data| && data[next] != 0xff
        invariant pos <= next <= |data|
        invariant forall i :: pos <= i < next ==> data[i] != 0xff
      {
        next := next + 1;
      }
    }

    /** Nothing was recognised: discard, and if nothing is left go on discarding from the input. */
    method Resynchronise(data: seq<byte>, pos: nat) returns (next: nat)
      requires Shaped() && framebufLen == 4 && mode == S_START && pos <= |data|
      modifies this`framebufLen, rtpBuf
      ensures Valid() && pos <= next <= |data|
      ensures Framebuf() == DropToSync(old(Framebuf())[1..])
      ensures Framebuf() != [] ==> next == pos
      ensures next < |data| && Framebuf() == [] ==> data[next] == 0xff
      ensures forall i :: pos <= i < next ==> data[i] != 0xff
      ensures rtpBuf[..HEADER_SIZE] == old(rtpBuf[..HEADER_SIZE])
    {
      Discard();
      next := pos;
      if framebufLen == 0 {
        next := SkipToSync(data, pos);
      }
    }

    /** The S_START case of the loop. */
    method OnStart(data: seq<byte>, pos: nat) returns (next: nat)
      requires Valid() && mode == S_START && pos < |data|
      modifies this`framebufLen, this`mode, this`frameLength, this`tagBytes, rtpBuf
      ensures Valid() && pos < next <= |data|
      ensures var p := Run(old(Parser()), data[pos..next]);
              && Parser() == Rest(p.state) && Items(p.pieces) == []
              && (p.state.Resync? && next < |data| ==> data[next] == 0xff)
      ensures Counters() == old(Counters())
    {
      hide Recognise, Run, DropToSync, Items;
      ghost var held := Framebuf();
      var flags;
      flags, next := TransferData(true, 4, data, pos);
      if flags % 2 == 1 {
        next := OnFour(held, data, pos, next);
      } else {
        HoldOn(Start(held), data[pos..next]);
        NoItems();
      }
    }

    /** Four bytes are in the buffer. */
    method OnFour(ghost held: seq<byte>, data: seq<byte>, ghost pos: nat, cut: nat) returns (next: nat)
      requires Shaped() && mode == S_START && framebufLen == 4
      requires |held| < 4 && pos <= cut <= |data| && Framebuf() == held + data[pos..cut]
      modifies this`framebufLen, this`mode, this`frameLength, this`tagBytes, rtpBuf
      ensures Valid() && cut <= next <= |data|
      ensures var p := Run(Start(held), data[pos..next]);
              && Parser() == Rest(p.state) && Items(p.pieces) == []
              && (p.state.Resync? && next < |data| ==> data[next] == 0xff)
      ensures Counters() == old(Counters())
    {
      hide Recognise, Run, DropToSync, Items, Sound;
      FourthByte(held, data[pos..cut]);
      next := cut;
      var desync := Enter();
      if desync {
        next := Resynchronise(data, cut);
        if framebufLen == 0 {
          EmptyThenSkip(held, data[pos..cut], data[cut..next]);
          assert data[pos..next] == data[pos..cut] + data[cut..next];
        }
      }
    }

    /** Write both counters into the header. */
    method WriteCounters()
      requires Shaped()
      modifies rtpBuf
      ensures Framebuf() == old(Framebuf())
      ensures rtpBuf[..HEADER_SIZE] == Written(old(Counters()))
    {
      hide Be16, Be32;
      var s, t := Be16(seqno), Be32(timestamp);
      rtpBuf[2] := s[0];
      rtpBuf[3] := s[1];
      rtpBuf[4] := t[0];
      rtpBuf[5] := t[1];
      rtpBuf[6] := t[2];
      rtpBuf[7] := t[3];
      assert rtpBuf[2..4] == s && rtpBuf[4..8] == t;
    }

    method MarkerOff()
      requires Shaped()
      modifies rtpBuf
      ensures Framebuf() == old(Framebuf())
      ensures var h := old(rtpBuf[..HEADER_SIZE]); rtpBuf[..HEADER_SIZE] == h[1 := h[1] % 128]
    {
      rtpBuf[1] := rtpBuf[1] % 128;
    }

    /** The frame callback: write both counters into the header, send, turn the marker off, and
        move the counters on. Waiting for the frame's time is not modelled. */
    method Callback(len: nat)
      requires Shaped() && 4 <= len == framebufLen
      modifies this`sent, this`seqno, this`timestamp, rtpBuf
      ensures Shaped() && Framebuf() == old(Framebuf())
      ensures sent == old(sent) + [Packet(old(Counters()), rawMpeg, old(Framebuf()))]
      ensures Counters() == Next(old(Counters()), old(Framebuf()))
    {
      hide FrameTicks;
      var khz90 := FrameTicks(rtpBuf[HEADER_SIZE..HEADER_SIZE + 4]);
      assert rtpBuf[HEADER_SIZE..HEADER_SIZE + 4] == Framebuf()[..4];
      WriteCounters();
      if rawMpeg {
        sent := sent + [rtpBuf[HEADER_SIZE..HEADER_SIZE + len]];
      } else {
        sent := sent + [rtpBuf[..HEADER_SIZE + len]];
        assert rtpBuf[..HEADER_SIZE + len] == rtpBuf[..HEADER_SIZE] + Framebuf();
      }
      MarkerOff();
      var t := (timestamp as real + khz90).Floor;
      timestamp := if t < 0 then 0 else t;
      seqno := (seqno + 1) % WORD;
    }

    /** A whole frame goes to the callback, a whole ID3 block to the hook if there is one; then
        the buffer is empty again. */
    method Deliver() returns (completed: nat)
      requires Shaped() && (mode == S_FRAME || mode == S_ID3)
      requires SoundItem(Item(if mode == S_FRAME then Mpeg else Id3, Framebuf()))
      modifies this, rtpBuf
      ensures Valid() && Parser() == Start([])
      ensures Outputs() == EmitOne(rawMpeg, id3Hook, old(Outputs()), old(Item(if mode == S_FRAME then Mpeg else Id3, Framebuf())))
      ensures completed == if old(mode) == S_FRAME then 1 else 0
    {
      hide Next, Packet, Recognise;
      completed := 0;
      if mode == S_FRAME {
        Callback(framebufLen);
        completed := 1;
      } else if id3Hook {
        id3Calls := id3Calls + [Framebuf()];
      }
      framebufLen, mode := 0, S_START;
    }

    /** The S_FRAME and S_ID3 cases of the loop. */
    method OnItem(data: seq<byte>, pos: nat) returns (next: nat, completed: nat)
      requires Valid() && (mode == S_FRAME || mode == S_ID3) && pos < |data|
      modifies this, rtpBuf
      ensures Valid() && pos < next <= |data|
      ensures var p := Run(old(Parser()), data[pos..next]);
              && Parser() == p.state && !p.state.Resync?
              && SoundItems(Items(p.pieces))
              && Outputs() == Emit(rawMpeg, id3Hook, old(Outputs()), Items(p.pieces))
              && completed == |FramesOf(Items(p.pieces))|
    {
      hide Recognise, Run, EmitOne, SoundItem;
      ghost var s := Parser();
      var flags;
      flags, next := TransferData(true, frameLength, data, pos);
      completed := 0;
      if flags % 2 == 1 {
        FillUp(s, data[pos..next]);
        WholePiece(rawMpeg, id3Hook, Outputs(), s, data[pos..next]);
        completed := Deliver();
      } else {
        HoldOn(s, data[pos..next]);
        StepsKeepSound(s, data[pos..next]);
      }
    }

    /** The S_TAG case: the bytes are counted, and nothing is stored. */
    method OnTag(data: seq<byte>, pos: nat) returns (next: nat)
      requires Valid() && mode == S_TAG && pos < |data|
      modifies this, rtpBuf
      ensures Valid() && pos < next <= |data|
      ensures var p := Run(old(Parser()), data[pos..next]);
              && Parser() == p.state && !p.state.Resync?
              && SoundItems(Items(p.pieces))
              && Outputs() == old(Outputs()) == Emit(rawMpeg, id3Hook, old(Outputs()), Items(p.pieces))
              && FramesOf(Items(p.pieces)) == []
    {
      hide Recognise, Run, Step;
      ghost var s := Parser();
      var flags;
      flags, next := TransferData(false, frameLength, data, pos);
      tagBytes := tagBytes + data[pos..next];
      if flags % 2 == 1 {
        FillUp(s, data[pos..next]);
        WholePiece(rawMpeg, id3Hook, Outputs(), s, data[pos..next]);
        framebufLen, mode := 0, S_START;
      } else {
        HoldOn(s, data[pos..next]);
        StepsKeepSound(s, data[pos..next]);
      }
    }

    /** One pass of the loop: the switch on the state. */
    method Pass(data: seq<byte>, pos: nat) returns (next: nat, completed: nat)
      requires Valid() && pos < |data|
      modifies this, rtpBuf
      ensures Valid() && pos < next <= |data|
      ensures SoFar(rawMpeg, id3Hook, old(Parser()), old(Outputs()), data[pos..next], Parser(), Outputs(), completed)
      ensures Run(old(Parser()), data[pos..next]).state.Resync? && next < |data| ==> data[next] == 0xff
    {
      hide Run, SoundItem;
      completed := 0;
      match mode
      case S_START => next := OnStart(data, pos);
      case S_FRAME => next, completed := OnItem(data, pos);
      case S_ID3 => next, completed := OnItem(data, pos);
      case S_TAG => next := OnTag(data, pos);
    }

    /** mp3_parse: take a block, deliver every frame and tag it completes, and return the number
        of frames completed. */
    method Parse(data: seq<byte>) returns (completed: nat)
      requires Valid()
      modifies this, rtpBuf
      ensures Valid()
      ensures var p := ParseBlock(old(Parser()), data);
              && Parser() == p.state
              && SoundItems(Items(p.pieces))
              && Outputs() == Emit(rawMpeg, id3Hook, old(Outputs()), Items(p.pieces))
              && completed == |FramesOf(Items(p.pieces))|
    {
      hide Run, SoundItem, Sound, Emit, FramesOf, Items;
      ghost var s0, o0 := Parser(), Outputs();
      var pos := 0;
      completed := 0;
      SoFarNothing(rawMpeg, id3Hook, s0, o0);
      assert data[..pos] == [];
      while pos < |data|
        invariant Valid() && pos <= |data|
        invariant SoFar(rawMpeg, id3Hook, s0, o0, data[..pos], Parser(), Outputs(), completed)
        invariant Run(s0, data[..pos]).state.Resync? && pos < |data| ==> data[pos] == 0xff
        decreases |data| - pos
      {
        ghost var s, o, n := Parser(), Outputs(), completed;
        var next, done := Pass(data, pos);
        SoFarExtends(rawMpeg, id3Hook, s0, o0, data[..pos], s, o, n, data[pos..next], Parser(), Outputs(), done);
        assert data[..next] == data[..pos] + data[pos..next];
        completed := completed + done;
        pos := next;
      }
      assert data[..pos] == data;
    }

    /** The main loop: block after block, as they are read. */
    method Play(blocks: seq<seq<byte>>) returns (total: nat)
      requires Valid()
      modifies this, rtpBuf
      ensures Valid()
      ensures var p := ParseBlocks(old(Parser()), blocks);
              && Parser() == p.state
              && SoundItems(Items(p.pieces))
              && Outputs() == Emit(rawMpeg, id3Hook, old(Outputs()), Items(p.pieces))
              && total == |FramesOf(Items(p.pieces))|
    {
      hide SoundItem, ParseBlock, Emit, FramesOf, Sound;
      ghost var s0, o0 := Parser(), Outputs();
      total := 0;
      NoneYet(rawMpeg, id3Hook, s0, o0);
      for i := 0 to |blocks|
        invariant Valid()
        invariant Played(rawMpeg, id3Hook, s0, o0, blocks[..i], Parser(), Outputs(), total)
      {
        ghost var s, o := Parser(), Outputs();
        var completed := Parse(blocks[i]);
        PlayedExtends(rawMpeg, id3Hook, s0, o0, blocks[..i], s, o, total, blocks[i], Parser(), Outputs(), completed);
        assert blocks[..i + 1] == blocks[..i] + [blocks[i]];
        total := total + completed;
      }
      assert blocks[..|blocks|] == blocks;
    }
  }

  lemma StepsKeepSound(s: State, chunk: seq<byte>)
    requires Sound(s)
    ensures Sound(Run(s, chunk).state)
  {}

  lemma WholePiece(raw: bool, hook: bool, o: Output, s: State, chunk: seq<byte>)
    requires Sound(s) && s.Inside? && chunk != [] && |s.held| + |chunk| == s.need && RtpStamper.Valid(o.counters)
    ensures var item := Item(s.kind, s.held + chunk);
            && SoundItem(item)
            && Items([Whole(item)]) == [item]
            && Emit(raw, hook, o, [item]) == EmitOne(raw, hook, o, item)
            && FramesOf([item]) == if s.kind == Mpeg then [item.bytes] else []
  {}

  lemma {:induction false} FramesAppend(a: seq<Item>, b: seq<Item>)
    ensures FramesOf(a + b) == FramesOf(a) + FramesOf(b)
  {
    if a == [] {
      assert a + b == b;
    } else {
      assert (a + b)[0] == a[0] && (a + b)[1..] == a[1..] + b;
      FramesAppend(a[1..], b);
    }
  }

  /** What one call has done so far: the run over the bytes taken, its state up to a skip that
      is over, the outputs and the count of frames. */
  ghost predicate SoFar(raw: bool, hook: bool, s0: State, o0: Output, taken: seq<byte>, s: State, o: Output, completed: nat)
    requires Sound(s0) && RtpStamper.Valid(o0.counters)
  {
    var p := Run(s0, taken);
    && s == Rest(p.state)
    && SoundItems(Items(p.pieces))
    && o == Emit(raw, hook, o0, Items(p.pieces))
    && completed == |FramesOf(Items(p.pieces))|
  }

  lemma SoFarNothing(raw: bool, hook: bool, s0: State, o0: Output)
    requires Sound(s0) && !s0.Resync? && RtpStamper.Valid(o0.counters)
    ensures SoFar(raw, hook, s0, o0, [], s0, o0, 0) && Run(s0, []).state == s0
  {}

  lemma SoFarExtends(raw: bool, hook: bool, s0: State, o0: Output, taken: seq<byte>, s: State, o: Output, n: nat,
                     chunk: seq<byte>, t: State, q: Output, m: nat)
    requires Sound(s0) && RtpStamper.Valid(o0.counters) && chunk != []
    requires SoFar(raw, hook, s0, o0, taken, s, o, n)
    requires Run(s0, taken).state.Resync? ==> chunk[0] == 0xff
    requires Sound(s) && RtpStamper.Valid(o.counters) && SoFar(raw, hook, s, o, chunk, t, q, m)
    ensures SoFar(raw, hook, s0, o0, taken + chunk, t, q, n + m)
    ensures Run(s0, taken + chunk).state == Run(s, chunk).state
  {
    hide Run, SoundItem, Emit, FramesOf;
    var p := Run(s0, taken);
    LeaveSkip(p.state, chunk);
    RunAppend(s0, taken, chunk);
    var r := Run(s, chunk);
    ItemsAppend(p.pieces, r.pieces);
    EmitAppend(raw, hook, o0, Items(p.pieces), Items(r.pieces));
    FramesAppend(Items(p.pieces), Items(r.pieces));
  }

  ghost predicate Played(raw: bool, hook: bool, s0: State, o0: Output, blocks: seq<seq<byte>>, s: State, o: Output, total: nat)
    requires Sound(s0) && RtpStamper.Valid(o0.counters)
  {
    var p := ParseBlocks(s0, blocks);
    && s == p.state
    && SoundItems(Items(p.pieces))
    && o == Emit(raw, hook, o0, Items(p.pieces))
    && total == |FramesOf(Items(p.pieces))|
  }

  lemma NoneYet(raw: bool, hook: bool, s0: State, o0: Output)
    requires Sound(s0) && RtpStamper.Valid(o0.counters)
    ensures Played(raw, hook, s0, o0, [], s0, o0, 0)
  {}

  lemma {:induction false} ParseOneMore(s: State, blocks: seq<seq<byte>>, block: seq<byte>)
    requires Sound(s)
    ensures var p := ParseBlocks(s, blocks); var q := ParseBlock(p.state, block);
            ParseBlocks(s, blocks + [block]) == Progress(q.state, p.pieces + q.pieces)
    decreases |blocks|
  {
    hide ParseBlock, Sound;
    if blocks == [] {
      var q := ParseBlock(s, block);
      assert blocks + [block] == [block];
      var none: seq<seq<byte>> := [block][1..];
      assert none == [];
      assert ParseBlocks(q.state, none) == Progress(q.state, []);
      assert q.pieces + [] == q.pieces == [] + q.pieces;
    } else {
      assert (blocks + [block])[0] == blocks[0] && (blocks + [block])[1..] == blocks[1..] + [block];
      var first := ParseBlock(s, blocks[0]);
      ParseOneMore(first.state, blocks[1..], block);
      var p := ParseBlocks(first.state, blocks[1..]);
      var q := ParseBlock(p.state, block);
      assert first.pieces + (p.pieces + q.pieces) == first.pieces + p.pieces + q.pieces;
    }
  }

  lemma PlayedExtends(raw: bool, hook: bool, s0: State, o0: Output, blocks: seq<seq<byte>>, s: State, o: Output, n: nat,
                      block: seq<byte>, t: State, q: Output, m: nat)
    requires Sound(s0) && RtpStamper.Valid(o0.counters)
    requires Played(raw, hook, s0, o0, blocks, s, o, n)
    requires Sound(s) && RtpStamper.Valid(o.counters)
    requires var r := ParseBlock(s, block);
             && t == r.state && SoundItems(Items(r.pieces))
             && q == Emit(raw, hook, o, Items(r.pieces)) && m == |FramesOf(Items(r.pieces))|
    ensures Played(raw, hook, s0, o0, blocks + [block], t, q, n + m)
  {
    hide ParseBlock, ParseBlocks, SoundItem, Emit, FramesOf, Sound, Items;
    var p := ParseBlocks(s0, blocks);
    ParseOneMore(s0, blocks, block);
    var r := ParseBlock(s, block);
    ItemsAppend(p.pieces, r.pieces);
    EmitAppend(raw, hook, o0, Items(p.pieces), Items(r.pieces));
    FramesAppend(Items(p.pieces), Items(r.pieces));
  }

  /** End to end: from reset, an aligned stream leaves as the scanner's frames, stamped in order,
      whatever blocks it was read in. */
  lemma SentIsWhatTheScannerFinds(raw: bool, hook: bool, o: Output, blocks: seq<seq<byte>>)
    requires RtpStamper.Valid(o.counters) && Aligned(Flatten(blocks), false)
    ensures var items := Scan(Flatten(blocks)).items;
            && SoundItems(items) && items == Items(ParseBlocks(Start([]), blocks).pieces)
            && WholeFrames(FramesOf(items))
            && Means(raw, o, FramesOf(items), if hook then Id3Of(items) else [], Emit(raw, hook, o, items))
  {
    hide ParseBlocks, SoundItem, Means, Scan, Aligned;
    AnyChunking(blocks);
    Conservation(Start([]), blocks);
    SoundItemsOf(ParseBlocks(Start([]), blocks).pieces);
    EmitMeans(raw, hook, o, Items(ParseBlocks(Start([]), blocks).pieces));
  }

  lemma NoItems()
    ensures Items([]) == []
  {}
}
