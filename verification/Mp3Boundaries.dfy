/** When it matters where a stream is cut into blocks: exactly when a tag begins at a byte that the
    parse of the whole stream passes inside the resync skip. */
module Mp3Boundaries {
  import opened Bytes
  import opened MpegHeader
  import opened Mp3Stream
  import opened Mp3Chunking
  import opened Mp3Laws

  // ----- The condition, read off the stream

  /** From a position where nothing is held: no tag begins at any byte the skip passes. Of the four
      bytes looked at together, those up to the next 0xff are dropped with the first one; the
      skip starts behind them. */
  predicate Seamless(stream: seq<byte>)
    decreases |stream|, 0
  {
    if |stream| < 4 then true
    else
      RecogniseRange(stream);
      match Recognise(stream)
      case Heading(_, length) => length <= |stream| ==> Seamless(stream[length..])
      case NoHeading =>
        var kept := DropToSync(stream[1..4]);
        if kept == [] then SkipsNoTag(stream[4..]) else Seamless(stream[4 - |kept|..])
  }

  /** From a position inside the skip */
  predicate SkipsNoTag(stream: seq<byte>)
    decreases |stream|, 1
  {
    if stream == [] then true
    else if stream[0] == 0xff then Seamless(stream)
    else !TagAhead(stream) && SkipsNoTag(stream[1..])
  }

  /** The same from any state of the parser, for the bytes still to come */
  ghost predicate SeamlessFrom(s: State, data: seq<byte>)
    requires Sound(s)
  {
    match s
    case Start(held) => Seamless(held + data)
    case Resync => SkipsNoTag(data)
    case Inside(_, held, need) => need <= |held + data| ==> Seamless((held + data)[need..])
  }

  predicate PassesTag(s: State, data: seq<byte>) {
    s.Resync? && TagAhead(data) && data[0] != 0xff
  }

  lemma DecideSeamless(buf: seq<byte>, rest: seq<byte>)
    requires |buf| == 4
    ensures Sound(Decide(buf).state)
    ensures Seamless(buf + rest) <==> SeamlessFrom(Decide(buf).state, rest)
  {
    hide Recognise, DropToSync;
    var all := buf + rest;
    RecogniseRange(all);
    RecogniseRange(buf);
    assert all[..4] == buf && all[1..4] == buf[1..] && all[4..] == rest;
    var kept := DropToSync(buf[1..]);
    assert all[4 - |kept|..] == kept + rest;
  }

  /** One byte: the condition on what is to come is the one on this byte and the one on the rest. */
  lemma StepSeamless(s: State, b: byte, rest: seq<byte>)
    requires Sound(s)
    ensures Sound(Step(s, b).state)
    ensures SeamlessFrom(s, [b] + rest) <==> !PassesTag(s, [b] + rest) && SeamlessFrom(Step(s, b).state, rest)
  {
    hide Recognise, Decide, Seamless, TagAhead;
    StepSound(s, b);
    match s
    case Start(held) =>
      assert held + ([b] + rest) == held + [b] + rest;
      if |held| == 3 {
        DecideSeamless(held + [b], rest);
      }
    case Resync =>
      assert ([b] + rest)[1..] == rest;
    case Inside(_, held, need) =>
      assert held + ([b] + rest) == held + [b] + rest;
      if |held| + 1 == need {
        assert (held + [b] + rest)[need..] == rest == [] + rest;
      }
  }

  // ----- Where it fails, two chunkings differ

  /** The cut in front of the tag */
  lemma {:induction false} FindCut(s: State, data: seq<byte>) returns (k: nat)
    requires Sound(s) && !SeamlessFrom(s, data)
    ensures k <= |data| && Run(s, data[..k]).state.Resync? && TagAhead(data[k..])
    decreases |data|
  {
    hide TagAhead, Seamless, Step;
    if data == [] {
      k := 0;
      NothingSeamless(s);
      assert false;
    } else {
      var b, rest := data[0], data[1..];
      assert data == [b] + rest;
      StepSeamless(s, b, rest);
      if PassesTag(s, data) {
        k := 0;
        assert data[..0] == [] && data[0..] == data;
      } else {
        var j := FindCut(Step(s, b).state, rest);
        k := j + 1;
        assert data[..k][0] == b && data[..k][1..] == rest[..j] && data[k..] == rest[j..];
      }
    }
  }

  lemma NothingSeamless(s: State)
    requires Sound(s)
    ensures SeamlessFrom(s, [])
  {}

  lemma SeenAppend(p: Progress, q: Progress)
    ensures Seen(Progress(q.state, p.pieces + q.pieces)) == Prepend(Items(p.pieces), Seen(q))
  {
    ItemsAppend(p.pieces, q.pieces);
  }

  /** Inside an item, that item is the next one seen. */
  lemma {:induction false} InsideIsNext(s: State, data: seq<byte>)
    requires Sound(s) && s.Inside?
    ensures StartsWith(Seen(Run(s, data)), {s.kind})
    decreases |data|
  {
    if data != [] {
      StepSound(s, data[0]);
      var first := Step(s, data[0]);
      var later := Run(first.state, data[1..]);
      SeenAppend(first, later);
      if |s.held| + 1 == s.need {
        ItemsOfOne(first.pieces[0]);
      } else {
        InsideIsNext(first.state, data[1..]);
        PrependNoItems(Seen(later));
      }
    }
  }

  /** With nothing held, a tag ahead is the next thing seen. */
  lemma TagIsNext(stream: seq<byte>)
    requires TagAhead(stream)
    ensures StartsWith(Seen(Run(Start([]), stream)), {OldTag, Id3})
  {
    var buf, rest := stream[..4], stream[4..];
    assert stream == buf + rest;
    RecogniseRange(stream);
    RunAppend(Start([]), buf, rest);
    FillUp(Start([]), buf);
    assert [] + buf == buf;
    var p := Run(Start([]), buf);
    InsideIsNext(p.state, rest);
    SeenAppend(p, Run(p.state, rest));
    PrependNothing(Seen(Run(p.state, rest)));
  }

  /** The two chunkings: all in one block, and cut in front of the tag */
  lemma CutMatters(stream: seq<byte>, k: nat)
    requires k <= |stream| && Run(Start([]), stream[..k]).state.Resync? && TagAhead(stream[k..])
    ensures Flatten([stream]) == Flatten([stream[..k], stream[k..]]) == stream
    ensures Seen(ParseBlocks(Start([]), [stream])) != Seen(ParseBlocks(Start([]), [stream[..k], stream[k..]]))
  {
    hide Run, TagAhead, StartsWith, ParseBlocks;
    var a, b := stream[..k], stream[k..];
    assert stream == a + b;
    FlattenTwo(a, b);
    OneBlock(stream);
    RunAppend(Start([]), a, b);
    var p := Run(Start([]), a);
    SyncedFindsNoTag(Resync, b);
    TagIsNext(b);
    SeenAppend(p, Run(Resync, b));
    TwoBlocks(Start([]), a, b);
    SeenAppend(ParseBlock(Start([]), a), ParseBlock(Start([]), b));
    PrependInjective(Items(p.pieces), Seen(Run(Resync, b)), Seen(Run(Start([]), b)));
  }

  lemma FlattenTwo(a: seq<byte>, b: seq<byte>)
    ensures Flatten([a, b]) == a + b
  {
    assert [a, b][1..] == [b] && [b][1..] == [];
    assert Flatten([b]) == b + [] == b;
  }

  // ----- Where it holds, all chunkings agree

  /** How a parse that was cut may lag behind the uncut one: it still holds bytes, none of them a
      0xff, that the other has skipped, and no tag begins at the first of them. */
  ghost predicate Lags(m: State, c: State, rest: seq<byte>) {
    c == m || (c.Start? && |Pending(m)| <= |c.held| && Behind(m, c.held[..|c.held| - |Pending(m)|], c.held, rest))
  }

  ghost predicate Behind(m: State, late: seq<byte>, held: seq<byte>, rest: seq<byte>) {
    && (m.Resync? || (m.Start? && m.held != [] && m.held[0] == 0xff))
    && held == late + Pending(m)
    && (forall i :: 0 <= i < |late| ==> late[i] != 0xff)
    && (late != [] ==> !TagAhead(held + rest))
  }

  lemma BehindLags(m: State, late: seq<byte>, held: seq<byte>, rest: seq<byte>)
    requires Behind(m, late, held, rest)
    ensures Lags(m, Start(held), rest)
  {
    assert held[..|held| - |Pending(m)|] == late;
  }

  lemma {:induction false} DropLate(late: seq<byte>, s: seq<byte>)
    requires forall i :: 0 <= i < |late| ==> late[i] != 0xff
    requires s == [] || s[0] == 0xff
    ensures DropToSync(late + s) == s
  {
    if late == [] {
      assert late + s == s;
    } else {
      assert (late + s)[1..] == late[1..] + s;
      DropLate(late[1..], s);
    }
  }

  /** Four bytes of which the first are late: they are dropped, and the lag is over. */
  lemma LateDecided(late: seq<byte>, s: seq<byte>, rest: seq<byte>)
    requires late != [] && (forall i :: 0 <= i < |late| ==> late[i] != 0xff) && (s == [] || s[0] == 0xff)
    requires |late + s| == 4 && !TagAhead(late + s + rest)
    ensures Decide(late + s).state == if s == [] then Resync else Start(s)
    ensures Items(Decide(late + s).pieces) == []
  {
    var buf := late + s;
    RecogniseRange(buf + rest);
    assert (buf + rest)[..4] == buf;
    assert buf[1..] == late[1..] + s;
    DropLate(late[1..], s);
    hide Recognise, DropToSync;
    ItemsOfJunk(buf[..4 - |s|]);
  }

  lemma StepBehind(m: State, late: seq<byte>, held: seq<byte>, b: byte, rest: seq<byte>)
    requires Sound(m) && |held| < 4 && Behind(m, late, held, [b] + rest) && (late == [] ==> m.Resync?)
    requires !PassesTag(m, [b] + rest)
    ensures Lags(Step(m, b).state, Step(Start(held), b).state, rest)
    ensures Items(Step(m, b).pieces) == Items(Step(Start(held), b).pieces) == []
  {
    hide TagAhead, Decide, DropToSync;
    ItemsOfOne(Junk(b));
    assert held + ([b] + rest) == held + [b] + rest;
    var more := if m.Resync? && b != 0xff then late + [b] else late;
    var s := if m.Resync? && b != 0xff then [] else Pending(m) + [b];
    assert held + [b] == more + s;
    var m2 := Step(m, b).state;
    assert m2 == if s == [] then Resync else Start(s);
    if |held| < 3 {
      if late == [] && b != 0xff {
        assert held + [b] == [b];
      }
      BehindLags(m2, more, held + [b], rest);
    } else {
      LateDecided(more, s, rest);
    }
  }

  lemma StepLags(m: State, c: State, b: byte, rest: seq<byte>)
    requires Sound(m) && Sound(c) && Lags(m, c, [b] + rest) && !PassesTag(m, [b] + rest)
    ensures Lags(Step(m, b).state, Step(c, b).state, rest)
    ensures Items(Step(m, b).pieces) == Items(Step(c, b).pieces)
  {
    hide Behind, Step, Items;
    if c != m {
      var late := c.held[..|c.held| - |Pending(m)|];
      NotLateIsSame(m, late, c.held, [b] + rest);
      StepBehind(m, late, c.held, b, rest);
    }
  }

  lemma NotLateIsSame(m: State, late: seq<byte>, held: seq<byte>, rest: seq<byte>)
    requires Behind(m, late, held, rest)
    ensures late == [] ==> m.Resync? || m == Start(held)
  {}

  lemma {:induction false} RunLags(m: State, c: State, data: seq<byte>, rest: seq<byte>)
    requires Sound(m) && Sound(c) && Lags(m, c, data + rest) && SeamlessFrom(m, data + rest)
    ensures Lags(Run(m, data).state, Run(c, data).state, rest) && SeamlessFrom(Run(m, data).state, rest)
    ensures Items(Run(m, data).pieces) == Items(Run(c, data).pieces)
    decreases |data|
  {
    hide Lags, SeamlessFrom, Step, Sound, Items, PassesTag;
    if data == [] {
      assert data + rest == rest;
    } else {
      var b, more := data[0], data[1..] + rest;
      assert data + rest == [b] + more;
      StepSeamless(m, b, more);
      StepLags(m, c, b, more);
      StepSound(c, b);
      var m2, c2 := Step(m, b), Step(c, b);
      RunLags(m2.state, c2.state, data[1..], rest);
      ItemsAppend(m2.pieces, Run(m2.state, data[1..]).pieces);
      ItemsAppend(c2.pieces, Run(c2.state, data[1..]).pieces);
    }
  }

  lemma RestLags(m: State, c: State, rest: seq<byte>)
    requires Lags(m, c, rest)
    ensures Lags(m, Rest(c), rest)
    ensures Open(m) == Open(c)
  {}

  /** However the data are cut, the same comes out as in one run. */
  lemma {:induction false} BlocksLag(m: State, c: State, blocks: seq<seq<byte>>)
    requires Sound(m) && Sound(c) && Lags(m, c, Flatten(blocks)) && SeamlessFrom(m, Flatten(blocks))
    ensures Seen(Run(m, Flatten(blocks))) == Seen(ParseBlocks(c, blocks))
    decreases |blocks|
  {
    hide Lags, SeamlessFrom, Run, Sound, Items;
    if blocks == [] {
      RestLags(m, c, []);
      NothingRun(m);
    } else {
      var a, more := blocks[0], Flatten(blocks[1..]);
      RunLags(m, c, a, more);
      var p, q := Run(m, a), ParseBlock(c, a);
      RestLags(p.state, Run(c, a).state, more);
      BlocksLag(p.state, q.state, blocks[1..]);
      RunAppend(m, a, more);
      SeenAppend(p, Run(p.state, more));
      SeenAppend(q, ParseBlocks(q.state, blocks[1..]));
    }
  }

  lemma NothingRun(s: State)
    requires Sound(s)
    ensures Run(s, []) == Progress(s, [])
  {}

  /** Main result: what is seen of a stream is the same for all ways of cutting it into blocks if
      and only if the parse of the whole passes no tag inside the skip. */
  lemma ChunkIndependenceExactly(stream: seq<byte>)
    ensures (forall a, b :: Flatten(a) == stream && Flatten(b) == stream ==>
                              Seen(ParseBlocks(Start([]), a)) == Seen(ParseBlocks(Start([]), b)))
            <==> Seamless(stream)
  {
    hide Seamless, ParseBlocks, Run, TagAhead;
    assert [] + stream == stream;
    if Seamless(stream) {
      forall a | Flatten(a) == stream
        ensures Seen(ParseBlocks(Start([]), a)) == Seen(Run(Start([]), stream))
      {
        BlocksLag(Start([]), Start([]), a);
      }
    } else {
      var k := FindCut(Start([]), stream);
      CutMatters(stream, k);
    }
  }

  /** Where the scanner agrees with every chunking, the chunkings agree with each other, but not the
      other way round: after one byte thrown away, "TAG" is dropped by every one of them. */
  lemma AlignedIsSeamless(stream: seq<byte>)
    requires Aligned(stream, false)
    ensures Seamless(stream)
  {
    hide Seamless, Aligned, ParseBlocks;
    ScannerAgreementExactly(stream);
    ChunkIndependenceExactly(stream);
  }

  lemma SeamlessNotAligned()
    ensures var stream := [0x78] + TAG_MARK + [0]; Seamless(stream) && !Aligned(stream, false)
  {
    hide FrameBytes, DropToSync;
    var stream: seq<byte> := [0x78] + TAG_MARK + [0];
    var tail := stream[1..];
    assert tail == TAG_MARK + [0] && tail[..3] == TAG_MARK;
    assert Recognise(tail) == Heading(OldTag, 128);
    assert !Aligned(tail, true);
    assert stream[..3] == [0x78, 0x54, 0x41] && stream[0] == 0x78;
    assert Recognise(stream) == NoHeading;
    var word := stream[1..4];
    assert word == [0x54, 0x41, 0x47] && word + [] == word;
    DropLate(word, []);
    assert stream[4..] == [0];
    assert SkipsNoTag([0]);
  }

  /** Four bytes of noise and the beginning of a TAG block: in one block the tag is skipped, cut in
      front of it the tag is found. */
  lemma TagAfterNoise()
    ensures var noise: seq<byte> := [0x78, 0x78, 0x78, 0x78]; var tag := TAG_MARK + [0];
            && !Seamless(noise + tag)
            && Seen(ParseBlocks(Start([]), [noise + tag])) != Seen(ParseBlocks(Start([]), [noise, tag]))
  {
    hide FrameBytes, ParseBlocks, Run, DropToSync;
    var noise: seq<byte>, tag := [0x78, 0x78, 0x78, 0x78], TAG_MARK + [0];
    var stream := noise + tag;
    assert tag[..3] == TAG_MARK;
    assert stream[..4] == noise && stream[4..] == tag && noise[1..] == stream[1..4] == [0x78, 0x78, 0x78];
    DropLate([0x78, 0x78, 0x78], []);
    assert Recognise(noise) == NoHeading;
    RecogniseRange(stream);
    FillUp(Start([]), noise);
    assert [] + noise == noise;
    CutMatters(stream, 4);
  }
}
