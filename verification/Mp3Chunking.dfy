/** What the parser delivers, whatever way its input is cut into blocks. */
module Mp3Chunking {
  import opened Bytes
  import opened MpegHeader
  import opened Mp3Stream

  lemma PrependTwice(a: seq<Item>, b: seq<Item>, p: Parsed)
    ensures Prepend(a, Prepend(b, p)) == Prepend(a + b, p)
  {
    assert a + (b + p.items) == a + b + p.items;
  }

  /** Taking `data` in state s gives p, and the scanner's answer for everything is p's items
      followed by its answer for what p still holds and what is still to come. */
  ghost predicate Follows(s: State, data: seq<byte>, rest: seq<byte>, p: Progress) {
    && Scan(Pending(s) + data + rest) == Prepend(Items(p.pieces), Scan(Pending(p.state) + rest))
    && Aligned(Pending(p.state) + rest, p.state.Resync?)
  }

  lemma FollowsCompose(s: State, a: seq<byte>, b: seq<byte>, rest: seq<byte>, p: Progress, q: Progress)
    requires Follows(s, a, b + rest, p) && Follows(p.state, b, rest, q)
    ensures Follows(s, a + b, rest, Progress(q.state, p.pieces + q.pieces))
  {
    hide Scan, Aligned, Items;
    assert Pending(s) + (a + b) + rest == Pending(s) + a + (b + rest);
    assert Pending(p.state) + b + rest == Pending(p.state) + (b + rest);
    PrependTwice(Items(p.pieces), Items(q.pieces), Scan(Pending(q.state) + rest));
    ItemsAppend(p.pieces, q.pieces);
  }

  lemma StepFollows(s: State, b: byte, rest: seq<byte>)
    requires Sound(s)
    requires Aligned(Pending(s) + [b] + rest, s.Resync?)
    ensures Sound(Step(s, b).state) && Follows(s, [b], rest, Step(s, b))
    ensures Aligned(Pending(Step(s, b).state) + rest, Step(s, b).state.Resync?)
  {
    hide Scan, Aligned, Step, Items;
    StepSound(s, b);
    StepAgrees(s, b, rest);
  }

  lemma NothingFollows(s: State, rest: seq<byte>)
    requires Aligned(Pending(s) + rest, s.Resync?)
    ensures Follows(s, [], rest, Progress(s, []))
  {
    hide Scan, Aligned;
    assert Pending(s) + [] + rest == Pending(s) + rest;
    PrependNothing(Scan(Pending(s) + rest));
  }

  lemma {:induction false} RunAgrees(s: State, data: seq<byte>, rest: seq<byte>)
    requires Sound(s)
    requires Aligned(Pending(s) + data + rest, s.Resync?)
    ensures Follows(s, data, rest, Run(s, data))
    decreases |data|
  {
    hide Scan, Aligned, Step, Follows, Pending, Sound;
    if data == [] {
      assert Pending(s) + data + rest == Pending(s) + rest;
      NothingFollows(s, rest);
    } else {
      var b, tail := data[0], data[1..];
      assert Pending(s) + data + rest == Pending(s) + [b] + (tail + rest);
      StepFollows(s, b, tail + rest);
      var first := Step(s, b);
      assert Pending(first.state) + (tail + rest) == Pending(first.state) + tail + rest;
      RunAgrees(first.state, tail, rest);
      FollowsCompose(s, [b], tail, rest, first, Run(first.state, tail));
      assert [b] + tail == data;
    }
  }

  lemma BlockAgrees(s: State, block: seq<byte>, rest: seq<byte>)
    requires Sound(s) && !s.Resync?
    requires Aligned(Pending(s) + block + rest, false)
    ensures Follows(s, block, rest, ParseBlock(s, block))
  {
    RunAgrees(s, block, rest);
    if Run(s, block).state.Resync? {
      AlignedWeaken([] + rest);
    }
  }

  lemma {:induction false} BlocksAgree(s: State, blocks: seq<seq<byte>>)
    requires Sound(s) && !s.Resync?
    requires Aligned(Pending(s) + Flatten(blocks), false)
    ensures Follows(s, Flatten(blocks), [], ParseBlocks(s, blocks))
    decreases |blocks|
  {
    assert Pending(s) + Flatten(blocks) + [] == Pending(s) + Flatten(blocks);
    if blocks == [] {
      assert Pending(s) + [] == Pending(s);
      PrependNothing(Scan(Pending(s)));
    } else {
      var more := Flatten(blocks[1..]);
      assert Pending(s) + Flatten(blocks) == Pending(s) + blocks[0] + more;
      BlockAgrees(s, blocks[0], more);
      var first := ParseBlock(s, blocks[0]);
      BlocksAgree(first.state, blocks[1..]);
      assert more + [] == more;
      FollowsCompose(s, blocks[0], more, [], first, ParseBlocks(first.state, blocks[1..]));
    }
  }

  /** An unfinished item is what the scanner sees in the bytes held back, and nothing else. */
  lemma ScanOfPending(s: State)
    requires Sound(s)
    ensures Scan(Pending(s)) == Parsed([], Open(s))
    ensures Aligned(Pending(s), false)
  {}

  /** Main result: whenever the scanner meets no tag right after a skipped byte, every way of
      cutting the stream into blocks delivers exactly what the scanner finds. */
  lemma AnyChunking(blocks: seq<seq<byte>>)
    requires Aligned(Flatten(blocks), false)
    ensures Seen(ParseBlocks(Start([]), blocks)) == Scan(Flatten(blocks))
  {
    assert [] + Flatten(blocks) == Flatten(blocks);
    BlocksAgree(Start([]), blocks);
    var p := ParseBlocks(Start([]), blocks);
    ScanOfPending(p.state);
    assert [] + Flatten(blocks) + [] == Flatten(blocks) && Pending(p.state) + [] == Pending(p.state);
    assert Items(p.pieces) + [] == Items(p.pieces);
  }

  // ----- The condition is exact

  /** The first item found, finished or not. */
  function Firsts(p: Parsed): seq<Item> {
    (p.items + p.open)[..if |p.items + p.open| == 0 then 0 else 1]
  }

  predicate StartsWith(p: Parsed, kinds: set<Kind>) {
    Firsts(p) != [] && Firsts(p)[0].kind in kinds
  }

  predicate Synced(s: State) {
    match s
    case Start(held) => held != [] && held[0] == 0xff
    case Resync => true
    case Inside(kind, _, _) => kind == Mpeg
  }

  /** While skipping, or with a 0xff at the front, the next thing found is never a tag. */
  lemma {:induction false} SyncedFindsNoTag(s: State, data: seq<byte>)
    requires Sound(s) && Synced(s)
    ensures !StartsWith(Seen(Run(s, data)), {OldTag, Id3})
    decreases |data|
  {
    if data == [] {
    } else {
      StepSound(s, data[0]);
      var first := Step(s, data[0]);
      var later := Run(first.state, data[1..]);
      ItemsAppend(first.pieces, later.pieces);
      if s.Inside? && |s.held| + 1 == s.need {
        assert first.pieces == [Whole(Item(Mpeg, s.held + [data[0]]))];
        assert Items(first.pieces) == [Item(Mpeg, s.held + [data[0]])];
      } else {
        SyncedStep(s, data[0]);
        assert Items(first.pieces) + Items(later.pieces) == Items(later.pieces);
        SyncedFindsNoTag(first.state, data[1..]);
      }
    }
  }

  lemma SyncedStep(s: State, b: byte)
    requires Sound(s) && Synced(s) && !(s.Inside? && |s.held| + 1 == s.need)
    ensures Synced(Step(s, b).state) && Items(Step(s, b).pieces) == []
  {
    hide Recognise, Decide;
    if s.Start? && |s.held| == 3 {
      SyncedDecide(s.held + [b]);
    } else if s.Resync? {
      ItemsOfOne(Junk(b));
    }
  }

  /** Four bytes of which the first is a 0xff */
  lemma SyncedDecide(buf: seq<byte>)
    requires |buf| == 4 && buf[0] == 0xff
    ensures Synced(Decide(buf).state) && Items(Decide(buf).pieces) == []
  {
    hide Recognise, DropToSync;
    ItemsOfJunk(buf[..4 - |DropToSync(buf[1..])|]);
  }

  predicate TagAhead(stream: seq<byte>) {
    |stream| >= 4 && Recognise(stream).Heading? && Recognise(stream).kind != Mpeg
  }

  lemma TagAheadIsFound(stream: seq<byte>)
    requires TagAhead(stream)
    ensures StartsWith(Scan(stream), {OldTag, Id3})
  {
    RecogniseRange(stream);
  }

  /** Skipping through bytes that are not aligned: either they stay so, or a tag was passed. */
  lemma SkipMisaligned(stream: seq<byte>)
    requires stream != [] && stream[0] != 0xff && !Aligned(stream, true) && !TagAhead(stream)
    ensures Scan(stream) == Scan(stream[1..]) && !Aligned(stream[1..], true)
  {}

  lemma {:induction false} SkipMisalignedHeld(held: seq<byte>, rest: seq<byte>)
    requires !Aligned(held + rest, true)
    ensures var kept := DropToSync(held);
            || StartsWith(Scan(held + rest), {OldTag, Id3})
            || (Scan(held + rest) == Scan(kept + rest) && !Aligned(kept + rest, true))
  {
    if held != [] && held[0] != 0xff {
      var all := held + rest;
      assert all[1..] == held[1..] + rest;
      if TagAhead(all) {
        TagAheadIsFound(all);
      } else {
        SkipMisaligned(all);
        SkipMisalignedHeld(held[1..], rest);
      }
    }
  }

  lemma SyncedAligned(stream: seq<byte>)
    requires stream != [] && stream[0] == 0xff
    ensures Aligned(stream, true) == Aligned(stream, false)
  {}

  /** The step went past a tag that the scanner finds here. */
  ghost predicate Missed(s: State, b: byte, rest: seq<byte>) {
    && Sound(s)
    && StartsWith(Scan(Pending(s) + [b] + rest), {OldTag, Id3})
    && Synced(Step(s, b).state)
    && Items(Step(s, b).pieces) == []
  }

  ghost predicate StillMisaligned(s: State, b: byte, rest: seq<byte>) {
    && Sound(s)
    && var p := Step(s, b);
    && Scan(Pending(s) + [b] + rest) == Prepend(Items(p.pieces), Scan(Pending(p.state) + rest))
    && !Aligned(Pending(p.state) + rest, p.state.Resync?)
  }

  lemma {:induction false} DecideMisaligned(buf: seq<byte>, rest: seq<byte>)
    requires |buf| == 4 && !Aligned(buf + rest, false)
    ensures Missed(Start(buf[..3]), buf[3], rest) || StillMisaligned(Start(buf[..3]), buf[3], rest)
  {
    hide Recognise, DropToSync, Items, JunkOf, StartsWith, Synced;
    var all := buf + rest;
    assert all[..4] == buf && buf[..3] + [buf[3]] == buf;
    RecogniseRange(all);
    if Recognise(buf).NoHeading? {
      assert all[1..] == buf[1..] + rest;
      assert Scan(all) == Scan(buf[1..] + rest) && !Aligned(buf[1..] + rest, true);
      NothingDecided(buf, rest);
    } else {
      PrependNoItems(Scan(all));
    }
  }

  lemma NothingDecided(buf: seq<byte>, rest: seq<byte>)
    requires |buf| == 4 && Recognise(buf).NoHeading?
    requires Scan(buf + rest) == Scan(buf[1..] + rest) && !Aligned(buf[1..] + rest, true)
    ensures Missed(Start(buf[..3]), buf[3], rest) || StillMisaligned(Start(buf[..3]), buf[3], rest)
  {
    hide Recognise, DropToSync, Items, JunkOf, StartsWith, Scan, Aligned;
    var kept := DropToSync(buf[1..]);
    assert buf[..3] + [buf[3]] == buf;
    PrependNothing(Scan(kept + rest));
    SkipMisalignedHeld(buf[1..], rest);
    ItemsOfJunk(buf[..4 - |kept|]);
    if kept != [] {
      SyncedAligned(kept + rest);
    }
  }

  lemma ResyncMisaligned(b: byte, rest: seq<byte>)
    requires !Aligned([b] + rest, true)
    ensures Missed(Resync, b, rest) || StillMisaligned(Resync, b, rest)
  {
    var all := [b] + rest;
    assert [] + [b] + rest == all && [] + rest == rest && all[1..] == rest;
    PrependNothing(Scan(all));
    if b == 0xff {
      SyncedAligned(all);
    } else if TagAhead(all) {
      TagAheadIsFound(all);
    } else {
      SkipMisaligned(all);
      ItemsOfJunk([b]);
      assert JunkOf([b]) == [Junk(b)];
    }
  }

  lemma CompleteMisaligned(kind: Kind, held: seq<byte>, rest: seq<byte>)
    requires SoundItem(Item(kind, held)) && !Aligned(held + rest, false)
    ensures Scan(held + rest) == Prepend([Item(kind, held)], Scan(rest))
    ensures !Aligned(rest, false)
  {
    var all := held + rest;
    RecogniseRange(held);
    RecogniseRange(all);
    assert all[..4] == held[..4];
    assert all[..|held|] == held && all[|held|..] == rest;
  }

  lemma {:induction false} StepMisaligned(s: State, b: byte, rest: seq<byte>)
    requires Sound(s) && !Aligned(Pending(s) + [b] + rest, s.Resync?)
    ensures Missed(s, b, rest) || StillMisaligned(s, b, rest)
  {
    hide Scan, Aligned;
    match s
    case Start(held) =>
      if |held| == 3 {
        assert (held + [b])[..3] == held;
        DecideMisaligned(held + [b], rest);
      } else {
        PrependNothing(Scan(Pending(s) + [b] + rest));
      }
    case Resync =>
      assert [] + [b] + rest == [b] + rest;
      ResyncMisaligned(b, rest);
    case Inside(kind, held, need) =>
      StepSound(s, b);
      if |held| + 1 == need {
        CompleteMisaligned(kind, held + [b], rest);
        var item := Item(kind, held + [b]);
        assert [] + rest == rest;
        assert Items([Whole(item)]) == [item] + [] == [item];
      } else {
        PrependNothing(Scan(Pending(s) + [b] + rest));
      }
  }

  /** A stream that is not aligned is read differently when it comes in one block. */
  lemma {:induction false} RunMisaligned(s: State, data: seq<byte>)
    requires Sound(s) && !Aligned(Pending(s) + data, s.Resync?)
    ensures Seen(Run(s, data)) != Scan(Pending(s) + data)
    decreases |data|
  {
    if data == [] {
      assert Pending(s) + data == Pending(s);
      ScanOfPending(s);
    } else {
      var b, rest := data[0], data[1..];
      assert Pending(s) + data == Pending(s) + [b] + rest;
      StepSound(s, b);
      StepMisaligned(s, b, rest);
      var first := Step(s, b);
      var later := Run(first.state, rest);
      ItemsAppend(first.pieces, later.pieces);
      if Missed(s, b, rest) {
        SyncedFindsNoTag(first.state, rest);
        assert [] + Items(later.pieces) == Items(later.pieces);
      } else {
        RunMisaligned(first.state, rest);
        PrependInjective(Items(first.pieces), Seen(later), Scan(Pending(first.state) + rest));
      }
    }
  }

  lemma PrependInjective(items: seq<Item>, p: Parsed, q: Parsed)
    requires p != q
    ensures Prepend(items, p) != Prepend(items, q)
  {
    assert p.items == Prepend(items, p).items[|items|..];
    assert q.items == Prepend(items, q).items[|items|..];
  }

  lemma OneBlock(stream: seq<byte>)
    ensures Flatten([stream]) == stream
    ensures Seen(ParseBlocks(Start([]), [stream])) == Seen(Run(Start([]), stream))
  {
    assert [stream][1..] == [];
    assert Flatten([stream]) == stream + [];
    var p := Run(Start([]), stream);
    assert ParseBlocks(Start([]), [stream]).pieces == p.pieces + [] == p.pieces;
  }

  /** Main result: the parser agrees with the scanner under every chunking of a stream exactly
      when the stream is aligned. */
  lemma ScannerAgreementExactly(stream: seq<byte>)
    ensures (forall blocks :: Flatten(blocks) == stream ==> Seen(ParseBlocks(Start([]), blocks)) == Scan(stream))
            <==> Aligned(stream, false)
  {
    hide Scan, Aligned, ParseBlocks;
    if Aligned(stream, false) {
      forall blocks | Flatten(blocks) == stream
        ensures Seen(ParseBlocks(Start([]), blocks)) == Scan(stream)
      {
        AnyChunking(blocks);
      }
    } else {
      OneBlock(stream);
      FromReset(stream);
    }
  }

  lemma FromReset(stream: seq<byte>)
    requires !Aligned(stream, false)
    ensures Seen(Run(Start([]), stream)) != Scan(stream)
  {
    assert [] + stream == stream;
    RunMisaligned(Start([]), stream);
  }
}
