/** Stamping of delivered frames into packets: the RTP header of section 5.1 of RFC 3550 and
    the MPEG audio header of section 3.5 of RFC 2250. */
module RtpStamper {
  import opened Bytes
  import opened MpegHeader

  const HEADER_SIZE := 16

  /** The header as the program's buffer holds it before the first packet. */
  const FIRST_HEADER: seq<byte> := [0x80, 0x8e, 0, 0, 0, 0, 0, 0] + FIXED_TAIL

  /** The stream identifier, and an MPEG audio header with fragment offset 0 */
  const FIXED_TAIL: seq<byte> := [0xbe, 0xef, 0xba, 0xbe, 0, 0, 0, 0]

  /** What changes from packet to packet. The sequence counter is a 32-bit unsigned integer;
      the timestamp counter is wide and only its low 32 bits are sent. */
  datatype Stamper = Stamper(header: seq<byte>, seqno: nat, timestamp: nat)

  ghost predicate Valid(st: Stamper) {
    |st.header| == HEADER_SIZE && st.seqno < WORD
  }

  /** Big-endian bytes of the low 16 and the low 32 bits of a counter. */
  function Be16(n: nat): (b: seq<byte>)
    ensures |b| == 2
  {
    [n / 0x100 % 256, n % 256]
  }

  function Be32(n: nat): (b: seq<byte>)
    ensures |b| == 4
  {
    [n / 0x100_0000 % 256, n / 0x1_0000 % 256, n / 0x100 % 256, n % 256]
  }

  /** The header with both counters written into it. */
  function Written(st: Stamper): (h: seq<byte>)
    requires Valid(st)
    ensures |h| == HEADER_SIZE
    ensures h[..2] == st.header[..2] && h[2..4] == Be16(st.seqno) && h[4..8] == Be32(st.timestamp)
    ensures h[8..] == st.header[8..]
  {
    st.header[..2] + Be16(st.seqno) + Be32(st.timestamp) + st.header[8..]
  }

  /** The timestamp is advanced in floating point and truncated; read here as exact arithmetic. */
  function Advance(timestamp: nat, frame: seq<byte>): (t: nat)
    requires |frame| >= 4
  {
    var t := (timestamp as real + FrameTicks(frame[..4])).Floor;
    if t < 0 then 0 else t
  }

  function Next(st: Stamper, frame: seq<byte>): (r: Stamper)
    requires Valid(st) && |frame| >= 4
    ensures Valid(r)
  {
    var h := Written(st);
    Stamper(h[1 := h[1] % 128], (st.seqno + 1) % WORD, Advance(st.timestamp, frame))
  }

  /** raw: the frame is sent without any header. */
  function Packet(st: Stamper, raw: bool, frame: seq<byte>): seq<byte>
    requires Valid(st)
  {
    if raw then frame else Written(st) + frame
  }

  predicate WholeFrame(frame: seq<byte>) {
    |frame| >= 4 && FrameBytes(frame[..4]) == |frame|
  }

  predicate WholeFrames(frames: seq<seq<byte>>) {
    forall i :: 0 <= i < |frames| ==> WholeFrame(frames[i])
  }

  datatype Stamped = Stamped(packets: seq<seq<byte>>, stamper: Stamper)

  function StampAll(st: Stamper, raw: bool, frames: seq<seq<byte>>): (r: Stamped)
    requires Valid(st) && WholeFrames(frames)
    ensures |r.packets| == |frames| && Valid(r.stamper)
    decreases |frames|
  {
    if frames == [] then Stamped([], st)
    else
      assert WholeFrame(frames[0]);
      var rest := StampAll(Next(st, frames[0]), raw, frames[1..]);
      Stamped([Packet(st, raw, frames[0])] + rest.packets, rest.stamper)
  }

  lemma StampCons(st: Stamper, raw: bool, frames: seq<seq<byte>>)
    requires Valid(st) && WholeFrames(frames) && frames != []
    ensures WholeFrame(frames[0]) && WholeFrames(frames[1..])
    ensures var rest := StampAll(Next(st, frames[0]), raw, frames[1..]);
            StampAll(st, raw, frames) == Stamped([Packet(st, raw, frames[0])] + rest.packets, rest.stamper)
  {}

  lemma {:induction false} StampAppend(st: Stamper, raw: bool, a: seq<seq<byte>>, b: seq<seq<byte>>)
    requires Valid(st) && WholeFrames(a) && WholeFrames(b)
    ensures WholeFrames(a + b)
    ensures var p := StampAll(st, raw, a); var q := StampAll(p.stamper, raw, b);
            StampAll(st, raw, a + b) == Stamped(p.packets + q.packets, q.stamper)
    decreases |a|
  {
    hide WholeFrame, Next, Packet;
    if a == [] {
      assert a + b == b;
      assert StampAll(st, raw, a) == Stamped([], st);
      assert [] + StampAll(st, raw, b).packets == StampAll(st, raw, b).packets;
    } else {
      hide StampAll;
      StampCons(st, raw, a);
      StampCons(st, raw, a + b);
      assert (a + b)[0] == a[0] && (a + b)[1..] == a[1..] + b;
      StampAppend(Next(st, a[0]), raw, a[1..], b);
      var p := StampAll(Next(st, a[0]), raw, a[1..]);
      var q := StampAll(p.stamper, raw, b);
      var one := [Packet(st, raw, a[0])];
      assert one + (p.packets + q.packets) == one + p.packets + q.packets;
    }
  }

  // ----- What the receiver reads

  /** Exact duration of a frame in 90 kHz ticks, and the nearest whole number of ticks. */
  function Duration(frame: seq<byte>): real
    requires |frame| >= 4
  {
    var f := HeaderFields(frame[..4]);
    if !Allowed(f) then 0.0 else (Samples(f) * 90000) as real / SampleRate(f) as real
  }

  function Ticks(frame: seq<byte>): nat
    requires |frame| >= 4
  {
    Advance(0, frame)
  }

  lemma TicksAreNearest(frame: seq<byte>)
    requires |frame| >= 4 && FrameBytes(frame[..4]) != 0
    ensures -0.5 <= Ticks(frame) as real - Duration(frame) <= 0.5
    ensures FrameTicks(frame[..4]) == Duration(frame) + 0.5
  {
    var f := HeaderFields(frame[..4]);
    FrameBytesRange(frame[..4]);
    var hz := SampleRate(f) as real;
    HalfOf(((Samples(f) * 90000) as real), hz);
  }

  /** The two tables agree: without its padding a frame has the whole bytes that its bit rate
      fills in its duration. */
  lemma BytesMatchDuration(frame: seq<byte>)
    requires |frame| >= 4 && FrameBytes(frame[..4]) != 0
    ensures var f := HeaderFields(frame[..4]);
            && Allowed(f)
            && var filled := (125 * BitRate(f)) as real * Duration(frame) / 90000.0;
               FrameBytes(frame[..4]) == filled.Floor + if f.layer == 3 then 4 * f.padding else f.padding
  {
    hide FrameBytes, BitRate, SampleRate, HeaderFields, Allowed, Quotient, Samples;
    FrameBytesRange(frame[..4]);
    BytesAre(frame[..4]);
    var f := HeaderFields(frame[..4]);
    FilledBytes(Samples(f), BitRate(f), SampleRate(f));
  }

  lemma BytesAre(header: seq<byte>)
    requires |header| >= 4 && Allowed(HeaderFields(header))
    ensures var f := HeaderFields(header);
            FrameBytes(header) == Quotient(125 * Samples(f) * BitRate(f), SampleRate(f)) + if f.layer == 3 then 4 * f.padding else f.padding
  {
    hide BitRate, SampleRate, HeaderFields, Allowed, Quotient;
    var n := Samples(HeaderFields(header));
    assert n * 1000 / 8 == 125 * n;
  }

  lemma FilledBytes(n: nat, c: nat, hz: nat)
    requires hz > 0
    ensures Quotient(125 * n * c, hz) == ((125 * c) as real * ((n * 90000) as real / hz as real) / 90000.0).Floor
  {
    var d := (n * 90000) as real / hz as real;
    var x := (125 * c) as real * d / 90000.0;
    assert d * hz as real == (n * 90000) as real;
    assert x * hz as real == (125 * c) as real * (d * hz as real) / 90000.0;
    assert (n * 90000) as real == n as real * 90000.0;
    assert x * hz as real == (125 * c) as real * n as real;
    Products(125 * c, n);
    assert (125 * c) * n == 125 * n * c;
    FloorOfQuotient(125 * n * c, hz, x);
  }

  lemma Products(a: nat, b: nat)
    ensures a as real * b as real == (a * b) as real
  {}

  lemma FloorOfQuotient(a: nat, d: nat, x: real)
    requires d > 0 && x * d as real == a as real
    ensures Quotient(a, d) == x.Floor
  {
    var q := a / d;
    assert q * d <= a < q * d + d;
    Products(q, d);
    Products(q + 1, d);
    assert (q + 1) * d == q * d + d;
    assert (q * d) as real <= x * d as real < ((q + 1) * d) as real;
    if x < q as real {
      Scaled(x, q as real, d as real);
      assert false;
    } else if x >= (q + 1) as real {
      Scaled((q + 1) as real, x, d as real);
      assert false;
    }
  }

  lemma Scaled(x: real, y: real, d: real)
    requires d > 0.0 && x <= y
    ensures x * d <= y * d && (x < y ==> x * d < y * d)
  {}

  lemma HalfOf(c: real, hz: real)
    requires c >= 0.0 && hz > 0.0
    ensures (c + hz / 2.0) / hz == c / hz + 0.5
    ensures c / hz >= 0.0
  {
    var q := c / hz;
    var x := q + 0.5;
    assert x * hz == q * hz + 0.5 * hz == c + hz / 2.0;
    QuotientIs(c + hz / 2.0, hz, x);
  }

  lemma QuotientIs(n: real, d: real, x: real)
    requires d != 0.0 && x * d == n
    ensures n / d == x
  {}

  lemma AdvanceAdds(t: nat, frame: seq<byte>)
    requires |frame| >= 4 && FrameBytes(frame[..4]) != 0
    ensures Advance(t, frame) == t + Ticks(frame)
  {
    TicksAreNearest(frame);
    FloorShift(t, FrameTicks(frame[..4]));
  }

  lemma FloorShift(t: nat, x: real)
    ensures (t as real + x).Floor == t + x.Floor
  {}

  function SumTicks(frames: seq<seq<byte>>): nat
    requires WholeFrames(frames)
  {
    if frames == [] then 0
    else
      assert WholeFrame(frames[0]);
      Ticks(frames[0]) + SumTicks(frames[1..])
  }

  function SumDuration(frames: seq<seq<byte>>): real
    requires WholeFrames(frames)
  {
    if frames == [] then 0.0
    else
      assert WholeFrame(frames[0]);
      Duration(frames[0]) + SumDuration(frames[1..])
  }

  /** The stamper after k packets, in closed form. */
  ghost predicate After(st: Stamper, s0: nat, t0: nat, frames: seq<seq<byte>>)
    requires WholeFrames(frames)
  {
    && Valid(st)
    && st.seqno == (s0 + |frames|) % WORD
    && st.timestamp == t0 + SumTicks(frames)
    && st.header[0] == 0x80
    && st.header[1] == (if |frames| == 0 then 0x8e else 0x0e)
    && st.header[8..] == FIXED_TAIL
  }

  lemma {:induction false} SumTicksAppend(a: seq<seq<byte>>, f: seq<byte>)
    requires WholeFrames(a) && WholeFrame(f)
    ensures SumTicks(a + [f]) == SumTicks(a) + Ticks(f)
  {
    if a == [] {
      assert a + [f] == [f];
    } else {
      assert WholeFrame(a[0]);
      assert (a + [f])[0] == a[0] && (a + [f])[1..] == a[1..] + [f];
      SumTicksAppend(a[1..], f);
    }
  }

  lemma AfterOneMore(st: Stamper, s0: nat, t0: nat, done: seq<seq<byte>>, frame: seq<byte>)
    requires WholeFrames(done) && WholeFrame(frame) && After(st, s0, t0, done)
    ensures After(Next(st, frame), s0, t0, done + [frame])
  {
    hide SumTicks;
    FrameBytesRange(frame[..4]);
    SumTicksAppend(done, frame);
    AdvanceAdds(st.timestamp, frame);
    WrappingSuccessor(s0, |done|);
    var h := Written(st);
    assert h[0] == h[..2][0] == st.header[0] && h[1] == h[..2][1] == st.header[1];
    assert Next(st, frame).header[8..] == h[8..];
  }

  lemma WrappingSuccessor(s0: nat, k: nat)
    ensures ((s0 + k) % WORD + 1) % WORD == (s0 + k + 1) % WORD
  {}

  /** The state after stamping all of the frames. */
  lemma {:induction false} StamperAfter(s0: nat, t0: nat, raw: bool, frames: seq<seq<byte>>)
    requires s0 < WORD && WholeFrames(frames)
    ensures After(StampAll(Stamper(FIRST_HEADER, s0, t0), raw, frames).stamper, s0, t0, frames)
    decreases |frames|
  {
    var st := Stamper(FIRST_HEADER, s0, t0);
    if frames != [] {
      var n := |frames| - 1;
      var done, last := frames[..n], frames[n];
      assert frames == done + [last] && WholeFrame(last);
      StamperAfter(s0, t0, raw, done);
      StampAppend(st, raw, done, [last]);
      var mid := StampAll(st, raw, done).stamper;
      AfterOneMore(mid, s0, t0, done, last);
      StampOne(mid, raw, last);
    }
  }

  lemma StampOne(st: Stamper, raw: bool, frame: seq<byte>)
    requires Valid(st) && WholeFrame(frame)
    ensures StampAll(st, raw, [frame]) == Stamped([Packet(st, raw, frame)], Next(st, frame))
  {
    var none: seq<seq<byte>> := [frame][1..];
    assert none == [] && WholeFrame([frame][0]);
    assert StampAll(Next(st, frame), raw, none) == Stamped([], Next(st, frame));
  }

  function BigEndian16(b: seq<byte>): nat
    requires |b| == 2
  {
    b[0] as int * 0x100 + b[1] as int
  }

  function BigEndian32(b: seq<byte>): nat
    requires |b| == 4
  {
    ((b[0] as int * 0x100 + b[1] as int) * 0x100 + b[2] as int) * 0x100 + b[3] as int
  }

  lemma Low16(n: nat)
    ensures BigEndian16(Be16(n)) == n % 0x1_0000
  {}

  lemma Low32(n: nat)
    ensures BigEndian32(Be32(n)) == n % WORD
  {
    SplitBytes(n);
  }

  lemma SplitBytes(n: nat)
    ensures ((n / 0x100_0000 % 256 * 0x100 + n / 0x1_0000 % 256) * 0x100 + n / 0x100 % 256) * 0x100 + n % 256 == n % WORD
  {
    var a, b, c := n / 0x100, n / 0x1_0000, n / 0x100_0000;
    assert n % 256 == n - a * 256;
    assert a / 0x100 == b && a % 256 == a - b * 256;
    assert b / 0x100 == c && b % 256 == b - c * 256;
    assert c / 0x100 == n / WORD && c % 256 == c - n / WORD * 256;
  }

  lemma ModMod(n: nat)
    ensures n % WORD % 0x1_0000 == n % 0x1_0000
  {
    assert n == n / WORD * 0x1_0000 * 0x1_0000 + n % WORD;
  }

  /** What a receiver reads in a packet: version 2, payload type 14 with or without the marker,
      the two counters, the fixed tail with fragment offset 0, and the frame. */
  predicate Carries(packet: seq<byte>, marker: bool, seqno: nat, timestamp: nat, frame: seq<byte>) {
    && |packet| == HEADER_SIZE + |frame|
    && packet[0] == 0x80
    && packet[1] == (if marker then 0x8e else 0x0e)
    && BigEndian16(packet[2..4]) == seqno
    && BigEndian32(packet[4..8]) == timestamp
    && packet[8..16] == FIXED_TAIL
    && packet[16..] == frame
  }

  /** Packet k is made from frame k by the stamper as the k frames before it left it. */
  lemma PacketAt(st: Stamper, raw: bool, frames: seq<seq<byte>>, k: nat)
    requires Valid(st) && WholeFrames(frames) && k < |frames|
    ensures StampAll(st, raw, frames).packets[k] == Packet(StampAll(st, raw, frames[..k]).stamper, raw, frames[k])
  {
    assert frames == frames[..k] + frames[k..];
    StampAppend(st, raw, frames[..k], frames[k..]);
  }

  lemma WrittenCarries(st: Stamper, s0: nat, t0: nat, done: seq<seq<byte>>, frame: seq<byte>)
    requires WholeFrames(done) && After(st, s0, t0, done)
    ensures Carries(Written(st) + frame, |done| == 0, (s0 + |done|) % 0x1_0000, (t0 + SumTicks(done)) % WORD, frame)
  {
    hide SumTicks, WholeFrame, Be16, Be32, BigEndian16, BigEndian32, Written;
    var h := Written(st);
    var packet := h + frame;
    Low16(st.seqno);
    Low32(st.timestamp);
    ModMod(s0 + |done|);
    assert packet[0] == h[..2][0] && packet[1] == h[..2][1];
    assert packet[2..4] == h[2..4] && packet[4..8] == h[4..8] && packet[8..16] == h[8..] && packet[16..] == frame;
  }

  /** Main result: for a run of frames, packet k carries sequence number s0 + k mod 2^16, the
      marker bit only when k is 0, the timestamp t0 plus the nearest-tick durations of the
      frames before it mod 2^32, and the k-th frame unchanged. */
  lemma PacketFields(s0: nat, t0: nat, frames: seq<seq<byte>>, k: nat)
    requires s0 < WORD && WholeFrames(frames) && k < |frames|
    ensures Carries(StampAll(Stamper(FIRST_HEADER, s0, t0), false, frames).packets[k],
                    k == 0, (s0 + k) % 0x1_0000, (t0 + SumTicks(frames[..k])) % WORD, frames[k])
  {
    hide StampAll, SumTicks, WholeFrame, Written, Carries, After;
    var st0 := Stamper(FIRST_HEADER, s0, t0);
    PacketAt(st0, false, frames, k);
    StamperAfter(s0, t0, false, frames[..k]);
    WrittenCarries(StampAll(st0, false, frames[..k]).stamper, s0, t0, frames[..k], frames[k]);
  }

  /** Rounding each frame to the nearest tick drifts by at most half a tick per frame. */
  lemma {:induction false} DriftBound(frames: seq<seq<byte>>)
    requires WholeFrames(frames)
    ensures -0.5 * |frames| as real <= SumTicks(frames) as real - SumDuration(frames) <= 0.5 * |frames| as real
  {
    if frames != [] {
      assert WholeFrame(frames[0]);
      FrameBytesRange(frames[0][..4]);
      TicksAreNearest(frames[0]);
      DriftBound(frames[1..]);
    }
  }

  /** The fixed tail: the stream identifier, two reserved bytes, and a fragment offset of 0 */
  lemma TailIs(packet: seq<byte>, marker: bool, seqno: nat, timestamp: nat, frame: seq<byte>)
    requires Carries(packet, marker, seqno, timestamp, frame)
    ensures |packet| == 16 + |frame|
    ensures packet[8] == 0xbe && packet[9] == 0xef && packet[10] == 0xba && packet[11] == 0xbe
    ensures packet[12] == 0 && packet[13] == 0 && packet[14] == 0 && packet[15] == 0
  {
    var tail := packet[8..16];
    assert forall i :: 0 <= i < 8 ==> tail[i] == packet[8 + i];
  }

  /** In raw mode the packets are the frames. */
  lemma {:induction false} RawPackets(st: Stamper, frames: seq<seq<byte>>)
    requires Valid(st) && WholeFrames(frames)
    ensures StampAll(st, true, frames).packets == frames
    decreases |frames|
  {
    hide Next;
    if frames != [] {
      assert WholeFrame(frames[0]);
      RawPackets(Next(st, frames[0]), frames[1..]);
      assert frames == [frames[0]] + frames[1..];
    }
  }
}
