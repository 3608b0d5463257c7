/** The side-effect-free header calculation mpeg_frame_info: which 4-byte headers are
    accepted, and the frame length and duration each of them announces. */
module MpegHeader {
  import opened Bytes

  /** The five header fields the calculation reads (section 2.4.2.3 of ISO/IEC 11172-3).
      mpeg: 0 is MPEG 2.5, 2 is MPEG 2, 3 is MPEG 1; layer: 3 is Layer I, 1 is Layer III. */
  datatype Fields = Fields(mpeg: nat, layer: nat, brIndex: nat, padding: nat, srIndex: nat)

  predicate InRange(f: Fields) {
    f.mpeg < 4 && f.layer < 4 && f.brIndex < 16 && f.padding < 2 && f.srIndex < 4
  }

  function HeaderFields(header: seq<byte>): (f: Fields)
    requires |header| >= 4
    ensures InRange(f)
  {
    Fields(header[1] / 8 % 4, header[1] / 2 % 4, header[2] / 16 % 16, header[2] / 2 % 2, header[2] / 4 % 4)
  }

  /** Free and bad bit rates and the reserved sample rate, version and layer are refused. */
  predicate Allowed(f: Fields)
    requires InRange(f)
  {
    !((f.brIndex + 1) % 16 <= 1 || f.srIndex == 3 || f.mpeg == 1 || f.layer == 0)
  }

  /** Bit rates in units of 2 kbps, as the program's table stores them. */
  const BIT_RATES: seq<seq<nat>> := [
    [0, 16, 32, 48, 64, 80, 96, 112, 128, 144, 160, 176, 192, 208, 224, 0],
    [0, 16, 24, 28, 32, 40, 48, 56, 64, 80, 96, 112, 128, 160, 192, 0],
    [0, 16, 20, 24, 28, 32, 40, 48, 56, 64, 80, 96, 112, 128, 160, 0],
    [0, 16, 24, 28, 32, 40, 48, 56, 64, 72, 80, 88, 96, 112, 128, 0],
    [0, 4, 8, 12, 16, 20, 24, 28, 32, 40, 48, 56, 64, 72, 80, 0]]

  const SAMPLE_RATES: seq<nat> := [44100, 48000, 32000]

  function TableRow(f: Fields): (row: nat)
    requires InRange(f) && Allowed(f)
    ensures row < 5
  {
    if f.mpeg == 3 then 3 - f.layer else if f.layer == 3 then 3 else 4
  }

  /** kbps */
  function BitRate(f: Fields): nat
    requires InRange(f) && Allowed(f)
  {
    BIT_RATES[TableRow(f)][f.brIndex] * 2
  }

  /** Hz; the shift right is by two for MPEG 2.5 and by one for MPEG 2 */
  function SampleRate(f: Fields): (hz: nat)
    requires InRange(f) && Allowed(f)
    ensures 8000 <= hz <= 48000
  {
    SAMPLE_RATES[f.srIndex] / (if f.mpeg == 0 then 4 else if f.mpeg == 2 then 2 else 1)
  }

  /** Samples in one frame */
  function Samples(f: Fields): nat
    requires InRange(f)
  {
    if f.layer == 3 then 384 else if f.mpeg <= 2 && f.layer == 1 then 576 else 1152
  }

  function Quotient(a: nat, d: nat): nat
    requires d > 0
  {
    a / d
  }

  /** MPEG_BYTES: the whole frame in bytes, header included; 0 when the header is refused.
      A Layer I frame is not rounded down to whole 4-byte slots; only its padding is a slot. */
  function FrameBytes(header: seq<byte>): (n: nat)
    requires |header| >= 4
  {
    var f := HeaderFields(header);
    if !Allowed(f) then 0
    else
      Quotient(Samples(f) * 1000 / 8 * BitRate(f), SampleRate(f)) + (if f.layer == 3 then f.padding * 4 else f.padding)
  }

  /** MPEG_90KHZ: the duration in 90 kHz ticks plus one half, so that truncation rounds it. */
  function FrameTicks(header: seq<byte>): real
    requires |header| >= 4
  {
    var f := HeaderFields(header);
    if !Allowed(f) then 0.0
    else ((Samples(f) * 90000) as real + SampleRate(f) as real / 2.0) / SampleRate(f) as real
  }

  /** The one header class whose frame does not fit the program's 2880-byte buffer:
      MPEG 2.5, Layer II, 160 kbps, 8 kHz, padded. */
  predicate Oversized(f: Fields) {
    f.mpeg == 0 && f.layer == 2 && f.brIndex == 14 && f.srIndex == 2 && f.padding == 1
  }

  /** Division by a positive number is monotone, which turns bounds on the bit rate into
      bounds on the frame length. */
  lemma {:induction false} QuotientMono(a: nat, b: nat, d: nat)
    requires a <= b && d > 0
    ensures Quotient(a, d) <= Quotient(b, d)
  {
    if b / d < a / d {
      MulMono(d, b / d + 1, a / d);
    }
  }

  lemma MulMono(c: nat, a: nat, b: nat)
    requires a <= b
    ensures c * a <= c * b
  {}

  lemma QuotientBounds(c: nat, lo: nat, x: nat, hi: nat, d: nat)
    requires lo <= x <= hi && d > 0
    ensures Quotient(c * lo, d) <= Quotient(c * x, d) <= Quotient(c * hi, d)
  {
    MulMono(c, lo, x);
    MulMono(c, x, hi);
    QuotientMono(c * lo, c * x, d);
    QuotientMono(c * x, c * hi, d);
  }

  lemma BitRateBounds(f: Fields)
    requires InRange(f) && Allowed(f)
    ensures f.mpeg != 3 && f.layer != 3 ==> 8 <= BitRate(f) <= 160 && (f.brIndex != 14 ==> BitRate(f) <= 144)
    ensures f.mpeg == 3 || f.layer == 3 ==> 32 <= BitRate(f) <= 448
    ensures f.mpeg == 3 && f.layer == 2 ==> BitRate(f) <= 384
    ensures f.mpeg == 3 && f.layer == 1 ==> BitRate(f) <= 320
    ensures f.mpeg != 3 && f.layer == 3 ==> BitRate(f) <= 256
  {}

  /** The quotient where 8 kbps is the lowest rate, for the sample rates of MPEG 2 and 2.5 */
  lemma LowRateQuotient(c: nat, rate: nat, hi: nat, d: nat)
    requires c == 72000 || c == 144000
    requires d == 24000 || d == 22050 || d == 16000 || d == 12000 || d == 11025 || d == 8000
    requires 8 <= rate <= hi && (hi == 144 || hi == 160)
    ensures 24 <= Quotient(c * rate, d) <= 2880
    ensures hi == 144 || d != 8000 || c == 72000 ==> Quotient(c * rate, d) < 2880
  {
    QuotientBounds(c, 8, rate, hi, d);
    QuotientMono(c * hi, 144000 * hi, d);
    QuotientMono(72000 * 8, c * 8, d);
  }

  lemma LowRateRange(f: Fields)
    requires InRange(f) && Allowed(f) && f.mpeg != 3 && f.layer != 3
    ensures 24 <= Quotient(Samples(f) * 1000 / 8 * BitRate(f), SampleRate(f)) <= 2880
    ensures Quotient(Samples(f) * 1000 / 8 * BitRate(f), SampleRate(f)) == 2880
            <==> f.mpeg == 0 && f.layer == 2 && f.brIndex == 14 && f.srIndex == 2
  {
    BitRateBounds(f);
    assert f.brIndex == 14 ==> BitRate(f) == 160;
    LowRateQuotient(Samples(f) * 1000 / 8, BitRate(f), if f.brIndex == 14 then 160 else 144, SampleRate(f));
  }

  lemma HighRateRange(f: Fields)
    requires InRange(f) && Allowed(f) && (f.mpeg == 3 || f.layer == 3)
    ensures 24 <= Quotient(Samples(f) * 1000 / 8 * BitRate(f), SampleRate(f)) <= 1728
  {
    BitRateBounds(f);
    QuotientBounds(Samples(f) * 1000 / 8, 32, BitRate(f),
                   if f.mpeg != 3 then 256 else if f.layer == 2 then 384 else if f.layer == 1 then 320 else 448,
                   SampleRate(f));
  }

  /** Every accepted header announces 24 to 2881 bytes; only the oversized class reaches 2881. */
  lemma FrameBytesRange(header: seq<byte>)
    requires |header| >= 4
    ensures Allowed(HeaderFields(header)) <==> FrameBytes(header) != 0
    ensures FrameBytes(header) != 0 ==> 24 <= FrameBytes(header) <= 2881
    ensures FrameBytes(header) == 2881 <==> Oversized(HeaderFields(header))
  {
    var f := HeaderFields(header);
    if Allowed(f) {
      if f.mpeg != 3 && f.layer != 3 {
        LowRateRange(f);
      } else {
        HighRateRange(f);
      }
    }
  }
}
