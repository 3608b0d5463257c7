/** The header calculation against the layout and the rates of section 2.4.2.3 of ISO/IEC 11172-3 and
    its extension to lower sampling frequencies, written out without the program's tables. */
module MpegStandard {
  import opened Bytes
  import opened MpegHeader

  /** A header is laid out field by field, the most significant bit first: eleven bits set, version,
      layer, protection; bit rate, sampling frequency, padding, private; and a byte that the
      calculation does not look at. */
  lemma HeaderLayout(f: Fields, protection: nat, private: nat, last: byte)
    requires InRange(f) && protection < 2 && private < 2
    ensures 0xe0 + 8 * f.mpeg + 2 * f.layer + protection < 256
    ensures 16 * f.brIndex + 4 * f.srIndex + 2 * f.padding + private < 256
    ensures var second: byte := 0xe0 + 8 * f.mpeg + 2 * f.layer + protection;
            var third: byte := 16 * f.brIndex + 4 * f.srIndex + 2 * f.padding + private;
            HeaderFields([0xff, second, third, last]) == f
  {
    SecondByte(f.mpeg, f.layer, protection);
    ThirdByte(f.brIndex, f.srIndex, f.padding, private);
  }

  lemma SecondByte(mpeg: nat, layer: nat, protection: nat)
    requires mpeg < 4 && layer < 4 && protection < 2
    ensures var b := 0xe0 + 8 * mpeg + 2 * layer + protection;
            b < 256 && b / 8 % 4 == mpeg && b / 2 % 4 == layer
  {}

  lemma ThirdByte(brIndex: nat, srIndex: nat, padding: nat, private: nat)
    requires brIndex < 16 && srIndex < 4 && padding < 2 && private < 2
    ensures var b := 16 * brIndex + 4 * srIndex + 2 * padding + private;
            b < 256 && b / 16 % 16 == brIndex && b / 4 % 4 == srIndex && b / 2 % 2 == padding
  {}

  /** The steps of the bit rates: four to an octave. */
  function Step(n: nat): nat
    requires n <= 15
  {
    var octave := if n < 4 then 1 else if n < 8 then 2 else if n < 12 then 4 else 8;
    8 * octave * (4 + n % 4)
  }

  /** kbps, by version, layer and index */
  function StandardRate(mpeg1: bool, layer: nat, index: nat): nat
    requires 1 <= layer <= 3 && 1 <= index <= 14
  {
    if mpeg1 then
      if layer == 1 then 32 * index
      else if layer == 2 then (if index == 1 then 32 else Step(index))
      else Step(index - 1)
    else if layer == 1 then
      if index == 1 then 32 else if index <= 8 then Step(index)
      else if index <= 12 then 128 + 16 * (index - 8) else 192 + 32 * (index - 12)
    else if index <= 8 then 8 * index else 64 + 16 * (index - 8)
  }

  /** Layer I, II or III, from the bits that say so */
  function LayerNumber(f: Fields): int {
    4 - f.layer
  }

  /** What is refused: free format, the forbidden bit rate, and the reserved values */
  lemma AllowedExactly(f: Fields)
    requires InRange(f)
    ensures Allowed(f) <==> 1 <= f.brIndex <= 14 && f.srIndex <= 2 && f.mpeg in {0, 2, 3} && 1 <= LayerNumber(f) <= 3
  {}

  lemma RatesAreStandard(f: Fields)
    requires InRange(f) && Allowed(f)
    ensures 1 <= LayerNumber(f) <= 3 && 1 <= f.brIndex <= 14
    ensures BitRate(f) == StandardRate(f.mpeg == 3, LayerNumber(f), f.brIndex)
  {
    AllowedExactly(f);
    if f.mpeg == 3 {
      FirstRates(f);
    } else {
      LowerRates(f);
    }
  }

  lemma FirstRates(f: Fields)
    requires InRange(f) && Allowed(f) && f.mpeg == 3 && 1 <= LayerNumber(f) <= 3 && 1 <= f.brIndex <= 14
    ensures BitRate(f) == StandardRate(true, LayerNumber(f), f.brIndex)
  {}

  lemma LowerRates(f: Fields)
    requires InRange(f) && Allowed(f) && f.mpeg != 3 && 1 <= LayerNumber(f) <= 3 && 1 <= f.brIndex <= 14
    ensures BitRate(f) == StandardRate(false, LayerNumber(f), f.brIndex)
  {}

  /** Hz: for MPEG 1, half of that for MPEG 2, and a quarter for MPEG 2.5 */
  lemma SamplingFrequencies(f: Fields)
    requires InRange(f) && Allowed(f)
    ensures var first := if f.srIndex == 0 then 44100 else if f.srIndex == 1 then 48000 else 32000;
            SampleRate(f) * (if f.mpeg == 3 then 1 else if f.mpeg == 2 then 2 else 4) == first
  {}

  /** Samples of a frame: 384 in Layer I, 1152 in Layer II, and in Layer III 1152 or, where the
      sampling frequency is lower, half of them */
  lemma SamplesOfFrame(f: Fields)
    requires InRange(f) && Allowed(f)
    ensures LayerNumber(f) == 1 ==> Samples(f) == 384
    ensures LayerNumber(f) == 2 ==> Samples(f) == 1152
    ensures LayerNumber(f) == 3 ==> Samples(f) == if f.mpeg == 3 then 1152 else 576
  {}

  /** The length of a frame, by the standard's names alone: as many whole bytes as its bit rate fills
      while its samples last, and one padding slot, of four bytes in Layer I. */
  lemma FrameLength(f: Fields, protection: nat, private: nat, last: byte)
    requires InRange(f) && protection < 2 && private < 2 && Allowed(f)
    requires 1 <= LayerNumber(f) <= 3 && 1 <= f.brIndex <= 14
    ensures var header: seq<byte> := [0xff, 0xe0 + 8 * f.mpeg + 2 * f.layer + protection,
                                      16 * f.brIndex + 4 * f.srIndex + 2 * f.padding + private, last];
            var rate := StandardRate(f.mpeg == 3, LayerNumber(f), f.brIndex);
            var slot := if LayerNumber(f) == 1 then 4 else 1;
            FrameBytes(header) == Quotient(Samples(f) / 8 * 1000 * rate, SampleRate(f)) + slot * f.padding
  {
    HeaderLayout(f, protection, private, last);
    RatesAreStandard(f);
    hide BitRate, SampleRate, StandardRate, HeaderFields, Allowed, Quotient;
    assert Samples(f) / 8 * 1000 == Samples(f) * 1000 / 8;
  }

  /** 128 kbps at 44.1 kHz, the most common header, without and with padding */
  lemma CommonHeaders()
    ensures FrameBytes([0xff, 0xfb, 0x90, 0x00]) == 417
    ensures FrameBytes([0xff, 0xfb, 0x92, 0x00]) == 418
  {
    var f := HeaderFields([0xff, 0xfb, 0x90, 0x00]);
    assert BitRate(f) == 128 && SampleRate(f) == 44100;
    assert Quotient(144000 * 128, 44100) == 417;
  }
}
