/**
 What the tempo track says to a reader: tempo, time signature and key signature, stated on
 the messages decoded from its bytes.
 */
module SmfMeta {
  import opened Arithmetic
  import opened Bytes
  import opened NoteNames
  import opened SmfTrack
  import opened SmfRenderer
  import opened SmfFile

  /** The key signature counts fifths from C, sharps up and flats down, as far as seven; other keys count as C. */
  lemma SharpsAreFifths(key: string)
    ensures KeySharps(key) == Place(key, -7, 7)
  {
    Spelled(key);
  }

  function SignedByte(b: Byte): int {
    if b < 128 then b else b - 256
  }

  lemma SignedByteIs(x: int)
    requires -128 <= x < 128
    ensures SignedByte(x % 256) == x
  {
  }

  lemma PowerFits(den: int)
    requires 1 <= den < 0x8000_0000
    ensures FloorLog2(den) < 31
  {
    hide FloorLog2;
    FloorLog2Bounds(den);
    Pow2Split(30, 15);
    assert Pow2(5) == 32 && Pow2(10) == 1024 && Pow2(15) == 0x8000;
    assert Pow2(31) == 0x8000_0000;
    if FloorLog2(den) >= 31 {
      Pow2Monotone(31, FloorLog2(den));
    }
  }

  /**
   A reader finds the tempo, the numerator, the denominator as a power of two with 24 clocks
   and 8 thirty-seconds, and the key by its sharps and its mode, all at tick zero and in this order.
   */
  lemma TempoTrackDecoded(comp: SmfComposition)
    requires 0 < comp.bpm < 0x1_0000_0000
    ensures var r := DecodeTrack(TempoBody(comp)); r.Some? && |r.value| == 4
    ensures var ms := DecodeTrack(TempoBody(comp)).value;
            && (forall i :: 0 <= i < 4 ==> ms[i].Meta? && ms[i].tick == 0)
            && ms[0].kind == 0x51 && |ms[0].data| == 3
            && (BpmOf(ms[0].data) == comp.bpm
                <==> comp.bpm >= 4 && MICROSECONDS_PER_MINUTE % comp.bpm < MICROSECONDS_PER_MINUTE / comp.bpm)
            && ms[1].kind == 0x58 && |ms[1].data| == 4 && ms[1].data[2] == 24 && ms[1].data[3] == 8
            && (0 <= comp.timeSigNum < 256 ==> ms[1].data[0] == comp.timeSigNum)
            && (1 <= comp.timeSigDen < 0x8000_0000 ==>
                && Pow2(ms[1].data[1]) <= comp.timeSigDen < 2 * Pow2(ms[1].data[1])
                && (Pow2(ms[1].data[1]) == comp.timeSigDen <==> exists k: nat :: comp.timeSigDen == Pow2(k)))
            && ms[2].kind == 0x59 && |ms[2].data| == 2
            && SignedByte(ms[2].data[0]) == Place(comp.key, -7, 7)
            && ms[2].data[1] == (if comp.scale in ["minor", "min"] then 1 else 0)
            && ms[3].kind == 0x2F && ms[3].data == []
  {
    hide DecodeTrack, TempoBody, TempoData, BpmOf, FloorLog2, KeySharps, Pow2, Place;
    TempoTrackRoundTrip(comp);
    TempoRecovered(comp.bpm);
    SharpsAreFifths(comp.key);
    PlaceBounded(comp.key, -7, 7);
    SignedByteIs(KeySharps(comp.key));
    assert |TempoData(comp.bpm)| == 3 by { ThreeTempoBytes(comp.bpm); }
    if 1 <= comp.timeSigDen < 0x8000_0000 {
      PowerFits(comp.timeSigDen);
      DenominatorRecovered(comp.timeSigDen);
    }
  }

  lemma ThreeTempoBytes(bpm: int)
    requires bpm % 0x1_0000_0000 != 0
    ensures |TempoData(bpm)| == 3
  {
  }

  lemma PlaceBounded(key: string, lo: int, hi: int)
    requires lo <= 0 <= hi
    ensures lo <= Place(key, lo, hi) <= hi
  {
  }
}
