/**
 Bytes, big-endian fields and variable-length quantities, as `midi_renderer.cpp`
 writes them and as the Standard MIDI Files 1.0 specification reads them
 (section "Variable Length Quantities").
 */
module Bytes {

  type Byte = b: nat | b < 0x100
  type Word16 = w: nat | w < 0x1_0000
  type Word32 = w: nat | w < 0x1_0000_0000

  datatype Option<+T> = None | Some(value: T)

  // ----- big-endian fields

  function Be16(v: Word16): (out: seq<Byte>)
    ensures |out| == 2
  {
    [v / 0x100, v % 0x100]
  }

  function Be32(v: Word32): (out: seq<Byte>)
    ensures |out| == 4
  {
    Be16(v / 0x1_0000) + Be16(v % 0x1_0000)
  }

  function ReadBe16(b: seq<Byte>): Word16
    requires |b| == 2
  {
    var high: nat, low: nat := b[0], b[1];
    high * 0x100 + low
  }

  function ReadBe32(b: seq<Byte>): Word32
    requires |b| == 4
  {
    var high: nat, low: nat := ReadBe16(b[..2]), ReadBe16(b[2..]);
    high * 0x1_0000 + low
  }

  lemma Be16RoundTrip(v: Word16)
    ensures ReadBe16(Be16(v)) == v
  {
  }

  lemma Be32RoundTrip(v: Word32)
    ensures ReadBe32(Be32(v)) == v
  {
    Be16RoundTrip(v / 0x1_0000);
    Be16RoundTrip(v % 0x1_0000);
    assert Be32(v)[..2] == Be16(v / 0x1_0000) && Be32(v)[2..] == Be16(v % 0x1_0000);
  }

  // ----- variable-length quantities

  /** The leading bytes of a quantity, seven bits each, all with the continuation bit set. */
  function Continued(v: nat): seq<Byte> {
    if v == 0 then [] else Continued(v / 128) + [v % 128 + 128]
  }

  /** The quantity: seven bits per byte, most significant first, continuation bit on all but the last. */
  function Vlq(v: nat): (bytes: seq<Byte>)
    ensures |bytes| >= 1
  {
    Continued(v / 128) + [v % 128]
  }

  function Reverse(s: seq<Byte>): (r: seq<Byte>)
    ensures |r| == |s|
  {
    if s == [] then [] else Reverse(s[1..]) + [s[0]]
  }

  lemma {:induction false} ReverseAppend(s: seq<Byte>, b: Byte)
    ensures Reverse(s + [b]) == [b] + Reverse(s)
  {
    if s != [] {
      ReverseAppend(s[1..], b);
      assert (s + [b])[1..] == s[1..] + [b];
    }
  }

  /** `encode_vlq`: low bits first into a vector, which is then reversed. */
  method EncodeVlq(value: Word32) returns (bytes: seq<Byte>)
    ensures bytes == Vlq(value)
  {
    var collected: seq<Byte> := [value % 128];
    var v: nat := value / 128;
    ReverseAppend([], value % 128);
    while v > 0
      invariant Continued(v) + Reverse(collected) == Vlq(value)
    {
      ReverseAppend(collected, v % 128 + 128);
      collected := collected + [v % 128 + 128];
      v := v / 128;
    }
    bytes := Reverse(collected);
  }

  /** The largest quantity the standard allows, four bytes long. */
  const LARGEST_QUANTITY: nat := 0x0FFF_FFFF

  /**
   Reading a quantity as the standard says: shift in seven bits per byte until a byte below
   128, which must come within four bytes.
   */
  function ReadVlq(b: seq<Byte>, acc: nat := 0, left: nat := 4): (r: Option<(nat, seq<Byte>)>)
    ensures r.Some? ==> |r.value.1| < |b|
  {
    if b == [] || left == 0 then None
    else if b[0] < 128 then Some((acc * 128 + b[0], b[1..]))
    else ReadVlq(b[1..], acc * 128 + (b[0] - 128), left - 1)
  }

  /** The leading bytes of a quantity are shifted in one by one. */
  lemma {:induction false} ReadContinued(v: nat, tail: seq<Byte>, left: nat)
    requires |Continued(v)| <= left
    ensures ReadVlq(Continued(v) + tail, 0, left) == ReadVlq(tail, v, left - |Continued(v)|)
  {
    hide ReadVlq;
    if v == 0 {
      assert Continued(v) + tail == tail;
    } else {
      var b: Byte := v % 128 + 128;
      ReadContinued(v / 128, [b] + tail, left);
      assert Continued(v) + tail == Continued(v / 128) + ([b] + tail);
      ReadOne(b, tail, v / 128, left - |Continued(v / 128)|);
      assert v / 128 * 128 + (b - 128) == v;
    }
  }

  lemma ReadOne(b: Byte, tail: seq<Byte>, acc: nat, left: nat)
    requires b >= 128 && left > 0
    ensures ReadVlq([b] + tail, acc, left) == ReadVlq(tail, acc * 128 + (b - 128), left - 1)
  {
    assert ([b] + tail)[1..] == tail;
  }

  lemma {:induction false} ContinuedBytes(v: nat)
    ensures forall i :: 0 <= i < |Continued(v)| ==> Continued(v)[i] >= 128
  {
    if v > 0 {
      ContinuedBytes(v / 128);
    }
  }

  /** A quantity that goes on and on is refused. */
  lemma {:induction false} ReadTooLong(b: seq<Byte>, acc: nat, left: nat)
    requires left <= |b| && forall i :: 0 <= i < left ==> b[i] >= 128
    ensures ReadVlq(b, acc, left) == None
  {
    if left > 0 {
      ReadTooLong(b[1..], acc * 128 + (b[0] - 128), left - 1);
    }
  }

  /** Up to the largest one, every quantity reads back, whatever follows it; a larger one is refused. */
  lemma VlqRoundTrip(v: nat, rest: seq<Byte>)
    ensures ReadVlq(Vlq(v) + rest) == if v <= LARGEST_QUANTITY then Some((v, rest)) else None
  {
    VlqLength(v);
    var front, tail := Continued(v / 128), [v % 128] + rest;
    assert Vlq(v) + rest == front + tail;
    if v <= LARGEST_QUANTITY {
      ReadContinued(v / 128, tail, 4);
      assert tail[1..] == rest && v / 128 * 128 + v % 128 == v;
    } else {
      ContinuedBytes(v / 128);
      ReadTooLong(front + tail, 0, 4);
    }
  }

  /** Four bytes are enough exactly up to the largest quantity the standard allows. */
  lemma VlqLength(v: nat)
    ensures |Vlq(v)| <= 4 <==> v <= LARGEST_QUANTITY
  {
    var v1, v2, v3, v4 := v / 128, v / 128 / 128, v / 128 / 128 / 128, v / 128 / 128 / 128 / 128;
    assert |Continued(v1)| == if v1 == 0 then 0 else 1 + |Continued(v2)|;
    assert |Continued(v2)| == if v2 == 0 then 0 else 1 + |Continued(v3)|;
    assert |Continued(v3)| == if v3 == 0 then 0 else 1 + |Continued(v4)|;
    assert |Continued(v4)| == 0 <==> v4 == 0;
  }
}
