/**
 The renderer writes the length of a track name as one byte. That byte is a
 variable-length quantity to every reader, so the track reads back exactly when the
 name has at most 127 bytes and every delta time is short enough. The converse is a
 counting argument: whatever a reader makes of a longer name, the bytes are too few to
 hold the track that was meant.
 */
module SmfNameLimit {
  import opened Bytes
  import opened SmfTrack

  // ----- the fewest bytes a sequence of messages can be read from

  function EventCost(m: Message, running: Byte): nat {
    match m
    case Channel(_, status, data) => (if status == running then 0 else 1) + |data|
    case Meta(_, _, data) => 2 + |Vlq(|data|)| + |data|
    case SysEx(_, data) => 1 + |Vlq(|data|)| + |data|
  }

  function Cost(m: Message, tick: nat, running: Byte): nat {
    (if tick <= m.tick then |Vlq(m.tick - tick)| else 0) + EventCost(m, running)
  }

  function RunningAfter(m: Message): Byte {
    if m.Channel? then m.status else 0
  }

  function TotalCost(ms: seq<Message>, tick: nat, running: Byte): nat {
    if ms == [] then 0
    else Cost(ms[0], tick, running) + TotalCost(ms[1..], ms[0].tick, RunningAfter(ms[0]))
  }

  // ----- quantities are written as short as can be

  function ContinuedLength(v: nat): nat {
    if v == 0 then 0 else 1 + ContinuedLength(v / 128)
  }

  lemma {:induction false} ContinuedLengthIs(v: nat)
    ensures |Continued(v)| == ContinuedLength(v)
  {
    if v > 0 {
      ContinuedLengthIs(v / 128);
    }
  }

  lemma {:induction false} ReadVlqShortest(b: seq<Byte>, acc: nat, left: nat)
    requires ReadVlq(b, acc, left).Some?
    ensures var (v, rest) := ReadVlq(b, acc, left).value;
            ContinuedLength(v / 128) <= ContinuedLength(acc) + |b| - |rest| - 1
  {
    if b[0] < 128 {
      assert (acc * 128 + b[0]) / 128 == acc;
    } else {
      var next := acc * 128 + (b[0] - 128);
      ReadVlqShortest(b[1..], next, left - 1);
      assert next / 128 == acc;
      assert ContinuedLength(next) <= 1 + ContinuedLength(acc);
    }
  }

  lemma VlqShortest(b: seq<Byte>)
    requires ReadVlq(b).Some?
    ensures var (v, rest) := ReadVlq(b).value; |rest| + |Vlq(v)| <= |b|
  {
    var (v, rest) := ReadVlq(b).value;
    ReadVlqShortest(b, 0, 4);
    ContinuedLengthIs(v / 128);
  }

  lemma BlockCost(b: seq<Byte>)
    requires ReadBlock(b).Some?
    ensures var (data, tail) := ReadBlock(b).value; |tail| + |Vlq(|data|)| + |data| <= |b|
  {
    VlqShortest(b);
  }

  // ----- reading costs at least that many bytes

  lemma {:induction false} DecodeCost(b: seq<Byte>, tick: nat, running: Byte)
    requires DecodeEvents(b, tick, running).Some?
    ensures TotalCost(DecodeEvents(b, tick, running).value, tick, running) <= |b|
    decreases |b|, 1
  {
    hide Vlq, TotalCost, ReadVlq, DecodeMeta, DecodeSysEx, DecodeChannel;
    VlqShortest(b);
    var (delta, rest) := ReadVlq(b).value;
    if rest[0] == 0xFF {
      DecodeMetaCost(rest[1..], tick, delta, running);
    } else if rest[0] == 0xF0 || rest[0] == 0xF7 {
      DecodeSysExCost(rest[1..], tick, delta, running);
    } else if rest[0] >= 0x80 {
      DecodeChannelCost(rest[1..], tick, delta, rest[0], running);
    } else {
      DecodeChannelCost(rest, tick, delta, running, running);
    }
  }

  lemma {:induction false} DecodeMetaCost(b: seq<Byte>, tick: nat, delta: nat, running: Byte)
    requires DecodeMeta(b, tick + delta).Some?
    ensures TotalCost(DecodeMeta(b, tick + delta).value, tick, running) <= |Vlq(delta)| + 1 + |b|
    decreases |b|, 0
  {
    hide Vlq, ReadVlq, DecodeEvents;
    BlockCost(b[1..]);
    var (data, tail) := ReadBlock(b[1..]).value;
    var m := Meta(tick + delta, b[0], data);
    if b[0] == 0x2F {
      assert [m] + [] == [m];
      ConsCost(m, [], tick, running);
    } else {
      DecodeCost(tail, tick + delta, 0);
      ConsCost(m, DecodeEvents(tail, tick + delta, 0).value, tick, running);
    }
  }

  lemma {:induction false} DecodeSysExCost(b: seq<Byte>, tick: nat, delta: nat, running: Byte)
    requires DecodeSysEx(b, tick + delta).Some?
    ensures TotalCost(DecodeSysEx(b, tick + delta).value, tick, running) <= |Vlq(delta)| + 1 + |b|
    decreases |b|, 0
  {
    hide Vlq, ReadVlq, DecodeEvents;
    BlockCost(b);
    var (data, tail) := ReadBlock(b).value;
    DecodeCost(tail, tick + delta, 0);
    ConsCost(SysEx(tick + delta, data), DecodeEvents(tail, tick + delta, 0).value, tick, running);
  }

  lemma ConsCost(m: Message, ms: seq<Message>, tick: nat, running: Byte)
    ensures TotalCost([m] + ms, tick, running) == Cost(m, tick, running) + TotalCost(ms, m.tick, RunningAfter(m))
  {
    assert ([m] + ms)[1..] == ms;
  }

  lemma {:induction false} DecodeChannelCost(b: seq<Byte>, tick: nat, delta: nat, status: Byte, running: Byte)
    requires DecodeChannel(b, tick + delta, status).Some?
    ensures TotalCost(DecodeChannel(b, tick + delta, status).value, tick, running)
         <= |Vlq(delta)| + (if status == running then 0 else 1) + |b|
    decreases |b|, 0
  {
    hide Vlq, DecodeEvents;
    var n := DataCount(status);
    DecodeCost(b[n..], tick + delta, status);
    ConsCost(Channel(tick + delta, status, b[..n]), DecodeEvents(b[n..], tick + delta, status).value, tick, running);
  }

  // ----- the renderer's layout has no byte to spare

  lemma {:induction false} WireCost(wire: seq<WireEvent>, lastTick: Word32, lastStatus: Byte, end: Message)
    requires Ascending(wire, lastTick) && (forall e :: e in wire ==> Playable(e))
    ensures TotalCost(Messages(wire) + [end], lastTick, lastStatus)
         == |EventBytes(wire, lastTick, lastStatus)|
            + Cost(end, FinalTick(wire, lastTick), FinalStatus(wire, lastStatus))
  {
    hide Vlq, Cost, OneEvent, TotalCost;
    if wire == [] {
      NoCost(end.tick, RunningAfter(end));
      assert Messages(wire) + [end] == [end] + [];
      ConsCost(end, [], lastTick, lastStatus);
    } else {
      var e, tail := wire[0], wire[1..];
      assert e in wire;
      WireCost(tail, e.tick, e.status, end);
      assert Messages(wire) + [end] == [ToMessage(e)] + (Messages(tail) + [end]);
      ConsCost(ToMessage(e), Messages(tail) + [end], lastTick, lastStatus);
      OneEventCost(e, lastTick, lastStatus);
    }
  }

  lemma NoCost(tick: nat, running: Byte)
    ensures TotalCost([], tick, running) == 0
  {
  }

  lemma OneEventCost(e: WireEvent, lastTick: Word32, lastStatus: Byte)
    requires lastTick <= e.tick && Playable(e)
    ensures |OneEvent(e, lastTick, lastStatus)| == Cost(ToMessage(e), lastTick, lastStatus)
    ensures ToMessage(e).tick == e.tick && RunningAfter(ToMessage(e)) == e.status
  {
    hide Vlq;
    assert Delta(e.tick, lastTick) == e.tick - lastTick;
  }

  lemma LongNameCost(name: seq<Byte>)
    requires |name| > 127
    ensures |Vlq(|name|)| >= 2
  {
    assert |Continued(|name| / 128)| >= 1;
  }

  /** The track reads back as it was meant exactly when its name has at most 127 bytes and no delta time is too long. */
  lemma NameLimit(name: seq<Byte>, wire: seq<WireEvent>)
    requires Sorted(wire) && (forall e :: e in wire ==> Playable(e))
    ensures DecodeTrack(TrackBody(name, wire))
            == Some([Meta(0, 0x03, name)] + Messages(wire) + [Meta(FinalTick(wire, 0), 0x2F, [])])
            <==> |name| <= 127 && DeltasFit(wire, 0)
  {
    hide DecodeEvents;
    assert |Vlq(0)| == 1;
    var end := Meta(FinalTick(wire, 0), 0x2F, []);
    var meant := [Meta(0, 0x03, name)] + Messages(wire) + [end];
    if |name| <= 127 {
      TrackRoundTrip(name, wire);
    } else if DecodeTrack(TrackBody(name, wire)) == Some(meant) {
      DecodeCost(TrackBody(name, wire), 0, 0);
      assert meant == [Meta(0, 0x03, name)] + (Messages(wire) + [end]);
      ConsCost(Meta(0, 0x03, name), Messages(wire) + [end], 0, 0);
      forall i, j | 0 <= i < j < |wire| ensures wire[i].tick <= wire[j].tick {
        assert !Before(wire[j], wire[i]);
      }
      WireCost(wire, 0, 0, end);
      LongNameCost(name);
      assert false;
    }
  }
}
