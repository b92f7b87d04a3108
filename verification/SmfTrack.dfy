/**
 The body of a track chunk: how `midi_renderer.cpp` lays out wire events, and how
 the standard reads them back (Standard MIDI Files 1.0, sections "Track Chunks" and
 "Meta-Events"; MIDI 1.0 Detailed Specification, section "Running Status").
 */
module SmfTrack {
  import opened Bytes

  datatype MidiEvent = MidiEvent(
    tickOn: Word32, tickOff: Word32, channel: Byte, note: Byte, velocity: Byte, articulation: Byte)

  datatype MidiTrack = MidiTrack(name: seq<Byte>, events: seq<MidiEvent>)

  datatype WireEvent = WireEvent(tick: Word32, isNoteOff: bool, status: Byte, data1: Byte, data2: Byte)

  const END_OF_TRACK: seq<Byte> := [0x00, 0xFF, 0x2F, 0x00]

  // ----- from notes to wire events

  function OnOf(ev: MidiEvent): WireEvent {
    WireEvent(ev.tickOn, false, 0x90 + ev.channel % 16, ev.note, ev.velocity)
  }

  function OffOf(ev: MidiEvent): WireEvent {
    WireEvent(ev.tickOff, true, 0x80 + ev.channel % 16, ev.note, ev.velocity)
  }

  /** A note-on and a note-off for every event; events with a note above 127 are skipped. */
  function WireEvents(events: seq<MidiEvent>): seq<WireEvent> {
    if events == [] then []
    else
      var last := events[|events| - 1];
      WireEvents(events[..|events| - 1]) + if last.note > 127 then [] else [OnOf(last), OffOf(last)]
  }

  /** The order of the renderer's sort: by tick, note-offs before note-ons. */
  predicate Before(a: WireEvent, b: WireEvent) {
    if a.tick != b.tick then a.tick < b.tick else a.isNoteOff && !b.isNoteOff
  }

  ghost predicate Sorted(wire: seq<WireEvent>) {
    forall i, j :: 0 <= i < j < |wire| ==> !Before(wire[j], wire[i])
  }

  /** What `std::sort` promises; the order of equivalent events is left open. */
  ghost predicate IsSortOf(wire: seq<WireEvent>, sorted: seq<WireEvent>) {
    multiset(sorted) == multiset(wire) && Sorted(sorted)
  }

  // ----- layout

  /** `last` after subtracting in 32 bits. */
  function Delta(tick: Word32, last: Word32): Word32 {
    (tick - last) % 0x1_0000_0000
  }

  /** Delta time, status unless it repeats the last one, and the two data bytes. */
  function OneEvent(e: WireEvent, lastTick: Word32, lastStatus: Byte): seq<Byte> {
    Vlq(Delta(e.tick, lastTick))
    + (if e.status != lastStatus || lastStatus == 0 then [e.status] else [])
    + [e.data1, e.data2]
  }

  function EventBytes(wire: seq<WireEvent>, lastTick: Word32, lastStatus: Byte): seq<Byte> {
    if wire == [] then []
    else
      OneEvent(wire[0], lastTick, lastStatus) + EventBytes(wire[1..], wire[0].tick, wire[0].status)
  }

  function NameBytes(name: seq<Byte>): seq<Byte> {
    [0x00, 0xFF, 0x03, |name| % 0x100] + name
  }

  function TrackBody(name: seq<Byte>, wire: seq<WireEvent>): seq<Byte> {
    NameBytes(name) + EventBytes(wire, 0, 0) + END_OF_TRACK
  }

  // ----- the standard's reader

  datatype Message =
    | Channel(tick: nat, status: Byte, data: seq<Byte>)
    | Meta(tick: nat, kind: Byte, data: seq<Byte>)
    | SysEx(tick: nat, data: seq<Byte>)

  /** The number of data bytes that follow a channel status. */
  function DataCount(status: Byte): nat {
    if 0xC0 <= status < 0xE0 then 1 else 2
  }

  function Cons(m: Message, rest: Option<seq<Message>>): Option<seq<Message>> {
    match rest
    case None => None
    case Some(ms) => Some([m] + ms)
  }

  /** A length-prefixed block, as meta and system exclusive events carry. */
  function ReadBlock(b: seq<Byte>): (r: Option<(seq<Byte>, seq<Byte>)>)
    ensures r.Some? ==> |r.value.1| < |b|
  {
    match ReadVlq(b)
    case None => None
    case Some((len, rest)) => if len <= |rest| then Some((rest[..len], rest[len..])) else None
  }

  /** Reads delta-time and event pairs up to the end-of-track event; `running` is 0 when there is no running status. */
  function DecodeEvents(b: seq<Byte>, tick: nat, running: Byte): Option<seq<Message>>
    decreases |b|
  {
    match ReadVlq(b)
    case None => None
    case Some((delta, rest)) =>
      if rest == [] then None
      else if rest[0] == 0xFF then DecodeMeta(rest[1..], tick + delta)
      else if rest[0] == 0xF0 || rest[0] == 0xF7 then DecodeSysEx(rest[1..], tick + delta)
      else if rest[0] >= 0xF0 then None
      else if rest[0] >= 0x80 then DecodeChannel(rest[1..], tick + delta, rest[0])
      else if running == 0 then None
      else DecodeChannel(rest, tick + delta, running)
  }

  function DecodeMeta(b: seq<Byte>, tick: nat): Option<seq<Message>>
    decreases |b|
  {
    if b == [] then None
    else
      match ReadBlock(b[1..])
      case None => None
      case Some((data, tail)) =>
        if b[0] == 0x2F
        then (if tail == [] then Some([Meta(tick, b[0], data)]) else None)
        else Cons(Meta(tick, b[0], data), DecodeEvents(tail, tick, 0))
  }

  function DecodeSysEx(b: seq<Byte>, tick: nat): Option<seq<Message>>
    decreases |b|
  {
    match ReadBlock(b)
    case None => None
    case Some((data, tail)) => Cons(SysEx(tick, data), DecodeEvents(tail, tick, 0))
  }

  function DecodeChannel(b: seq<Byte>, tick: nat, status: Byte): Option<seq<Message>>
    decreases |b|
  {
    var n := DataCount(status);
    if |b| < n || exists i :: 0 <= i < n && b[i] >= 0x80 then None
    else Cons(Channel(tick, status, b[..n]), DecodeEvents(b[n..], tick, status))
  }

  function DecodeTrack(body: seq<Byte>): Option<seq<Message>> {
    DecodeEvents(body, 0, 0)
  }

  // ----- round trip

  function ToMessage(e: WireEvent): Message {
    Channel(e.tick, e.status, [e.data1, e.data2])
  }

  function Messages(wire: seq<WireEvent>): (ms: seq<Message>)
    ensures |ms| == |wire|
    ensures forall i :: 0 <= i < |wire| ==> ms[i] == ToMessage(wire[i])
  {
    if wire == [] then [] else [ToMessage(wire[0])] + Messages(wire[1..])
  }

  /** Note-on and note-off events with data bytes in range. */
  predicate Playable(e: WireEvent) {
    0x80 <= e.status < 0xA0 && e.data1 < 0x80 && e.data2 < 0x80
  }

  function FinalTick(wire: seq<WireEvent>, tick: nat): nat {
    if wire == [] then tick else wire[|wire| - 1].tick
  }

  ghost predicate Ascending(wire: seq<WireEvent>, tick: Word32) {
    && (forall i :: 0 <= i < |wire| ==> tick <= wire[i].tick)
    && (forall i, j :: 0 <= i < j < |wire| ==> wire[i].tick <= wire[j].tick)
  }

  /** Every delta time is a quantity the standard allows. */
  ghost predicate DeltasFit(wire: seq<WireEvent>, tick: nat) {
    wire != [] ==> wire[0].tick - tick <= LARGEST_QUANTITY && DeltasFit(wire[1..], wire[0].tick)
  }

  /** One event reads back, with its status written out or omitted, unless its delta time is too long. */
  lemma DecodeOne(e: WireEvent, lastTick: Word32, lastStatus: Byte, rest: seq<Byte>)
    requires Playable(e) && lastTick <= e.tick
    ensures DecodeEvents(OneEvent(e, lastTick, lastStatus) + rest, lastTick, lastStatus)
         == if e.tick - lastTick <= LARGEST_QUANTITY then Cons(ToMessage(e), DecodeEvents(rest, e.tick, e.status)) else None
  {
    hide ReadVlq, Vlq;
    var delta := Delta(e.tick, lastTick);
    assert delta == e.tick - lastTick;
    var status := if e.status != lastStatus || lastStatus == 0 then [e.status] else [];
    var data := [e.data1, e.data2] + rest;
    VlqRoundTrip(delta, status + data);
    assert Vlq(delta) + status + [e.data1, e.data2] + rest == Vlq(delta) + (status + data);
    assert DecodeChannel(data, e.tick, e.status)
        == Cons(Channel(e.tick, e.status, [e.data1, e.data2]), DecodeEvents(rest, e.tick, e.status)) by {
      assert data[..2] == [e.data1, e.data2] && data[2..] == rest;
      assert DataCount(e.status) == 2;
    }
    if status == [] {
      assert status + data == data;
    } else {
      assert (status + data)[1..] == data;
    }
  }

  lemma DecodeEnd(tick: nat, running: Byte)
    ensures DecodeEvents(END_OF_TRACK, tick, running) == Some([Meta(tick, 0x2F, [])])
  {
    var rest, meta, zero: seq<Byte> := [0xFF, 0x2F, 0x00], [0x2F, 0x00], [0x00];
    assert END_OF_TRACK[1..] == rest && rest[1..] == meta && meta[1..] == zero && zero[1..] == [];
    assert ReadVlq(END_OF_TRACK) == Some((0, rest));
    assert ReadVlq(zero) == Some((0, []));
    assert ReadBlock(zero) == Some(([], []));
    assert DecodeMeta(meta, tick) == Some([Meta(tick, 0x2F, [])]);
  }

  function Prepend(ms: seq<Message>, rest: Option<seq<Message>>): Option<seq<Message>> {
    match rest
    case None => None
    case Some(ms') => Some(ms + ms')
  }

  lemma PrependCons(m: Message, ms: seq<Message>, rest: Option<seq<Message>>)
    ensures Cons(m, Prepend(ms, rest)) == Prepend([m] + ms, rest)
  {
    if rest.Some? {
      assert [m] + (ms + rest.value) == [m] + ms + rest.value;
    }
  }

  function FinalStatus(wire: seq<WireEvent>, status: Byte): Byte {
    if wire == [] then status else wire[|wire| - 1].status
  }

  /** No delta underflows, every omitted status byte is reconstructed, and only a delta time that is too long is refused. */
  lemma {:induction false} DecodeWire(wire: seq<WireEvent>, lastTick: Word32, lastStatus: Byte, rest: seq<Byte>)
    requires Ascending(wire, lastTick)
    requires forall e :: e in wire ==> Playable(e)
    ensures DecodeEvents(EventBytes(wire, lastTick, lastStatus) + rest, lastTick, lastStatus)
         == if DeltasFit(wire, lastTick)
            then Prepend(Messages(wire), DecodeEvents(rest, FinalTick(wire, lastTick), FinalStatus(wire, lastStatus)))
            else None
  {
    hide DecodeEvents, OneEvent, ToMessage;
    if wire == [] {
      assert EventBytes(wire, lastTick, lastStatus) + rest == rest;
      assert forall ms: seq<Message> :: Messages(wire) + ms == ms;
    } else {
      var e, tail := wire[0], wire[1..];
      var head, more := OneEvent(e, lastTick, lastStatus), EventBytes(tail, e.tick, e.status);
      assert EventBytes(wire, lastTick, lastStatus) + rest == head + (more + rest);
      assert e in wire;
      DecodeOne(e, lastTick, lastStatus, more + rest);
      DecodeWire(tail, e.tick, e.status, rest);
      PrependCons(ToMessage(e), Messages(tail), DecodeEvents(rest, FinalTick(wire, lastTick), FinalStatus(wire, lastStatus)));
    }
  }

  lemma DecodeName(name: seq<Byte>, rest: seq<Byte>)
    requires |name| <= 127
    ensures DecodeEvents(NameBytes(name) + rest, 0, 0) == Cons(Meta(0, 0x03, name), DecodeEvents(rest, 0, 0))
  {
    var len: Byte := |name|;
    var block := [len] + (name + rest);
    var meta := [0x03] + block;
    var all := NameBytes(name) + rest;
    assert all[0] == 0 && all[1..] == [0xFF] + meta;
    assert ([0xFF] + meta)[1..] == meta;
    assert meta[1..] == block;
    assert block[1..] == name + rest;
    assert ReadVlq(block) == Some((|name|, name + rest));
    assert (name + rest)[..|name|] == name && (name + rest)[|name|..] == rest;
  }

  /**
   Reading a rendered track by the rules of the standard gives the track name, then
   exactly the wire events with their absolute ticks, then the end of the track; a track
   with a delta time that is too long is refused.
   */
  lemma TrackRoundTrip(name: seq<Byte>, wire: seq<WireEvent>)
    requires |name| <= 127 && Sorted(wire)
    requires forall e :: e in wire ==> Playable(e)
    ensures DecodeTrack(TrackBody(name, wire))
         == if DeltasFit(wire, 0) then Some([Meta(0, 0x03, name)] + Messages(wire) + [Meta(FinalTick(wire, 0), 0x2F, [])]) else None
  {
    hide DecodeEvents, NameBytes;
    var rest := EventBytes(wire, 0, 0) + END_OF_TRACK;
    assert TrackBody(name, wire) == NameBytes(name) + rest;
    DecodeName(name, rest);
    forall i, j | 0 <= i < j < |wire| ensures wire[i].tick <= wire[j].tick {
      assert !Before(wire[j], wire[i]);
    }
    DecodeWire(wire, 0, 0, END_OF_TRACK);
    DecodeEnd(FinalTick(wire, 0), FinalStatus(wire, 0));
    var end := [Meta(FinalTick(wire, 0), 0x2F, [])];
    assert [Meta(0, 0x03, name)] + (Messages(wire) + end) == [Meta(0, 0x03, name)] + Messages(wire) + end;
  }
}
