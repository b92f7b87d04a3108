/**
 The renderer of `midi_renderer.cpp`: byte vectors grown step by step, proved
 against the layout functions of `SmfTrack`.
 */
module SmfRenderer {
  import opened Bytes
  import opened SmfTrack

  datatype SmfComposition = SmfComposition(
    ppq: int, bpm: int, key: string, scale: string, timeSigNum: int, timeSigDen: int, tracks: seq<MidiTrack>)

  const MTHD: seq<Byte> := [0x4D, 0x54, 0x68, 0x64]
  const MTRK: seq<Byte> := [0x4D, 0x54, 0x72, 0x6B]
  const MICROSECONDS_PER_MINUTE := 60_000_000

  // ----- chunks

  /** A track chunk; the length field holds 32 bits. */
  function Chunk(body: seq<Byte>): seq<Byte> {
    MTRK + Be32(|body| % 0x1_0000_0000) + body
  }

  function Chunks(bodies: seq<seq<Byte>>): seq<Byte> {
    if bodies == [] then [] else Chunks(bodies[..|bodies| - 1]) + Chunk(bodies[|bodies| - 1])
  }

  function HeaderBytes(format: Word16, numTracks: Word16, division: Word16): seq<Byte> {
    MTHD + Be32(6) + Be16(format) + Be16(numTracks) + Be16(division)
  }

  // ----- the tempo track

  /** The microseconds per quarter note that fit the 24-bit field. */
  function TempoField(bpm: int): (t: nat)
    requires bpm % 0x1_0000_0000 != 0
    ensures t < 0x100_0000
  {
    MICROSECONDS_PER_MINUTE / (bpm % 0x1_0000_0000) % 0x100_0000
  }

  function FloorLog2(den: int): nat
    decreases den
  {
    if den <= 1 then 0 else 1 + FloorLog2(den / 2)
  }

  function KeySharps(key: string): int {
    match key
    case "Cb" => -7 case "Gb" => -6 case "Db" => -5 case "Ab" => -4 case "Eb" => -3
    case "Bb" => -2 case "F" => -1 case "C" => 0 case "G" => 1 case "D" => 2
    case "A" => 3 case "E" => 4 case "B" => 5 case "F#" => 6 case "C#" => 7
    case _ => 0
  }

  function TempoData(bpm: int): seq<Byte>
    requires bpm % 0x1_0000_0000 != 0
  {
    var t := TempoField(bpm);
    [t / 0x1_0000, t / 0x100 % 0x100, t % 0x100]
  }

  function TimeSignatureData(num: int, den: int): seq<Byte> {
    [num % 0x100, FloorLog2(den) % 0x100, 24, 8]
  }

  function KeySignatureData(key: string, scale: string): seq<Byte> {
    [KeySharps(key) % 0x100, if scale == "minor" || scale == "min" then 1 else 0]
  }

  /** A meta event at delta zero with fewer than 128 data bytes. */
  function MetaEvent(kind: Byte, data: seq<Byte>): seq<Byte>
    requires |data| < 128
  {
    [0x00, 0xFF, kind, |data|] + data
  }

  function TempoBody(comp: SmfComposition): seq<Byte>
    requires comp.bpm % 0x1_0000_0000 != 0
  {
    MetaEvent(0x51, TempoData(comp.bpm))
    + MetaEvent(0x58, TimeSignatureData(comp.timeSigNum, comp.timeSigDen))
    + MetaEvent(0x59, KeySignatureData(comp.key, comp.scale))
    + END_OF_TRACK
  }

  /** The loop that turns a denominator into its power of two. */
  method DenominatorPower(timeSigDen: int) returns (dd: nat)
    ensures dd == FloorLog2(timeSigDen)
  {
    dd := 0;
    var den := timeSigDen;
    while den > 1
      invariant dd + FloorLog2(den) == FloorLog2(timeSigDen)
      decreases den
    {
      den := den / 2;
      dd := dd + 1;
    }
  }

  method BuildTempoTrack(out: seq<Byte>, comp: SmfComposition) returns (out': seq<Byte>)
    requires comp.bpm % 0x1_0000_0000 != 0
    ensures out' == out + Chunk(TempoBody(comp))
  {
    var events: seq<Byte> := [0x00, 0xFF, 0x51, 0x03];
    var tempo := MICROSECONDS_PER_MINUTE / (comp.bpm % 0x1_0000_0000);
    events := events + [tempo / 0x1_0000 % 0x100, tempo / 0x100 % 0x100, tempo % 0x100];
    TempoBytes(tempo);
    assert events == MetaEvent(0x51, TempoData(comp.bpm));
    events := events + [0x00, 0xFF, 0x58, 0x04, comp.timeSigNum % 0x100];
    var dd := DenominatorPower(comp.timeSigDen);
    events := events + [dd % 0x100, 24, 8];
    assert events == MetaEvent(0x51, TempoData(comp.bpm))
                     + MetaEvent(0x58, TimeSignatureData(comp.timeSigNum, comp.timeSigDen));
    events := events + [0x00, 0xFF, 0x59, 0x02, KeySharps(comp.key) % 0x100];
    events := events + [if comp.scale == "minor" || comp.scale == "min" then 1 else 0];
    events := events + [0x00, 0xFF, 0x2F, 0x00];
    assert events == TempoBody(comp);
    out' := out + MTRK;
    out' := out' + Be32(|events| % 0x1_0000_0000);
    out' := out' + events;
  }

  lemma TempoBytes(tempo: nat)
    ensures var t := tempo % 0x100_0000;
            t / 0x1_0000 == tempo / 0x1_0000 % 0x100 && t / 0x100 % 0x100 == tempo / 0x100 % 0x100 && t % 0x100 == tempo % 0x100
  {
    var q, t := tempo / 0x100_0000, tempo % 0x100_0000;
    assert tempo / 0x1_0000 == 0x100 * q + t / 0x1_0000;
    assert tempo / 0x100 == 0x1_0000 * q + t / 0x100;
    assert tempo % 0x100 == t % 0x100;
  }

  // ----- instrument tracks

  method CollectWireEvents(events: seq<MidiEvent>) returns (wire: seq<WireEvent>)
    ensures wire == WireEvents(events)
  {
    wire := [];
    for i := 0 to |events|
      invariant wire == WireEvents(events[..i])
    {
      var ev := events[i];
      assert events[..i + 1][..i] == events[..i];
      if ev.note > 127 {
        continue;
      }
      wire := wire + [OnOf(ev)];
      wire := wire + [OffOf(ev)];
    }
    assert events[..|events|] == events;
  }

  /** Some way to sort; callers learn no more than `IsSortOf`. */
  method SortWire(wire: seq<WireEvent>) returns (sorted: seq<WireEvent>)
    ensures IsSortOf(wire, sorted)
  {
    sorted := [];
    for i := 0 to |wire|
      invariant IsSortOf(wire[..i], sorted)
    {
      assert wire[..i + 1] == wire[..i] + [wire[i]];
      sorted := Insert(sorted, wire[i]);
    }
    assert wire[..|wire|] == wire;
  }

  method Insert(sorted: seq<WireEvent>, e: WireEvent) returns (r: seq<WireEvent>)
    requires Sorted(sorted)
    ensures IsSortOf(sorted + [e], r)
  {
    var k := |sorted|;
    while k > 0 && Before(e, sorted[k - 1])
      invariant 0 <= k <= |sorted|
      invariant forall i :: k <= i < |sorted| ==> Before(e, sorted[i])
    {
      k := k - 1;
    }
    r := sorted[..k] + [e] + sorted[k..];
    assert sorted == sorted[..k] + sorted[k..];
    InsertSorted(sorted, e, k);
  }

  lemma InsertSorted(sorted: seq<WireEvent>, e: WireEvent, k: nat)
    requires Sorted(sorted) && k <= |sorted|
    requires forall i :: k <= i < |sorted| ==> Before(e, sorted[i])
    requires k > 0 ==> !Before(e, sorted[k - 1])
    ensures Sorted(sorted[..k] + [e] + sorted[k..])
  {
    var r := sorted[..k] + [e] + sorted[k..];
    forall i, j | 0 <= i < j < |r| ensures !Before(r[j], r[i]) {
      if j < k {
        assert r[i] == sorted[i] && r[j] == sorted[j];
      } else if j == k {
        assert r[i] == sorted[i] && (i == k - 1 || !Before(sorted[k - 1], sorted[i]));
      } else if i == k {
        assert r[j] == sorted[j - 1];
      } else {
        assert r[j] == sorted[j - 1] && r[i] == sorted[if i < k then i else i - 1];
      }
    }
  }

  /** The loop that writes delta times, statuses and data bytes. */
  method AppendEvents(trackEvents: seq<Byte>, wire: seq<WireEvent>) returns (events: seq<Byte>)
    ensures events == trackEvents + EventBytes(wire, 0, 0)
  {
    hide EventBytes, Vlq, Delta;
    events := trackEvents;
    var lastTick: Word32, lastStatus: Byte := 0, 0;
    assert wire[0..] == wire;
    for i := 0 to |wire|
      invariant events + EventBytes(wire[i..], lastTick, lastStatus) == trackEvents + EventBytes(wire, 0, 0)
    {
      EventBytesStep(wire, i, lastTick, lastStatus);
      var we := wire[i];
      ghost var before, head := events, OneEvent(we, lastTick, lastStatus);
      ghost var rest := EventBytes(wire[i + 1..], we.tick, we.status);
      var delta := Delta(we.tick, lastTick);
      lastTick := we.tick;
      var vlq := EncodeVlq(delta);
      events := events + vlq;
      if we.status != lastStatus || lastStatus == 0 {
        events := events + [we.status];
        lastStatus := we.status;
      }
      events := events + [we.data1];
      events := events + [we.data2];
      assert events == before + head;
      assert before + (head + rest) == before + head + rest;
    }
    NoEventBytes(lastTick, lastStatus);
    assert wire[|wire|..] == [] && events + [] == events;
  }

  lemma EventBytesStep(wire: seq<WireEvent>, i: nat, lastTick: Word32, lastStatus: Byte)
    requires i < |wire|
    ensures EventBytes(wire[i..], lastTick, lastStatus)
         == OneEvent(wire[i], lastTick, lastStatus) + EventBytes(wire[i + 1..], wire[i].tick, wire[i].status)
  {
    assert wire[i..][1..] == wire[i + 1..];
  }

  lemma NoEventBytes(lastTick: Word32, lastStatus: Byte)
    ensures EventBytes([], lastTick, lastStatus) == []
  {
  }

  // The second result is the order the unstable sort chose, which the written bytes depend on.
  method BuildInstrumentTrack(out: seq<Byte>, track: MidiTrack) returns (out': seq<Byte>, sorted: seq<WireEvent>)
    ensures IsSortOf(WireEvents(track.events), sorted)
    ensures out' == out + Chunk(TrackBody(track.name, sorted))
  {
    hide EventBytes, IsSortOf, Be32;
    var vlq := EncodeVlq(0);
    VlqZero();
    var nameBytes := vlq + [0xFF, 0x03] + [|track.name| % 0x100] + track.name;
    assert nameBytes == NameBytes(track.name);
    var wire := CollectWireEvents(track.events);
    wire := SortWire(wire);
    sorted := wire;
    var events := AppendEvents(nameBytes, wire);
    vlq := EncodeVlq(0);
    events := events + vlq + [0xFF, 0x2F, 0x00];
    assert events == TrackBody(track.name, wire);
    out' := out + MTRK + Be32(|events| % 0x1_0000_0000) + events;
  }

  lemma VlqZero()
    ensures Vlq(0) == [0]
  {
    assert Continued(0) == [];
  }

  /** The bodies of the track chunks of a composition, for given sorts of its tracks. */
  function Bodies(comp: SmfComposition, sorts: seq<seq<WireEvent>>): (bodies: seq<seq<Byte>>)
    requires comp.bpm % 0x1_0000_0000 != 0 && |sorts| <= |comp.tracks|
    ensures |bodies| == |sorts| + 1 && bodies[0] == TempoBody(comp)
    ensures forall i :: 0 <= i < |sorts| ==> bodies[i + 1] == TrackBody(comp.tracks[i].name, sorts[i])
  {
    if sorts == [] then [TempoBody(comp)]
    else
      var n := |sorts| - 1;
      Bodies(comp, sorts[..n]) + [TrackBody(comp.tracks[n].name, sorts[n])]
  }

  ghost predicate SortsOf(comp: SmfComposition, sorts: seq<seq<WireEvent>>) {
    && |sorts| == |comp.tracks|
    && forall i :: 0 <= i < |sorts| ==> IsSortOf(WireEvents(comp.tracks[i].events), sorts[i])
  }

  /** The whole file; a bpm whose low 32 bits are zero divides by zero. */
  method Render(comp: SmfComposition) returns (out: seq<Byte>, sorts: seq<seq<WireEvent>>)
    requires comp.bpm % 0x1_0000_0000 != 0
    ensures SortsOf(comp, sorts)
    ensures out == HeaderBytes(1, (|comp.tracks| + 1) % 0x1_0000, comp.ppq % 0x1_0000) + Chunks(Bodies(comp, sorts))
  {
    hide TempoBody, TrackBody, Chunk, Chunks, Bodies, Be16, Be32, IsSortOf, WireEvents;
    var totalTracks := |comp.tracks| + 1;
    out := MTHD;
    out := out + Be32(6);
    out := out + Be16(1);
    out := out + Be16(totalTracks % 0x1_0000);
    out := out + Be16(comp.ppq % 0x1_0000);
    ghost var header := HeaderBytes(1, totalTracks % 0x1_0000, comp.ppq % 0x1_0000);
    assert out == header;
    out := BuildTempoTrack(out, comp);
    sorts := [];
    FirstBody(comp);
    for i := 0 to |comp.tracks|
      invariant |sorts| == i
      invariant forall k :: 0 <= k < i ==> IsSortOf(WireEvents(comp.tracks[k].events), sorts[k])
      invariant out == header + Chunks(Bodies(comp, sorts))
    {
      var sorted;
      out, sorted := BuildInstrumentTrack(out, comp.tracks[i]);
      NextBody(comp, sorts, sorted);
      ghost var done, chunk := Chunks(Bodies(comp, sorts)), Chunk(TrackBody(comp.tracks[i].name, sorted));
      assert header + done + chunk == header + (done + chunk);
      sorts := sorts + [sorted];
    }
  }

  lemma FirstBody(comp: SmfComposition)
    requires comp.bpm % 0x1_0000_0000 != 0
    ensures Chunks(Bodies(comp, [])) == Chunk(TempoBody(comp))
  {
    ChunksAppend([], TempoBody(comp));
    assert [] + Chunk(TempoBody(comp)) == Chunk(TempoBody(comp));
  }

  lemma NextBody(comp: SmfComposition, sorts: seq<seq<WireEvent>>, sorted: seq<WireEvent>)
    requires comp.bpm % 0x1_0000_0000 != 0 && |sorts| < |comp.tracks|
    ensures Chunks(Bodies(comp, sorts + [sorted]))
         == Chunks(Bodies(comp, sorts)) + Chunk(TrackBody(comp.tracks[|sorts|].name, sorted))
  {
    assert (sorts + [sorted])[..|sorts|] == sorts;
    ChunksAppend(Bodies(comp, sorts), TrackBody(comp.tracks[|sorts|].name, sorted));
  }

  lemma ChunksAppend(bodies: seq<seq<Byte>>, body: seq<Byte>)
    ensures Chunks(bodies + [body]) == Chunks(bodies) + Chunk(body)
  {
    assert (bodies + [body])[..|bodies|] == bodies;
  }
}
