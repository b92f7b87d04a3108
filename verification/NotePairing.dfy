/**
 From notes to bytes and back to notes: rendering a track, reading the bytes by the
 rules of the standard, and pairing note-ons with note-offs as the piano roll does in
 `PianoRollComponent::parseSmfToNotes`.
 */
module NotePairing {
  import opened Bytes
  import opened SmfTrack
  import opened Permutations

  datatype RollNote = RollNote(
    tickOn: nat, tickOff: nat, note: nat, velocity: nat, channel: nat, trackName: seq<Byte>)

  // ----- the pairing loop

  predicate IsNoteOn(m: Message) {
    m.Channel? && 0x90 <= m.status < 0xA0 && |m.data| == 2 && m.data[1] > 0
  }

  /** A note-on with velocity zero is a note-off. */
  predicate IsNoteOff(m: Message) {
    && m.Channel? && |m.data| == 2
    && (0x80 <= m.status < 0x90 || (0x90 <= m.status < 0xA0 && m.data[1] == 0))
  }

  /** The time of the first note-off of that pitch from position `from` on, on any channel. */
  function FirstOff(ms: seq<Message>, from: nat, note: nat): Option<nat>
    decreases |ms| - from
  {
    if from >= |ms| then None
    else if IsNoteOff(ms[from]) && ms[from].data[0] == note then Some(ms[from].tick)
    else FirstOff(ms, from + 1, note)
  }

  function RollNoteAt(ms: seq<Message>, i: nat, ppq: nat, name: seq<Byte>): RollNote
    requires i < |ms| && IsNoteOn(ms[i])
  {
    var m := ms[i];
    var off := match FirstOff(ms, i + 1, m.data[0]) case Some(t) => t case None => m.tick + ppq;
    RollNote(m.tick, off, m.data[0], m.data[1], m.status - 0x90 + 1, name)
  }

  /** The notes of the first `n` messages. */
  function Paired(ms: seq<Message>, n: nat, ppq: nat, name: seq<Byte>): seq<RollNote>
    requires n <= |ms|
  {
    if n == 0 then []
    else Paired(ms, n - 1, ppq, name) + if IsNoteOn(ms[n - 1]) then [RollNoteAt(ms, n - 1, ppq, name)] else []
  }

  /** The last track name wins. */
  function LastName(ms: seq<Message>, n: nat): seq<Byte>
    requires n <= |ms|
  {
    if n == 0 then []
    else if ms[n - 1].Meta? && ms[n - 1].kind == 0x03 then ms[n - 1].data
    else LastName(ms, n - 1)
  }

  /** The loops over one track. */
  method ParseTrack(ms: seq<Message>, ppq: nat) returns (notes: seq<RollNote>)
    ensures notes == Paired(ms, |ms|, ppq, LastName(ms, |ms|))
  {
    var trackName := [];
    for i := 0 to |ms|
      invariant trackName == LastName(ms, i)
    {
      if ms[i].Meta? && ms[i].kind == 0x03 {
        trackName := ms[i].data;
      }
    }
    notes := [];
    for i := 0 to |ms|
      invariant notes == Paired(ms, i, ppq, trackName)
    {
      var m := ms[i];
      if !IsNoteOn(m) {
        continue;
      }
      var tickOff := m.tick + ppq;
      var j := i + 1;
      while j < |ms|
        invariant i < j <= |ms|
        invariant tickOff == m.tick + ppq
        invariant FirstOff(ms, j, m.data[0]) == FirstOff(ms, i + 1, m.data[0])
      {
        if IsNoteOff(ms[j]) && ms[j].data[0] == m.data[0] {
          tickOff := ms[j].tick;
          break;
        }
        j := j + 1;
      }
      notes := notes + [RollNote(m.tick, tickOff, m.data[0], m.data[1], m.status - 0x90 + 1, trackName)];
    }
  }

  /** A message that ends the pitch: a note-off of any channel, or a note-on with velocity zero. */
  predicate Ends(m: Message, note: nat) {
    m.Channel? && |m.data| == 2 && m.data[0] == note && (m.status / 16 == 8 || (m.status / 16 == 9 && m.data[1] == 0))
  }

  lemma {:induction false} FirstOffIs(ms: seq<Message>, from: nat, note: nat)
    ensures FirstOff(ms, from, note).None? <==> forall j :: from <= j < |ms| ==> !Ends(ms[j], note)
    ensures FirstOff(ms, from, note).Some? ==> exists j ::
      from <= j < |ms| && Ends(ms[j], note) && FirstOff(ms, from, note).value == ms[j].tick && forall k :: from <= k < j ==> !Ends(ms[k], note)
    decreases |ms| - from
  {
    if from < |ms| {
      FirstOffIs(ms, from + 1, note);
      assert Ends(ms[from], note) <==> IsNoteOff(ms[from]) && ms[from].data[0] == note;
    }
  }

  /**
   Every sounding note-on is shown from its tick to the first later message that ends its pitch,
   or for a quarter note when there is none, on the one-based channel.
   */
  lemma NoteShown(ms: seq<Message>, i: nat, ppq: nat, name: seq<Byte>)
    requires i < |ms|
    ensures IsNoteOn(ms[i]) <==> ms[i].Channel? && ms[i].status / 16 == 9 && |ms[i].data| == 2 && ms[i].data[1] != 0
    ensures IsNoteOn(ms[i]) ==>
      var r := RollNoteAt(ms, i, ppq, name);
      && r.tickOn == ms[i].tick && r.note == ms[i].data[0] && r.velocity == ms[i].data[1]
      && r.channel == ms[i].status % 16 + 1 && r.trackName == name
      && (if forall j :: i < j < |ms| ==> !Ends(ms[j], r.note) then r.tickOff == ms[i].tick + ppq
          else exists j :: i < j < |ms| && Ends(ms[j], r.note) && r.tickOff == ms[j].tick && forall k :: i < k < j ==> !Ends(ms[k], r.note))
  {
    hide FirstOff;
    if IsNoteOn(ms[i]) {
      FirstOffIs(ms, i + 1, ms[i].data[0]);
    }
  }

  /** The roll has one note for every sounding note-on, and no others. */
  lemma {:induction false} PairedElements(ms: seq<Message>, n: nat, ppq: nat, name: seq<Byte>)
    requires n <= |ms|
    ensures forall i :: 0 <= i < n && IsNoteOn(ms[i]) ==> RollNoteAt(ms, i, ppq, name) in Paired(ms, n, ppq, name)
    ensures forall r :: r in Paired(ms, n, ppq, name) ==> exists i :: 0 <= i < n && IsNoteOn(ms[i]) && r == RollNoteAt(ms, i, ppq, name)
  {
    hide RollNoteAt, IsNoteOn;
    if n > 0 {
      PairedElements(ms, n - 1, ppq, name);
    }
  }

  lemma {:induction false} PairedCount(ms: seq<Message>, n: nat, ppq: nat, name: seq<Byte>)
    requires n <= |ms|
    ensures |Paired(ms, n, ppq, name)| == |set i | 0 <= i < n && IsNoteOn(ms[i])|
  {
    hide RollNoteAt, IsNoteOn;
    var ons := set i | 0 <= i < n && IsNoteOn(ms[i]);
    if n == 0 {
      assert ons == {};
    } else {
      PairedCount(ms, n - 1, ppq, name);
      var before := set i | 0 <= i < n - 1 && IsNoteOn(ms[i]);
      assert ons == before + if IsNoteOn(ms[n - 1]) then {n - 1} else {};
    }
  }

  predicate IsName(m: Message) {
    m.Meta? && m.kind == 0x03
  }

  /** The name in force is that of the last name event, and empty when there is none. */
  lemma {:induction false} LastNameIs(ms: seq<Message>, n: nat, i: nat)
    requires i < n <= |ms| && IsName(ms[i]) && forall k :: i < k < n ==> !IsName(ms[k])
    ensures LastName(ms, n) == ms[i].data
  {
    if i < n - 1 {
      LastNameIs(ms, n - 1, i);
      assert !IsName(ms[n - 1]);
    }
  }

  lemma {:induction false} NoNameIsEmpty(ms: seq<Message>, n: nat)
    requires n <= |ms| && forall k :: 0 <= k < n ==> !IsName(ms[k])
    ensures LastName(ms, n) == []
  {
    if n > 0 {
      NoNameIsEmpty(ms, n - 1);
      assert !IsName(ms[n - 1]);
    }
  }

  // ----- the stream of a rendered track

  /** What a reader finds in a rendered track. */
  function Stream(name: seq<Byte>, wire: seq<WireEvent>): seq<Message> {
    [Meta(0, 0x03, name)] + Messages(wire) + [Meta(FinalTick(wire, 0), 0x2F, [])]
  }

  /** Events that the renderer and the piano roll take at face value. */
  ghost predicate Sound(events: seq<MidiEvent>) {
    forall i :: 0 <= i < |events| ==>
      var ev := events[i];
      ev.tickOn < ev.tickOff && ev.note <= 127 && 1 <= ev.velocity <= 127 && ev.channel <= 15
  }

  lemma {:induction false} WireMember(events: seq<MidiEvent>, e: WireEvent)
    ensures e in WireEvents(events) ==>
      exists i :: 0 <= i < |events| && events[i].note <= 127 && e == if e.isNoteOff then OffOf(events[i]) else OnOf(events[i])
  {
    if e in WireEvents(events) {
      var n := |events| - 1;
      var last := events[n];
      if last.note <= 127 && (e == OnOf(last) || e == OffOf(last)) {
        assert events[n] == last;
      } else {
        WireMember(events[..n], e);
        var i :| 0 <= i < n && events[..n][i].note <= 127 && e == if e.isNoteOff then OffOf(events[..n][i]) else OnOf(events[..n][i]);
        assert events[i] == events[..n][i];
      }
    }
  }

  lemma {:induction false} PairIsMember(events: seq<MidiEvent>, i: nat)
    requires i < |events| && events[i].note <= 127
    ensures OnOf(events[i]) in WireEvents(events) && OffOf(events[i]) in WireEvents(events)
  {
    var n := |events| - 1;
    if i < n {
      PairIsMember(events[..n], i);
    }
  }

  /** The events behind the members of a sorted stream. */
  lemma Origin(events: seq<MidiEvent>, sorted: seq<WireEvent>, k: nat) returns (i: nat)
    requires IsSortOf(WireEvents(events), sorted) && k < |sorted|
    ensures i < |events| && events[i].note <= 127
    ensures sorted[k] == if sorted[k].isNoteOff then OffOf(events[i]) else OnOf(events[i])
  {
    assert sorted[k] in multiset(sorted);
    assert sorted[k] in WireEvents(events);
    WireMember(events, sorted[k]);
    i :| 0 <= i < |events| && events[i].note <= 127
         && sorted[k] == if sorted[k].isNoteOff then OffOf(events[i]) else OnOf(events[i]);
  }

  lemma OffPosition(events: seq<MidiEvent>, sorted: seq<WireEvent>, i: nat) returns (k: nat)
    requires IsSortOf(WireEvents(events), sorted) && i < |events| && events[i].note <= 127
    ensures k < |sorted| && sorted[k] == OffOf(events[i])
  {
    PairIsMember(events, i);
    k := PositionOf(WireEvents(events), sorted, OffOf(events[i]));
  }

  lemma PositionOf(wire: seq<WireEvent>, sorted: seq<WireEvent>, e: WireEvent) returns (k: nat)
    requires IsSortOf(wire, sorted) && e in wire
    ensures k < |sorted| && sorted[k] == e
  {
    assert e in multiset(wire);
    assert e in sorted;
    k :| 0 <= k < |sorted| && sorted[k] == e;
  }

  // ----- the first note-off after a note-on

  /** The earliest end after `tick` of a note of that pitch. */
  function EarliestEnd(events: seq<MidiEvent>, note: nat, tick: nat): Option<nat> {
    if events == [] then None
    else
      var last := events[|events| - 1];
      var rest := EarliestEnd(events[..|events| - 1], note, tick);
      if last.note == note && last.tickOff > tick && (rest.None? || last.tickOff < rest.value)
      then Some(last.tickOff)
      else rest
  }

  lemma {:induction false} EarliestEndIs(events: seq<MidiEvent>, note: nat, tick: nat)
    ensures var r := EarliestEnd(events, note, tick);
            && (forall i :: 0 <= i < |events| && events[i].note == note && events[i].tickOff > tick ==>
                  r.Some? && r.value <= events[i].tickOff)
            && (r.Some? ==> exists i :: 0 <= i < |events| && events[i].note == note && events[i].tickOff == r.value > tick)
  {
    if events != [] {
      var n := |events| - 1;
      var front := events[..n];
      EarliestEndIs(front, note, tick);
      var rest := EarliestEnd(front, note, tick);
      if EarliestEnd(events, note, tick) == rest && rest.Some? {
        var i :| 0 <= i < n && front[i].note == note && front[i].tickOff == rest.value > tick;
        assert events[i] == front[i];
      }
      forall i | 0 <= i < |events| && events[i].note == note && events[i].tickOff > tick
        ensures var r := EarliestEnd(events, note, tick); r.Some? && r.value <= events[i].tickOff
      {
        assert i < n ==> events[i] == front[i];
      }
    }
  }

  /** The first message at or after `from` that ends the pitch, given that one at `at` does. */
  lemma {:induction false} FirstEnding(ms: seq<Message>, from: nat, note: nat, at: nat) returns (k: nat)
    requires from <= at < |ms| && IsNoteOff(ms[at]) && ms[at].data[0] == note
    ensures from <= k <= at && IsNoteOff(ms[k]) && ms[k].data[0] == note
    ensures FirstOff(ms, from, note) == Some(ms[k].tick)
    decreases at - from
  {
    if IsNoteOff(ms[from]) && ms[from].data[0] == note {
      k := from;
    } else {
      k := FirstEnding(ms, from + 1, note, at);
    }
  }

  lemma StreamAt(name: seq<Byte>, wire: seq<WireEvent>, k: nat)
    requires k < |wire|
    ensures |Stream(name, wire)| == |wire| + 2 && Stream(name, wire)[k + 1] == ToMessage(wire[k])
  {
  }

  lemma TicksAscend(sorted: seq<WireEvent>)
    requires Sorted(sorted)
    ensures forall i, j :: 0 <= i < j < |sorted| ==> sorted[i].tick <= sorted[j].tick
  {
    forall i, j | 0 <= i < j < |sorted| ensures sorted[i].tick <= sorted[j].tick {
      assert !Before(sorted[j], sorted[i]);
    }
  }

  /** Whatever order the sort chose, the pairing loop stops at the earliest end of the pitch after the note-on. */
  lemma PairedEnd(name: seq<Byte>, events: seq<MidiEvent>, sorted: seq<WireEvent>, p: nat)
    requires Sound(events) && IsSortOf(WireEvents(events), sorted)
    requires p < |sorted| && !sorted[p].isNoteOff
    ensures FirstOff(Stream(name, sorted), p + 2, sorted[p].data1) == EarliestEnd(events, sorted[p].data1, sorted[p].tick)
    ensures EarliestEnd(events, sorted[p].data1, sorted[p].tick).Some?
  {
    hide FirstOff, EarliestEnd, Stream, WireEvents;
    var ms, x := Stream(name, sorted), sorted[p];
    var own := Origin(events, sorted, p);
    EarliestEndIs(events, x.data1, x.tick);
    assert events[own].tickOff > x.tick;
    var end := EarliestEnd(events, x.data1, x.tick).value;
    var i :| 0 <= i < |events| && events[i].note == x.data1 && events[i].tickOff == end > x.tick;
    var j := OffPosition(events, sorted, i);
    TicksAscend(sorted);
    assert j > p;
    StreamAt(name, sorted, j);
    var k := FirstEnding(ms, p + 2, x.data1, j + 1);
    StreamAt(name, sorted, k - 1);
    var y := sorted[k - 1];
    var from := Origin(events, sorted, k - 1);
    assert y.isNoteOff;
    assert y.tick > x.tick by {
      assert !Before(y, x);
    }
    assert y.tick <= end;
  }

  // ----- the notes on the piano roll

  ghost function IsOn(): WireEvent -> bool {
    (e: WireEvent) => !e.isNoteOff
  }

  /** What the piano roll shows for a note-on. */
  ghost function Shown(events: seq<MidiEvent>, ppq: nat, name: seq<Byte>): WireEvent -> RollNote {
    (e: WireEvent) =>
      var off := match EarliestEnd(events, e.data1, e.tick) case Some(t) => t case None => e.tick + ppq;
      RollNote(e.tick, off, e.data1, e.data2, (if e.status >= 0x90 then e.status - 0x90 else 0) + 1, name)
  }

  lemma {:induction false} PairedIsCollected(name: seq<Byte>, events: seq<MidiEvent>, sorted: seq<WireEvent>, ppq: nat, n: nat)
    requires Sound(events) && IsSortOf(WireEvents(events), sorted) && n <= |sorted|
    ensures |Stream(name, sorted)| == |sorted| + 2
    ensures Paired(Stream(name, sorted), n + 1, ppq, name) == Collect(IsOn(), Shown(events, ppq, name), sorted[..n])
    decreases n
  {
    hide FirstOff, EarliestEnd, WireEvents, IsSortOf, Shown, RollNoteAt, OnOf, OffOf;
    if n == 0 {
      assert Paired(Stream(name, sorted), 0, ppq, name) == [];
    } else {
      PairedIsCollected(name, events, sorted, ppq, n - 1);
      assert sorted[..n][..n - 1] == sorted[..n - 1];
      ShownAt(name, events, sorted, ppq, n - 1);
    }
  }

  /** The loop shows a note for every note-on and for nothing else. */
  lemma ShownAt(name: seq<Byte>, events: seq<MidiEvent>, sorted: seq<WireEvent>, ppq: nat, p: nat)
    requires Sound(events) && IsSortOf(WireEvents(events), sorted) && p < |sorted|
    ensures var (ms, x) := (Stream(name, sorted), sorted[p]);
            && |ms| == |sorted| + 2
            && (IsNoteOn(ms[p + 1]) <==> !x.isNoteOff)
            && (!x.isNoteOff ==> RollNoteAt(ms, p + 1, ppq, name) == Shown(events, ppq, name)(x))
  {
    hide FirstOff, EarliestEnd, WireEvents, IsSortOf, Stream;
    StreamAt(name, sorted, p);
    var own := Origin(events, sorted, p);
    if !sorted[p].isNoteOff {
      PairedEnd(name, events, sorted, p);
    }
  }

  lemma {:induction false} CollectedOns(events: seq<MidiEvent>, f: WireEvent -> RollNote)
    requires Sound(events)
    ensures Collect(IsOn(), f, WireEvents(events)) == Collect((ev: MidiEvent) => true, (ev: MidiEvent) => f(OnOf(ev)), events)
  {
    if events != [] {
      var n := |events| - 1;
      var last := events[n];
      CollectedOns(events[..n], f);
      var pair := [OnOf(last), OffOf(last)];
      CollectConcat(IsOn(), f, WireEvents(events[..n]), pair);
      assert pair[..1] == [OnOf(last)];
      CollectOne(IsOn(), f, OnOf(last));
    }
  }

  function NoteOf(ev: MidiEvent, name: seq<Byte>): RollNote {
    RollNote(ev.tickOn, ev.tickOff, ev.note, ev.velocity, ev.channel + 1, name)
  }

  function NotesOf(events: seq<MidiEvent>, name: seq<Byte>): seq<RollNote> {
    Collect((ev: MidiEvent) => true, (ev: MidiEvent) => NoteOf(ev, name), events)
  }

  /** No note ends strictly inside another one of the same pitch. */
  ghost predicate Undisturbed(events: seq<MidiEvent>) {
    forall i, j :: 0 <= i < |events| && 0 <= j < |events| && events[i].note == events[j].note ==>
      !(events[i].tickOn < events[j].tickOff < events[i].tickOff)
  }

  /** The end the piano roll shows is never late, and it is the true one for all notes just when they are undisturbed. */
  lemma ShownEnds(events: seq<MidiEvent>, ppq: nat, name: seq<Byte>)
    requires Sound(events)
    ensures forall i :: 0 <= i < |events| ==>
      var shown := Shown(events, ppq, name)(OnOf(events[i]));
      shown == NoteOf(events[i], name).(tickOff := shown.tickOff) && shown.tickOff <= events[i].tickOff
    ensures (forall i :: 0 <= i < |events| ==> Shown(events, ppq, name)(OnOf(events[i])) == NoteOf(events[i], name))
            <==> Undisturbed(events)
  {
    hide EarliestEnd;
    forall i | 0 <= i < |events|
      ensures var shown := Shown(events, ppq, name)(OnOf(events[i]));
              && shown == NoteOf(events[i], name).(tickOff := shown.tickOff) && shown.tickOff <= events[i].tickOff
              && (shown == NoteOf(events[i], name) <==>
                  forall j :: 0 <= j < |events| && events[i].note == events[j].note ==>
                    !(events[i].tickOn < events[j].tickOff < events[i].tickOff))
    {
      EarliestEndIs(events, events[i].note, events[i].tickOn);
    }
  }

  lemma {:induction false} CollectAll(f: MidiEvent -> RollNote, g: MidiEvent -> RollNote, events: seq<MidiEvent>)
    requires forall i :: 0 <= i < |events| ==> f(events[i]) == g(events[i])
    ensures Collect((ev: MidiEvent) => true, f, events) == Collect((ev: MidiEvent) => true, g, events)
  {
    if events != [] {
      CollectAll(f, g, events[..|events| - 1]);
    }
  }

  lemma {:induction false} EndsSum(f: MidiEvent -> RollNote, g: MidiEvent -> RollNote, events: seq<MidiEvent>)
    requires forall i :: 0 <= i < |events| ==> f(events[i]).tickOff <= g(events[i]).tickOff
    ensures var all := (ev: MidiEvent) => true;
            var end := (n: RollNote) => n.tickOff as int;
            && Total(end, Collect(all, f, events)) <= Total(end, Collect(all, g, events))
            && (Total(end, Collect(all, f, events)) == Total(end, Collect(all, g, events)) ==>
                forall i :: 0 <= i < |events| ==> f(events[i]).tickOff == g(events[i]).tickOff)
  {
    if events != [] {
      var n := |events| - 1;
      EndsSum(f, g, events[..n]);
      var all := (ev: MidiEvent) => true;
      var cf, cg := Collect(all, f, events), Collect(all, g, events);
      assert cf[..|cf| - 1] == Collect(all, f, events[..n]) && cg[..|cg| - 1] == Collect(all, g, events[..n]);
      assert forall i :: 0 <= i < n ==> events[i] == events[..n][i];
    }
  }

  // ----- rests that a delta time can hold

  /** A tick at which a written note begins or ends. */
  ghost predicate Endpoint(events: seq<MidiEvent>, tick: nat) {
    exists i :: 0 <= i < |events| && events[i].note <= 127 && (events[i].tickOn == tick || events[i].tickOff == tick)
  }

  /** Nothing happens for longer than a delta time can say neither at the start nor between two notes. */
  ghost predicate NoLongRest(events: seq<MidiEvent>) {
    forall t: nat :: Endpoint(events, t) && t > LARGEST_QUANTITY ==>
      exists u: nat :: Endpoint(events, u) && t - LARGEST_QUANTITY <= u < t
  }

  lemma EndpointAt(events: seq<MidiEvent>, sorted: seq<WireEvent>, k: nat)
    requires IsSortOf(WireEvents(events), sorted) && k < |sorted|
    ensures Endpoint(events, sorted[k].tick)
  {
    var i := Origin(events, sorted, k);
  }

  lemma EndpointPosition(events: seq<MidiEvent>, sorted: seq<WireEvent>, tick: nat) returns (k: nat)
    requires IsSortOf(WireEvents(events), sorted) && Endpoint(events, tick)
    ensures k < |sorted| && sorted[k].tick == tick
  {
    hide WireEvents, IsSortOf;
    var i :| 0 <= i < |events| && events[i].note <= 127 && (events[i].tickOn == tick || events[i].tickOff == tick);
    PairIsMember(events, i);
    k := PositionOf(WireEvents(events), sorted, if events[i].tickOn == tick then OnOf(events[i]) else OffOf(events[i]));
  }

  /** The delta time of the event at `k`. */
  function GapAt(wire: seq<WireEvent>, tick: nat, k: nat): int
    requires k < |wire|
  {
    wire[k].tick - if k == 0 then tick else wire[k - 1].tick
  }

  lemma {:induction false} DeltasFitAt(wire: seq<WireEvent>, tick: nat)
    ensures DeltasFit(wire, tick) <==> forall k :: 0 <= k < |wire| ==> GapAt(wire, tick, k) <= LARGEST_QUANTITY
  {
    if wire != [] {
      var rest := wire[1..];
      DeltasFitAt(rest, wire[0].tick);
      forall k | 0 <= k < |rest| ensures GapAt(rest, wire[0].tick, k) == GapAt(wire, tick, k + 1) {
      }
      assert GapAt(wire, tick, 0) == wire[0].tick - tick;
      if forall k :: 0 <= k < |wire| ==> GapAt(wire, tick, k) <= LARGEST_QUANTITY {
        forall k | 0 <= k < |rest| ensures GapAt(rest, wire[0].tick, k) <= LARGEST_QUANTITY {
          assert GapAt(wire, tick, k + 1) <= LARGEST_QUANTITY;
        }
      }
      if DeltasFit(wire, tick) {
        forall k | 0 <= k < |wire| ensures GapAt(wire, tick, k) <= LARGEST_QUANTITY {
          assert k > 0 ==> GapAt(rest, wire[0].tick, k - 1) <= LARGEST_QUANTITY;
        }
      }
    }
  }

  /** The first event at the tick of the one at `k`. */
  lemma {:induction false} FirstAtTick(wire: seq<WireEvent>, k: nat) returns (m: nat)
    requires k < |wire|
    ensures m <= k && wire[m].tick == wire[k].tick && (m > 0 ==> wire[m - 1].tick != wire[k].tick)
  {
    m := k;
    if k > 0 && wire[k - 1].tick == wire[k].tick {
      m := FirstAtTick(wire, k - 1);
    }
  }

  /** Whatever order the sort chose, its delta times are short enough exactly when the track has no long rest. */
  lemma DeltasFitIff(events: seq<MidiEvent>, sorted: seq<WireEvent>)
    requires IsSortOf(WireEvents(events), sorted)
    ensures DeltasFit(sorted, 0) <==> NoLongRest(events)
  {
    hide WireEvents, IsSortOf, DeltasFit, Endpoint;
    SortedOf(WireEvents(events), sorted);
    TicksAscend(sorted);
    DeltasFitAt(sorted, 0);
    if DeltasFit(sorted, 0) {
      forall t: nat | Endpoint(events, t) && t > LARGEST_QUANTITY
        ensures exists u: nat :: Endpoint(events, u) && t - LARGEST_QUANTITY <= u < t
      {
        var k := EndpointPosition(events, sorted, t);
        var m := FirstAtTick(sorted, k);
        assert GapAt(sorted, 0, m) <= LARGEST_QUANTITY;
        EndpointAt(events, sorted, m - 1);
      }
    }
    if NoLongRest(events) {
      forall k | 0 <= k < |sorted| ensures GapAt(sorted, 0, k) <= LARGEST_QUANTITY {
        EndpointAt(events, sorted, k);
        var t: nat := sorted[k].tick;
        if t > LARGEST_QUANTITY {
          var u: nat :| Endpoint(events, u) && t - LARGEST_QUANTITY <= u < t;
          var j := EndpointPosition(events, sorted, u);
          assert j < k;
          assert sorted[j].tick <= sorted[k - 1].tick;
        }
      }
    }
  }

  // ----- end to end

  /** What the piano roll shows of a track chunk; nothing of one that a reader refuses. */
  ghost function Shows(body: seq<Byte>, ppq: nat): multiset<RollNote> {
    match DecodeTrack(body)
    case None => multiset{}
    case Some(ms) => multiset(Paired(ms, |ms|, ppq, LastName(ms, |ms|)))
  }

  lemma {:induction false} NotesCount(events: seq<MidiEvent>, name: seq<Byte>)
    ensures |NotesOf(events, name)| == |events|
  {
    if events != [] {
      NotesCount(events[..|events| - 1], name);
    }
  }

  /**
   End to end: rendering a track in any order its sort may choose, reading the bytes
   and pairing notes shows exactly the notes of the track, channel numbers shifted by
   one, if and only if no note ends strictly inside another of the same pitch and no rest
   is longer than a delta time can say. Such a rest makes the whole track unreadable.
   */
  lemma RollShowsTrack(track: MidiTrack, sorted: seq<WireEvent>, ppq: nat)
    requires |track.name| <= 127 && Sound(track.events)
    requires IsSortOf(WireEvents(track.events), sorted)
    ensures DecodeTrack(TrackBody(track.name, sorted)).Some? <==> NoLongRest(track.events)
    ensures Shows(TrackBody(track.name, sorted), ppq) == multiset(NotesOf(track.events, track.name))
       <==> Undisturbed(track.events) && NoLongRest(track.events)
  {
    hide DecodeTrack, TrackBody, FirstOff, EarliestEnd, WireEvents, IsSortOf, NoLongRest, NotesOf, Undisturbed;
    SortedPlayable(track.events, sorted);
    TrackRoundTrip(track.name, sorted);
    DeltasFitIff(track.events, sorted);
    if NoLongRest(track.events) {
      RollShowsStream(track, sorted, ppq);
    } else {
      NothingRests(track.events);
      NotesCount(track.events, track.name);
      assert |multiset(NotesOf(track.events, track.name))| == |track.events|;
    }
  }

  lemma NothingRests(events: seq<MidiEvent>)
    ensures events == [] ==> NoLongRest(events)
  {
  }

  /** In a rendered track a reader finds, for every note, its note-on and its note-off with pitch, velocity and channel. */
  lemma NoteOnTheWire(track: MidiTrack, sorted: seq<WireEvent>, i: nat)
    requires |track.name| <= 127 && Sound(track.events) && NoLongRest(track.events) && i < |track.events|
    requires IsSortOf(WireEvents(track.events), sorted)
    ensures var (r, ev) := (DecodeTrack(TrackBody(track.name, sorted)), track.events[i]);
            && r.Some? && Channel(ev.tickOn, 0x90 + ev.channel, [ev.note, ev.velocity]) in r.value
            && Channel(ev.tickOff, 0x80 + ev.channel, [ev.note, ev.velocity]) in r.value
  {
    hide DecodeTrack, TrackBody, WireEvents, IsSortOf, NoLongRest, Stream, ToMessage, OnOf, OffOf;
    TrackReadBack(track, sorted);
    PairIsMember(track.events, i);
    PairMessages(track.events[i]);
    ToMessageInStream(track.name, track.events, sorted, OnOf(track.events[i]));
    ToMessageInStream(track.name, track.events, sorted, OffOf(track.events[i]));
  }

  lemma TrackReadBack(track: MidiTrack, sorted: seq<WireEvent>)
    requires |track.name| <= 127 && Sound(track.events) && NoLongRest(track.events)
    requires IsSortOf(WireEvents(track.events), sorted)
    ensures DecodeTrack(TrackBody(track.name, sorted)) == Some(Stream(track.name, sorted))
  {
    hide DecodeTrack, TrackBody, WireEvents, IsSortOf, NoLongRest;
    SortedPlayable(track.events, sorted);
    TrackRoundTrip(track.name, sorted);
    DeltasFitIff(track.events, sorted);
  }

  lemma PairMessages(ev: MidiEvent)
    requires ev.channel < 16 && ev.note <= 127 && ev.velocity <= 127
    ensures ToMessage(OnOf(ev)) == Channel(ev.tickOn, 0x90 + ev.channel, [ev.note, ev.velocity])
    ensures ToMessage(OffOf(ev)) == Channel(ev.tickOff, 0x80 + ev.channel, [ev.note, ev.velocity])
  {
  }

  lemma ToMessageInStream(name: seq<Byte>, events: seq<MidiEvent>, sorted: seq<WireEvent>, e: WireEvent)
    requires IsSortOf(WireEvents(events), sorted) && e in WireEvents(events)
    ensures ToMessage(e) in Stream(name, sorted)
  {
    hide WireEvents, IsSortOf;
    var k := PositionOf(WireEvents(events), sorted, e);
    StreamAt(name, sorted, k);
  }

  lemma SortedPlayable(events: seq<MidiEvent>, sorted: seq<WireEvent>)
    requires Sound(events) && IsSortOf(WireEvents(events), sorted)
    ensures Sorted(sorted) && forall e :: e in sorted ==> Playable(e)
  {
    hide WireEvents, IsSortOf;
    forall e | e in sorted ensures Playable(e) {
      var k :| 0 <= k < |sorted| && sorted[k] == e;
      var i := Origin(events, sorted, k);
    }
    SortedOf(WireEvents(events), sorted);
  }

  lemma SortedOf(wire: seq<WireEvent>, sorted: seq<WireEvent>)
    requires IsSortOf(wire, sorted)
    ensures Sorted(sorted) && multiset(sorted) == multiset(wire)
  {
  }

  lemma {:induction false} NameOfStream(name: seq<Byte>, wire: seq<WireEvent>, n: nat)
    requires n <= |wire|
    ensures |Stream(name, wire)| == |wire| + 2
    ensures LastName(Stream(name, wire), n + 1) == name
  {
    if n > 0 {
      NameOfStream(name, wire, n - 1);
      StreamAt(name, wire, n - 1);
    }
  }

  /** The notes shown, as a multiset, do not depend on the sort. */
  lemma PairedIsShown(track: MidiTrack, sorted: seq<WireEvent>, ppq: nat)
    requires Sound(track.events) && IsSortOf(WireEvents(track.events), sorted)
    ensures var ms := Stream(track.name, sorted);
            && LastName(ms, |ms|) == track.name
            && multiset(Paired(ms, |ms|, ppq, track.name))
               == multiset(Collect((ev: MidiEvent) => true,
                                   (ev: MidiEvent) => Shown(track.events, ppq, track.name)(OnOf(ev)), track.events))
  {
    hide FirstOff, EarliestEnd, WireEvents, IsSortOf, Collect;
    var n, f := |sorted|, Shown(track.events, ppq, track.name);
    NameOfStream(track.name, sorted, n);
    PairedIsCollected(track.name, track.events, sorted, ppq, n);
    assert sorted[..n] == sorted;
    SortedOf(WireEvents(track.events), sorted);
    CollectPermutation(IsOn(), f, sorted, WireEvents(track.events));
    CollectedOns(track.events, f);
  }

  lemma RollShowsStream(track: MidiTrack, sorted: seq<WireEvent>, ppq: nat)
    requires Sound(track.events) && IsSortOf(WireEvents(track.events), sorted)
    ensures var ms := Stream(track.name, sorted);
            && LastName(ms, |ms|) == track.name
            && (multiset(Paired(ms, |ms|, ppq, track.name)) == multiset(NotesOf(track.events, track.name))
                <==> Undisturbed(track.events))
  {
    hide FirstOff, EarliestEnd, WireEvents, IsSortOf, Collect, Stream, Total, Undisturbed, Shown;
    var events, name := track.events, track.name;
    PairedIsShown(track, sorted, ppq);
    ShownEnds(events, ppq, name);
    var f := (ev: MidiEvent) => Shown(events, ppq, name)(OnOf(ev));
    var g := (ev: MidiEvent) => NoteOf(ev, name);
    var all := (ev: MidiEvent) => true;
    var end := (n: RollNote) => n.tickOff as int;
    EndsSum(f, g, events);
    if multiset(Collect(all, f, events)) == multiset(Collect(all, g, events)) {
      TotalPermutation(end, Collect(all, f, events), Collect(all, g, events));
      assert forall i :: 0 <= i < |events| ==> f(events[i]) == g(events[i]);
    }
    if Undisturbed(events) {
      CollectAll(f, g, events);
    }
  }

  /** Notes of the same pitch that do not overlap are undisturbed. */
  lemma DisjointIsUndisturbed(events: seq<MidiEvent>)
    requires Sound(events)
    requires forall i, j :: 0 <= i < |events| && 0 <= j < |events| && i != j && events[i].note == events[j].note ==>
      events[i].tickOff <= events[j].tickOn || events[j].tickOff <= events[i].tickOn
    ensures Undisturbed(events)
  {
  }
}
