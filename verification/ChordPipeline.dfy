/**
 The harmony stage of the command line: `HarmonyEngine::generate` builds chord specs,
 `ChordEngine::voicing` turns them into events, and `main` groups the events by onset
 and detects the specs again.
 */
module ChordPipeline {
  import opened Bytes
  import opened SmfTrack
  import opened Ordered
  import opened Permutations
  import opened ChordDetection

  const TICKS_PER_BAR: Word32 := 1920
  const BASE_OCTAVE := 48

  datatype ChordSpec = ChordSpec(
    startTick: Word32, durationTicks: Word32, rootPc: int, quality: string, channel: Byte)

  // ----- voicing

  /** Rotating a chord upward by `inv` tones; the tones that wrap drop an octave. */
  function Inverted(notes: seq<int>, inv: nat): (r: seq<int>)
    requires inv <= |notes|
    ensures |r| == |notes|
  {
    notes[inv..] + seq(inv, (k: nat) requires k < inv => notes[k] - 12)
  }

  method ApplyInversion(notes: seq<int>, inv: nat) returns (r: seq<int>)
    ensures notes == [] ==> r == []
    ensures notes != [] ==> r == Inverted(notes, inv % |notes|)
  {
    if notes == [] {
      return notes;
    }
    var count := |notes|;
    var pivot := inv % count;
    if pivot == 0 {
      return notes;
    }
    r := notes[pivot..] + notes[..pivot];
    var i := |r| - pivot;
    while i < |r|
      invariant |r| - pivot <= i <= |r| == |notes|
      invariant r[..|r| - pivot] == notes[pivot..]
      invariant forall k :: |r| - pivot <= k < |r| ==> r[k] == notes[k - (|r| - pivot)] - if k < i then 12 else 0
    {
      r := r[i := r[i] - 12];
      i := i + 1;
    }
  }

  function RootPosition(cs: ChordSpec): (notes: seq<int>)
    ensures |notes| == |Offsets(cs.quality)|
  {
    var offsets := Offsets(cs.quality);
    seq(|offsets|, (k: nat) requires k < |offsets| => BASE_OCTAVE + cs.rootPc % 12 + offsets[k])
  }

  function VoicedNotes(cs: ChordSpec, inv: nat): seq<int> {
    var notes := RootPosition(cs);
    if notes == [] then [] else Inverted(notes, inv % |notes|)
  }

  function NoteEvent(cs: ChordSpec, note: int, velocity: Byte): MidiEvent {
    MidiEvent(cs.startTick, (cs.startTick + cs.durationTicks) % 0x1_0000_0000, cs.channel, note % 0x100, velocity, 0)
  }

  ghost function InRange(): int -> bool {
    (n: int) => 0 <= n <= 127
  }

  ghost function ToEvent(cs: ChordSpec, velocity: Byte): int -> MidiEvent {
    (n: int) => NoteEvent(cs, n, velocity)
  }

  /** The events of one chord; notes outside 0..127 would be skipped. */
  ghost function ChordEvents(cs: ChordSpec, inv: nat, velocity: Byte): seq<MidiEvent> {
    Collect(InRange(), ToEvent(cs, velocity), VoicedNotes(cs, inv))
  }

  /** The events of the first `n` chords, with two random numbers per chord. */
  ghost function Voiced(chords: seq<ChordSpec>, n: nat, rng: nat -> nat): seq<MidiEvent>
    requires n <= |chords|
  {
    if n == 0 then []
    else Voiced(chords, n - 1, rng) + ChordEvents(chords[n - 1], rng(2 * n - 2) % 3, 50 + rng(2 * n - 1) % 51)
  }

  method StackNotes(cs: ChordSpec) returns (notes: seq<int>)
    ensures notes == RootPosition(cs)
  {
    hide Offsets;
    var offsets := Offsets(cs.quality);
    notes := [];
    for k := 0 to |offsets|
      invariant notes == RootPosition(cs)[..k]
    {
      notes := notes + [BASE_OCTAVE + cs.rootPc % 12 + offsets[k]];
    }
  }

  method EmitNotes(cs: ChordSpec, notes: seq<int>, velocity: Byte) returns (out: seq<MidiEvent>)
    ensures out == Collect(InRange(), ToEvent(cs, velocity), notes)
  {
    out := [];
    for k := 0 to |notes|
      invariant out == Collect(InRange(), ToEvent(cs, velocity), notes[..k])
    {
      assert notes[..k + 1][..k] == notes[..k];
      if 0 <= notes[k] <= 127 {
        out := out + [NoteEvent(cs, notes[k], velocity)];
      }
    }
    assert notes[..|notes|] == notes;
  }

  method EmitChord(cs: ChordSpec, inv: nat, velocity: Byte) returns (events: seq<MidiEvent>)
    ensures events == ChordEvents(cs, inv, velocity)
  {
    hide Offsets, Collect, RootPosition, Inverted;
    var notes := StackNotes(cs);
    notes := ApplyInversion(notes, inv);
    events := EmitNotes(cs, notes, velocity);
  }

  /** `voicing`, for any stream of random numbers. */
  method Voicing(chords: seq<ChordSpec>, rng: nat -> nat) returns (out: seq<MidiEvent>)
    ensures out == Voiced(chords, |chords|, rng)
  {
    hide ChordEvents;
    out := [];
    for c := 0 to |chords|
      invariant out == Voiced(chords, c, rng)
    {
      var inv := rng(2 * c) % 3;
      var velocity := 50 + rng(2 * c + 1) % 51;
      var events := EmitChord(chords[c], inv, velocity);
      assert 2 * (c + 1) - 2 == 2 * c && 2 * (c + 1) - 1 == 2 * c + 1;
      out := out + events;
    }
  }

  // ----- grouping and detection

  ghost function At(tick: nat): MidiEvent -> bool {
    (e: MidiEvent) => e.tickOn == tick
  }

  ghost function Same(): MidiEvent -> MidiEvent {
    (e: MidiEvent) => e
  }

  /** The events that begin at a tick, in order. */
  ghost function Group(events: seq<MidiEvent>, tick: nat): seq<MidiEvent> {
    Collect(At(tick), Same(), events)
  }

  function Notes(events: seq<MidiEvent>): seq<nat> {
    seq(|events|, (i: nat) requires i < |events| => events[i].note)
  }

  /** The distinct onsets of the events, ascending, as the keys of an ordered map. */
  ghost predicate IsOnsets(ticks: seq<nat>, events: seq<MidiEvent>) {
    Increasing(ticks) && forall t: nat :: t in ticks <==> Group(events, t) != []
  }

  /** Undetected chords fall back to C major. */
  function Symbol(d: Detection): (nat, string) {
    if d.valid then (d.rootPc, d.quality) else (0, "maj")
  }

  /** The spec recovered for onset `i`. */
  ghost function Recovered(events: seq<MidiEvent>, ticks: seq<nat>, i: nat): ChordSpec
    requires i < |ticks| && (forall k :: 0 <= k < |ticks| ==> ticks[k] < 0x1_0000_0000)
  {
    var symbol := Symbol(Detect(PitchClasses(Notes(Group(events, ticks[i])))));
    var duration := if i + 1 < |ticks| then (ticks[i + 1] - ticks[i]) % 0x1_0000_0000 else TICKS_PER_BAR;
    ChordSpec(ticks[i], duration, symbol.0, symbol.1, 0)
  }

  ghost function RecoveredSpecs(events: seq<MidiEvent>, ticks: seq<nat>, n: nat): seq<ChordSpec>
    requires n <= |ticks| && (forall k :: 0 <= k < |ticks| ==> ticks[k] < 0x1_0000_0000)
  {
    if n == 0 then [] else RecoveredSpecs(events, ticks, n - 1) + [Recovered(events, ticks, n - 1)]
  }

  /** The body of the loop over the onsets. */
  method RecoverSpec(group: seq<MidiEvent>, keys: seq<nat>, i: nat, ghost events: seq<MidiEvent>) returns (spec: ChordSpec)
    requires i < |keys| && (forall k :: 0 <= k < |keys| ==> keys[k] < 0x1_0000_0000)
    requires group == Group(events, keys[i])
    ensures spec == Recovered(events, keys, i)
  {
    hide Group, Detect, PitchClasses;
    var d := DetectChord(Notes(group));
    if !d.valid {
      d := Detection(true, 0, "maj");
    }
    var duration := if i + 1 < |keys| then (keys[i + 1] - keys[i]) % 0x1_0000_0000 else TICKS_PER_BAR;
    spec := ChordSpec(keys[i], duration, d.rootPc, d.quality, 0);
  }

  /** Step e of `main`: an ordered map from onsets to events, then one spec per onset. */
  method ConvertHarmony(events: seq<MidiEvent>) returns (specs: seq<ChordSpec>, ticks: seq<nat>)
    ensures IsOnsets(ticks, events) && (forall k :: 0 <= k < |ticks| ==> ticks[k] < 0x1_0000_0000)
    ensures specs == RecoveredSpecs(events, ticks, |ticks|)
  {
    hide Group, Recovered;
    var keys, groups := GroupByOnset(events);
    ticks := keys;
    specs := [];
    for i := 0 to |keys|
      invariant specs == RecoveredSpecs(events, ticks, i)
    {
      var spec := RecoverSpec(groups[keys[i]], keys, i, events);
      specs := specs + [spec];
    }
  }

  lemma GroupGrows(events: seq<MidiEvent>, e: MidiEvent, t: nat)
    ensures Group(events + [e], t) == Group(events, t) + if e.tickOn == t then [e] else []
  {
    hide Collect;
    CollectConcat(At(t), Same(), events, [e]);
    CollectOne(At(t), Same(), e);
  }

  method GroupByOnset(events: seq<MidiEvent>) returns (keys: seq<nat>, groups: map<nat, seq<MidiEvent>>)
    ensures IsOnsets(keys, events) && (forall k :: 0 <= k < |keys| ==> keys[k] < 0x1_0000_0000)
    ensures forall k :: 0 <= k < |keys| ==> keys[k] in groups && groups[keys[k]] == Group(events, keys[k])
  {
    hide Group, Increasing;
    keys, groups := [], map[];
    NoOnsets();
    for i := 0 to |events|
      invariant Increasing(keys)
      invariant forall t: nat :: t in keys <==> t in groups
      invariant forall t: nat :: t in groups <==> Group(events[..i], t) != []
      invariant forall t: nat :: t in groups ==> t < 0x1_0000_0000 && groups[t] == Group(events[..i], t)
    {
      var e := events[i];
      assert events[..i + 1] == events[..i] + [e];
      forall t: nat ensures Group(events[..i + 1], t) == Group(events[..i], t) + if e.tickOn == t then [e] else [] {
        GroupGrows(events[..i], e, t);
      }
      var sofar := if e.tickOn in groups then groups[e.tickOn] else [];
      groups := groups[e.tickOn := sofar + [e]];
      keys := InsertKey(keys, e.tickOn);
    }
    assert events[..|events|] == events;
    forall k | 0 <= k < |keys| ensures keys[k] in groups {
      assert keys[k] in keys;
    }
  }

  lemma NoOnsets()
    ensures Increasing([]) && forall t: nat :: Group([], t) == []
  {
  }

  // ----- one chord comes back

  lemma NotesInRange(cs: ChordSpec)
    ensures forall k :: 0 <= k < |RootPosition(cs)| ==> BASE_OCTAVE <= RootPosition(cs)[k] <= 70
  {
    OffsetsBelow12(cs.quality);
  }

  lemma OffsetsBelow12(quality: string)
    ensures |Offsets(quality)| >= 3
    ensures forall k :: 0 <= k < |Offsets(quality)| ==> Offsets(quality)[k] < 12
  {
  }

  lemma {:induction false} CollectEvery(cs: ChordSpec, velocity: Byte, notes: seq<int>)
    requires forall k :: 0 <= k < |notes| ==> 0 <= notes[k] <= 127
    ensures var events := Collect(InRange(), ToEvent(cs, velocity), notes);
            |events| == |notes| && forall k :: 0 <= k < |notes| ==> events[k] == NoteEvent(cs, notes[k], velocity)
  {
    if notes != [] {
      CollectEvery(cs, velocity, notes[..|notes| - 1]);
    }
  }

  function Classes(notes: seq<int>): set<int> {
    set k | 0 <= k < |notes| :: notes[k] % 12
  }

  lemma ClassesConcat(a: seq<int>, b: seq<int>)
    ensures Classes(a + b) == Classes(a) + Classes(b)
  {
    forall pc: int ensures pc in Classes(a + b) <==> pc in Classes(a) || pc in Classes(b) {
      if pc in Classes(a) {
        var k :| 0 <= k < |a| && a[k] % 12 == pc;
        assert (a + b)[k] % 12 == pc;
      }
      if pc in Classes(b) {
        var k :| 0 <= k < |b| && b[k] % 12 == pc;
        assert (a + b)[|a| + k] % 12 == pc;
      }
    }
  }

  lemma SameClasses(a: seq<int>, b: seq<int>)
    requires |a| == |b| && forall k :: 0 <= k < |a| ==> a[k] % 12 == b[k] % 12
    ensures Classes(a) == Classes(b)
  {
    forall pc: int ensures pc in Classes(a) <==> pc in Classes(b) {
      if pc in Classes(a) {
        var k :| 0 <= k < |a| && a[k] % 12 == pc;
        assert b[k] % 12 == pc;
      }
      if pc in Classes(b) {
        var k :| 0 <= k < |b| && b[k] % 12 == pc;
        assert a[k] % 12 == pc;
      }
    }
  }

  /** An inversion moves tones by octaves only. */
  lemma InvertedClasses(notes: seq<int>, inv: nat)
    requires inv <= |notes|
    ensures Classes(Inverted(notes, inv)) == Classes(notes)
  {
    hide Classes;
    var low, high := notes[..inv], notes[inv..];
    var dropped := seq(inv, (k: nat) requires k < inv => notes[k] - 12);
    SameClasses(dropped, low);
    ClassesConcat(high, dropped);
    ClassesConcat(low, high);
    assert notes == low + high;
  }

  lemma RootClasses(cs: ChordSpec)
    ensures forall pc: nat :: pc in Classes(RootPosition(cs)) <==> pc in ChordTones(cs.rootPc % 12, Offsets(cs.quality))
  {
    hide Offsets;
    var root, offsets, r := RootPosition(cs), Offsets(cs.quality), cs.rootPc % 12;
    forall k | 0 <= k < |root| ensures root[k] % 12 == (r + offsets[k]) % 12 {
      assert root[k] == BASE_OCTAVE + r + offsets[k];
    }
    forall pc: nat ensures pc in Classes(root) <==> pc in ChordTones(r, offsets) {
      if pc in Classes(root) {
        var k :| 0 <= k < |root| && root[k] % 12 == pc;
        assert (r + offsets[k]) % 12 == pc;
      }
      if pc in ChordTones(r, offsets) {
        var k :| 0 <= k < |offsets| && (r + offsets[k]) % 12 == pc;
        assert root[k] % 12 == pc;
      }
    }
  }

  lemma EventClasses(events: seq<MidiEvent>, notes: seq<int>)
    requires |events| == |notes| && forall k :: 0 <= k < |notes| ==> events[k].note == notes[k]
    ensures forall pc: nat :: pc in PitchClasses(Notes(events)) <==> pc in Classes(notes)
  {
    forall pc: nat ensures pc in PitchClasses(Notes(events)) <==> pc in Classes(notes) {
      if pc in PitchClasses(Notes(events)) {
        var k :| 0 <= k < |Notes(events)| && Notes(events)[k] % 12 == pc;
        assert notes[k] % 12 == pc;
      }
      if pc in Classes(notes) {
        var k :| 0 <= k < |notes| && notes[k] % 12 == pc;
        assert Notes(events)[k] % 12 == pc;
      }
    }
  }

  /** Whatever inversion is drawn, the pitch classes of a voiced chord are those of the chord. */
  lemma VoicedClasses(cs: ChordSpec, inv: nat, velocity: Byte)
    ensures |ChordEvents(cs, inv, velocity)| >= 3
    ensures PitchClasses(Notes(ChordEvents(cs, inv, velocity))) == ChordTones(cs.rootPc % 12, Offsets(cs.quality))
    ensures forall k :: 0 <= k < |ChordEvents(cs, inv, velocity)| ==>
      ChordEvents(cs, inv, velocity)[k].tickOn == cs.startTick
  {
    hide Offsets, Collect, Inverted, RootPosition, Classes, PitchClasses, ChordTones, Notes;
    var root := RootPosition(cs);
    OffsetsBelow12(cs.quality);
    NotesInRange(cs);
    var pivot := inv % |root|;
    var notes := Inverted(root, pivot);
    InvertedRange(root, pivot);
    InvertedClasses(root, pivot);
    CollectEvery(cs, velocity, notes);
    EventClasses(ChordEvents(cs, inv, velocity), notes);
    RootClasses(cs);
  }

  lemma InvertedRange(notes: seq<int>, inv: nat)
    requires inv <= |notes| && (forall k :: 0 <= k < |notes| ==> 12 <= notes[k] <= 127)
    ensures forall k :: 0 <= k < |notes| ==> 0 <= Inverted(notes, inv)[k] <= 127
  {
  }

  /** The symbol read from a voiced chord is the one that was written, just for the detectable qualities. */
  lemma SymbolRecovered(cs: ChordSpec, inv: nat, velocity: Byte)
    ensures Symbol(Detect(PitchClasses(Notes(ChordEvents(cs, inv, velocity))))) == (cs.rootPc, cs.quality)
       <==> 0 <= cs.rootPc < 12 && Detectable(cs.quality)
  {
    hide ChordEvents, Detect, PitchClasses, ChordTones, Offsets, Detectable;
    VoicedClasses(cs, inv, velocity);
    var pcs := PitchClasses(Notes(ChordEvents(cs, inv, velocity)));
    ClassesBelow12(Notes(ChordEvents(cs, inv, velocity)));
    DetectsDetectable(pcs);
    MajorDetectable();
    if 0 <= cs.rootPc < 12 && Detectable(cs.quality) {
      DetectsOwnChord(cs.rootPc, cs.quality);
    }
  }

  lemma MajorDetectable()
    ensures Detectable("maj")
  {
    assert TemplateAt(0).name == "maj";
  }

  lemma ClassesBelow12(notes: seq<nat>)
    ensures forall pc :: pc in PitchClasses(notes) ==> pc < 12
  {
  }

  // ----- all chords come back

  lemma {:induction false} GroupUniform(events: seq<MidiEvent>, start: nat, t: nat)
    requires forall k :: 0 <= k < |events| ==> events[k].tickOn == start
    ensures Group(events, t) == if t == start then events else []
  {
    if events != [] {
      var n := |events| - 1;
      GroupUniform(events[..n], start, t);
      assert events == events[..n] + [events[n]];
    }
  }

  function Starts(chords: seq<ChordSpec>): (ticks: seq<nat>)
    ensures |ticks| == |chords|
    ensures forall i :: 0 <= i < |chords| ==> ticks[i] == chords[i].startTick
  {
    if chords == [] then [] else Starts(chords[..|chords| - 1]) + [chords[|chords| - 1].startTick]
  }

  /** The events of chord `i` in a voiced progression. */
  ghost function EventsOf(chords: seq<ChordSpec>, rng: nat -> nat, i: nat): seq<MidiEvent>
    requires i < |chords|
  {
    ChordEvents(chords[i], rng(2 * i) % 3, 50 + rng(2 * i + 1) % 51)
  }

  lemma EventsOfBasics(chords: seq<ChordSpec>, rng: nat -> nat, i: nat)
    requires i < |chords|
    ensures |EventsOf(chords, rng, i)| >= 3
    ensures forall k :: 0 <= k < |EventsOf(chords, rng, i)| ==> EventsOf(chords, rng, i)[k].tickOn == chords[i].startTick
  {
    hide ChordEvents, PitchClasses, ChordTones, Offsets, Notes;
    VoicedClasses(chords[i], rng(2 * i) % 3, 50 + rng(2 * i + 1) % 51);
  }

  lemma VoicedStep(chords: seq<ChordSpec>, n: nat, rng: nat -> nat)
    requires 0 < n <= |chords|
    ensures Voiced(chords, n, rng) == Voiced(chords, n - 1, rng) + EventsOf(chords, rng, n - 1)
  {
    hide ChordEvents;
    assert 2 * n - 2 == 2 * (n - 1) && 2 * n - 1 == 2 * (n - 1) + 1;
  }

  lemma GroupVoicedStep(chords: seq<ChordSpec>, n: nat, rng: nat -> nat, t: nat)
    requires 0 < n <= |chords|
    ensures Group(Voiced(chords, n, rng), t)
         == Group(Voiced(chords, n - 1, rng), t) + if chords[n - 1].startTick == t then EventsOf(chords, rng, n - 1) else []
  {
    hide EventsOf, Group, Voiced;
    var last := EventsOf(chords, rng, n - 1);
    VoicedStep(chords, n, rng);
    EventsOfBasics(chords, rng, n - 1);
    GroupUniform(last, chords[n - 1].startTick, t);
    GroupConcat(Voiced(chords, n - 1, rng), last, t);
  }

  lemma {:induction false} GroupNowhere(chords: seq<ChordSpec>, n: nat, rng: nat -> nat, t: nat)
    requires n <= |chords| && forall i :: 0 <= i < n ==> chords[i].startTick != t
    ensures Group(Voiced(chords, n, rng), t) == []
  {
    hide EventsOf, Group, ChordEvents;
    if n == 0 {
      NoOnsets();
    } else {
      GroupVoicedStep(chords, n, rng, t);
      GroupNowhere(chords, n - 1, rng, t);
    }
  }

  /** Grouping a voiced progression by onset separates its chords again. */
  lemma {:induction false} GroupVoiced(chords: seq<ChordSpec>, n: nat, rng: nat -> nat, i: nat)
    requires i < n <= |chords| && Increasing(Starts(chords))
    ensures Group(Voiced(chords, n, rng), chords[i].startTick) == EventsOf(chords, rng, i)
  {
    hide EventsOf, Group, Voiced, Starts;
    var t := chords[i].startTick;
    GroupVoicedStep(chords, n, rng, t);
    forall k | 0 <= k < |chords| && k != i ensures chords[k].startTick != t {
      assert Starts(chords)[if k < i then k else i] < Starts(chords)[if k < i then i else k];
    }
    if i == n - 1 {
      GroupNowhere(chords, n - 1, rng, t);
    } else {
      GroupVoiced(chords, n - 1, rng, i);
    }
  }

  lemma GroupConcat(a: seq<MidiEvent>, b: seq<MidiEvent>, t: nat)
    ensures Group(a + b, t) == Group(a, t) + Group(b, t)
  {
    CollectConcat(At(t), Same(), a, b);
  }

  lemma OnsetIsStart(chords: seq<ChordSpec>, rng: nat -> nat, t: nat)
    requires Increasing(Starts(chords))
    ensures Group(Voiced(chords, |chords|, rng), t) != [] <==> t in Starts(chords)
  {
    hide Increasing, Group, EventsOf, Starts, Voiced;
    if t in Starts(chords) {
      var i :| 0 <= i < |chords| && Starts(chords)[i] == t;
      GroupVoiced(chords, |chords|, rng, i);
      EventsOfBasics(chords, rng, i);
    } else {
      forall i | 0 <= i < |chords| ensures chords[i].startTick != t {
        assert Starts(chords)[i] in Starts(chords);
      }
      GroupNowhere(chords, |chords|, rng, t);
    }
  }

  lemma OnsetsAreStarts(chords: seq<ChordSpec>, rng: nat -> nat, ticks: seq<nat>)
    requires Increasing(Starts(chords)) && IsOnsets(ticks, Voiced(chords, |chords|, rng))
    ensures ticks == Starts(chords)
  {
    hide Increasing, Group, Voiced, Starts;
    forall t: nat ensures t in ticks <==> t in Starts(chords) {
      OnsetIsStart(chords, rng, t);
    }
    IncreasingUnique(ticks, Starts(chords));
  }

  /** Chords follow one another without gaps, the last one lasts a bar, all on channel 0. */
  ghost predicate Spaced(chords: seq<ChordSpec>) {
    && Increasing(Starts(chords))
    && forall i :: 0 <= i < |chords| ==>
      && chords[i].channel == 0
      && chords[i].durationTicks == if i + 1 < |chords| then (chords[i + 1].startTick - chords[i].startTick) % 0x1_0000_0000 else TICKS_PER_BAR
  }

  lemma SpacedStarts(chords: seq<ChordSpec>)
    requires Spaced(chords)
    ensures Increasing(Starts(chords))
  {
  }

  predicate Readable(cs: ChordSpec) {
    0 <= cs.rootPc < 12 && Detectable(cs.quality)
  }

  lemma RecoveredAt(chords: seq<ChordSpec>, rng: nat -> nat, i: nat)
    requires Spaced(chords) && i < |chords|
    requires forall k :: 0 <= k < |Starts(chords)| ==> Starts(chords)[k] < 0x1_0000_0000
    ensures Recovered(Voiced(chords, |chords|, rng), Starts(chords), i) == chords[i] <==> Readable(chords[i])
  {
    hide ChordEvents, Group, Detect, PitchClasses, Notes, Readable, Detectable, Starts, Voiced, Increasing;
    GroupVoiced(chords, |chords|, rng, i);
    SymbolRecovered(chords[i], rng(2 * i) % 3, 50 + rng(2 * i + 1) % 51);
    assert Starts(chords)[i] == chords[i].startTick;
    assert i + 1 < |chords| ==> Starts(chords)[i + 1] == chords[i + 1].startTick;
    var symbol := Symbol(Detect(PitchClasses(Notes(EventsOf(chords, rng, i)))));
    assert Recovered(Voiced(chords, |chords|, rng), Starts(chords), i)
        == ChordSpec(chords[i].startTick, chords[i].durationTicks, symbol.0, symbol.1, 0);
    assert Readable(chords[i]) <==> 0 <= chords[i].rootPc < 12 && Detectable(chords[i].quality) by { ReadableIs(chords[i]); }
  }

  lemma ReadableIs(cs: ChordSpec)
    ensures Readable(cs) <==> 0 <= cs.rootPc < 12 && Detectable(cs.quality)
  {
  }

  lemma {:induction false} RecoveredElements(events: seq<MidiEvent>, ticks: seq<nat>, n: nat)
    requires n <= |ticks| && (forall k :: 0 <= k < |ticks| ==> ticks[k] < 0x1_0000_0000)
    ensures |RecoveredSpecs(events, ticks, n)| == n
    ensures forall i :: 0 <= i < n ==> RecoveredSpecs(events, ticks, n)[i] == Recovered(events, ticks, i)
  {
    hide Recovered;
    if n > 0 {
      RecoveredElements(events, ticks, n - 1);
    }
  }

  /**
   Voicing a spaced progression with any random inversions and velocities, grouping by
   onset and detecting gives the progression back, if and only if every chord has a
   root in 0..11 and one of the five qualities the detector knows.
   */
  lemma {:induction false} ProgressionRoundTrip(chords: seq<ChordSpec>, rng: nat -> nat, ticks: seq<nat>)
    requires Spaced(chords) && IsOnsets(ticks, Voiced(chords, |chords|, rng))
    requires forall k :: 0 <= k < |ticks| ==> ticks[k] < 0x1_0000_0000
    ensures RecoveredSpecs(Voiced(chords, |chords|, rng), ticks, |ticks|) == chords
       <==> forall i :: 0 <= i < |chords| ==> Readable(chords[i])
  {
    hide Recovered, Readable, Voiced, IsOnsets, Starts, Spaced, RecoveredSpecs;
    SpacedStarts(chords);
    OnsetsAreStarts(chords, rng, ticks);
    var events := Voiced(chords, |chords|, rng);
    RecoveredElements(events, ticks, |ticks|);
    forall i | 0 <= i < |chords| ensures Recovered(events, ticks, i) == chords[i] <==> Readable(chords[i]) {
      RecoveredAt(chords, rng, i);
    }
    var specs := RecoveredSpecs(events, ticks, |ticks|);
    if specs == chords {
      forall i | 0 <= i < |chords| ensures Readable(chords[i]) {
        assert specs[i] == chords[i];
      }
    }
  }

  // ----- the harmony engine

  /** The number of bars whose onsets fit 32 bits. */
  const MAX_BARS := 2_236_963

  /** One bar of the II-V-I-I pattern; onsets are 32-bit. */
  function Bar(bar: nat): ChordSpec {
    var slot := bar % 4;
    var pc, quality := if slot == 0 then 2 else if slot == 1 then 7 else 0, if slot == 0 then "m7" else if slot == 1 then "7" else "maj7";
    ChordSpec(bar * 1920 % 0x1_0000_0000, TICKS_PER_BAR, pc, quality, 0)
  }

  function Harmony(bars: nat): (specs: seq<ChordSpec>)
    ensures |specs| == bars && forall i :: 0 <= i < bars ==> specs[i] == Bar(i)
  {
    if bars == 0 then [] else Harmony(bars - 1) + [Bar(bars - 1)]
  }

  /** The bar loop of `HarmonyEngine::generate`; fewer than one bar gives nothing. */
  method HarmonySpecs(bars: int) returns (specs: seq<ChordSpec>)
    ensures bars < 1 ==> specs == []
    ensures bars >= 1 ==> specs == Harmony(bars)
  {
    specs := [];
    if bars < 1 {
      return;
    }
    for bar := 0 to bars
      invariant specs == Harmony(bar)
    {
      specs := specs + [Bar(bar)];
    }
  }

  lemma BarIs(bar: nat)
    ensures Bar(bar).startTick == bar * 1920 % 0x1_0000_0000 && Bar(bar).durationTicks == 1920 && Bar(bar).channel == 0
    ensures Readable(Bar(bar))
  {
    assert TemplateAt(2).name == "7" && TemplateAt(3).name == "m7" && TemplateAt(4).name == "maj7";
  }

  lemma HarmonyIsSpaced(bars: nat)
    requires bars <= MAX_BARS
    ensures Spaced(Harmony(bars))
  {
    hide Starts, Harmony, Bar;
    var specs := Harmony(bars);
    forall i | 0 <= i < bars ensures specs[i].startTick == i * 1920 && specs[i].durationTicks == 1920 && specs[i].channel == 0 {
      BarIs(i);
    }
    forall i | 0 <= i && i + 1 < bars ensures (specs[i + 1].startTick - specs[i].startTick) % 0x1_0000_0000 == 1920 {
      assert specs[i + 1].startTick == specs[i].startTick + 1920;
    }
  }

  /** Onsets that wrap are out of order, and specs read from an ordered map never are. */
  lemma WrappedHarmonyLost(bars: nat, events: seq<MidiEvent>, ticks: seq<nat>)
    requires bars > MAX_BARS && Increasing(ticks) && (forall k :: 0 <= k < |ticks| ==> ticks[k] < 0x1_0000_0000)
    ensures RecoveredSpecs(events, ticks, |ticks|) != Harmony(bars)
  {
    hide RecoveredSpecs, Harmony, Bar;
    RecoveredElements(events, ticks, |ticks|);
    BarIs(MAX_BARS - 1);
    BarIs(MAX_BARS);
    assert Harmony(bars)[MAX_BARS - 1].startTick > Harmony(bars)[MAX_BARS].startTick;
    if |ticks| > MAX_BARS {
      var specs := RecoveredSpecs(events, ticks, |ticks|);
      assert specs[MAX_BARS - 1].startTick < specs[MAX_BARS].startTick;
    }
  }

  /** The command line recovers exactly the specs the engine built, if and only if their onsets fit 32 bits. */
  lemma HarmonyRecovered(bars: nat, rng: nat -> nat, ticks: seq<nat>)
    requires IsOnsets(ticks, Voiced(Harmony(bars), bars, rng)) && (forall k :: 0 <= k < |ticks| ==> ticks[k] < 0x1_0000_0000)
    ensures RecoveredSpecs(Voiced(Harmony(bars), bars, rng), ticks, |ticks|) == Harmony(bars) <==> bars <= MAX_BARS
  {
    hide Group, RecoveredSpecs, Voiced, Spaced, Harmony, Bar, Readable, Increasing;
    if bars <= MAX_BARS {
      HarmonyIsSpaced(bars);
      forall i | 0 <= i < bars ensures Readable(Harmony(bars)[i]) {
        BarIs(i);
      }
      ProgressionRoundTrip(Harmony(bars), rng, ticks);
    } else {
      WrappedHarmonyLost(bars, Voiced(Harmony(bars), bars, rng), ticks);
    }
  }
}
