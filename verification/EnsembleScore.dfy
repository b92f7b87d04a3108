/**
 What the tracks of an orchestrated ensemble satisfy, for every progression, number of
 bars and stream of random numbers.
 */
module EnsembleScore {
  import opened Arithmetic
  import opened Bytes
  import opened SmfTrack
  import opened Permutations
  import opened NoteBalance
  import opened Register
  import opened ChordSymbols
  import opened Ensemble
  import opened HarmonyPool
  import opened Orchestration
  import opened Orchestrator

  // ----- events in their place

  /** A keyboard range, of at least 11 semitones for a bass. */
  predicate Fits(inst: Instrument) {
    0 <= inst.minNote <= inst.maxNote <= 127 && (inst.role.Bass? ==> inst.maxNote - inst.minNote >= 11)
  }

  predicate Sounding(e: MidiEvent) {
    1 <= e.velocity <= 127 && e.tickOn < e.tickOff
  }

  predicate Placed(inst: Instrument, e: MidiEvent, strict: bool) {
    && e.channel == inst.channel % 0x100
    && (Fits(inst) ==> inst.minNote <= e.note <= inst.maxNote)
    && (strict ==> Sounding(e))
  }

  ghost predicate From(insts: seq<Instrument>, e: Emit, strict: bool) {
    exists inst :: inst in insts && inst.name == e.name && Placed(inst, e.event, strict)
  }

  ghost predicate Covered(log: seq<Emit>, insts: seq<Instrument>, strict: bool) {
    forall k :: 0 <= k < |log| ==> From(insts, log[k], strict)
  }

  lemma CoveredConcat(a: seq<Emit>, b: seq<Emit>, insts: seq<Instrument>, strict: bool)
    requires Covered(a, insts, strict) && Covered(b, insts, strict)
    ensures Covered(a + b, insts, strict)
  {
    hide From;
  }

  // ----- one instrument in one bar

  predicate Suits(task: Task, inst: Instrument) {
    && (task.BassLine? ==> inst.role.Bass?)
    && (task.Chordal? ==> 11 <= task.base)
    && (task.Stab? ==> task.lift <= 72)
  }

  lemma {:induction false} ToneCuesFit(inst: Instrument, chord: Chord, pattern: seq<(nat, nat)>, length: nat)
    requires 0 < length && forall k :: 0 <= k < |pattern| ==> pattern[k].0 + length <= BAR
    ensures forall k :: 0 <= k < |ToneCues(inst, chord, pattern, length)| ==>
      var cue := ToneCues(inst, chord, pattern, length)[k];
      cue.at < cue.until <= BAR && inst.minNote <= cue.note <= inst.maxNote
  {
    if pattern != [] {
      ToneCuesFit(inst, chord, pattern[..|pattern| - 1], length);
    }
  }

  ghost predicate CuesFit(inst: Instrument, cues: seq<Cue>) {
    forall k :: 0 <= k < |cues| ==>
      cues[k].at < cues[k].until <= BAR && (Fits(inst) ==> inst.minNote <= cues[k].note <= inst.maxNote)
  }

  lemma CuesFitAll(task: Task, insts: seq<Instrument>, i: nat, chord: Chord)
    requires i < |insts| && Suits(task, insts[i])
    ensures CuesFit(insts[i], Cues(task, insts, i, chord))
    ensures task.BassLine? ==> |Cues(task, insts, i, chord)| <= 2
  {
    hide ToneCues, PlacedMelody, Picked, BassRoot, BassFifth, OffsetsFor, Pool, PoolBefore, Quotient, Middle;
    var inst, offsets := insts[i], OffsetsFor(chord.quality);
    var (lo, hi) := (inst.minNote, inst.maxNote);
    match task
    case RootMelody =>
      if Fits(inst) {
        PlacedInRange(Quotient(Middle(lo, hi), 12) * 12 + chord.rootPc, lo, hi);
      }
    case Counter => ToneCuesFit(inst, chord, CounterPattern(offsets), BEAT - 10);
    case Chordal(_) =>
      if Fits(inst) {
        PickedInRange(PoolBefore(Pool(chord, insts), insts, i), lo, hi, i);
      }
    case BassLine =>
      if Fits(inst) {
        BassPlaced(chord.rootPc, lo, hi);
      }
    case Sustained => ToneCuesFit(inst, chord, ChordAt(0, offsets), BAR - 20);
    case Stab(_) => ToneCuesFit(inst, chord, StabPattern(offsets), BEAT / 2 - 5);
  }

  lemma VelocityAudible(task: Task, inst: Instrument, rng: nat -> nat, c: nat, k: nat)
    requires Suits(task, inst) && (task.BassLine? ==> k < 2)
    ensures 1 <= Velocity(task, rng, c, k) <= 127
  {
  }

  lemma PlayedPlaced(inst: Instrument, cue: Cue, start: Word32, velocity: int, strict: bool)
    requires cue.at < cue.until <= BAR && (Fits(inst) ==> inst.minNote <= cue.note <= inst.maxNote)
    requires 1 <= velocity <= 127 && (strict ==> start + BAR < 0x1_0000_0000)
    ensures Played(inst, cue, start, velocity).name == inst.name
    ensures Placed(inst, Played(inst, cue, start, velocity).event, strict)
  {
  }

  lemma {:induction false} CuedCovered(task: Task, inst: Instrument, cues: seq<Cue>, start: Word32, rng: nat -> nat, c: nat,
                                       insts: seq<Instrument>, strict: bool)
    requires Suits(task, inst) && CuesFit(inst, cues) && (task.BassLine? ==> |cues| <= 2)
    requires inst in insts && (strict ==> start + BAR < 0x1_0000_0000)
    ensures Covered(Cued(task, inst, cues, start, rng, c), insts, strict)
  {
    hide Played, Velocity, Suits, Placed, Fits;
    if cues != [] {
      var k := |cues| - 1;
      CuedCovered(task, inst, cues[..k], start, rng, c, insts, strict);
      VelocityAudible(task, inst, rng, c, k);
      PlayedPlaced(inst, cues[k], start, Velocity(task, rng, c, k), strict);
    }
  }

  // ----- groups, bars and scores

  lemma {:induction false} GroupCovered(task: Task, group: seq<Instrument>, n: nat, chord: Chord, start: Word32, rng: nat -> nat, c: nat,
                                        insts: seq<Instrument>, strict: bool)
    requires n <= |group| && forall i :: 0 <= i < |group| ==> group[i] in insts && Suits(task, group[i])
    requires strict ==> start + BAR < 0x1_0000_0000
    ensures Covered(GroupLog(task, group, n, chord, start, rng, c), insts, strict)
  {
    hide Covered, Cued, Cues, Suits, CuesFit, GroupDraws;
    if n == 0 {
      NothingCovered(insts, strict);
    } else {
      GroupCovered(task, group, n - 1, chord, start, rng, c, insts, strict);
      CuesFitAll(task, group, n - 1, chord);
      CuedCovered(task, group[n - 1], Cues(task, group, n - 1, chord), start, rng, c + GroupDraws(task, group, n - 1, chord), insts, strict);
      CoveredConcat(GroupLog(task, group, n - 1, chord, start, rng, c), Part(task, group, n - 1, chord, start, rng, c), insts, strict);
    }
  }

  lemma NothingCovered(insts: seq<Instrument>, strict: bool)
    ensures Covered([], insts, strict)
  {
  }

  ghost predicate SoundPlan(plan: seq<Assignment>, insts: seq<Instrument>) {
    forall m, i :: 0 <= m < |plan| && 0 <= i < |plan[m].insts| ==> plan[m].insts[i] in insts && Suits(plan[m].task, plan[m].insts[i])
  }

  lemma {:induction false} BarCovered(plan: seq<Assignment>, m: nat, chord: Chord, start: Word32, rng: nat -> nat, c: nat,
                                      insts: seq<Instrument>, strict: bool)
    requires m <= |plan| && SoundPlan(plan, insts) && (strict ==> start + BAR < 0x1_0000_0000)
    ensures Covered(BarLog(plan, m, chord, start, rng, c), insts, strict)
  {
    hide Covered, GroupLog, GroupDraws, Suits;
    if m == 0 {
      NothingCovered(insts, strict);
    } else {
      var a := plan[m - 1];
      BarCovered(plan, m - 1, chord, start, rng, c, insts, strict);
      GroupCovered(a.task, a.insts, |a.insts|, chord, start, rng, c + BarDraws(plan, m - 1, chord), insts, strict);
      CoveredConcat(BarLog(plan, m - 1, chord, start, rng, c),
                    GroupLog(a.task, a.insts, |a.insts|, chord, start, rng, c + BarDraws(plan, m - 1, chord)), insts, strict);
    }
  }

  /** The bars whose ticks fit 32 bits. */
  predicate Timely(bars: nat) {
    bars * BAR < 0x1_0000_0000
  }

  lemma {:induction false} ScoreCovered(plan: seq<Assignment>, progression: seq<string>, bars: nat, rng: nat -> nat, c: nat,
                                        insts: seq<Instrument>, strict: bool)
    requires progression != [] && SoundPlan(plan, insts) && (strict ==> Timely(bars))
    ensures Covered(ScoreLog(plan, progression, bars, rng, c), insts, strict)
  {
    hide Covered, BarLog, BarDraws, SoundPlan, ChordOf;
    if bars == 0 {
      NothingCovered(insts, strict);
    } else {
      ScoreCovered(plan, progression, bars - 1, rng, c, insts, strict);
      var drawn := c + ScoreDraws(plan, progression, bars - 1);
      BarCovered(plan, |plan|, ChordOf(progression, bars - 1), BarStart(bars - 1), rng, drawn, insts, strict);
      CoveredConcat(ScoreLog(plan, progression, bars - 1, rng, c),
                    BarLog(plan, |plan|, ChordOf(progression, bars - 1), BarStart(bars - 1), rng, drawn), insts, strict);
    }
  }

  lemma RolesKept(insts: seq<Instrument>, role: Role)
    ensures forall i :: 0 <= i < |OfRole(insts, role)| ==> OfRole(insts, role)[i] in insts && OfRole(insts, role)[i].role == role
  {
    hide OfRole;
    forall i | 0 <= i < |OfRole(insts, role)| ensures OfRole(insts, role)[i] in insts && OfRole(insts, role)[i].role == role {
      OfRoleAt(insts, role, i);
    }
  }

  lemma ChordsPlanSound(insts: seq<Instrument>)
    ensures SoundPlan(ChordsPlan(insts), insts)
  {
    hide OfRole;
    RolesKept(insts, Melody);
    RolesKept(insts, Countermelody);
    RolesKept(insts, Harmony);
    RolesKept(insts, Bass);
    RolesKept(insts, Pad);
    RolesKept(insts, Rhythm);
    RolesKept(insts, Fill);
  }

  // ----- from the log to the tracks

  ghost function Named(name: string): Emit -> bool {
    (e: Emit) => e.name == name
  }

  ghost function EventOf(): Emit -> MidiEvent {
    (e: Emit) => e.event
  }

  /** The events of one name, in order. */
  ghost function Selected(log: seq<Emit>, name: string): seq<MidiEvent> {
    Collect(Named(name), EventOf(), log)
  }

  lemma {:induction false} TrackIsSelection(out: Tracks, log: seq<Emit>, name: string)
    ensures TrackOf(Pushed(out, log), name) == TrackOf(out, name) + Selected(log, name)
  {
    if log != [] {
      TrackIsSelection(out, log[..|log| - 1], name);
    }
  }

  lemma {:induction false} SelectedPlaced(log: seq<Emit>, insts: seq<Instrument>, strict: bool, inst: Instrument)
    requires Covered(log, insts, strict) && inst in insts && DistinctNames(insts)
    ensures forall k :: 0 <= k < |Selected(log, inst.name)| ==> Placed(inst, Selected(log, inst.name)[k], strict)
  {
    hide Placed;
    if log != [] {
      var last := log[|log| - 1];
      SelectedPlaced(log[..|log| - 1], insts, strict, inst);
      if last.name == inst.name {
        assert From(insts, last, strict);
        var x :| x in insts && x.name == last.name && Placed(x, last.event, strict);
        SameName(insts, x, inst);
        assert Selected(log, inst.name) == Selected(log[..|log| - 1], inst.name) + [last.event];
      } else {
        assert Selected(log, inst.name) == Selected(log[..|log| - 1], inst.name);
      }
    }
  }

  lemma SameName(insts: seq<Instrument>, x: Instrument, y: Instrument)
    requires DistinctNames(insts) && x in insts && y in insts && x.name == y.name
    ensures x == y
  {
    var i :| 0 <= i < |insts| && insts[i] == x;
    var j :| 0 <= j < |insts| && insts[j] == y;
    assert !(i < j) && !(j < i);
  }

  ghost predicate AllPlaced(inst: Instrument, track: seq<MidiEvent>, strict: bool) {
    forall k :: 0 <= k < |track| ==> Placed(inst, track[k], strict)
  }

  lemma ListedPlaced(ensemble: seq<Section>, log: seq<Emit>, inst: Instrument, track: seq<MidiEvent>, strict: bool)
    requires DistinctNames(Instruments(ensemble)) && inst in Instruments(ensemble)
    requires Covered(log, Flattened(ensemble), strict)
    requires (inst.name, track) in Listed(Flattened(ensemble), Pushed(map[], log))
    ensures track == Selected(log, inst.name) && AllPlaced(inst, track, strict)
  {
    hide Flattened, Listed, Pushed, Selected, Covered, Placed, DistinctNames;
    var insts := Flattened(ensemble);
    FlattenedIs(ensemble);
    ListedTracks(insts, Pushed(map[], log));
    var entry := (inst.name, track);
    assert entry.1 == TrackOf(Pushed(map[], log), entry.0);
    TrackIsSelection(map[], log, inst.name);
    assert TrackOf(map[], inst.name) == [];
    assert track == Selected(log, inst.name);
    SelectedPlaced(log, insts, strict, inst);
  }

  /**
   Every track of `orchestrate_chords` is in the range and on the channel of its instrument, for
   every progression, number of bars and seed; while ticks fit 32 bits it also sounds and lasts.
   */
  lemma ChordsInRange(progression: seq<string>, ensemble: seq<Section>, bars: int, rng: nat -> nat, inst: Instrument, track: seq<MidiEvent>)
    requires DistinctNames(Instruments(ensemble)) && inst in Instruments(ensemble)
    requires (inst.name, track) in OrchestratedChords(progression, ensemble, bars, rng)
    ensures AllPlaced(inst, track, Timely(bars))
  {
    hide Flattened, Listed, Pushed, ScoreLog, Placed, DistinctNames, AllPlaced, ChordsPlan;
    var insts := Flattened(ensemble);
    ChordsPlanSound(insts);
    var c := if OfRole(insts, Melody) == [] then 0 else |progression|;
    ScoreCovered(ChordsPlan(insts), progression, bars, rng, c, insts, Timely(bars));
    ListedPlaced(ensemble, ChordsLog(insts, progression, bars, rng), inst, track, Timely(bars));
  }

  /** However an orchestrated track is sorted and rendered, no key is released more often than it was pressed. */
  lemma ChordsStreamBalanced(progression: seq<string>, ensemble: seq<Section>, bars: nat, rng: nat -> nat, inst: Instrument, track: seq<MidiEvent>,
                             sorted: seq<WireEvent>, channel: nat, pitch: nat)
    requires DistinctNames(Instruments(ensemble)) && inst in Instruments(ensemble) && Timely(bars)
    requires (inst.name, track) in OrchestratedChords(progression, ensemble, bars, rng)
    requires IsSortOf(WireEvents(track), sorted) && channel < 16
    ensures forall k :: 0 <= k <= |sorted| ==>
      Count(Offs(channel, pitch), sorted[..k]) <= Count(Ons(channel, pitch), sorted[..k])
    ensures Count(Offs(channel, pitch), sorted) == Count(Ons(channel, pitch), sorted)
  {
    hide OrchestratedChords, Count, DistinctNames;
    ChordsInRange(progression, ensemble, bars, rng, inst, track);
    StreamBalanced(track, sorted, channel, pitch);
  }

  // ----- the exact width of a bass

  ghost predicate InItsRange(inst: Instrument, track: seq<MidiEvent>) {
    forall k :: 0 <= k < |track| ==> inst.minNote <= track[k].note <= inst.maxNote
  }

  ghost predicate StaysInRange(ensemble: seq<Section>) {
    forall progression, bars, rng, inst: Instrument, track ::
      inst in Instruments(ensemble) && (inst.name, track) in OrchestratedChords(progression, ensemble, bars, rng)
      ==> InItsRange(inst, track)
  }

  lemma {:induction false} GroupHas(task: Task, group: seq<Instrument>, i: nat, n: nat, chord: Chord, start: Word32, rng: nat -> nat, c: nat, e: Emit)
    requires i < n <= |group| && e in Part(task, group, i, chord, start, rng, c)
    ensures e in GroupLog(task, group, n, chord, start, rng, c)
  {
    hide Part;
    if i < n - 1 {
      GroupHas(task, group, i, n - 1, chord, start, rng, c, e);
    }
  }

  /** A chord on the seventh above the lowest note of an instrument, which a narrow bass cannot reach. */
  function Unreachable(inst: Instrument): seq<string>
    requires inst.minNote >= 0
  {
    [SymbolOf((inst.minNote + 11) % 12)]
  }

  /** A narrow bass plays the note below its range in the first bar of such a chord. */
  lemma NarrowBassEmits(plan: seq<Assignment>, m: nat, insts: seq<Instrument>, inst: Instrument, rng: nat -> nat, c: nat) returns (e: Emit)
    requires m < |plan| && plan[m] == Assignment(BassLine, OfRole(insts, Bass))
    requires inst in insts && inst.role == Bass && 0 <= inst.minNote <= inst.maxNote <= 127 && inst.maxNote - inst.minNote < 11
    ensures e.name == inst.name && !(inst.minNote <= e.event.note <= inst.maxNote)
    ensures e in ScoreLog(plan, Unreachable(inst), 1, rng, c)
  {
    hide BassRoot, BassFifth, GroupDraws, GroupLog, ParseChord, SymbolOf, OfRole, Cues;
    var pc := (inst.minNote + 11) % 12;
    var progression := Unreachable(inst);
    var chord := Chord(pc, "maj");
    SymbolRoundTrip(pc);
    assert ChordOf(progression, 0) == chord && BarStart(0) == 0;
    var group := OfRole(insts, Bass);
    OfRoleMembers(insts, Bass);
    var i :| 0 <= i < |group| && group[i] == inst;
    assert c + ScoreDraws(plan, progression, 0) == c;
    var drawn := c + BarDraws(plan, m, chord);
    e := NarrowBassPart(group, i, chord, 0, rng, drawn);
    GroupHas(BassLine, group, i, |group|, chord, 0, rng, drawn, e);
    BarHas(plan, m, |plan|, chord, 0, rng, c, e);
    assert ScoreLog(plan, progression, 0, rng, c) == [];
    assert ScoreLog(plan, progression, 1, rng, c) == [] + BarLog(plan, |plan|, chord, 0, rng, c);
  }

  lemma {:induction false} BarHas(plan: seq<Assignment>, m: nat, n: nat, chord: Chord, start: Word32, rng: nat -> nat, c: nat, e: Emit)
    requires m < n <= |plan|
    requires e in GroupLog(plan[m].task, plan[m].insts, |plan[m].insts|, chord, start, rng, c + BarDraws(plan, m, chord))
    ensures e in BarLog(plan, n, chord, start, rng, c)
  {
    hide GroupLog, BarDraws;
    if m < n - 1 {
      BarHas(plan, m, n - 1, chord, start, rng, c, e);
    }
  }

  lemma NarrowBassPart(group: seq<Instrument>, i: nat, chord: Chord, start: Word32, rng: nat -> nat, c: nat) returns (e: Emit)
    requires i < |group| && 0 <= group[i].minNote <= group[i].maxNote <= 127 && group[i].maxNote - group[i].minNote < 11
    requires chord.rootPc == (group[i].minNote + 11) % 12
    ensures e.name == group[i].name && !(group[i].minNote <= e.event.note <= group[i].maxNote)
    ensures e in Part(BassLine, group, i, chord, start, rng, c)
  {
    hide BassRoot, BassFifth, GroupDraws;
    var inst := group[i];
    BassBelow(chord.rootPc, inst.minNote, inst.maxNote);
    var root := BassRoot(chord.rootPc, inst.minNote, inst.maxNote);
    var cues := Cues(BassLine, group, i, chord);
    var drawn := c + GroupDraws(BassLine, group, i, chord);
    e := Played(inst, cues[0], start, Velocity(BassLine, rng, drawn, 0));
    assert cues[..1][..0] == [] && cues[..1][0] == cues[0];
    assert Cued(BassLine, inst, cues[..1], start, rng, drawn) == Cued(BassLine, inst, cues[..1][..0], start, rng, drawn) + [e];
  }

  lemma {:induction false} SelectedHas(log: seq<Emit>, e: Emit)
    requires e in log
    ensures e.event in Selected(log, e.name)
  {
    var n := |log| - 1;
    assert log == log[..n] + [log[n]];
    if e in log[..n] {
      SelectedHas(log[..n], e);
    }
  }

  /** Whatever is in the log is on the listed track of its instrument. */
  lemma ListedHas(ensemble: seq<Section>, log: seq<Emit>, inst: Instrument, e: Emit)
    requires inst in Instruments(ensemble) && e in log && e.name == inst.name
    ensures e.event in Selected(log, inst.name)
    ensures (inst.name, Selected(log, inst.name)) in Listed(Flattened(ensemble), Pushed(map[], log))
  {
    hide Flattened, Listed, Pushed, Selected;
    SelectedHas(log, e);
    FlattenedIs(ensemble);
    var insts := Flattened(ensemble);
    var i :| 0 <= i < |insts| && insts[i] == inst;
    TrackIsSelection(map[], log, inst.name);
    assert TrackOf(map[], inst.name) == [];
    ListedTracks(insts, Pushed(map[], log));
    var entry := (inst.name, Selected(log, inst.name));
    assert entry.1 == TrackOf(Pushed(map[], log), entry.0) != [];
  }

  /**
   With distinct names and keyboard ranges, every note of every orchestration stays in its
   instrument's range exactly when every bass spans at least 11 semitones.
   */
  lemma StaysInRangeIff(ensemble: seq<Section>)
    requires DistinctNames(Instruments(ensemble))
    requires forall inst :: inst in Instruments(ensemble) ==> 0 <= inst.minNote <= inst.maxNote <= 127
    ensures StaysInRange(ensemble) <==> forall inst :: inst in Instruments(ensemble) ==> Fits(inst)
  {
    hide DistinctNames, OrchestratedChords, Instruments;
    if forall inst :: inst in Instruments(ensemble) ==> Fits(inst) {
      forall progression, bars, rng, inst: Instrument, track
        | inst in Instruments(ensemble) && (inst.name, track) in OrchestratedChords(progression, ensemble, bars, rng)
        ensures InItsRange(inst, track)
      {
        ChordsInRange(progression, ensemble, bars, rng, inst, track);
      }
    } else {
      var inst :| inst in Instruments(ensemble) && !Fits(inst);
      NarrowBassLeaves(ensemble, inst);
    }
  }

  lemma NarrowBassLeaves(ensemble: seq<Section>, inst: Instrument)
    requires inst in Instruments(ensemble) && 0 <= inst.minNote <= inst.maxNote <= 127 && !Fits(inst)
    ensures !StaysInRange(ensemble)
  {
    hide Flattened, Listed, Pushed, Selected, ScoreLog, SymbolOf, OfRole;
    var rng: nat -> nat := (n: nat) => 0;
    var progression, insts := Unreachable(inst), Flattened(ensemble);
    FlattenedIs(ensemble);
    var log := ChordsLog(insts, progression, 1, rng);
    var e := NarrowBassEmits(ChordsPlan(insts), 3, insts, inst, rng, if OfRole(insts, Melody) == [] then 0 else |progression|);
    LogLeaves(ensemble, log, inst, e);
    assert (inst.name, Selected(log, inst.name)) in OrchestratedChords(progression, ensemble, 1, rng);
  }

  lemma LogLeaves(ensemble: seq<Section>, log: seq<Emit>, inst: Instrument, e: Emit)
    requires inst in Instruments(ensemble) && e in log && e.name == inst.name && !(inst.minNote <= e.event.note <= inst.maxNote)
    ensures (inst.name, Selected(log, inst.name)) in Listed(Flattened(ensemble), Pushed(map[], log))
    ensures !InItsRange(inst, Selected(log, inst.name))
  {
    hide Flattened, Listed, Pushed, Selected;
    ListedHas(ensemble, log, inst, e);
    var k :| 0 <= k < |Selected(log, inst.name)| && Selected(log, inst.name)[k] == e.event;
  }

  // ----- melodies

  /** Melodies on which even the softer countermelody sounds. */
  predicate Strong(melody: seq<MidiEvent>) {
    forall k :: 0 <= k < |melody| ==> melody[k].tickOn < melody[k].tickOff && 11 <= melody[k].velocity <= 127
  }

  lemma SungPlaced(voice: Voice, inst: Instrument, note: MidiEvent, strict: bool)
    requires strict ==> note.tickOn < note.tickOff && 11 <= note.velocity <= 127
    ensures Placed(inst, Sung(voice, inst, note), strict)
  {
    hide PlacedMelody;
    if Fits(inst) {
      PlacedInRange(if voice.Lead? then note.note else note.note - 3, inst.minNote, inst.maxNote);
    }
  }

  lemma {:induction false} LineCovered(voice: Voice, inst: Instrument, melody: seq<MidiEvent>, insts: seq<Instrument>, strict: bool)
    requires inst in insts && (strict ==> Strong(melody))
    ensures Covered(Line(voice, inst, melody), insts, strict)
  {
    hide Placed, Sung;
    if melody != [] {
      var n := |melody| - 1;
      LineCovered(voice, inst, melody[..n], insts, strict);
      SungPlaced(voice, inst, melody[n], strict);
    }
  }

  lemma {:induction false} LinesCovered(voice: Voice, group: seq<Instrument>, melody: seq<MidiEvent>, insts: seq<Instrument>, strict: bool)
    requires (forall i :: 0 <= i < |group| ==> group[i] in insts) && (strict ==> Strong(melody))
    ensures Covered(Lines(voice, group, melody), insts, strict)
  {
    hide Covered, Line, Strong;
    if group == [] {
      NothingCovered(insts, strict);
    } else {
      var n := |group| - 1;
      LinesCovered(voice, group[..n], melody, insts, strict);
      LineCovered(voice, group[n], melody, insts, strict);
      CoveredConcat(Lines(voice, group[..n], melody), Line(voice, group[n], melody), insts, strict);
    }
  }

  /** The instruments that accompany. */
  ghost function Backing(insts: seq<Instrument>): seq<Instrument> {
    var g := Grouped(insts);
    g.harmony + g.bass + g.pad + g.rhythm + g.fill
  }

  lemma FullPlanSound(insts: seq<Instrument>)
    ensures SoundPlan(FullPlan(insts), insts) && SoundPlan(FullPlan(insts), Backing(insts))
    ensures forall x :: x in Backing(insts) ==> x in insts && x.role != Melody && x.role != Countermelody
  {
    hide OfRole;
    RolesKept(insts, Harmony);
    RolesKept(insts, Bass);
    RolesKept(insts, Pad);
    RolesKept(insts, Rhythm);
    RolesKept(insts, Fill);
  }

  /** The same for `orchestrate_full`, where the melody must last and be strong enough for its countermelody. */
  lemma FullInRange(melody: seq<MidiEvent>, progression: seq<string>, ensemble: seq<Section>, bars: int, rng: nat -> nat,
                    inst: Instrument, track: seq<MidiEvent>)
    requires DistinctNames(Instruments(ensemble)) && inst in Instruments(ensemble)
    requires (inst.name, track) in OrchestratedFull(melody, progression, ensemble, bars, rng)
    ensures AllPlaced(inst, track, Timely(bars) && Strong(melody))
  {
    hide Flattened, Listed, Pushed, ScoreLog, Placed, DistinctNames, AllPlaced, FullPlan, Lines, Strong, Covered, SoundPlan;
    var insts, strict := Flattened(ensemble), Timely(bars) && Strong(melody);
    FullPlanSound(insts);
    RolesKept(insts, Melody);
    RolesKept(insts, Countermelody);
    var lead, third := Lines(Lead, OfRole(insts, Melody), melody), Lines(Third, OfRole(insts, Countermelody), melody);
    LinesCovered(Lead, OfRole(insts, Melody), melody, insts, strict);
    LinesCovered(Third, OfRole(insts, Countermelody), melody, insts, strict);
    ScoreCovered(FullPlan(insts), progression, bars, rng, 0, insts, strict);
    CoveredConcat(lead, third, insts, strict);
    CoveredConcat(lead + third, ScoreLog(FullPlan(insts), progression, bars, rng, 0), insts, strict);
    ListedPlaced(ensemble, FullLog(insts, melody, progression, bars, rng), inst, track, strict);
  }

  ghost predicate FullStaysInRange(ensemble: seq<Section>) {
    forall melody, progression, bars, rng, inst: Instrument, track ::
      inst in Instruments(ensemble) && (inst.name, track) in OrchestratedFull(melody, progression, ensemble, bars, rng)
      ==> InItsRange(inst, track)
  }

  /** The same exact condition for `orchestrate_full`, over every melody as well. */
  lemma FullStaysInRangeIff(ensemble: seq<Section>)
    requires DistinctNames(Instruments(ensemble))
    requires forall inst :: inst in Instruments(ensemble) ==> 0 <= inst.minNote <= inst.maxNote <= 127
    ensures FullStaysInRange(ensemble) <==> forall inst :: inst in Instruments(ensemble) ==> Fits(inst)
  {
    hide DistinctNames, OrchestratedFull, Instruments;
    if forall inst :: inst in Instruments(ensemble) ==> Fits(inst) {
      forall melody, progression, bars, rng, inst: Instrument, track
        | inst in Instruments(ensemble) && (inst.name, track) in OrchestratedFull(melody, progression, ensemble, bars, rng)
        ensures InItsRange(inst, track)
      {
        FullInRange(melody, progression, ensemble, bars, rng, inst, track);
      }
    } else {
      var inst :| inst in Instruments(ensemble) && !Fits(inst);
      NarrowBassLeavesFull(ensemble, inst);
    }
  }

  lemma NarrowBassLeavesFull(ensemble: seq<Section>, inst: Instrument)
    requires inst in Instruments(ensemble) && 0 <= inst.minNote <= inst.maxNote <= 127 && !Fits(inst)
    ensures !FullStaysInRange(ensemble)
  {
    hide Flattened, Listed, Pushed, Selected, ScoreLog, SymbolOf, OfRole, Lines;
    var rng: nat -> nat := (n: nat) => 0;
    var melody, progression, insts := [MidiEvent(0, BEAT, 0, 60, 64, 0)], Unreachable(inst), Flattened(ensemble);
    FlattenedIs(ensemble);
    var log := FullLog(insts, melody, progression, 1, rng);
    var e := NarrowBassEmits(FullPlan(insts), 1, insts, inst, rng, 0);
    LogLeaves(ensemble, log, inst, e);
    assert (inst.name, Selected(log, inst.name)) in OrchestratedFull(melody, progression, ensemble, 1, rng);
  }

  /** The countermelody of a note sounds exactly when the note's velocity is at least 11; below 10 it wraps past 245. */
  lemma CountermelodyAudibleIff(inst: Instrument, note: MidiEvent)
    ensures 1 <= Sung(Third, inst, note).velocity <= 127 <==> note.velocity >= 11
    ensures note.velocity < 10 ==> Sung(Third, inst, note).velocity == note.velocity + 246
  {
    hide PlacedMelody;
  }

  // ----- which track carries which line

  function VoiceRole(voice: Voice): Role {
    if voice.Lead? then Melody else Countermelody
  }

  function SungLine(voice: Voice, inst: Instrument, melody: seq<MidiEvent>): (track: seq<MidiEvent>)
    ensures |track| == |melody|
  {
    seq(|melody|, (k: nat) requires k < |melody| => Sung(voice, inst, melody[k]))
  }

  lemma {:induction false} NoneSelected(log: seq<Emit>, name: string)
    requires forall k :: 0 <= k < |log| ==> log[k].name != name
    ensures Selected(log, name) == []
  {
    if log != [] {
      NoneSelected(log[..|log| - 1], name);
    }
  }

  lemma ForeignSelected(log: seq<Emit>, insts: seq<Instrument>, name: string)
    requires Covered(log, insts, false) && forall x :: x in insts ==> x.name != name
    ensures Selected(log, name) == []
  {
    hide Selected, Placed;
    forall k | 0 <= k < |log| ensures log[k].name != name {
      assert From(insts, log[k], false);
    }
    NoneSelected(log, name);
  }

  lemma {:induction false} LineSelected(voice: Voice, inst: Instrument, melody: seq<MidiEvent>)
    ensures Selected(Line(voice, inst, melody), inst.name) == SungLine(voice, inst, melody)
  {
    hide Sung;
    if melody != [] {
      LineSelected(voice, inst, melody[..|melody| - 1]);
    }
  }

  lemma SelectedConcat(a: seq<Emit>, b: seq<Emit>, name: string)
    ensures Selected(a + b, name) == Selected(a, name) + Selected(b, name)
  {
    CollectConcat(Named(name), EventOf(), a, b);
  }

  lemma {:induction false} LinesSelected(voice: Voice, group: seq<Instrument>, i: nat, melody: seq<MidiEvent>)
    requires i < |group| && DistinctNames(group)
    ensures Selected(Lines(voice, group, melody), group[i].name) == SungLine(voice, group[i], melody)
  {
    hide Selected, Line, SungLine;
    var n, name := |group| - 1, group[i].name;
    SelectedConcat(Lines(voice, group[..n], melody), Line(voice, group[n], melody), name);
    if i < n {
      LinesSelected(voice, group[..n], i, melody);
      LineCovered(voice, group[n], melody, [group[n]], false);
      ForeignSelected(Line(voice, group[n], melody), [group[n]], name);
    } else {
      LineSelected(voice, group[n], melody);
      LinesCovered(voice, group[..n], melody, group[..n], false);
      ForeignSelected(Lines(voice, group[..n], melody), group[..n], name);
    }
  }

  lemma OtherLines(voice: Voice, insts: seq<Instrument>, melody: seq<MidiEvent>, inst: Instrument)
    requires DistinctNames(insts) && inst in insts && inst.role != VoiceRole(voice)
    ensures Selected(Lines(voice, OfRole(insts, VoiceRole(voice)), melody), inst.name) == []
  {
    hide Selected, Lines, DistinctNames, OfRole;
    var group := OfRole(insts, VoiceRole(voice));
    OfRoleMembers(insts, VoiceRole(voice));
    LinesCovered(voice, group, melody, group, false);
    forall x | x in group ensures x.name != inst.name {
      if x.name == inst.name {
        SameName(insts, x, inst);
      }
    }
    ForeignSelected(Lines(voice, group, melody), group, inst.name);
  }

  lemma OwnLines(voice: Voice, insts: seq<Instrument>, melody: seq<MidiEvent>, inst: Instrument)
    requires DistinctNames(insts) && inst in insts && inst.role == VoiceRole(voice)
    ensures Selected(Lines(voice, OfRole(insts, VoiceRole(voice)), melody), inst.name) == SungLine(voice, inst, melody)
  {
    hide Selected, Lines, DistinctNames, OfRole, SungLine;
    var group := OfRole(insts, VoiceRole(voice));
    OfRoleMembers(insts, VoiceRole(voice));
    OfRoleKeepsNames(insts, VoiceRole(voice));
    var i :| 0 <= i < |group| && group[i] == inst;
    LinesSelected(voice, group, i, melody);
  }

  /** The log of a whole orchestration holds, under the name of a singing instrument, just its line. */
  lemma SungSelected(voice: Voice, insts: seq<Instrument>, melody: seq<MidiEvent>, progression: seq<string>, bars: nat, rng: nat -> nat, inst: Instrument)
    requires DistinctNames(insts) && inst in insts && inst.role == VoiceRole(voice) && progression != []
    ensures Selected(FullLog(insts, melody, progression, bars, rng), inst.name) == SungLine(voice, inst, melody)
  {
    hide Selected, Lines, DistinctNames, OfRole, SungLine, ScoreLog, FullPlan, Backing, SoundPlan, Covered;
    var lead, third := Lines(Lead, OfRole(insts, Melody), melody), Lines(Third, OfRole(insts, Countermelody), melody);
    var score := ScoreLog(FullPlan(insts), progression, bars, rng, 0);
    SelectedConcat(lead + third, score, inst.name);
    SelectedConcat(lead, third, inst.name);
    FullPlanSound(insts);
    ScoreCovered(FullPlan(insts), progression, bars, rng, 0, Backing(insts), false);
    forall x | x in Backing(insts) ensures x.name != inst.name {
      if x.name == inst.name {
        SameName(insts, x, inst);
      }
    }
    ForeignSelected(score, Backing(insts), inst.name);
    OwnLines(voice, insts, melody, inst);
    OtherLines(if voice.Lead? then Third else Lead, insts, melody, inst);
  }

  /** Each singing instrument's track of `orchestrate_full` is exactly its line. */
  lemma SungTrack(voice: Voice, melody: seq<MidiEvent>, progression: seq<string>, ensemble: seq<Section>, bars: int, rng: nat -> nat, inst: Instrument)
    requires DistinctNames(Instruments(ensemble)) && inst in Instruments(ensemble) && inst.role == VoiceRole(voice)
    requires melody != [] && progression != [] && bars >= 1
    ensures forall track :: (inst.name, track) in OrchestratedFull(melody, progression, ensemble, bars, rng) <==> track == SungLine(voice, inst, melody)
  {
    hide Flattened, Listed, Pushed, FullLog, DistinctNames, SungLine;
    var insts := Flattened(ensemble);
    var log := FullLog(insts, melody, progression, bars, rng);
    FlattenedIs(ensemble);
    SungSelected(voice, insts, melody, progression, bars, rng, inst);
    TrackIsSelection(map[], log, inst.name);
    assert TrackOf(map[], inst.name) == [];
    ListedTracks(insts, Pushed(map[], log));
    var i :| 0 <= i < |insts| && insts[i] == inst;
    forall track ensures (inst.name, track) in Listed(insts, Pushed(map[], log)) <==> track == SungLine(voice, inst, melody) {
      var entry := (inst.name, track);
      assert entry in Listed(insts, Pushed(map[], log)) <==> entry.1 == TrackOf(Pushed(map[], log), entry.0) != [];
    }
  }

  /**
   Each melody track has the melody's events, one for one, with their ticks and velocities, in the
   instrument's range; each keeps its pitch class when the range spans at least 17 semitones.
   */
  lemma MelodyTrackFollows(melody: seq<MidiEvent>, progression: seq<string>, ensemble: seq<Section>, bars: int, rng: nat -> nat,
                           inst: Instrument, track: seq<MidiEvent>)
    requires DistinctNames(Instruments(ensemble)) && inst in Instruments(ensemble) && inst.role == Melody
    requires 0 <= inst.minNote <= inst.maxNote <= 127
    requires (inst.name, track) in OrchestratedFull(melody, progression, ensemble, bars, rng)
    ensures |track| == |melody|
    ensures forall k :: 0 <= k < |melody| ==>
      && track[k] == melody[k].(channel := inst.channel % 0x100, note := track[k].note)
      && inst.minNote <= track[k].note <= inst.maxNote
      && (inst.maxNote - inst.minNote >= 17 ==> track[k].note % 12 == melody[k].note % 12)
  {
    hide DistinctNames, Listed, Pushed, FullLog, PlacedMelody, Instruments, Flattened;
    SungTrack(Lead, melody, progression, ensemble, bars, rng, inst);
    forall k | 0 <= k < |melody|
      ensures inst.minNote <= PlacedMelody(melody[k].note, inst.minNote, inst.maxNote) <= inst.maxNote
      ensures inst.maxNote - inst.minNote >= 17 ==> PlacedMelody(melody[k].note, inst.minNote, inst.maxNote) % 12 == melody[k].note % 12
    {
      PlacedInRange(melody[k].note, inst.minNote, inst.maxNote);
      if inst.maxNote - inst.minNote >= 17 {
        WideRangeKeepsClass(melody[k].note, inst.minNote, inst.maxNote);
      }
    }
  }

  /**
   Each countermelody track has the melody's events, one for one, with their ticks, ten softer, in
   the instrument's range; each is a minor third below the melody, up to octaves, when the range
   spans at least 17 semitones.
   */
  lemma CountermelodyTrackFollows(melody: seq<MidiEvent>, progression: seq<string>, ensemble: seq<Section>, bars: int, rng: nat -> nat,
                                  inst: Instrument, track: seq<MidiEvent>)
    requires DistinctNames(Instruments(ensemble)) && inst in Instruments(ensemble) && inst.role == Countermelody
    requires 0 <= inst.minNote <= inst.maxNote <= 127
    requires (inst.name, track) in OrchestratedFull(melody, progression, ensemble, bars, rng)
    ensures |track| == |melody|
    ensures forall k :: 0 <= k < |melody| ==>
      && track[k] == melody[k].(channel := inst.channel % 0x100, note := track[k].note, velocity := track[k].velocity)
      && (10 <= melody[k].velocity <= 137 ==> track[k].velocity == melody[k].velocity - 10)
      && inst.minNote <= track[k].note <= inst.maxNote
      && (inst.maxNote - inst.minNote >= 17 ==> track[k].note % 12 == (melody[k].note - 3) % 12)
  {
    hide DistinctNames, Listed, Pushed, FullLog, PlacedMelody, Instruments, Flattened;
    SungTrack(Third, melody, progression, ensemble, bars, rng, inst);
    forall k | 0 <= k < |melody|
      ensures inst.minNote <= PlacedMelody(melody[k].note - 3, inst.minNote, inst.maxNote) <= inst.maxNote
      ensures inst.maxNote - inst.minNote >= 17 ==> PlacedMelody(melody[k].note - 3, inst.minNote, inst.maxNote) % 12 == (melody[k].note - 3) % 12
    {
      PlacedInRange(melody[k].note - 3, inst.minNote, inst.maxNote);
      if inst.maxNote - inst.minNote >= 17 {
        WideRangeKeepsClass(melody[k].note - 3, inst.minNote, inst.maxNote);
      }
    }
  }
}
