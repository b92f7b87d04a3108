/**
 `orchestrate_chords` and `orchestrate_full`: every track stays in the range of its
 instrument, and every melody track is the melody up to channel and octave.
 */
module Orchestrator {
  import opened Bytes
  import opened SmfTrack
  import opened Register
  import opened ChordSymbols
  import opened Ensemble
  import opened Orchestration

  type Result = seq<(string, seq<MidiEvent>)>

  // ----- the result, in the order of the instruments

  /** Tracks are moved out of the map, so a second instrument of the same name finds an empty one. */
  function Listed(insts: seq<Instrument>, out: Tracks): Result {
    if insts == [] then []
    else
      var name := insts[0].name;
      if TrackOf(out, name) != [] then [(name, TrackOf(out, name))] + Listed(insts[1..], out[name := []])
      else Listed(insts[1..], out)
  }

  method ListTracks(insts: seq<Instrument>, out: Tracks) returns (result: Result)
    ensures result == Listed(insts, out)
  {
    result := [];
    var left := out;
    for i := 0 to |insts|
      invariant result + Listed(insts[i..], left) == Listed(insts, out)
    {
      assert insts[i..][1..] == insts[i + 1..];
      var name := insts[i].name;
      if name in left && left[name] != [] {
        result := result + [(name, left[name])];
        left := left[name := []];
      }
    }
  }

  /** Every instrument with a track is listed with exactly that track, and nothing else is listed. */
  lemma {:induction false} ListedTracks(insts: seq<Instrument>, out: Tracks)
    ensures forall entry :: entry in Listed(insts, out) <==>
      entry.1 == TrackOf(out, entry.0) != [] && exists i :: 0 <= i < |insts| && insts[i].name == entry.0
  {
    if insts != [] {
      var name, rest := insts[0].name, insts[1..];
      var left := if TrackOf(out, name) != [] then out[name := []] else out;
      ListedTracks(rest, left);
      forall entry: (string, seq<MidiEvent>)
        ensures entry in Listed(insts, out) <==>
          entry.1 == TrackOf(out, entry.0) != [] && exists i :: 0 <= i < |insts| && insts[i].name == entry.0
      {
        assert entry in Listed(insts, out) <==> (TrackOf(out, name) != [] && entry == (name, TrackOf(out, name))) || entry in Listed(rest, left);
        if i :| 0 <= i < |insts| && insts[i].name == entry.0 {
          assert i > 0 ==> rest[i - 1].name == entry.0;
        }
        if i :| 0 <= i < |rest| && rest[i].name == entry.0 {
          assert insts[i + 1].name == entry.0;
        }
      }
    }
  }

  /** Tracks are listed in the order of their instruments. */
  lemma {:induction false} ListedInOrder(insts: seq<Instrument>, out: Tracks, p: nat, q: nat) returns (i: nat, j: nat)
    requires p < q < |Listed(insts, out)|
    ensures i < j < |insts| && Listed(insts, out)[p].0 == insts[i].name && Listed(insts, out)[q].0 == insts[j].name
  {
    var name, rest := insts[0].name, insts[1..];
    if TrackOf(out, name) == [] {
      i, j := ListedInOrder(rest, out, p, q);
      i, j := i + 1, j + 1;
    } else if p > 0 {
      i, j := ListedInOrder(rest, out[name := []], p - 1, q - 1);
      i, j := i + 1, j + 1;
    } else {
      i := 0;
      var entry := Listed(rest, out[name := []])[q - 1];
      assert entry in Listed(rest, out[name := []]);
      ListedTracks(rest, out[name := []]);
      j :| 0 <= j < |rest| && rest[j].name == entry.0;
      j := j + 1;
    }
  }

  lemma NothingListed()
    ensures Flattened([]) == [] && forall out :: Listed([], out) == []
  {
  }

  // ----- chords alone

  ghost function ChordsPlan(insts: seq<Instrument>): seq<Assignment> {
    var g := Grouped(insts);
    [Assignment(RootMelody, g.melody), Assignment(Counter, g.countermelody), Assignment(Chordal(60), g.harmony),
     Assignment(BassLine, g.bass), Assignment(Sustained, g.pad), Assignment(Stab(25), g.rhythm + g.fill)]
  }

  /** A melody of chord roots is built first and never used, but it draws random numbers. */
  ghost function ChordsLog(insts: seq<Instrument>, progression: seq<string>, bars: nat, rng: nat -> nat): seq<Emit>
    requires progression != []
  {
    ScoreLog(ChordsPlan(insts), progression, bars, rng, if OfRole(insts, Melody) == [] then 0 else |progression|)
  }

  lemma BarStep(out: Tracks, plan: seq<Assignment>, m: nat, chord: Chord, start: Word32, rng: nat -> nat, c: nat)
    requires m < |plan|
    ensures Pushed(out, BarLog(plan, m + 1, chord, start, rng, c))
         == Pushed(Pushed(out, BarLog(plan, m, chord, start, rng, c)),
                   GroupLog(plan[m].task, plan[m].insts, |plan[m].insts|, chord, start, rng, c + BarDraws(plan, m, chord)))
  {
    hide GroupLog, GroupDraws, Pushed;
    PushedConcat(out, BarLog(plan, m, chord, start, rng, c),
                 GroupLog(plan[m].task, plan[m].insts, |plan[m].insts|, chord, start, rng, c + BarDraws(plan, m, chord)));
  }

  method ChordsBar(chord: Chord, g: Groups, out: Tracks, start: Word32, rng: nat -> nat, c: nat, ghost insts: seq<Instrument>)
    returns (out': Tracks, c': nat)
    requires g == Grouped(insts)
    ensures out' == Pushed(out, BarLog(ChordsPlan(insts), 6, chord, start, rng, c))
    ensures c' == c + BarDraws(ChordsPlan(insts), 6, chord)
  {
    hide Pushed, GroupLog, GroupDraws, Grouped;
    ghost var plan := ChordsPlan(insts);
    out', c' := out, c;
    PushedNone(out);
    BarStep(out, plan, 0, chord, start, rng, c);
    out', c' := AssignMelody(chord, g.melody, out', start, rng, c');
    BarStep(out, plan, 1, chord, start, rng, c);
    out', c' := AssignCounter(chord, g.countermelody, out', start, rng, c');
    BarStep(out, plan, 2, chord, start, rng, c);
    out', c' := AssignChordToHarmony(chord, g.harmony, out', start, 60, rng, c');
    BarStep(out, plan, 3, chord, start, rng, c);
    out', c' := AssignBass(chord, g.bass, out', start, rng, c');
    BarStep(out, plan, 4, chord, start, rng, c);
    out', c' := AssignPad(chord, g.pad, out', start, rng, c');
    BarStep(out, plan, 5, chord, start, rng, c);
    out', c' := AssignStabs(chord, g.rhythm + g.fill, out', start, 25, rng, c');
  }

  lemma ScoreStep(out: Tracks, plan: seq<Assignment>, progression: seq<string>, bar: nat, rng: nat -> nat, c: nat)
    requires progression != []
    ensures Pushed(out, ScoreLog(plan, progression, bar + 1, rng, c))
         == Pushed(Pushed(out, ScoreLog(plan, progression, bar, rng, c)),
                   BarLog(plan, |plan|, ChordOf(progression, bar), BarStart(bar), rng, c + ScoreDraws(plan, progression, bar)))
  {
    hide BarLog, BarDraws, Pushed, ChordOf, BarStart;
    PushedConcat(out, ScoreLog(plan, progression, bar, rng, c),
                 BarLog(plan, |plan|, ChordOf(progression, bar), BarStart(bar), rng, c + ScoreDraws(plan, progression, bar)));
  }

  ghost function OrchestratedChords(progression: seq<string>, ensemble: seq<Section>, bars: int, rng: nat -> nat): Result {
    if bars < 1 || progression == [] then []
    else Listed(Flattened(ensemble), Pushed(map[], ChordsLog(Flattened(ensemble), progression, bars, rng)))
  }

  method OrchestrateChords(progression: seq<string>, ensemble: seq<Section>, bars: int, rng: nat -> nat) returns (result: Result)
    ensures result == OrchestratedChords(progression, ensemble, bars, rng)
  {
    hide Pushed, BarLog, BarDraws, Flattened, ParseChord, OfRole, Listed;
    NothingListed();
    if bars < 1 || progression == [] || ensemble == [] {
      return [];
    }
    var all := FlattenEnsemble(ensemble);
    if all == [] {
      return [];
    }
    var g := GroupByRole(all);
    ghost var plan := ChordsPlan(all);
    var c := 0;
    if g.melody != [] {
      c := |progression|;
    }
    ghost var drawn := c;
    var out: Tracks := map[];
    PushedNone(out);
    for bar := 0 to bars
      invariant out == Pushed(map[], ScoreLog(plan, progression, bar, rng, drawn))
      invariant c == drawn + ScoreDraws(plan, progression, bar)
    {
      ScoreStep(map[], plan, progression, bar, rng, drawn);
      out, c := ChordsBar(ParseChord(progression[bar % |progression|]), g, out, BarStart(bar), rng, c, all);
    }
    result := ListTracks(all, out);
  }

  // ----- a melody with chords

  /** The melody itself, or a third below it and softer. */
  datatype Voice = Lead | Third

  function Sung(voice: Voice, inst: Instrument, note: MidiEvent): MidiEvent {
    var pitch := if voice.Lead? then note.note else note.note - 3;
    note.(channel := inst.channel % 0x100, note := PlacedMelody(pitch, inst.minNote, inst.maxNote) % 0x100,
          velocity := if voice.Lead? then note.velocity else Least(127, note.velocity - 10) % 0x100)
  }

  function Line(voice: Voice, inst: Instrument, melody: seq<MidiEvent>): seq<Emit> {
    if melody == [] then []
    else Line(voice, inst, melody[..|melody| - 1]) + [Emit(inst.name, Sung(voice, inst, melody[|melody| - 1]))]
  }

  function Lines(voice: Voice, insts: seq<Instrument>, melody: seq<MidiEvent>): seq<Emit> {
    if insts == [] then []
    else Lines(voice, insts[..|insts| - 1], melody) + Line(voice, insts[|insts| - 1], melody)
  }

  ghost function FullPlan(insts: seq<Instrument>): seq<Assignment> {
    var g := Grouped(insts);
    [Assignment(Chordal(55), g.harmony), Assignment(BassLine, g.bass), Assignment(Sustained, g.pad),
     Assignment(Stab(20), g.rhythm + g.fill)]
  }

  ghost function FullLog(insts: seq<Instrument>, melody: seq<MidiEvent>, progression: seq<string>, bars: nat, rng: nat -> nat): seq<Emit>
    requires progression != []
  {
    Lines(Lead, OfRole(insts, Melody), melody) + Lines(Third, OfRole(insts, Countermelody), melody)
    + ScoreLog(FullPlan(insts), progression, bars, rng, 0)
  }

  ghost function OrchestratedFull(melody: seq<MidiEvent>, progression: seq<string>, ensemble: seq<Section>, bars: int, rng: nat -> nat): Result {
    if melody == [] || bars < 1 || progression == [] then []
    else Listed(Flattened(ensemble), Pushed(map[], FullLog(Flattened(ensemble), melody, progression, bars, rng)))
  }

  /** The melody loops, over the instruments and over the notes. */
  method AssignLines(voice: Voice, insts: seq<Instrument>, melody: seq<MidiEvent>, out: Tracks) returns (out': Tracks)
    ensures out' == Pushed(out, Lines(voice, insts, melody))
  {
    hide Pushed, Push, PlacedMelody;
    out' := out;
    PushedNone(out);
    for i := 0 to |insts|
      invariant out' == Pushed(out, Lines(voice, insts[..i], melody))
    {
      var inst := insts[i];
      ghost var before := out';
      PushedNone(before);
      for k := 0 to |melody|
        invariant out' == Pushed(before, Line(voice, inst, melody[..k]))
      {
        var note := melody[k];
        var pitch := if voice.Lead? then note.note else note.note - 3;
        pitch := PlaceMelody(pitch, inst.minNote, inst.maxNote);
        var e := note.(channel := inst.channel % 0x100, note := pitch % 0x100);
        if voice.Third? {
          e := e.(velocity := Least(127, note.velocity - 10) % 0x100);
        }
        assert melody[..k + 1][..k] == melody[..k];
        PushedOne(before, Line(voice, inst, melody[..k]), Emit(inst.name, e));
        out' := Push(out', Emit(inst.name, e));
      }
      assert melody[..|melody|] == melody && insts[..i + 1][..i] == insts[..i];
      PushedConcat(out, Lines(voice, insts[..i], melody), Line(voice, inst, melody));
    }
    assert insts[..|insts|] == insts;
  }

  method FullBar(chord: Chord, g: Groups, out: Tracks, start: Word32, rng: nat -> nat, c: nat, ghost insts: seq<Instrument>)
    returns (out': Tracks, c': nat)
    requires g == Grouped(insts)
    ensures out' == Pushed(out, BarLog(FullPlan(insts), 4, chord, start, rng, c))
    ensures c' == c + BarDraws(FullPlan(insts), 4, chord)
  {
    hide Pushed, GroupLog, GroupDraws, Grouped;
    ghost var plan := FullPlan(insts);
    out', c' := out, c;
    PushedNone(out);
    BarStep(out, plan, 0, chord, start, rng, c);
    out', c' := AssignChordToHarmony(chord, g.harmony, out', start, 55, rng, c');
    BarStep(out, plan, 1, chord, start, rng, c);
    out', c' := AssignBass(chord, g.bass, out', start, rng, c');
    BarStep(out, plan, 2, chord, start, rng, c);
    out', c' := AssignPad(chord, g.pad, out', start, rng, c');
    BarStep(out, plan, 3, chord, start, rng, c);
    out', c' := AssignStabs(chord, g.rhythm + g.fill, out', start, 20, rng, c');
  }

  method OrchestrateFull(melody: seq<MidiEvent>, progression: seq<string>, ensemble: seq<Section>, bars: int, rng: nat -> nat)
    returns (result: Result)
    ensures result == OrchestratedFull(melody, progression, ensemble, bars, rng)
  {
    hide Pushed, BarLog, BarDraws, Flattened, ParseChord, OfRole, Listed, StableSort, Lines;
    NothingListed();
    if melody == [] || bars < 1 || progression == [] || ensemble == [] {
      return [];
    }
    var all := FlattenEnsemble(ensemble);
    if all == [] {
      return [];
    }
    var g := GroupByRole(all);
    SecondSortIdle(ensemble, Melody);
    SecondSortIdle(ensemble, Countermelody);
    SecondSortIdle(ensemble, Harmony);
    g := g.(melody := StableSort(NameOnly, g.melody), countermelody := StableSort(NameOnly, g.countermelody),
            harmony := StableSort(NameOnly, g.harmony));
    ghost var plan, lead, third := FullPlan(all), Lines(Lead, g.melody, melody), Lines(Third, g.countermelody, melody);
    var c, out: Tracks := 0, map[];
    out := AssignLines(Lead, g.melody, melody, out);
    out := AssignLines(Third, g.countermelody, melody, out);
    PushedConcat(map[], lead, third);
    ghost var sung := out;
    PushedNone(sung);
    for bar := 0 to bars
      invariant out == Pushed(sung, ScoreLog(plan, progression, bar, rng, 0))
      invariant c == ScoreDraws(plan, progression, bar)
    {
      ScoreStep(sung, plan, progression, bar, rng, 0);
      out, c := FullBar(ParseChord(progression[bar % |progression|]), g, out, BarStart(bar), rng, c, all);
    }
    PushedConcat(map[], lead + third, ScoreLog(plan, progression, bars, rng, 0));
    result := ListTracks(all, out);
  }
}
