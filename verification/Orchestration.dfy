/**
 Distributing chords and a melody over an ensemble, as `orchestration_engine.cpp` does it.
 Each method is proved against the log of what it pushes: which event, on the track of
 which name, in which order, with which random number.
 */
module Orchestration {
  import opened Arithmetic
  import opened Bytes
  import opened SmfTrack
  import opened Register
  import opened ChordSymbols
  import opened Ensemble
  import opened HarmonyPool

  const BEAT := 480
  const BAR := 1920

  // ----- tracks by name

  type Tracks = map<string, seq<MidiEvent>>

  datatype Emit = Emit(name: string, event: MidiEvent)

  function TrackOf(out: Tracks, name: string): seq<MidiEvent> {
    if name in out then out[name] else []
  }

  function Push(out: Tracks, e: Emit): Tracks {
    out[e.name := TrackOf(out, e.name) + [e.event]]
  }

  function Pushed(out: Tracks, log: seq<Emit>): Tracks {
    if log == [] then out else Push(Pushed(out, log[..|log| - 1]), log[|log| - 1])
  }

  lemma {:induction false} PushedConcat(out: Tracks, a: seq<Emit>, b: seq<Emit>)
    ensures Pushed(out, a + b) == Pushed(Pushed(out, a), b)
  {
    if b == [] {
      assert a + b == a;
    } else {
      var n := |b| - 1;
      PushedConcat(out, a, b[..n]);
      assert (a + b)[..|a + b| - 1] == a + b[..n];
    }
  }

  lemma PushedNone(out: Tracks)
    ensures Pushed(out, []) == out
  {
  }

  lemma PushedOne(out: Tracks, log: seq<Emit>, e: Emit)
    ensures Pushed(out, log + [e]) == Push(Pushed(out, log), e)
  {
    assert (log + [e])[..|log|] == log;
  }

  // ----- what one instrument plays in one bar

  /** The six ways in which a bar of a chord is handed to a group of instruments. */
  datatype Task = RootMelody | Counter | Chordal(base: nat) | BassLine | Sustained | Stab(lift: nat)

  /** A note relative to the start of the bar. */
  datatype Cue = Cue(at: nat, until: nat, note: int)

  /** Chord tones at given ticks; those that do not fit the range are skipped. */
  function ToneCues(inst: Instrument, chord: Chord, pattern: seq<(nat, nat)>, length: nat): seq<Cue> {
    if pattern == [] then []
    else
      var (at, off) := pattern[|pattern| - 1];
      ToneCues(inst, chord, pattern[..|pattern| - 1], length)
      + match ChordTone(chord.rootPc + off, inst.minNote, inst.maxNote)
        case Some(n) => [Cue(at, at + length, n)]
        case None => []
  }

  /** A tone on every beat, cycling through the chord. */
  function CounterPattern(offsets: seq<nat>): seq<(nat, nat)>
    requires offsets != []
  {
    seq(4, (beat: nat) requires beat < 4 => (beat * BEAT, offsets[beat % |offsets|]))
  }

  /** The whole chord at one tick. */
  function ChordAt(at: nat, offsets: seq<nat>): seq<(nat, nat)> {
    seq(|offsets|, (k: nat) requires k < |offsets| => (at, offsets[k]))
  }

  /** The whole chord on beats two and four. */
  function StabPattern(offsets: seq<nat>): seq<(nat, nat)> {
    ChordAt(BEAT, offsets) + ChordAt(3 * BEAT, offsets)
  }

  ghost function Cues(task: Task, insts: seq<Instrument>, i: nat, chord: Chord): seq<Cue>
    requires i < |insts|
  {
    var inst, offsets := insts[i], OffsetsFor(chord.quality);
    var (lo, hi) := (inst.minNote, inst.maxNote);
    match task
    case RootMelody => [Cue(0, BEAT - 5, PlacedMelody(Quotient(Middle(lo, hi), 12) * 12 + chord.rootPc, lo, hi))]
    case Counter => ToneCues(inst, chord, CounterPattern(offsets), BEAT - 10)
    case Chordal(_) => [Cue(0, BAR - 20, HarmonyNote(Pool(chord, insts), insts, i))]
    case BassLine =>
      var root := BassRoot(chord.rootPc, lo, hi);
      [Cue(0, 2 * BEAT - 10, root), Cue(2 * BEAT, 4 * BEAT - 10, BassFifth(root, lo, hi))]
    case Sustained => ToneCues(inst, chord, ChordAt(0, offsets), BAR - 20)
    case Stab(_) => ToneCues(inst, chord, StabPattern(offsets), BEAT / 2 - 5)
  }

  function Least(a: int, b: int): int {
    if a < b then a else b
  }

  /** The velocity of the `k`-th note of an instrument whose first random number is number `c`. */
  function Velocity(task: Task, rng: nat -> nat, c: nat, k: nat): int {
    match task
    case RootMelody => 70 + rng(c) % 31
    case Counter => 60 + rng(c + k) % 21
    case Chordal(base) => Least(127, base + rng(c) % 21 - 10)
    case BassLine => 70 + rng(c) % 21 - 5 * k
    case Sustained => 50 + rng(c) % 16
    case Stab(lift) => 55 + rng(c + k) % (lift + 1)
  }

  /** Countermelodies and stabs draw for every note, the others once per instrument. */
  function Draws(task: Task, cues: seq<Cue>): nat {
    if task.Counter? || task.Stab? then |cues| else 1
  }

  function MakeNote(tickOn: int, tickOff: int, note: int, velocity: int, channel: int): MidiEvent {
    MidiEvent(tickOn % 0x1_0000_0000, tickOff % 0x1_0000_0000, channel % 0x100, note % 0x100, velocity % 0x100, 0)
  }

  function Played(inst: Instrument, cue: Cue, start: Word32, velocity: int): Emit {
    Emit(inst.name, MakeNote(start + cue.at, start + cue.until, cue.note, velocity, inst.channel))
  }

  function Cued(task: Task, inst: Instrument, cues: seq<Cue>, start: Word32, rng: nat -> nat, c: nat): seq<Emit> {
    if cues == [] then []
    else
      var k := |cues| - 1;
      Cued(task, inst, cues[..k], start, rng, c) + [Played(inst, cues[k], start, Velocity(task, rng, c, k))]
  }

  // ----- what a group, a bar and a whole score play

  ghost function GroupDraws(task: Task, insts: seq<Instrument>, n: nat, chord: Chord): nat
    requires n <= |insts|
  {
    if n == 0 then 0 else GroupDraws(task, insts, n - 1, chord) + Draws(task, Cues(task, insts, n - 1, chord))
  }

  ghost function Part(task: Task, insts: seq<Instrument>, i: nat, chord: Chord, start: Word32, rng: nat -> nat, c: nat): seq<Emit>
    requires i < |insts|
  {
    Cued(task, insts[i], Cues(task, insts, i, chord), start, rng, c + GroupDraws(task, insts, i, chord))
  }

  ghost function GroupLog(task: Task, insts: seq<Instrument>, n: nat, chord: Chord, start: Word32, rng: nat -> nat, c: nat): seq<Emit>
    requires n <= |insts|
  {
    if n == 0 then []
    else GroupLog(task, insts, n - 1, chord, start, rng, c) + Part(task, insts, n - 1, chord, start, rng, c)
  }

  datatype Assignment = Assignment(task: Task, insts: seq<Instrument>)

  ghost function BarDraws(plan: seq<Assignment>, m: nat, chord: Chord): nat
    requires m <= |plan|
  {
    if m == 0 then 0
    else BarDraws(plan, m - 1, chord) + GroupDraws(plan[m - 1].task, plan[m - 1].insts, |plan[m - 1].insts|, chord)
  }

  ghost function BarLog(plan: seq<Assignment>, m: nat, chord: Chord, start: Word32, rng: nat -> nat, c: nat): seq<Emit>
    requires m <= |plan|
  {
    if m == 0 then []
    else
      var a := plan[m - 1];
      BarLog(plan, m - 1, chord, start, rng, c)
      + GroupLog(a.task, a.insts, |a.insts|, chord, start, rng, c + BarDraws(plan, m - 1, chord))
  }

  /** The chord and the first tick of a bar. */
  function ChordOf(progression: seq<string>, bar: nat): Chord
    requires progression != []
  {
    ParseChord(progression[bar % |progression|])
  }

  function BarStart(bar: nat): Word32 {
    bar * BAR % 0x1_0000_0000
  }

  ghost function ScoreDraws(plan: seq<Assignment>, progression: seq<string>, bars: nat): nat
    requires progression != []
  {
    if bars == 0 then 0
    else ScoreDraws(plan, progression, bars - 1) + BarDraws(plan, |plan|, ChordOf(progression, bars - 1))
  }

  ghost function ScoreLog(plan: seq<Assignment>, progression: seq<string>, bars: nat, rng: nat -> nat, c: nat): seq<Emit>
    requires progression != []
  {
    if bars == 0 then []
    else
      ScoreLog(plan, progression, bars - 1, rng, c)
      + BarLog(plan, |plan|, ChordOf(progression, bars - 1), BarStart(bars - 1), rng, c + ScoreDraws(plan, progression, bars - 1))
  }

  // ----- one group of instruments

  lemma GroupStep(out: Tracks, task: Task, insts: seq<Instrument>, i: nat, chord: Chord, start: Word32, rng: nat -> nat, c: nat)
    requires i < |insts|
    ensures Pushed(out, GroupLog(task, insts, i + 1, chord, start, rng, c))
         == Pushed(Pushed(out, GroupLog(task, insts, i, chord, start, rng, c)), Part(task, insts, i, chord, start, rng, c))
  {
    hide Part, Pushed;
    PushedConcat(out, GroupLog(task, insts, i, chord, start, rng, c), Part(task, insts, i, chord, start, rng, c));
  }

  lemma CuedOne(out: Tracks, task: Task, inst: Instrument, cue: Cue, start: Word32, rng: nat -> nat, c: nat)
    ensures Pushed(out, Cued(task, inst, [cue], start, rng, c)) == Push(out, Played(inst, cue, start, Velocity(task, rng, c, 0)))
  {
    hide Played, Velocity;
    var none: seq<Cue> := [];
    assert [cue][..0] == none;
    assert Cued(task, inst, none, start, rng, c) == [];
    PushedOne(out, [], Played(inst, cue, start, Velocity(task, rng, c, 0)));
    var e := Played(inst, cue, start, Velocity(task, rng, c, 0));
    assert [] + [e] == [e];
  }

  lemma CuedMore(out: Tracks, task: Task, inst: Instrument, cues: seq<Cue>, cue: Cue, start: Word32, rng: nat -> nat, c: nat)
    ensures Pushed(out, Cued(task, inst, cues + [cue], start, rng, c))
         == Push(Pushed(out, Cued(task, inst, cues, start, rng, c)), Played(inst, cue, start, Velocity(task, rng, c, |cues|)))
  {
    hide Played, Velocity;
    assert (cues + [cue])[..|cues|] == cues;
    PushedOne(out, Cued(task, inst, cues, start, rng, c), Played(inst, cue, start, Velocity(task, rng, c, |cues|)));
  }

  lemma CuedTwo(out: Tracks, task: Task, inst: Instrument, first: Cue, second: Cue, start: Word32, rng: nat -> nat, c: nat)
    ensures Pushed(out, Cued(task, inst, [first, second], start, rng, c))
         == Push(Push(out, Played(inst, first, start, Velocity(task, rng, c, 0))), Played(inst, second, start, Velocity(task, rng, c, 1)))
  {
    hide Pushed, Push, Cued, Played, Velocity;
    assert [first] + [second] == [first, second];
    CuedMore(out, task, inst, [first], second, start, rng, c);
    CuedOne(out, task, inst, first, start, rng, c);
  }

  method AssignMelody(chord: Chord, insts: seq<Instrument>, out: Tracks, start: Word32, rng: nat -> nat, c: nat)
    returns (out': Tracks, c': nat)
    ensures out' == Pushed(out, GroupLog(RootMelody, insts, |insts|, chord, start, rng, c))
    ensures c' == c + GroupDraws(RootMelody, insts, |insts|, chord)
  {
    hide Pushed, Push, Cued, PlacedMelody, Quotient, Middle;
    out', c' := out, c;
    PushedNone(out);
    for i := 0 to |insts|
      invariant out' == Pushed(out, GroupLog(RootMelody, insts, i, chord, start, rng, c))
      invariant c' == c + GroupDraws(RootMelody, insts, i, chord)
    {
      var inst := insts[i];
      var note := Quotient(Middle(inst.minNote, inst.maxNote), 12) * 12 + chord.rootPc;
      note := PlaceMelody(note, inst.minNote, inst.maxNote);
      var velocity := 70 + rng(c') % 31;
      GroupStep(out, RootMelody, insts, i, chord, start, rng, c);
      CuedOne(out', RootMelody, inst, Cue(0, BEAT - 5, note), start, rng, c');
      out' := Push(out', Emit(inst.name, MakeNote(start, start + BEAT - 5, note, velocity, inst.channel)));
      c' := c' + 1;
    }
  }

  method AssignChordToHarmony(chord: Chord, insts: seq<Instrument>, out: Tracks, start: Word32, base: nat, rng: nat -> nat, c: nat)
    returns (out': Tracks, c': nat)
    ensures out' == Pushed(out, GroupLog(Chordal(base), insts, |insts|, chord, start, rng, c))
    ensures c' == c + GroupDraws(Chordal(base), insts, |insts|, chord)
  {
    hide Pushed, Push, Cued, Picked, Pool, Removed;
    out', c' := out, c;
    PushedNone(out);
    var pool := BuildPool(chord, insts);
    for i := 0 to |insts|
      invariant pool == PoolBefore(Pool(chord, insts), insts, i)
      invariant out' == Pushed(out, GroupLog(Chordal(base), insts, i, chord, start, rng, c))
      invariant c' == c + GroupDraws(Chordal(base), insts, i, chord)
    {
      var inst := insts[i];
      var note := PickNoteInRange(pool, inst.minNote, inst.maxNote, i);
      var velocity := Least(127, base + rng(c') % 21 - 10);
      GroupStep(out, Chordal(base), insts, i, chord, start, rng, c);
      CuedOne(out', Chordal(base), inst, Cue(0, BAR - 20, note), start, rng, c');
      out' := Push(out', Emit(inst.name, MakeNote(start, start + BAR - 20, note, velocity, inst.channel)));
      c' := c' + 1;
      pool := RemoveNote(pool, note);
    }
  }

  method AssignBass(chord: Chord, insts: seq<Instrument>, out: Tracks, start: Word32, rng: nat -> nat, c: nat)
    returns (out': Tracks, c': nat)
    ensures out' == Pushed(out, GroupLog(BassLine, insts, |insts|, chord, start, rng, c))
    ensures c' == c + GroupDraws(BassLine, insts, |insts|, chord)
  {
    hide Pushed, Push, Cued, BassRoot, BassFifth, OffsetsFor;
    out', c' := out, c;
    PushedNone(out);
    for i := 0 to |insts|
      invariant out' == Pushed(out, GroupLog(BassLine, insts, i, chord, start, rng, c))
      invariant c' == c + GroupDraws(BassLine, insts, i, chord)
    {
      var inst := insts[i];
      var root, fifth := PlaceBass(chord.rootPc, inst.minNote, inst.maxNote);
      var velocity := 70 + rng(c') % 21;
      GroupStep(out, BassLine, insts, i, chord, start, rng, c);
      CuedTwo(out', BassLine, inst, Cue(0, 2 * BEAT - 10, root), Cue(2 * BEAT, 4 * BEAT - 10, fifth), start, rng, c');
      out' := Push(out', Emit(inst.name, MakeNote(start, start + 2 * BEAT - 10, root, velocity, inst.channel)));
      out' := Push(out', Emit(inst.name, MakeNote(start + 2 * BEAT, start + 4 * BEAT - 10, fifth, velocity - 5, inst.channel)));
      c' := c' + 1;
    }
  }

  // ----- chord tones

  /** The branches that bring one tone into range; `None` when it is skipped. */
  method PlaceTone(chord: Chord, off: nat, inst: Instrument) returns (note: Option<int>)
    ensures note == ChordTone(chord.rootPc + off, inst.minNote, inst.maxNote)
  {
    var n := Quotient(Middle(inst.minNote, inst.maxNote), 12) * 12 + (chord.rootPc + off) % 12;
    if n < inst.minNote { n := n + 12; }
    if n > inst.maxNote { n := n - 12; }
    note := if n < inst.minNote || n > inst.maxNote then None else Some(n);
  }

  lemma ToneStep(inst: Instrument, chord: Chord, pattern: seq<(nat, nat)>, k: nat, length: nat)
    requires k < |pattern|
    ensures ToneCues(inst, chord, pattern[..k + 1], length) == ToneCues(inst, chord, pattern[..k], length)
      + match ChordTone(chord.rootPc + pattern[k].1, inst.minNote, inst.maxNote)
        case Some(n) => [Cue(pattern[k].0, pattern[k].0 + length, n)]
        case None => []
  {
    hide ChordTone;
    assert pattern[..k + 1][..k] == pattern[..k];
  }

  /** One tone of a pattern is pushed, or skipped. */
  method PushTone(out: Tracks, task: Task, inst: Instrument, chord: Chord, ghost pattern: seq<(nat, nat)>, ghost k: nat,
                  at: nat, off: nat, length: nat, start: Word32, velocity: int, ghost rng: nat -> nat, ghost c: nat, ghost before: Tracks)
    returns (out': Tracks, played: bool)
    requires k < |pattern| && pattern[k] == (at, off)
    requires velocity == Velocity(task, rng, c, |ToneCues(inst, chord, pattern[..k], length)|)
    requires out == Pushed(before, Cued(task, inst, ToneCues(inst, chord, pattern[..k], length), start, rng, c))
    ensures out' == Pushed(before, Cued(task, inst, ToneCues(inst, chord, pattern[..k + 1], length), start, rng, c))
    ensures |ToneCues(inst, chord, pattern[..k + 1], length)| == |ToneCues(inst, chord, pattern[..k], length)| + if played then 1 else 0
  {
    hide Pushed, Push, Cued, ToneCues, ChordTone;
    ToneStep(inst, chord, pattern, k, length);
    ghost var cues := ToneCues(inst, chord, pattern[..k], length);
    out', played := out, false;
    var tone := PlaceTone(chord, off, inst);
    if tone.Some? {
      CuedMore(before, task, inst, cues, Cue(at, at + length, tone.value), start, rng, c);
      out' := Push(out, Emit(inst.name, MakeNote(start + at, start + at + length, tone.value, velocity, inst.channel)));
      played := true;
    } else {
      assert cues + [] == cues;
    }
  }

  lemma NoTones(out: Tracks, task: Task, inst: Instrument, chord: Chord, pattern: seq<(nat, nat)>, length: nat, start: Word32, rng: nat -> nat, c: nat)
    ensures pattern[..0] == [] && ToneCues(inst, chord, [], length) == []
    ensures Pushed(out, Cued(task, inst, [], start, rng, c)) == out
  {
  }

  method AssignCounter(chord: Chord, insts: seq<Instrument>, out: Tracks, start: Word32, rng: nat -> nat, c: nat)
    returns (out': Tracks, c': nat)
    ensures out' == Pushed(out, GroupLog(Counter, insts, |insts|, chord, start, rng, c))
    ensures c' == c + GroupDraws(Counter, insts, |insts|, chord)
  {
    hide Pushed, Push, Cued, ToneCues, OffsetsFor;
    out', c' := out, c;
    PushedNone(out);
    var offsets := OffsetsFor(chord.quality);
    ghost var pattern := CounterPattern(offsets);
    for i := 0 to |insts|
      invariant out' == Pushed(out, GroupLog(Counter, insts, i, chord, start, rng, c))
      invariant c' == c + GroupDraws(Counter, insts, i, chord)
    {
      var inst := insts[i];
      ghost var before, drawn := out', c';
      NoTones(out', Counter, inst, chord, pattern, BEAT - 10, start, rng, c');
      for beat := 0 to 4
        invariant out' == Pushed(before, Cued(Counter, inst, ToneCues(inst, chord, pattern[..beat], BEAT - 10), start, rng, drawn))
        invariant c' == drawn + |ToneCues(inst, chord, pattern[..beat], BEAT - 10)|
      {
        var played;
        out', played := PushTone(out', Counter, inst, chord, pattern, beat, beat * BEAT, offsets[beat % |offsets|], BEAT - 10,
                                 start, 60 + rng(c') % 21, rng, drawn, before);
        if played { c' := c' + 1; }
      }
      assert pattern[..4] == pattern;
      GroupStep(out, Counter, insts, i, chord, start, rng, c);
    }
  }

  method AssignPad(chord: Chord, insts: seq<Instrument>, out: Tracks, start: Word32, rng: nat -> nat, c: nat)
    returns (out': Tracks, c': nat)
    ensures out' == Pushed(out, GroupLog(Sustained, insts, |insts|, chord, start, rng, c))
    ensures c' == c + GroupDraws(Sustained, insts, |insts|, chord)
  {
    hide Pushed, Push, Cued, ToneCues, OffsetsFor;
    out', c' := out, c;
    PushedNone(out);
    var offsets := OffsetsFor(chord.quality);
    ghost var pattern := ChordAt(0, offsets);
    for i := 0 to |insts|
      invariant out' == Pushed(out, GroupLog(Sustained, insts, i, chord, start, rng, c))
      invariant c' == c + GroupDraws(Sustained, insts, i, chord)
    {
      var inst := insts[i];
      ghost var before := out';
      var velocity := 50 + rng(c') % 16;
      NoTones(out', Sustained, inst, chord, pattern, BAR - 20, start, rng, c');
      for k := 0 to |offsets|
        invariant out' == Pushed(before, Cued(Sustained, inst, ToneCues(inst, chord, pattern[..k], BAR - 20), start, rng, c'))
      {
        var played;
        out', played := PushTone(out', Sustained, inst, chord, pattern, k, 0, offsets[k], BAR - 20, start, velocity, rng, c', before);
      }
      assert pattern[..|offsets|] == pattern;
      GroupStep(out, Sustained, insts, i, chord, start, rng, c);
      c' := c' + 1;
    }
  }

  /** The two loops over the beats and the tones for one instrument. */
  method PushStabs(out: Tracks, inst: Instrument, chord: Chord, start: Word32, lift: nat, rng: nat -> nat, c: nat)
    returns (out': Tracks, c': nat)
    ensures var cues := ToneCues(inst, chord, StabPattern(OffsetsFor(chord.quality)), BEAT / 2 - 5);
            out' == Pushed(out, Cued(Stab(lift), inst, cues, start, rng, c)) && c' == c + |cues|
  {
    hide Pushed, Push, Cued, ToneCues, OffsetsFor;
    out', c' := out, c;
    var offsets := OffsetsFor(chord.quality);
    ghost var pattern, k := StabPattern(offsets), 0;
    NoTones(out', Stab(lift), inst, chord, pattern, BEAT / 2 - 5, start, rng, c');
    var beat := 1;
    while beat < 4
      invariant (beat == 1 && k == 0) || (beat == 3 && k == |offsets|) || (beat == 5 && k == 2 * |offsets|)
      invariant out' == Pushed(out, Cued(Stab(lift), inst, ToneCues(inst, chord, pattern[..k], BEAT / 2 - 5), start, rng, c))
      invariant c' == c + |ToneCues(inst, chord, pattern[..k], BEAT / 2 - 5)|
    {
      ghost var first := k;
      for j := 0 to |offsets|
        invariant k == first + j
        invariant out' == Pushed(out, Cued(Stab(lift), inst, ToneCues(inst, chord, pattern[..k], BEAT / 2 - 5), start, rng, c))
        invariant c' == c + |ToneCues(inst, chord, pattern[..k], BEAT / 2 - 5)|
      {
        var played;
        out', played := PushTone(out', Stab(lift), inst, chord, pattern, k, beat * BEAT, offsets[j], BEAT / 2 - 5,
                                 start, 55 + rng(c') % (lift + 1), rng, c, out);
        if played { c' := c' + 1; }
        k := k + 1;
      }
      beat := beat + 2;
    }
    assert pattern[..k] == pattern;
  }

  /** Chord stabs on beats two and four. */
  method AssignStabs(chord: Chord, insts: seq<Instrument>, out: Tracks, start: Word32, lift: nat, rng: nat -> nat, c: nat)
    returns (out': Tracks, c': nat)
    ensures out' == Pushed(out, GroupLog(Stab(lift), insts, |insts|, chord, start, rng, c))
    ensures c' == c + GroupDraws(Stab(lift), insts, |insts|, chord)
  {
    hide Pushed, Push, Cued, ToneCues, OffsetsFor, StabPattern;
    out', c' := out, c;
    PushedNone(out);
    for i := 0 to |insts|
      invariant out' == Pushed(out, GroupLog(Stab(lift), insts, i, chord, start, rng, c))
      invariant c' == c + GroupDraws(Stab(lift), insts, i, chord)
    {
      GroupStep(out, Stab(lift), insts, i, chord, start, rng, c);
      out', c' := PushStabs(out', insts[i], chord, start, lift, rng, c');
    }
  }
}
