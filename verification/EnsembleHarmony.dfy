/**
 Which chord an orchestrated track sounds when: bar `b` plays the chord of bar `b`, each role
 on its beats, with its lengths and velocities, and no tone of the chord is left out.
 */
module EnsembleHarmony {
  import opened Arithmetic
  import opened Bytes
  import opened NoteNames
  import opened SmfTrack
  import opened Permutations
  import opened Register
  import opened ChordSymbols
  import opened Ensemble
  import opened HarmonyPool
  import opened Orchestration
  import opened Orchestrator
  import opened EnsembleScore
  import ChordDetection

  // ----- chord symbols

  /** Roots are counted in fifths from C; the seventeen names from Gb to A# are known, all others count as C. */
  lemma RootIsFifths(key: string)
    ensures RootClass(key) == 7 * Place(key, -6, 10) % 12
  {
    Spelled(key);
  }

  /** A symbol is a root of one letter and perhaps an accidental, then the quality, where nothing and `M` mean major and `m` minor. */
  lemma SymbolParsed(root: string, quality: string)
    requires |root| == 1 || (|root| == 2 && root[1] in ['#', 'b'])
    requires |root| == 1 && quality != [] ==> quality[0] !in ['#', 'b']
    ensures ParseChord(root + quality)
         == Chord(7 * Place(root, -6, 10) % 12, if quality in ["", "M"] then "maj" else if quality == "m" then "min" else quality)
  {
    hide RootClass, Place;
    var symbol := root + quality;
    RootIsFifths(root);
    assert symbol[..|root|] == root && symbol[|root|..] == quality;
    assert symbol[1..] == if |root| == 1 then quality else [root[1]] + quality;
  }

  /** The orchestrator and the chord engine know the same qualities with the same tones. */
  lemma TablesAgree(quality: string)
    ensures OffsetsFor(quality) == ChordDetection.Offsets(quality)
  {
  }

  // ----- what a role plays

  predicate Octave(inst: Instrument) {
    inst.maxNote - inst.minNote >= 11
  }

  /** What the event at tick `at` of a bar is, by what its instrument is asked to play. */
  ghost predicate Plays(task: Task, insts: seq<Instrument>, i: nat, chord: Chord, at: nat, e: MidiEvent)
    requires i < |insts|
  {
    var (inst, offsets, length) := (insts[i], OffsetsFor(chord.quality), e.tickOff - e.tickOn);
    e.articulation == 0 &&
    match task
    case RootMelody => at == 0 && length == 475 && 70 <= e.velocity <= 100 && (inst.maxNote - inst.minNote >= 17 ==> e.note % 12 == chord.rootPc)
    case Counter =>
      at in [0, 480, 960, 1440] && length == 470 && 60 <= e.velocity <= 80
      && e.note % 12 == (chord.rootPc + offsets[(at / 480) % |offsets|]) % 12
    case Chordal(base) =>
      at == 0 && length == 1900 && base - 10 <= e.velocity <= base + 10
      && (Octave(inst) && i < |Pool(chord, insts)| ==> (e.note - chord.rootPc) % 12 in offsets)
    case BassLine =>
      length == 950 && ((at == 0 && e.note % 12 == chord.rootPc && 70 <= e.velocity <= 90)
                        || (at == 960 && e.note % 12 == (chord.rootPc + 7) % 12 && 65 <= e.velocity <= 85))
    case Sustained => at == 0 && length == 1900 && 50 <= e.velocity <= 65 && (e.note - chord.rootPc) % 12 in offsets
    case Stab(lift) => at in [480, 1440] && length == 235 && 55 <= e.velocity <= 55 + lift && (e.note - chord.rootPc) % 12 in offsets
  }

  lemma {:induction false} ToneCuesAre(inst: Instrument, chord: Chord, pattern: seq<(nat, nat)>, length: nat, k: nat)
    requires k < |ToneCues(inst, chord, pattern, length)|
    ensures exists j :: 0 <= j < |pattern| && CueOf(inst, chord, pattern[j], length, ToneCues(inst, chord, pattern, length)[k])
  {
    hide ChordTone;
    var n := |pattern| - 1;
    var rest := ToneCues(inst, chord, pattern[..n], length);
    if k < |rest| {
      ToneCuesAre(inst, chord, pattern[..n], length, k);
      var j :| 0 <= j < n && CueOf(inst, chord, pattern[..n][j], length, rest[k]);
      assert CueOf(inst, chord, pattern[j], length, rest[k]);
    } else {
      assert CueOf(inst, chord, pattern[n], length, ToneCues(inst, chord, pattern, length)[k]);
    }
  }

  predicate CueOf(inst: Instrument, chord: Chord, tone: (nat, nat), length: nat, cue: Cue) {
    cue.at == tone.0 && cue.until == tone.0 + length && ChordTone(chord.rootPc + tone.1, inst.minNote, inst.maxNote) == Some(cue.note)
  }

  lemma {:induction false} ToneCuesHave(inst: Instrument, chord: Chord, pattern: seq<(nat, nat)>, length: nat, j: nat)
    requires j < |pattern| && ChordTone(chord.rootPc + pattern[j].1, inst.minNote, inst.maxNote).Some?
    ensures exists k :: 0 <= k < |ToneCues(inst, chord, pattern, length)| && CueOf(inst, chord, pattern[j], length, ToneCues(inst, chord, pattern, length)[k])
  {
    hide ChordTone;
    var n := |pattern| - 1;
    var rest, all := ToneCues(inst, chord, pattern[..n], length), ToneCues(inst, chord, pattern, length);
    if j < n {
      ToneCuesHave(inst, chord, pattern[..n], length, j);
      var k :| 0 <= k < |rest| && CueOf(inst, chord, pattern[..n][j], length, rest[k]);
      assert CueOf(inst, chord, pattern[j], length, all[k]);
    } else {
      assert CueOf(inst, chord, pattern[j], length, all[|rest|]);
    }
  }

  lemma ToneClass(note: int, root: PitchClass, off: nat)
    requires note % 12 == (root + off) % 12 && off < 12
    ensures (note - root) % 12 == off
  {
  }

  /** The event of a cue, in a bar whose ticks fit. */
  lemma PlayedIs(inst: Instrument, cue: Cue, b: nat, velocity: int)
    requires cue.at < cue.until <= BAR && 0 <= cue.note <= 127 && 1 <= velocity <= 127 && Timely(b + 1)
    ensures var e := Played(inst, cue, BarStart(b), velocity).event;
            && e.tickOn == 1920 * b + cue.at && e.tickOff - e.tickOn == cue.until - cue.at
            && e.note == cue.note && e.velocity == velocity && e.articulation == 0 && e.tickOn / 1920 == b && e.tickOn % 1920 == cue.at
  {
    DivUnique(1920 * b + cue.at, 1920, b, cue.at);
  }

  /** The event is a tone of a pattern: its place in the bar, its length and its distance from the root. */
  predicate TonePlayed(chord: Chord, tone: (nat, nat), length: nat, b: nat, v: int, e: MidiEvent) {
    && e.tickOn / 1920 == b && e.tickOn % 1920 == tone.0 && e.tickOff - e.tickOn == length && e.velocity == v && e.articulation == 0
    && e.note % 12 == (chord.rootPc + tone.1) % 12 && (e.note - chord.rootPc) % 12 == tone.1
  }

  ghost predicate PatternFits(chord: Chord, pattern: seq<(nat, nat)>, length: nat) {
    0 < length && forall j :: 0 <= j < |pattern| ==> pattern[j].0 + length <= BAR && pattern[j].1 in OffsetsFor(chord.quality)
  }

  lemma TonePlays(inst: Instrument, chord: Chord, tone: (nat, nat), length: nat, cue: Cue, b: nat, v: int)
    requires CueOf(inst, chord, tone, length, cue) && 0 < length && tone.0 + length <= BAR && tone.1 < 12
    requires 0 <= inst.minNote <= inst.maxNote <= 127 && Timely(b + 1) && 1 <= v <= 127
    ensures TonePlayed(chord, tone, length, b, v, Played(inst, cue, BarStart(b), v).event)
  {
    hide ChordTone, Played;
    PlayedIs(inst, cue, b, v);
    ToneClass(cue.note, chord.rootPc, tone.1);
  }

  lemma ToneCuePlays(inst: Instrument, chord: Chord, pattern: seq<(nat, nat)>, length: nat, k: nat, b: nat, v: int)
    requires 0 <= inst.minNote <= inst.maxNote <= 127 && Timely(b + 1) && 1 <= v <= 127
    requires k < |ToneCues(inst, chord, pattern, length)| && PatternFits(chord, pattern, length)
    ensures exists j :: 0 <= j < |pattern| && TonePlayed(chord, pattern[j], length, b, v, Played(inst, ToneCues(inst, chord, pattern, length)[k], BarStart(b), v).event)
  {
    hide ToneCues, Played, CueOf, TonePlayed;
    ToneCuesAre(inst, chord, pattern, length, k);
    var cue := ToneCues(inst, chord, pattern, length)[k];
    var j :| 0 <= j < |pattern| && CueOf(inst, chord, pattern[j], length, cue);
    TonePlays(inst, chord, pattern[j], length, cue, b, v);
  }

  lemma PatternsFit(chord: Chord)
    ensures var offsets := OffsetsFor(chord.quality);
            && PatternFits(chord, CounterPattern(offsets), BEAT - 10)
            && PatternFits(chord, ChordAt(0, offsets), BAR - 20)
            && PatternFits(chord, StabPattern(offsets), BEAT / 2 - 5)
  {
    hide OffsetsFor;
  }

  ghost predicate Keyboard(insts: seq<Instrument>) {
    forall i :: 0 <= i < |insts| ==> Fits(insts[i])
  }

  /** A task, with the base or lift the source uses. */
  predicate Usual(task: Task) {
    (task.Chordal? ==> 11 <= task.base <= 117) && (task.Stab? ==> task.lift <= 72)
  }

  /** The pattern and the length for those that play chord tones. */
  function PatternOf(task: Task, offsets: seq<nat>): seq<(nat, nat)>
    requires offsets != []
  {
    if task.Counter? then CounterPattern(offsets) else if task.Sustained? then ChordAt(0, offsets) else StabPattern(offsets)
  }

  function LengthOf(task: Task): nat {
    if task.Counter? then BEAT - 10 else if task.Sustained? then BAR - 20 else BEAT / 2 - 5
  }

  lemma CounterAt(offsets: seq<nat>, j: nat)
    requires offsets != [] && j < 4
    ensures var (at, off) := CounterPattern(offsets)[j];
            off in offsets && at in [0, 480, 960, 1440] && off == offsets[(at / 480) % |offsets|]
  {
    assert CounterPattern(offsets)[j] == (j * 480, offsets[j % |offsets|]);
    assert offsets[j % |offsets|] in offsets;
  }

  lemma ChordAtHas(at: nat, offsets: seq<nat>, j: nat)
    requires j < |offsets|
    ensures ChordAt(at, offsets)[j].0 == at && ChordAt(at, offsets)[j].1 in offsets
  {
  }

  lemma PatternAt(task: Task, offsets: seq<nat>, j: nat)
    requires offsets != [] && j < |PatternOf(task, offsets)|
    ensures var (at, off) := PatternOf(task, offsets)[j];
            && off in offsets
            && (task.Counter? ==> at in [0, 480, 960, 1440] && off == offsets[(at / 480) % |offsets|])
            && (task.Sustained? ==> at == 0)
            && (!task.Counter? && !task.Sustained? ==> at in [480, 1440])
  {
    if task.Counter? {
      CounterAt(offsets, j);
    } else if task.Sustained? {
      ChordAtHas(0, offsets, j);
    } else if j < |offsets| {
      ChordAtHas(480, offsets, j);
    } else {
      ChordAtHas(1440, offsets, j - |offsets|);
    }
  }

  lemma ToneFulfils(task: Task, insts: seq<Instrument>, i: nat, chord: Chord, tone: (nat, nat), b: nat, rng: nat -> nat, c: nat, k: nat, e: MidiEvent)
    requires i < |insts| && (task.Counter? || task.Sustained? || task.Stab?)
    requires exists j :: 0 <= j < |PatternOf(task, OffsetsFor(chord.quality))| && PatternOf(task, OffsetsFor(chord.quality))[j] == tone
    requires TonePlayed(chord, tone, LengthOf(task), b, Velocity(task, rng, c, k), e)
    ensures Plays(task, insts, i, chord, e.tickOn % 1920, e)
  {
    hide OffsetsFor, PatternOf;
    var j :| 0 <= j < |PatternOf(task, OffsetsFor(chord.quality))| && PatternOf(task, OffsetsFor(chord.quality))[j] == tone;
    PatternAt(task, OffsetsFor(chord.quality), j);
  }

  lemma PatternCuePlays(task: Task, insts: seq<Instrument>, i: nat, chord: Chord, b: nat, k: nat, rng: nat -> nat, c: nat)
    requires i < |insts| && Keyboard(insts) && Usual(task) && Timely(b + 1) && (task.Counter? || task.Sustained? || task.Stab?)
    requires k < |Cues(task, insts, i, chord)|
    ensures var e := Played(insts[i], Cues(task, insts, i, chord)[k], BarStart(b), Velocity(task, rng, c, k)).event;
            e.tickOn / 1920 == b && Plays(task, insts, i, chord, e.tickOn % 1920, e)
  {
    hide ToneCues, OffsetsFor, Played, PatternFits, Velocity, Plays, CounterPattern, ChordAt, StabPattern;
    var inst, v := insts[i], Velocity(task, rng, c, k);
    var pattern := PatternOf(task, OffsetsFor(chord.quality));
    PatternsFit(chord);
    assert 1 <= v <= 127 by { UsualVelocity(task, rng, c, k); }
    ToneCuePlays(inst, chord, pattern, LengthOf(task), k, b, v);
    var e := Played(inst, ToneCues(inst, chord, pattern, LengthOf(task))[k], BarStart(b), v).event;
    var j :| 0 <= j < |pattern| && TonePlayed(chord, pattern[j], LengthOf(task), b, v, e);
    ToneFulfils(task, insts, i, chord, pattern[j], b, rng, c, k, e);
  }

  lemma UsualVelocity(task: Task, rng: nat -> nat, c: nat, k: nat)
    requires Usual(task) && (task.BassLine? ==> k < 2)
    ensures 1 <= Velocity(task, rng, c, k) <= 127
  {
  }

  lemma CuePlays(task: Task, insts: seq<Instrument>, i: nat, chord: Chord, b: nat, k: nat, rng: nat -> nat, c: nat)
    requires i < |insts| && Keyboard(insts) && Usual(task) && Timely(b + 1) && Suits(task, insts[i])
    requires k < |Cues(task, insts, i, chord)|
    ensures var e := Played(insts[i], Cues(task, insts, i, chord)[k], BarStart(b), Velocity(task, rng, c, k)).event;
            e.tickOn / 1920 == b && Plays(task, insts, i, chord, e.tickOn % 1920, e)
  {
    hide ToneCues, PlacedMelody, Picked, BassRoot, BassFifth, OffsetsFor, Pool, PoolBefore, Quotient, Middle, Played;
    var inst := insts[i];
    var (lo, hi) := (inst.minNote, inst.maxNote);
    if task.Counter? || task.Sustained? || task.Stab? {
      PatternCuePlays(task, insts, i, chord, b, k, rng, c);
    } else {
      CuesFitAll(task, insts, i, chord);
      PlayedIs(inst, Cues(task, insts, i, chord)[k], b, Velocity(task, rng, c, k));
      match task
      case RootMelody =>
        RootAbove(Quotient(Middle(lo, hi), 12), chord.rootPc);
        if hi - lo >= 17 {
          WideRangeKeepsClass(Quotient(Middle(lo, hi), 12) * 12 + chord.rootPc, lo, hi);
        }
      case BassLine => BassClasses(chord.rootPc, lo, hi);
      case Chordal(_) =>
        if Octave(inst) && i < |Pool(chord, insts)| {
          HarmonyIsChordTone(chord, insts, i);
        }
    }
  }

  lemma RootAbove(octave: int, root: PitchClass)
    ensures (octave * 12 + root) % 12 == root
  {
  }

  // ----- where an entry of the log comes from

  lemma {:induction false} CuedOrigin(task: Task, inst: Instrument, cues: seq<Cue>, start: Word32, rng: nat -> nat, c: nat, e: Emit) returns (k: nat)
    requires e in Cued(task, inst, cues, start, rng, c)
    ensures k < |cues| && e == Played(inst, cues[k], start, Velocity(task, rng, c, k))
  {
    hide Played, Velocity;
    var n := |cues| - 1;
    if e in Cued(task, inst, cues[..n], start, rng, c) {
      k := CuedOrigin(task, inst, cues[..n], start, rng, c, e);
    } else {
      k := n;
    }
  }

  lemma {:induction false} GroupOrigin(task: Task, insts: seq<Instrument>, n: nat, chord: Chord, start: Word32, rng: nat -> nat, c: nat, e: Emit)
    returns (i: nat)
    requires n <= |insts| && e in GroupLog(task, insts, n, chord, start, rng, c)
    ensures i < n && e in Part(task, insts, i, chord, start, rng, c)
  {
    hide Part;
    if e in Part(task, insts, n - 1, chord, start, rng, c) {
      i := n - 1;
    } else {
      i := GroupOrigin(task, insts, n - 1, chord, start, rng, c, e);
    }
  }

  lemma {:induction false} BarOrigin(plan: seq<Assignment>, n: nat, chord: Chord, start: Word32, rng: nat -> nat, c: nat, e: Emit) returns (m: nat)
    requires n <= |plan| && e in BarLog(plan, n, chord, start, rng, c)
    ensures m < n
    ensures e in GroupLog(plan[m].task, plan[m].insts, |plan[m].insts|, chord, start, rng, c + BarDraws(plan, m, chord))
  {
    hide GroupLog, BarDraws;
    var a := plan[n - 1];
    if e in GroupLog(a.task, a.insts, |a.insts|, chord, start, rng, c + BarDraws(plan, n - 1, chord)) {
      m := n - 1;
    } else {
      m := BarOrigin(plan, n - 1, chord, start, rng, c, e);
    }
  }

  lemma {:induction false} ScoreOrigin(plan: seq<Assignment>, progression: seq<string>, bars: nat, rng: nat -> nat, c: nat, e: Emit) returns (b: nat)
    requires progression != [] && e in ScoreLog(plan, progression, bars, rng, c)
    ensures b < bars
    ensures e in BarLog(plan, |plan|, ParseChord(progression[b % |progression|]), BarStart(b), rng, c + ScoreDraws(plan, progression, b))
  {
    hide BarLog, BarDraws, ParseChord, BarStart;
    if e in BarLog(plan, |plan|, ChordOf(progression, bars - 1), BarStart(bars - 1), rng, c + ScoreDraws(plan, progression, bars - 1)) {
      b := bars - 1;
    } else {
      b := ScoreOrigin(plan, progression, bars - 1, rng, c, e);
    }
  }

  lemma {:induction false} CuedHas(task: Task, inst: Instrument, cues: seq<Cue>, start: Word32, rng: nat -> nat, c: nat, k: nat)
    requires k < |cues|
    ensures Played(inst, cues[k], start, Velocity(task, rng, c, k)) in Cued(task, inst, cues, start, rng, c)
  {
    hide Played, Velocity;
    if k < |cues| - 1 {
      CuedHas(task, inst, cues[..|cues| - 1], start, rng, c, k);
    }
  }

  lemma {:induction false} ScoreHas(plan: seq<Assignment>, progression: seq<string>, bars: nat, rng: nat -> nat, c: nat, b: nat, e: Emit)
    requires progression != [] && b < bars
    requires e in BarLog(plan, |plan|, ParseChord(progression[b % |progression|]), BarStart(b), rng, c + ScoreDraws(plan, progression, b))
    ensures e in ScoreLog(plan, progression, bars, rng, c)
  {
    hide BarLog, BarDraws, ParseChord, BarStart, ScoreDraws;
    if b < bars - 1 {
      ScoreHas(plan, progression, bars - 1, rng, c, b, e);
    }
  }

  // ----- the plan of an orchestration

  /** What a role is asked to play; `base` and `lift` set the velocities of harmony and stabs. */
  function TaskOf(role: Role, base: nat, lift: nat): Task {
    match role
    case Melody => RootMelody
    case Countermelody => Counter
    case Harmony => Chordal(base)
    case Bass => BassLine
    case Pad => Sustained
    case Rhythm => Stab(lift)
    case Fill => Stab(lift)
  }

  /** The instruments that share the work of a role; rhythm and fill instruments work together. */
  function Colleagues(insts: seq<Instrument>, role: Role): seq<Instrument> {
    if role.Rhythm? || role.Fill? then OfRole(insts, Rhythm) + OfRole(insts, Fill) else OfRole(insts, role)
  }

  /** Everybody in the plan has the task of the role, together with the colleagues. */
  ghost predicate GoodPlan(plan: seq<Assignment>, insts: seq<Instrument>, base: nat, lift: nat) {
    && 11 <= base <= 117 && lift <= 72
    && forall m :: 0 <= m < |plan| ==> Keyboard(plan[m].insts) && forall i :: 0 <= i < |plan[m].insts| ==>
      var inst := plan[m].insts[i];
      inst in insts && plan[m].task == TaskOf(inst.role, base, lift) && plan[m].insts == Colleagues(insts, inst.role)
  }

  /** The event plays, with the task of its instrument, the chord of the bar it begins in. */
  ghost predicate Follows(insts: seq<Instrument>, progression: seq<string>, base: nat, lift: nat, inst: Instrument, e: MidiEvent)
    requires progression != []
  {
    var group := Colleagues(insts, inst.role);
    exists i :: 0 <= i < |group| && group[i] == inst &&
      Plays(TaskOf(inst.role, base, lift), group, i, ParseChord(progression[(e.tickOn / 1920) % |progression|]), e.tickOn % 1920, e)
  }

  lemma SuitsTask(inst: Instrument, base: nat, lift: nat)
    requires 11 <= base <= 117 && lift <= 72
    ensures Usual(TaskOf(inst.role, base, lift)) && Suits(TaskOf(inst.role, base, lift), inst)
  {
  }

  lemma TimelyEarlier(b: nat, bars: nat)
    requires b < bars && Timely(bars)
    ensures Timely(b + 1)
  {
  }

  lemma EntryFollows(plan: seq<Assignment>, insts: seq<Instrument>, base: nat, lift: nat, progression: seq<string>, bars: nat, rng: nat -> nat, c: nat,
                     inst: Instrument, e: Emit)
    requires progression != [] && Timely(bars) && GoodPlan(plan, insts, base, lift) && DistinctNames(insts) && inst in insts
    requires e in ScoreLog(plan, progression, bars, rng, c) && e.name == inst.name
    ensures e.event.tickOn / 1920 < bars && Follows(insts, progression, base, lift, inst, e.event)
  {
    hide ScoreLog, BarLog, GroupLog, Cued, Cues, Played, Velocity, ParseChord, Plays, DistinctNames, BarStart, Timely, Keyboard, Usual, TaskOf, Colleagues;
    var b := ScoreOrigin(plan, progression, bars, rng, c, e);
    var chord := ParseChord(progression[b % |progression|]);
    var c1 := c + ScoreDraws(plan, progression, b);
    var m := BarOrigin(plan, |plan|, chord, BarStart(b), rng, c1, e);
    var a, c2 := plan[m], c1 + BarDraws(plan, m, chord);
    var i := GroupOrigin(a.task, a.insts, |a.insts|, chord, BarStart(b), rng, c2, e);
    var c3 := c2 + GroupDraws(a.task, a.insts, i, chord);
    var k := CuedOrigin(a.task, a.insts[i], Cues(a.task, a.insts, i, chord), BarStart(b), rng, c3, e);
    PlayedName(a.insts[i], Cues(a.task, a.insts, i, chord)[k], BarStart(b), Velocity(a.task, rng, c3, k));
    SameName(insts, a.insts[i], inst);
    SuitsTask(inst, base, lift);
    TimelyEarlier(b, bars);
    CuePlays(a.task, a.insts, i, chord, b, k, rng, c3);
  }

  lemma PlayedName(inst: Instrument, cue: Cue, start: Word32, velocity: int)
    ensures Played(inst, cue, start, velocity).name == inst.name
  {
  }

  lemma AllFit(insts: seq<Instrument>, role: Role)
    requires forall x :: x in insts ==> Fits(x)
    ensures Keyboard(OfRole(insts, role))
    ensures forall i :: 0 <= i < |OfRole(insts, role)| ==> OfRole(insts, role)[i] in insts && OfRole(insts, role)[i].role == role
  {
    hide OfRole, Fits;
    RolesKept(insts, role);
  }

  lemma PlansGood(insts: seq<Instrument>)
    requires forall x :: x in insts ==> Fits(x)
    ensures GoodPlan(ChordsPlan(insts), insts, 60, 25) && GoodPlan(FullPlan(insts), insts, 55, 20)
  {
    hide OfRole, Fits;
    AllFit(insts, Melody);
    AllFit(insts, Countermelody);
    AllFit(insts, Harmony);
    AllFit(insts, Bass);
    AllFit(insts, Pad);
    AllFit(insts, Rhythm);
    AllFit(insts, Fill);
  }

  lemma {:induction false} SelectedFrom(log: seq<Emit>, name: string, x: nat)
    requires x < |Selected(log, name)|
    ensures Emit(name, Selected(log, name)[x]) in log
  {
    var n := |log| - 1;
    assert log == log[..n] + [log[n]];
    if x < |Selected(log[..n], name)| {
      SelectedFrom(log[..n], name, x);
    } else {
      assert log[n] == Emit(name, Selected(log, name)[x]);
    }
  }

  lemma FlattenedFits(ensemble: seq<Section>)
    requires forall x :: x in Instruments(ensemble) ==> Fits(x)
    ensures forall x :: x in Flattened(ensemble) ==> Fits(x)
  {
    hide Flattened, Instruments, Fits;
    FlattenedIs(ensemble);
  }

  /**
   Every event of `orchestrate_chords` begins in some bar and plays, on the beats, with the length and
   in the velocities of its instrument's role, the chord that the progression has for that bar.
   */
  lemma ChordsFollowProgression(progression: seq<string>, ensemble: seq<Section>, bars: int, rng: nat -> nat, inst: Instrument,
                                track: seq<MidiEvent>, x: nat)
    requires DistinctNames(Instruments(ensemble)) && inst in Instruments(ensemble) && (forall y :: y in Instruments(ensemble) ==> Fits(y))
    requires (inst.name, track) in OrchestratedChords(progression, ensemble, bars, rng) && x < |track| && bars >= 1 && progression != [] && Timely(bars)
    ensures track[x].tickOn / 1920 < bars && Follows(Flattened(ensemble), progression, 60, 25, inst, track[x])
  {
    hide Flattened, Listed, Pushed, ScoreLog, Placed, DistinctNames, AllPlaced, ChordsPlan, GoodPlan, Follows, Fits, Selected, Timely, Instruments;
    var insts := Flattened(ensemble);
    FlattenedIs(ensemble);
    FlattenedFits(ensemble);
    PlansGood(insts);
    ChordsPlanSound(insts);
    var c := if OfRole(insts, Melody) == [] then 0 else |progression|;
    ScoreCovered(ChordsPlan(insts), progression, bars, rng, c, insts, false);
    var log := ChordsLog(insts, progression, bars, rng);
    ListedPlaced(ensemble, log, inst, track, false);
    SelectedFrom(log, inst.name, x);
    EntryFollows(ChordsPlan(insts), insts, 60, 25, progression, bars, rng, c, inst, Emit(inst.name, track[x]));
  }

  /** The same for the accompaniment of `orchestrate_full`. */
  lemma FullFollowsProgression(melody: seq<MidiEvent>, progression: seq<string>, ensemble: seq<Section>, bars: int, rng: nat -> nat, inst: Instrument,
                               track: seq<MidiEvent>, x: nat)
    requires DistinctNames(Instruments(ensemble)) && inst in Instruments(ensemble) && (forall y :: y in Instruments(ensemble) ==> Fits(y))
    requires inst.role != Melody && inst.role != Countermelody
    requires (inst.name, track) in OrchestratedFull(melody, progression, ensemble, bars, rng) && x < |track|
    requires melody != [] && bars >= 1 && progression != [] && Timely(bars)
    ensures track[x].tickOn / 1920 < bars && Follows(Flattened(ensemble), progression, 55, 20, inst, track[x])
  {
    hide Flattened, Listed, Pushed, ScoreLog, DistinctNames, FullPlan, GoodPlan, Follows, Fits, Selected, Timely, Instruments, Lines, OfRole;
    var insts := Flattened(ensemble);
    FlattenedIs(ensemble);
    FlattenedFits(ensemble);
    PlansGood(insts);
    var log, score := FullLog(insts, melody, progression, bars, rng), ScoreLog(FullPlan(insts), progression, bars, rng, 0);
    BackingSelected(insts, melody, progression, bars, rng, inst);
    TrackListed(ensemble, log, inst, track);
    SelectedFrom(score, inst.name, x);
    EntryFollows(FullPlan(insts), insts, 55, 20, progression, bars, rng, 0, inst, Emit(inst.name, track[x]));
  }

  /** A listed track is the selection of its name from the log. */
  lemma TrackListed(ensemble: seq<Section>, log: seq<Emit>, inst: Instrument, track: seq<MidiEvent>)
    requires (inst.name, track) in Listed(Flattened(ensemble), Pushed(map[], log))
    ensures track == Selected(log, inst.name)
  {
    hide Flattened, Listed, Pushed, Selected;
    ListedTracks(Flattened(ensemble), Pushed(map[], log));
    TrackIsSelection(map[], log, inst.name);
    var entry := (inst.name, track);
    assert entry.1 == TrackOf(Pushed(map[], log), entry.0);
    assert TrackOf(map[], inst.name) == [];
  }

  lemma BackingSelected(insts: seq<Instrument>, melody: seq<MidiEvent>, progression: seq<string>, bars: nat, rng: nat -> nat, inst: Instrument)
    requires DistinctNames(insts) && inst in insts && inst.role != Melody && inst.role != Countermelody && progression != []
    ensures Selected(FullLog(insts, melody, progression, bars, rng), inst.name)
         == Selected(ScoreLog(FullPlan(insts), progression, bars, rng, 0), inst.name)
  {
    hide Selected, Lines, DistinctNames, OfRole, ScoreLog, FullPlan;
    var lead, third := Lines(Lead, OfRole(insts, Melody), melody), Lines(Third, OfRole(insts, Countermelody), melody);
    SelectedConcat(lead + third, ScoreLog(FullPlan(insts), progression, bars, rng, 0), inst.name);
    SelectedConcat(lead, third, inst.name);
    OtherLines(Lead, insts, melody, inst);
    OtherLines(Third, insts, melody, inst);
  }

  // ----- nothing is left out

  /** The pitch class that a task must sound at tick `at` of a bar. */
  ghost predicate Expected(task: Task, chord: Chord, at: nat, pc: PitchClass) {
    var offsets := OffsetsFor(chord.quality);
    match task
    case RootMelody => at == 0 && pc == chord.rootPc
    case Counter => at in [0, 480, 960, 1440] && pc == (chord.rootPc + offsets[(at / 480) % |offsets|]) % 12
    case Chordal(_) => at == 0
    case BassLine => (at == 0 && pc == chord.rootPc) || (at == 960 && pc == (chord.rootPc + 7) % 12)
    case Sustained => at == 0 && (pc - chord.rootPc) % 12 in offsets
    case Stab(_) => at in [480, 1440] && (pc - chord.rootPc) % 12 in offsets
  }

  predicate Wide(task: Task, inst: Instrument) {
    inst.maxNote - inst.minNote >= if task.RootMelody? then 17 else 11
  }

  lemma ToneAlwaysFits(pc: nat, inst: Instrument)
    requires Octave(inst) && 0 <= inst.minNote
    ensures ChordTone(pc, inst.minNote, inst.maxNote).Some?
    ensures ChordTone(pc, inst.minNote, inst.maxNote).value % 12 == pc % 12
  {
    hide ChordTone;
    ToneKept(pc % 12, inst.minNote, inst.maxNote);
    ChordToneByClass(pc, inst.minNote, inst.maxNote);
  }

  lemma ChordToneByClass(pc: nat, lo: int, hi: int)
    ensures ChordTone(pc, lo, hi) == ChordTone(pc % 12, lo, hi)
  {
  }

  lemma OffsetOf(chord: Chord, pc: PitchClass) returns (k: nat)
    requires (pc - chord.rootPc) % 12 in OffsetsFor(chord.quality)
    ensures k < |OffsetsFor(chord.quality)| && (chord.rootPc + OffsetsFor(chord.quality)[k]) % 12 == pc
  {
    hide OffsetsFor;
    k :| 0 <= k < |OffsetsFor(chord.quality)| && OffsetsFor(chord.quality)[k] == (pc - chord.rootPc) % 12;
    assert (chord.rootPc + (pc - chord.rootPc) % 12) % 12 == pc;
  }

  /** The place of an expected tone in its pattern. */
  lemma PatternHas(task: Task, chord: Chord, at: nat, pc: PitchClass) returns (j: nat)
    requires (task.Counter? || task.Sustained? || task.Stab?) && Expected(task, chord, at, pc)
    ensures var pattern := PatternOf(task, OffsetsFor(chord.quality));
            j < |pattern| && pattern[j].0 == at && (chord.rootPc + pattern[j].1) % 12 == pc
  {
    hide OffsetsFor;
    var offsets := OffsetsFor(chord.quality);
    if task.Counter? {
      j := at / 480;
      assert CounterPattern(offsets)[j] == (j * 480, offsets[j % |offsets|]);
    } else {
      var k := OffsetOf(chord, pc);
      j := if task.Sustained? || at == 480 then k else |offsets| + k;
    }
  }

  lemma ExpectedCue(task: Task, insts: seq<Instrument>, i: nat, chord: Chord, at: nat, pc: PitchClass) returns (k: nat)
    requires i < |insts| && Keyboard(insts) && Wide(task, insts[i]) && Expected(task, chord, at, pc)
    ensures k < |Cues(task, insts, i, chord)| && Cues(task, insts, i, chord)[k].at == at
    ensures !task.Chordal? ==> Cues(task, insts, i, chord)[k].note % 12 == pc
  {
    hide ToneCues, PlacedMelody, Picked, BassRoot, BassFifth, OffsetsFor, Pool, PoolBefore, Quotient, Middle, CounterPattern, ChordAt, StabPattern, ChordTone;
    var inst := insts[i];
    var (lo, hi) := (inst.minNote, inst.maxNote);
    match task
    case RootMelody =>
      k := 0;
      RootAbove(Quotient(Middle(lo, hi), 12), chord.rootPc);
      WideRangeKeepsClass(Quotient(Middle(lo, hi), 12) * 12 + chord.rootPc, lo, hi);
    case Chordal(_) => k := 0;
    case BassLine =>
      BassClasses(chord.rootPc, lo, hi);
      k := if at == 0 then 0 else 1;
    case _ =>
      var j := PatternHas(task, chord, at, pc);
      var pattern := PatternOf(task, OffsetsFor(chord.quality));
      ToneAlwaysFits(chord.rootPc + pattern[j].1, inst);
      ToneCuesHave(inst, chord, pattern, LengthOf(task), j);
      var k' :| 0 <= k' < |ToneCues(inst, chord, pattern, LengthOf(task))| && CueOf(inst, chord, pattern[j], LengthOf(task), ToneCues(inst, chord, pattern, LengthOf(task))[k']);
      k := k';
  }

  /** The expected tone is in the log. */
  lemma ScoreSounds(plan: seq<Assignment>, m: nat, i: nat, progression: seq<string>, bars: nat, rng: nat -> nat, c: nat, b: nat, at: nat, pc: PitchClass)
    returns (e: Emit)
    requires m < |plan| && i < |plan[m].insts| && progression != [] && b < bars && Timely(bars)
    requires Keyboard(plan[m].insts) && Usual(plan[m].task) && Suits(plan[m].task, plan[m].insts[i]) && Wide(plan[m].task, plan[m].insts[i])
    requires Expected(plan[m].task, ParseChord(progression[b % |progression|]), at, pc)
    ensures e in ScoreLog(plan, progression, bars, rng, c) && e.name == plan[m].insts[i].name
    ensures e.event.tickOn == 1920 * b + at && (!plan[m].task.Chordal? ==> e.event.note % 12 == pc)
  {
    hide ScoreLog, BarLog, GroupLog, Cued, Cues, Played, Velocity, ParseChord, Expected, BarStart, Keyboard, Usual, Suits, Timely;
    var chord, a := ParseChord(progression[b % |progression|]), plan[m];
    var k := ExpectedCue(a.task, a.insts, i, chord, at, pc);
    var cue := Cues(a.task, a.insts, i, chord)[k];
    var c1 := c + ScoreDraws(plan, progression, b);
    var c2 := c1 + BarDraws(plan, m, chord);
    var c3 := c2 + GroupDraws(a.task, a.insts, i, chord);
    e := Played(a.insts[i], cue, BarStart(b), Velocity(a.task, rng, c3, k));
    CuedHas(a.task, a.insts[i], Cues(a.task, a.insts, i, chord), BarStart(b), rng, c3, k);
    GroupHas(a.task, a.insts, i, |a.insts|, chord, BarStart(b), rng, c2, e);
    BarHas(plan, m, |plan|, chord, BarStart(b), rng, c1, e);
    ScoreHas(plan, progression, bars, rng, c, b, e);
    PlayedName(a.insts[i], cue, BarStart(b), Velocity(a.task, rng, c3, k));
    TimelyEarlier(b, bars);
    CueInRange(a.task, a.insts, i, chord, k);
    assert 1 <= Velocity(a.task, rng, c3, k) <= 127 by { UsualVelocity(a.task, rng, c3, k); }
    PlayedIs(a.insts[i], cue, b, Velocity(a.task, rng, c3, k));
  }

  lemma CueInRange(task: Task, insts: seq<Instrument>, i: nat, chord: Chord, k: nat)
    requires i < |insts| && Keyboard(insts) && Suits(task, insts[i]) && k < |Cues(task, insts, i, chord)|
    ensures var cue := Cues(task, insts, i, chord)[k]; cue.at < cue.until <= BAR && 0 <= cue.note <= 127
    ensures task.BassLine? ==> k < 2
  {
    hide Cues;
    CuesFitAll(task, insts, i, chord);
  }

  /** Where an instrument stands in the plan of `orchestrate_chords`, or of the accompaniment. */
  lemma PlanHas(full: bool, insts: seq<Instrument>, inst: Instrument) returns (m: nat, i: nat)
    requires inst in insts && (full ==> inst.role != Melody && inst.role != Countermelody)
    ensures var plan := if full then FullPlan(insts) else ChordsPlan(insts);
            m < |plan| && i < |plan[m].insts| && plan[m].insts[i] == inst
  {
    hide OfRole;
    OfRoleMembers(insts, inst.role);
    var k :| 0 <= k < |OfRole(insts, inst.role)| && OfRole(insts, inst.role)[k] == inst;
    i := if inst.role.Fill? then |OfRole(insts, Rhythm)| + k else k;
    var n := match inst.role case Melody => 0 case Countermelody => 1 case Harmony => 2 case Bass => 3 case Pad => 4 case Rhythm => 5 case Fill => 5;
    m := if full then n - 2 else n;
  }

  /** In every bar, every wide enough instrument of `orchestrate_chords` sounds every tone its role calls for. */
  lemma ChordsSoundProgression(progression: seq<string>, ensemble: seq<Section>, bars: int, rng: nat -> nat, inst: Instrument, b: nat, at: nat, pc: PitchClass)
    returns (track: seq<MidiEvent>, x: nat)
    requires inst in Instruments(ensemble) && (forall y :: y in Instruments(ensemble) ==> Fits(y))
    requires bars >= 1 && progression != [] && b < bars && Timely(bars)
    requires var task := TaskOf(inst.role, 60, 25); Wide(task, inst) && Expected(task, ParseChord(progression[b % |progression|]), at, pc)
    ensures (inst.name, track) in OrchestratedChords(progression, ensemble, bars, rng)
    ensures x < |track| && track[x].tickOn == 1920 * b + at && (inst.role != Harmony ==> track[x].note % 12 == pc)
  {
    hide Flattened, Listed, Pushed, ScoreLog, Fits, Selected, Timely, Instruments, OfRole, ParseChord, Expected, Wide;
    var insts := Flattened(ensemble);
    FlattenedIs(ensemble);
    FlattenedFits(ensemble);
    PlansGood(insts);
    SuitsTask(inst, 60, 25);
    var m, i := PlanHas(false, insts, inst);
    var c := if OfRole(insts, Melody) == [] then 0 else |progression|;
    var e := ScoreSounds(ChordsPlan(insts), m, i, progression, bars, rng, c, b, at, pc);
    var log := ChordsLog(insts, progression, bars, rng);
    ListedHas(ensemble, log, inst, e);
    track := Selected(log, inst.name);
    x :| 0 <= x < |track| && track[x] == e.event;
  }

  /** The same for the accompaniment of `orchestrate_full`. */
  lemma FullSoundsProgression(melody: seq<MidiEvent>, progression: seq<string>, ensemble: seq<Section>, bars: int, rng: nat -> nat, inst: Instrument,
                              b: nat, at: nat, pc: PitchClass)
    returns (track: seq<MidiEvent>, x: nat)
    requires inst in Instruments(ensemble) && (forall y :: y in Instruments(ensemble) ==> Fits(y)) && inst.role != Melody && inst.role != Countermelody
    requires melody != [] && bars >= 1 && progression != [] && b < bars && Timely(bars)
    requires var task := TaskOf(inst.role, 55, 20); Wide(task, inst) && Expected(task, ParseChord(progression[b % |progression|]), at, pc)
    ensures (inst.name, track) in OrchestratedFull(melody, progression, ensemble, bars, rng)
    ensures x < |track| && track[x].tickOn == 1920 * b + at && (inst.role != Harmony ==> track[x].note % 12 == pc)
  {
    hide Flattened, Listed, Pushed, ScoreLog, Fits, Selected, Timely, Instruments, OfRole, ParseChord, Expected, Wide, Lines;
    var insts := Flattened(ensemble);
    FlattenedIs(ensemble);
    FlattenedFits(ensemble);
    PlansGood(insts);
    SuitsTask(inst, 55, 20);
    var m, i := PlanHas(true, insts, inst);
    var e := ScoreSounds(FullPlan(insts), m, i, progression, bars, rng, 0, b, at, pc);
    var log := FullLog(insts, melody, progression, bars, rng);
    ListedHas(ensemble, log, inst, e);
    track := Selected(log, inst.name);
    x :| 0 <= x < |track| && track[x] == e.event;
  }
}
