/**
 First-species counterpoint, as `counterpoint_engine.cpp` generates it. The random
 generator is an arbitrary stream of numbers, so everything holds for every seed.
 */
module Counterpoint {
  import opened Bytes
  import opened SmfTrack
  import opened Permutations

  const MIN_MIDI := 60
  const MAX_MIDI := 84

  // ----- intervals

  /** The remainder of C++, which takes the sign of the dividend. */
  function Rem(a: int, n: nat): int
    requires n > 0
  {
    if a >= 0 then a % n else -((-a) % n)
  }

  /** The interval above the bass, reduced to one octave. */
  function IntervalClass(note: int, bass: int): (ic: int)
    ensures ic == (note - bass) % 12
  {
    PitchClass(note - bass)
  }

  predicate Consonant(ic: int) {
    ic in [0, 3, 4, 7, 8, 9]
  }

  function Direction(prev: int, curr: int): int {
    if curr > prev then 1 else if curr < prev then -1 else 0
  }

  // ----- candidates

  /** The notes from `lo` to `hi` that are consonant with the bass, ascending. */
  function ValidNotes(bass: int, lo: int, hi: int): seq<int>
    decreases hi - lo + 1
  {
    if hi < lo then [] else ValidNotes(bass, lo, hi - 1) + if Consonant(IntervalClass(hi, bass)) then [hi] else []
  }

  lemma {:induction false} ValidNotesAre(bass: int, lo: int, hi: int, note: int)
    ensures note in ValidNotes(bass, lo, hi) <==> lo <= note <= hi && Consonant(IntervalClass(note, bass))
    decreases hi - lo + 1
  {
    hide IntervalClass;
    if lo <= hi {
      ValidNotesAre(bass, lo, hi - 1, note);
    }
  }

  const CONSONANT_INTERVALS := [0, 3, 4, 7, 8, 9]

  function PitchClass(midi: int): (pc: int)
    ensures pc == midi % 12
  {
    Rem(Rem(midi, 12) + 12, 12)
  }

  function ConsonantClasses(bass: int): seq<int> {
    seq(6, (k: nat) requires k < 6 => PitchClass(bass + CONSONANT_INTERVALS[k]))
  }

  method Contains(pcs: seq<int>, pc: int) returns (found: bool)
    ensures found <==> pc in pcs
  {
    for k := 0 to |pcs|
      invariant pc !in pcs[..k]
    {
      if pcs[k] == pc {
        return true;
      }
    }
    return false;
  }

  /** `valid_midi_notes`: pitch classes first, then a scan of the range. */
  method ValidMidiNotes(bass: int, lo: int, hi: int) returns (notes: seq<int>)
    ensures notes == ValidNotes(bass, lo, hi)
  {
    hide PitchClass, IntervalClass, Consonant;
    var pcs := [];
    for k := 0 to 6
      invariant pcs == ConsonantClasses(bass)[..k]
    {
      pcs := pcs + [PitchClass(bass + CONSONANT_INTERVALS[k])];
    }
    assert pcs == ConsonantClasses(bass);
    notes := [];
    var midi := lo;
    while midi <= hi
      invariant lo <= midi && (midi <= hi + 1 || midi == lo)
      invariant notes == ValidNotes(bass, lo, midi - 1)
      decreases hi - midi
    {
      var found := Contains(pcs, PitchClass(midi));
      ClassesMatch(bass, midi);
      if found {
        notes := notes + [midi];
      }
      midi := midi + 1;
    }
    assert hi < lo ==> ValidNotes(bass, lo, hi) == [] && ValidNotes(bass, lo, midi - 1) == [];
  }

  lemma SameClass(bass: int, midi: int, k: nat)
    requires k < 12
    ensures PitchClass(midi) == PitchClass(bass + k) <==> IntervalClass(midi, bass) == k
  {
    hide Rem;
  }

  lemma ClassesMatch(bass: int, midi: int)
    ensures PitchClass(midi) in ConsonantClasses(bass) <==> Consonant(IntervalClass(midi, bass))
  {
    hide PitchClass, IntervalClass;
    var cs := ConsonantClasses(bass);
    assert cs == [cs[0], cs[1], cs[2], cs[3], cs[4], cs[5]];
    SameClass(bass, midi, 0);
    SameClass(bass, midi, 3);
    SameClass(bass, midi, 4);
    SameClass(bass, midi, 7);
    SameClass(bass, midi, 8);
    SameClass(bass, midi, 9);
  }

  // ----- the filter

  /** Moving from one perfect consonance to the same one. */
  predicate Parallel(prevIc: int, ic: int) {
    (prevIc == 7 && ic == 7) || (prevIc == 0 && ic == 0)
  }

  /** The direction of the cantus at step `i`, zero when it has ended. */
  function CantusMotion(cf: seq<int>, i: nat): int {
    if 0 < i < |cf| then Direction(cf[i - 1], cf[i]) else 0
  }

  /** What the filter keeps at an inner step. */
  predicate Allowed(bass: int, prevNote: int, prevIc: int, motion: int, c: int) {
    && !Parallel(prevIc, IntervalClass(c, bass))
    && (motion != 0 ==> Direction(prevNote, c) == -motion)
  }

  /** At step `i` the cantus rises, or falls. */
  predicate Rises(cf: seq<int>, i: nat) {
    0 < i < |cf| && cf[i - 1] < cf[i]
  }

  predicate Falls(cf: seq<int>, i: nat) {
    0 < i < |cf| && cf[i - 1] > cf[i]
  }

  /** No fifth after a fifth and no octave after an octave, down against a rising cantus and up against a falling one. */
  predicate Contrary(bass: int, prevNote: int, prevIc: int, cf: seq<int>, i: nat, c: int) {
    && !(prevIc in [0, 7] && (c - bass) % 12 == prevIc)
    && (Rises(cf, i) ==> c < prevNote)
    && (Falls(cf, i) ==> c > prevNote)
  }

  lemma AllowedIsContrary(bass: int, prevNote: int, prevIc: int, cf: seq<int>, i: nat, c: int)
    ensures Allowed(bass, prevNote, prevIc, CantusMotion(cf, i), c) <==> Contrary(bass, prevNote, prevIc, cf, i, c)
    ensures CantusMotion(cf, i) == if Rises(cf, i) then 1 else if Falls(cf, i) then -1 else 0
  {
    hide PitchClass;
  }

  function Keep(p: int -> bool, candidates: seq<int>): seq<int> {
    Collect(p, (c: int) => c, candidates)
  }

  /** The filtered candidates, or all of them when the filter leaves none. */
  function KeepIfAny(p: int -> bool, candidates: seq<int>): seq<int> {
    if Keep(p, candidates) != [] then Keep(p, candidates) else candidates
  }

  function Filtered(candidates: seq<int>, bass: int, i: nat, n: nat, prevNote: int, prevIc: int, cf: seq<int>): seq<int> {
    if candidates == [] then candidates
    else if i == 0 || i == n - 1 then KeepIfAny((c: int) => IntervalClass(c, bass) == 0, candidates)
    else if prevNote >= 0
    then KeepIfAny((c: int) => Allowed(bass, prevNote, prevIc, CantusMotion(cf, i), c), candidates)
    else candidates
  }

  method KeepLoop(p: int -> bool, candidates: seq<int>) returns (kept: seq<int>)
    ensures kept == Keep(p, candidates)
  {
    kept := [];
    for k := 0 to |candidates|
      invariant kept == Keep(p, candidates[..k])
    {
      assert candidates[..k + 1][..k] == candidates[..k];
      if p(candidates[k]) {
        kept := kept + [candidates[k]];
      }
    }
    assert candidates[..|candidates|] == candidates;
  }

  method FilterFirstSpecies(candidates: seq<int>, bass: int, i: nat, n: nat, prevNote: int, prevIc: int, cf: seq<int>)
    returns (r: seq<int>)
    ensures r == Filtered(candidates, bass, i, n, prevNote, prevIc, cf)
  {
    if candidates == [] {
      return candidates;
    }
    if i == 0 || i == n - 1 {
      var perfect := KeepLoop((c: int) => IntervalClass(c, bass) == 0, candidates);
      if perfect != [] {
        return perfect;
      }
      return candidates;
    }
    if prevNote >= 0 {
      var motion := CantusMotion(cf, i);
      var filtered := KeepLoop((c: int) => Allowed(bass, prevNote, prevIc, CantusMotion(cf, i), c), candidates);
      if filtered != [] {
        return filtered;
      }
    }
    return candidates;
  }

  lemma {:induction false} KeepIs(p: int -> bool, candidates: seq<int>, c: int)
    ensures c in Keep(p, candidates) <==> c in candidates && p(c)
  {
    if candidates != [] {
      var n := |candidates| - 1;
      KeepIs(p, candidates[..n], c);
      assert candidates == candidates[..n] + [candidates[n]];
    }
  }

  // ----- there is always something to choose from

  lemma OctaveNear(bass: int) returns (c: int)
    ensures MIN_MIDI <= c <= MAX_MIDI && IntervalClass(c, bass) == 0
  {
    hide PitchClass;
    var x := IntervalClass(MIN_MIDI, bass);
    c := MIN_MIDI + (12 - x) % 12;
    assert (MIN_MIDI + (12 - x) % 12 - bass) % 12 == 0;
  }

  /** A choice from the filtered list passes the filter exactly when some candidate does. */
  lemma ChosenPasses(p: int -> bool, all: seq<int>, c: int)
    requires c in KeepIfAny(p, all)
    ensures c in all
    ensures p(c) <==> exists d :: d in all && p(d)
  {
    hide Keep;
    KeepIs(p, all, c);
    if exists d :: d in all && p(d) {
      var d :| d in all && p(d);
      KeepIs(p, all, d);
    }
  }

  lemma CandidatesExist(bass: int)
    ensures ValidNotes(bass, MIN_MIDI, MAX_MIDI) != []
  {
    hide ValidNotes;
    var octave := OctaveNear(bass);
    ValidNotesAre(bass, MIN_MIDI, MAX_MIDI, octave);
  }

  /** A consonance in range, as every note of the line must be. */
  predicate InRangeConsonant(bass: int, note: int) {
    MIN_MIDI <= note <= MAX_MIDI && Consonant(IntervalClass(note, bass))
  }

  /** Some consonance in range avoids parallels and, when the cantus moves, goes the other way. */
  ghost predicate HasAnswer(bass: int, prevNote: int, prevIc: int, motion: int) {
    exists c :: InRangeConsonant(bass, c) && Allowed(bass, prevNote, prevIc, motion, c)
  }

  /** What the filter promises of any choice from its result, at an end or at an inner step. */
  lemma FilterPromise(bass: int, i: nat, n: nat, prevNote: int, prevIc: int, cf: seq<int>, c: int)
    requires i < n && (i > 0 ==> prevNote >= 0)
    requires c in Filtered(ValidNotes(bass, MIN_MIDI, MAX_MIDI), bass, i, n, prevNote, prevIc, cf)
    ensures InRangeConsonant(bass, c)
    ensures i == 0 || i == n - 1 ==> IntervalClass(c, bass) == 0
    ensures 0 < i < n - 1 ==>
      (Allowed(bass, prevNote, prevIc, CantusMotion(cf, i), c) <==> HasAnswer(bass, prevNote, prevIc, CantusMotion(cf, i)))
    ensures 0 < i < n - 1 ==>
      (Contrary(bass, prevNote, prevIc, cf, i, c) <==>
       exists d :: InRangeConsonant(bass, d) && Contrary(bass, prevNote, prevIc, cf, i, d))
  {
    hide ValidNotes, KeepIfAny, IntervalClass, Allowed, Consonant, Contrary, CantusMotion;
    var all := ValidNotes(bass, MIN_MIDI, MAX_MIDI);
    CandidatesExist(bass);
    forall d: int ensures d in all <==> InRangeConsonant(bass, d) {
      ValidNotesAre(bass, MIN_MIDI, MAX_MIDI, d);
    }
    if i == 0 || i == n - 1 {
      var octave := OctaveNear(bass);
      assert octave in all by { IsConsonant(0); }
      ChosenPasses((c: int) => IntervalClass(c, bass) == 0, all, c);
    } else {
      ChosenPasses((c: int) => Allowed(bass, prevNote, prevIc, CantusMotion(cf, i), c), all, c);
      forall d: int ensures Allowed(bass, prevNote, prevIc, CantusMotion(cf, i), d) <==> Contrary(bass, prevNote, prevIc, cf, i, d) {
        AllowedIsContrary(bass, prevNote, prevIc, cf, i, d);
      }
    }
  }

  lemma IsConsonant(ic: int)
    requires ic in [0, 3, 4, 7, 8, 9]
    ensures Consonant(ic)
  {
  }

  lemma FilteredNonempty(bass: int, i: nat, n: nat, prevNote: int, prevIc: int, cf: seq<int>)
    ensures Filtered(ValidNotes(bass, MIN_MIDI, MAX_MIDI), bass, i, n, prevNote, prevIc, cf) != []
  {
    hide ValidNotes, Keep, IntervalClass, Allowed;
    CandidatesExist(bass);
  }

  /** The distance from an interval up to the next consonance that is no parallel, and down to the last one. */
  function StepUp(ic: int, prevIc: int): nat {
    match ic
    case 0 => if prevIc == 0 then 3 else 0
    case 1 => 2
    case 2 => 1
    case 5 => if prevIc == 7 then 3 else 2
    case 6 => if prevIc == 7 then 2 else 1
    case 7 => if prevIc == 7 then 1 else 0
    case 10 => if prevIc == 0 then 5 else 2
    case 11 => if prevIc == 0 then 4 else 1
    case _ => 0
  }

  function StepDown(ic: int, prevIc: int): nat {
    match ic
    case 0 => if prevIc == 0 then 3 else 0
    case 1 => if prevIc == 0 then 4 else 1
    case 2 => if prevIc == 0 then 5 else 2
    case 5 => 1
    case 6 => 2
    case 7 => if prevIc == 7 then 3 else 0
    case 10 => 1
    case 11 => 2
    case _ => 0
  }

  /** A consonance that makes no parallel with the interval before it. */
  predicate Usable(prevIc: int, ic: int) {
    Consonant(ic) && !Parallel(prevIc, ic)
  }

  lemma NextUsable(ic: int, prevIc: int, k: nat)
    requires 0 <= ic < 12 && k <= StepUp(ic, prevIc)
    ensures Usable(prevIc, (ic + k) % 12) <==> k == StepUp(ic, prevIc)
    ensures StepUp(ic, prevIc) <= 5
  {
  }

  lemma LastUsable(ic: int, prevIc: int, k: nat)
    requires 0 <= ic < 12 && k <= StepDown(ic, prevIc)
    ensures Usable(prevIc, (ic - k) % 12) <==> k == StepDown(ic, prevIc)
    ensures StepDown(ic, prevIc) <= 5
  {
  }

  /** The lowest and the highest note in range that can follow. */
  function LowestUsable(bass: int, prevIc: int): int {
    MIN_MIDI + StepUp(IntervalClass(MIN_MIDI, bass), prevIc)
  }

  function HighestUsable(bass: int, prevIc: int): int {
    MAX_MIDI - StepDown(IntervalClass(MAX_MIDI, bass), prevIc)
  }

  lemma ShiftedClass(note: int, k: int, bass: int)
    ensures IntervalClass(note + k, bass) == (IntervalClass(note, bass) + k) % 12
  {
    hide PitchClass;
  }

  lemma LowestIsUsable(bass: int, prevIc: int)
    ensures MIN_MIDI <= LowestUsable(bass, prevIc) <= MIN_MIDI + 5 && Usable(prevIc, IntervalClass(LowestUsable(bass, prevIc), bass))
    ensures forall c :: MIN_MIDI <= c < LowestUsable(bass, prevIc) ==> !Usable(prevIc, IntervalClass(c, bass))
  {
    hide IntervalClass, StepUp, Usable;
    var ic := IntervalClass(MIN_MIDI, bass);
    NextUsable(ic, prevIc, StepUp(ic, prevIc));
    ShiftedClass(MIN_MIDI, StepUp(ic, prevIc), bass);
    forall c | MIN_MIDI <= c < LowestUsable(bass, prevIc) ensures !Usable(prevIc, IntervalClass(c, bass)) {
      NextUsable(ic, prevIc, c - MIN_MIDI);
      ShiftedClass(MIN_MIDI, c - MIN_MIDI, bass);
    }
  }

  lemma HighestIsUsable(bass: int, prevIc: int)
    ensures MAX_MIDI - 5 <= HighestUsable(bass, prevIc) <= MAX_MIDI && Usable(prevIc, IntervalClass(HighestUsable(bass, prevIc), bass))
    ensures forall c :: HighestUsable(bass, prevIc) < c <= MAX_MIDI ==> !Usable(prevIc, IntervalClass(c, bass))
  {
    hide IntervalClass, StepDown, Usable;
    var ic := IntervalClass(MAX_MIDI, bass);
    LastUsable(ic, prevIc, StepDown(ic, prevIc));
    ShiftedClass(MAX_MIDI, HighestUsable(bass, prevIc) - MAX_MIDI, bass);
    forall c | HighestUsable(bass, prevIc) < c <= MAX_MIDI ensures !Usable(prevIc, IntervalClass(c, bass)) {
      LastUsable(ic, prevIc, MAX_MIDI - c);
      ShiftedClass(MAX_MIDI, c - MAX_MIDI, bass);
    }
  }

  /**
   A stationary cantus can always be answered, a rising one exactly from above the lowest usable
   note, and a falling one exactly from below the highest.
   */
  lemma AnswerExistsIff(bass: int, prevNote: int, prevIc: int, motion: int)
    requires -1 <= motion <= 1
    ensures HasAnswer(bass, prevNote, prevIc, motion) <==>
      && (motion == 1 ==> prevNote > LowestUsable(bass, prevIc))
      && (motion == -1 ==> prevNote < HighestUsable(bass, prevIc))
  {
    hide IntervalClass, LowestUsable, HighestUsable, Consonant, Parallel;
    LowestIsUsable(bass, prevIc);
    HighestIsUsable(bass, prevIc);
    var low, high := LowestUsable(bass, prevIc), HighestUsable(bass, prevIc);
    assert motion != -1 && (motion == 1 ==> prevNote > low) ==> Allowed(bass, prevNote, prevIc, motion, low) && InRangeConsonant(bass, low);
    assert motion == -1 && prevNote < high ==> Allowed(bass, prevNote, prevIc, motion, high) && InRangeConsonant(bass, high);
    if HasAnswer(bass, prevNote, prevIc, motion) {
      var c :| InRangeConsonant(bass, c) && Allowed(bass, prevNote, prevIc, motion, c);
      assert Usable(prevIc, IntervalClass(c, bass));
      assert low <= c <= high;
    }
  }

  /** A stationary cantus can always be answered; a moving one whenever six notes lie on either side. */
  lemma AnswerExists(bass: int, prevNote: int, prevIc: int, motion: int)
    requires -1 <= motion <= 1
    requires motion != 0 ==> MIN_MIDI + 6 <= prevNote <= MAX_MIDI - 6
    ensures HasAnswer(bass, prevNote, prevIc, motion)
  {
    hide IntervalClass, HasAnswer, LowestUsable, HighestUsable;
    AnswerExistsIff(bass, prevNote, prevIc, motion);
    LowestIsUsable(bass, prevIc);
    HighestIsUsable(bass, prevIc);
  }

  /** From the top of the range there is no answer to a falling cantus, from the bottom none to a rising one. */
  lemma NoAnswerAtTheEdge(bass: int, prevNote: int, prevIc: int, motion: int)
    requires (prevNote >= MAX_MIDI && motion == -1) || (prevNote <= MIN_MIDI && motion == 1)
    ensures !HasAnswer(bass, prevNote, prevIc, motion)
  {
  }

  // ----- the generator

  /** The note that would be used if no candidate were left. */
  function FallbackNote(bass: int): int {
    var octave := MIN_MIDI + Rem(bass - MIN_MIDI % 12 + 12, 12);
    var raised := if octave < MIN_MIDI then octave + 12 else octave;
    if raised > MAX_MIDI then raised - 12 else raised
  }

  /** The line is consonant and in range, starts and ends on the bass's pitch class. */
  ghost predicate Framed(bass: seq<int>, notes: seq<int>) {
    && |notes| == |bass|
    && (forall i :: 0 <= i < |notes| ==> InRangeConsonant(bass[i], notes[i]))
    && (|notes| > 0 ==>
        && IntervalClass(notes[0], bass[0]) == 0
        && IntervalClass(notes[|notes| - 1], bass[|notes| - 1]) == 0)
  }

  /** Step `i` avoids parallels and answers the cantus, exactly when that is possible. */
  ghost predicate Answers(bass: seq<int>, cf: seq<int>, notes: seq<int>, i: nat)
    requires 0 < i < |notes| <= |bass|
  {
    var prevIc, motion := IntervalClass(notes[i - 1], bass[i - 1]), CantusMotion(cf, i);
    Allowed(bass[i], notes[i - 1], prevIc, motion, notes[i]) <==> HasAnswer(bass[i], notes[i - 1], prevIc, motion)
  }

  /** The event of slot `i`: it ends five ticks before the next slot, on channel 0. */
  function SlotEvent(i: nat, slotTicks: int, note: int, velocity: Byte): MidiEvent {
    var tick := i * slotTicks;
    MidiEvent(tick % 0x1_0000_0000, (tick + slotTicks - 5) % 0x1_0000_0000, 0, note % 0x100, velocity, 0)
  }

  /** What a chosen note owes to its place in the line. */
  ghost predicate Fitting(bass: int, i: nat, n: nat, prevNote: int, prevIc: int, motion: int, note: int) {
    && InRangeConsonant(bass, note)
    && (i == 0 || i == n - 1 ==> IntervalClass(note, bass) == 0)
    && (0 < i < n - 1 ==> (Allowed(bass, prevNote, prevIc, motion, note) <==> HasAnswer(bass, prevNote, prevIc, motion)))
  }

  /** One turn of the loop: candidates, filter, random choice. */
  method ChooseNote(bass: int, i: nat, n: nat, prevNote: int, prevIc: int, cf: seq<int>, random: nat) returns (chosen: int)
    requires i < n && (i > 0 ==> prevNote >= 0)
    ensures Fitting(bass, i, n, prevNote, prevIc, CantusMotion(cf, i), chosen)
  {
    hide ValidNotes, Filtered, IntervalClass, Consonant, Allowed, HasAnswer, CantusMotion;
    var candidates := ValidMidiNotes(bass, MIN_MIDI, MAX_MIDI);
    candidates := FilterFirstSpecies(candidates, bass, i, n, prevNote, prevIc, cf);
    FilteredNonempty(bass, i, n, prevNote, prevIc, cf);
    chosen := if candidates == [] then FallbackNote(bass) else candidates[random % |candidates|];
    FilterPromise(bass, i, n, prevNote, prevIc, cf, chosen);
  }

  /** Every note so far fits its place. */
  ghost predicate LineSoFar(bass: seq<int>, cf: seq<int>, notes: seq<int>) {
    && |notes| <= |bass|
    && forall i: nat :: i < |notes| ==> FitsAt(bass, cf, notes, i)
  }

  ghost predicate FitsAt(bass: seq<int>, cf: seq<int>, notes: seq<int>, i: nat)
    requires i < |notes| <= |bass|
  {
    var prevNote := if i == 0 then -1 else notes[i - 1];
    var prevIc := if i == 0 then -1 else IntervalClass(notes[i - 1], bass[i - 1]);
    Fitting(bass[i], i, |bass|, prevNote, prevIc, CantusMotion(cf, i), notes[i])
  }

  lemma LineGrows(bass: seq<int>, cf: seq<int>, notes: seq<int>, note: int)
    requires LineSoFar(bass, cf, notes) && |notes| < |bass|
    requires FitsAt(bass, cf, notes + [note], |notes|)
    ensures LineSoFar(bass, cf, notes + [note])
  {
    hide Fitting, IntervalClass, CantusMotion;
    forall i: nat | i < |notes| ensures FitsAt(bass, cf, notes + [note], i) {
      assert FitsAt(bass, cf, notes, i);
    }
  }

  lemma LineIsFramed(bass: seq<int>, cf: seq<int>, notes: seq<int>)
    requires LineSoFar(bass, cf, notes) && |notes| == |bass|
    ensures Framed(bass, notes)
    ensures forall i :: 0 < i < |bass| - 1 ==> Answers(bass, cf, notes, i)
  {
    hide IntervalClass, CantusMotion, Allowed, HasAnswer, InRangeConsonant;
    forall i: nat | i < |notes| ensures InRangeConsonant(bass[i], notes[i]) {
      assert FitsAt(bass, cf, notes, i);
    }
    if |notes| > 0 {
      assert FitsAt(bass, cf, notes, 0);
      assert FitsAt(bass, cf, notes, |notes| - 1);
    }
    forall i | 0 < i < |bass| - 1 ensures Answers(bass, cf, notes, i) {
      assert FitsAt(bass, cf, notes, i);
    }
  }

  /** What a step of the line does, said of the notes, the bass and the cantus alone. */
  ghost predicate StepsContrary(bass: seq<int>, cf: seq<int>, notes: seq<int>, i: nat)
    requires 0 < i < |notes| <= |bass|
  {
    Contrary(bass[i], notes[i - 1], (notes[i - 1] - bass[i - 1]) % 12, cf, i, notes[i])
  }

  /**
   Wherever the cantus stands still, and wherever it moves with six notes to spare on
   either side, the line has no parallel fifths or octaves and moves against it.
   */
  lemma InnerStepsAnswer(bass: seq<int>, cf: seq<int>, notes: seq<int>, i: nat)
    requires |notes| == |bass| && 0 < i < |bass| - 1 && Answers(bass, cf, notes, i)
    requires Rises(cf, i) || Falls(cf, i) ==> 66 <= notes[i - 1] <= 78
    ensures StepsContrary(bass, cf, notes, i)
  {
    hide IntervalClass, Contrary, HasAnswer;
    var prevIc := IntervalClass(notes[i - 1], bass[i - 1]);
    AllowedIsContrary(bass[i], notes[i - 1], prevIc, cf, i, notes[i]);
    AnswerExists(bass[i], notes[i - 1], prevIc, CantusMotion(cf, i));
  }

  /** A rising cantus needs a usable note below the previous one, a falling cantus one above. */
  ghost predicate CanAnswer(bass: seq<int>, cf: seq<int>, notes: seq<int>, i: nat)
    requires 0 < i < |notes| <= |bass|
  {
    var prevIc := (notes[i - 1] - bass[i - 1]) % 12;
    && (Rises(cf, i) ==> notes[i - 1] > LowestUsable(bass[i], prevIc))
    && (Falls(cf, i) ==> notes[i - 1] < HighestUsable(bass[i], prevIc))
  }

  /**
   At an inner step the line avoids parallels and moves against a moving cantus exactly when the cantus
   stands still, or rises while the previous note is above the lowest usable one, or falls while it is
   below the highest.
   */
  lemma InnerStepAnswersIff(bass: seq<int>, cf: seq<int>, notes: seq<int>, i: nat)
    requires |notes| == |bass| && 0 < i < |bass| - 1 && Answers(bass, cf, notes, i)
    ensures StepsContrary(bass, cf, notes, i) <==> CanAnswer(bass, cf, notes, i)
  {
    hide IntervalClass, HasAnswer, LowestUsable, HighestUsable, Contrary;
    var prevIc := IntervalClass(notes[i - 1], bass[i - 1]);
    AllowedIsContrary(bass[i], notes[i - 1], prevIc, cf, i, notes[i]);
    AnswerExistsIff(bass[i], notes[i - 1], prevIc, CantusMotion(cf, i));
  }

  /** `generate_first_species`, for any stream of random numbers. */
  method GenerateFirstSpecies(bass: seq<int>, cf: seq<int>, slotTicks: int, rng: nat -> nat)
    returns (out: seq<MidiEvent>, notes: seq<int>)
    ensures Framed(bass, notes)
    ensures forall i :: 0 < i < |bass| - 1 ==> Answers(bass, cf, notes, i) && CanAnswer(bass, cf, notes, i) == StepsContrary(bass, cf, notes, i)
    ensures |out| == |bass|
    ensures forall i :: 0 <= i < |out| ==> out[i] == SlotEvent(i, slotTicks, notes[i], out[i].velocity) && 60 <= out[i].velocity <= 100
  {
    hide IntervalClass, CantusMotion, Allowed, HasAnswer, Consonant, CanAnswer, StepsContrary;
    out, notes := [], [];
    var n := |bass|;
    var prevNote, prevIc := -1, -1;
    for i := 0 to n
      invariant |out| == |notes| == i
      invariant prevNote == if i == 0 then -1 else notes[i - 1]
      invariant prevIc == if i == 0 then -1 else IntervalClass(notes[i - 1], bass[i - 1])
      invariant i > 0 ==> prevNote >= 0
      invariant LineSoFar(bass, cf, notes)
      invariant forall k :: 0 <= k < i ==> out[k] == SlotEvent(k, slotTicks, notes[k], out[k].velocity) && 60 <= out[k].velocity <= 100
    {
      var chosen := ChooseNote(bass[i], i, n, prevNote, prevIc, cf, rng(2 * i));
      LineGrows(bass, cf, notes, chosen);
      out := out + [SlotEvent(i, slotTicks, chosen, 60 + rng(2 * i + 1) % 41)];
      notes := notes + [chosen];
      prevNote := chosen;
      prevIc := IntervalClass(chosen, bass[i]);
    }
    LineIsFramed(bass, cf, notes);
    forall i | 0 < i < |bass| - 1 ensures CanAnswer(bass, cf, notes, i) == StepsContrary(bass, cf, notes, i) {
      InnerStepAnswersIff(bass, cf, notes, i);
    }
  }

  /** The slots tile the time line, five ticks apart, while ticks fit 32 bits. */
  lemma SlotsTile(i: nat, slotTicks: int, note: int, velocity: Byte)
    requires 5 < slotTicks && (i + 1) * slotTicks < 0x1_0000_0000 && 0 <= note <= 127
    ensures var e := SlotEvent(i, slotTicks, note, velocity);
            && e.tickOn == i * slotTicks && e.tickOff + 5 == (i + 1) * slotTicks && e.tickOn < e.tickOff
            && e.channel == 0 && e.note == note && e.velocity == velocity
  {
    assert (i + 1) * slotTicks == i * slotTicks + slotTicks;
  }
}
