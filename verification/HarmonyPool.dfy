/**
 The pool of chord tones that the harmony instruments of an ensemble share, as
 `assign_chord_to_harmony` builds and consumes it in `orchestration_engine.cpp`.
 */
module HarmonyPool {
  import opened Arithmetic
  import opened Ordered
  import opened Register
  import opened ChordSymbols
  import opened Ensemble

  // ----- building the pool

  function LowestNote(insts: seq<Instrument>): int {
    if insts == [] then 127
    else
      var rest, last := LowestNote(insts[..|insts| - 1]), insts[|insts| - 1].minNote;
      if last < rest then last else rest
  }

  function HighestNote(insts: seq<Instrument>): int {
    if insts == [] then 0
    else
      var rest, last := HighestNote(insts[..|insts| - 1]), insts[|insts| - 1].maxNote;
      if last > rest then last else rest
  }

  function Center(insts: seq<Instrument>): int {
    Middle(LowestNote(insts), HighestNote(insts))
  }

  /** A chord tone in the four octaves around the center. */
  predicate PoolTone(chord: Chord, center: int, n: nat) {
    Quotient(center, 12) - 1 <= n / 12 <= Quotient(center, 12) + 2
    && (n - chord.rootPc) % 12 in OffsetsFor(chord.quality)
  }

  /** The pool tones below `n`, ascending. */
  function Tones(chord: Chord, center: int, n: nat): seq<nat> {
    if n == 0 then []
    else Tones(chord, center, n - 1) + if PoolTone(chord, center, n - 1) then [n - 1] else []
  }

  function Pool(chord: Chord, insts: seq<Instrument>): seq<nat> {
    var tones := Tones(chord, Center(insts), 128);
    if tones == [] then [60, 64, 67] else tones
  }

  lemma {:induction false} TonesAre(chord: Chord, center: int, n: nat)
    ensures Increasing(Tones(chord, center, n))
    ensures forall t: nat :: t in Tones(chord, center, n) <==> t < n && PoolTone(chord, center, t)
  {
    hide PoolTone;
    if n > 0 {
      TonesAre(chord, center, n - 1);
      var rest := Tones(chord, center, n - 1);
      forall i | 0 <= i < |rest| ensures rest[i] < n - 1 {
        assert rest[i] in rest;
      }
    }
  }

  lemma ToneAt(n: nat, octave: int, root: PitchClass, off: nat)
    requires off < 12
    ensures n == octave * 12 + (root + off) % 12 <==> n / 12 == octave && (n - root) % 12 == off
  {
  }

  method RegisterCenter(insts: seq<Instrument>) returns (center: int)
    ensures center == Center(insts)
  {
    var low, high := 127, 0;
    for i := 0 to |insts|
      invariant low == LowestNote(insts[..i]) && high == HighestNote(insts[..i])
    {
      assert insts[..i + 1][..i] == insts[..i];
      if insts[i].minNote < low { low := insts[i].minNote; }
      if insts[i].maxNote > high { high := insts[i].maxNote; }
    }
    assert insts[..|insts|] == insts;
    center := Quotient(low + high, 2);
  }

  /** Sorting and dropping repetitions. */
  method SortUnique(s: seq<nat>) returns (r: seq<nat>)
    ensures Increasing(r) && forall t: nat :: t in r <==> t in s
  {
    r := [];
    for i := 0 to |s|
      invariant Increasing(r) && forall t: nat :: t in r <==> t in s[..i]
    {
      r := InsertKey(r, s[i]);
    }
  }

  /** The tones of one octave join the pool. */
  method AddOctave(pool: seq<nat>, chord: Chord, octave: int) returns (r: seq<nat>)
    ensures forall t: nat :: t in r <==>
      t in pool || (t <= 127 && t / 12 == octave && (t - chord.rootPc) % 12 in OffsetsFor(chord.quality))
  {
    hide OffsetsFor;
    var offsets := OffsetsFor(chord.quality);
    r := pool;
    for k := 0 to |offsets|
      invariant forall t: nat :: t in r <==>
        t in pool || (t <= 127 && t / 12 == octave && (t - chord.rootPc) % 12 in offsets[..k])
    {
      var n := octave * 12 + (chord.rootPc + offsets[k]) % 12;
      ghost var before := r;
      if 0 <= n <= 127 {
        r := r + [n];
      }
      assert offsets[..k + 1] == offsets[..k] + [offsets[k]];
      forall t: nat ensures t in r <==> t in before || (t <= 127 && t / 12 == octave && (t - chord.rootPc) % 12 == offsets[k]) {
        ToneAt(t, octave, chord.rootPc, offsets[k]);
      }
    }
    assert offsets[..|offsets|] == offsets;
  }

  method BuildPool(chord: Chord, insts: seq<Instrument>) returns (pool: seq<nat>)
    ensures pool == Pool(chord, insts)
  {
    hide OffsetsFor, Tones, Increasing, Quotient;
    var center := RegisterCenter(insts);
    pool := [];
    for oct := -1 to 3
      invariant forall t: nat :: t in pool <==>
        t <= 127 && Quotient(center, 12) - 1 <= t / 12 < Quotient(center, 12) + oct
        && (t - chord.rootPc) % 12 in OffsetsFor(chord.quality)
    {
      pool := AddOctave(pool, chord, Quotient(center, 12) + oct);
    }
    pool := SortUnique(pool);
    TonesAre(chord, center, 128);
    IncreasingUnique(pool, Tones(chord, center, 128));
    if pool == [] {
      pool := [60, 64, 67];
    }
  }

  // ----- taking notes from it

  /** The pool without the first occurrence of a note. */
  function Removed(pool: seq<nat>, note: int): seq<nat> {
    if pool == [] then []
    else if pool[|pool| - 1] == note && note !in pool[..|pool| - 1] then pool[..|pool| - 1]
    else Removed(pool[..|pool| - 1], note) + [pool[|pool| - 1]]
  }

  method RemoveNote(pool: seq<nat>, note: int) returns (r: seq<nat>)
    ensures r == Removed(pool, note)
  {
    var k := 0;
    while k < |pool| && pool[k] != note
      invariant 0 <= k <= |pool| && note !in pool[..k]
    {
      k := k + 1;
    }
    RemovedIs(pool, note, k);
    r := if k == |pool| then pool else pool[..k] + pool[k + 1..];
  }

  lemma {:induction false} RemovedIs(pool: seq<nat>, note: int, k: nat)
    requires k <= |pool| && note !in pool[..k] && (k < |pool| ==> pool[k] == note)
    ensures Removed(pool, note) == if k == |pool| then pool else pool[..k] + pool[k + 1..]
    decreases |pool|
  {
    if pool != [] {
      var n := |pool| - 1;
      var rest := pool[..n];
      assert pool == rest + [pool[n]];
      if k < n {
        assert rest[k] == note && rest[..k] == pool[..k];
        RemovedIs(rest, note, k);
      } else {
        assert rest[..n] == rest;
        assert k == n ==> pool[..k] == rest;
        assert k == n + 1 ==> pool[n] in pool[..k];
        RemovedIs(rest, note, n);
      }
    }
  }

  /** The pool that instrument `i` finds, and the note it takes. */
  ghost function PoolBefore(pool: seq<nat>, insts: seq<Instrument>, i: nat): seq<nat>
    requires i <= |insts|
    decreases i, 0
  {
    if i == 0 then pool else Removed(PoolBefore(pool, insts, i - 1), HarmonyNote(pool, insts, i - 1))
  }

  ghost function HarmonyNote(pool: seq<nat>, insts: seq<Instrument>, i: nat): int
    requires i < |insts|
    decreases i, 1
  {
    Picked(PoolBefore(pool, insts, i), insts[i].minNote, insts[i].maxNote, i)
  }

  lemma {:induction false} RemovedFrom(pool: seq<nat>, note: int)
    requires Increasing(pool)
    ensures Increasing(Removed(pool, note))
    ensures forall t: nat :: t in Removed(pool, note) <==> t in pool && t != note
    ensures |Removed(pool, note)| >= |pool| - 1
  {
    if pool != [] {
      var n := |pool| - 1;
      var rest := pool[..n];
      assert pool == rest + [pool[n]];
      RemovedFrom(rest, note);
      var r := Removed(rest, note);
      forall i | 0 <= i < |r| ensures r[i] < pool[n] {
        assert r[i] in r;
        assert r[i] in rest;
      }
    }
  }

  lemma {:induction false} PoolShrinks(pool: seq<nat>, insts: seq<Instrument>, i: nat, j: nat)
    requires Increasing(pool) && i <= j <= |insts|
    ensures Increasing(PoolBefore(pool, insts, j))
    ensures forall t: nat :: t in PoolBefore(pool, insts, j) ==> t in PoolBefore(pool, insts, i)
    ensures forall k :: i <= k < j ==> HarmonyNote(pool, insts, k) !in PoolBefore(pool, insts, j)
    ensures |PoolBefore(pool, insts, j)| >= |PoolBefore(pool, insts, i)| - (j - i)
    decreases j
  {
    hide Increasing, Removed, Picked;
    if i < j {
      PoolShrinks(pool, insts, i, j - 1);
      RemovedFrom(PoolBefore(pool, insts, j - 1), HarmonyNote(pool, insts, j - 1));
    } else if j > 0 {
      PoolShrinks(pool, insts, j - 1, j - 1);
      RemovedFrom(PoolBefore(pool, insts, j - 1), HarmonyNote(pool, insts, j - 1));
    }
  }

  ghost predicate Reaches(pool: seq<nat>, inst: Instrument) {
    exists n :: n in pool && inst.minNote <= n <= inst.maxNote
  }

  /** How many tones of the pool the instrument can play. */
  ghost function PlayableTones(pool: seq<nat>, inst: Instrument): nat {
    |Candidates(pool, inst.minNote, inst.maxNote)|
  }

  lemma PlayableReaches(pool: seq<nat>, inst: Instrument)
    ensures PlayableTones(pool, inst) > 0 <==> Reaches(pool, inst)
  {
    hide Candidates;
    var candidates := Candidates(pool, inst.minNote, inst.maxNote);
    forall n: int ensures n in candidates <==> n in pool && inst.minNote <= n <= inst.maxNote {
      CandidatesAre(pool, inst.minNote, inst.maxNote, n);
    }
    assert candidates != [] ==> candidates[0] in candidates;
  }

  /** Taking a note away costs one playable tone if it was one, and none otherwise. */
  lemma {:induction false} PlayableRemoved(pool: seq<nat>, note: int, inst: Instrument)
    ensures PlayableTones(Removed(pool, note), inst)
         == PlayableTones(pool, inst) - if note in pool && inst.minNote <= note <= inst.maxNote then 1 else 0
  {
    if pool != [] {
      var n := |pool| - 1;
      var rest := pool[..n];
      PlayableRemoved(rest, note, inst);
      assert pool == rest + [pool[n]];
      var r := Removed(rest, note) + [pool[n]];
      assert r[..|r| - 1] == Removed(rest, note);
    }
  }

  lemma {:induction false} PlayableLeft(pool: seq<nat>, insts: seq<Instrument>, i: nat, inst: Instrument)
    requires i <= |insts|
    ensures PlayableTones(PoolBefore(pool, insts, i), inst) >= PlayableTones(pool, inst) - i
  {
    hide Removed, Picked, PlayableTones;
    if i > 0 {
      PlayableLeft(pool, insts, i - 1, inst);
      PlayableRemoved(PoolBefore(pool, insts, i - 1), HarmonyNote(pool, insts, i - 1), inst);
    }
  }

  lemma PoolAscends(chord: Chord, insts: seq<Instrument>)
    ensures Increasing(Pool(chord, insts))
  {
    hide Tones;
    TonesAre(chord, Center(insts), 128);
  }

  /** An instrument that can play more tones of the pool than there are instruments before it doubles none of them. */
  lemma NoDoubling(chord: Chord, insts: seq<Instrument>, j: nat)
    requires j < |insts| && PlayableTones(Pool(chord, insts), insts[j]) > j
    ensures HarmonyNote(Pool(chord, insts), insts, j) in Pool(chord, insts)
    ensures forall i: nat :: i < j ==> HarmonyNote(Pool(chord, insts), insts, i) != HarmonyNote(Pool(chord, insts), insts, j)
  {
    hide Pool, PoolBefore, Picked, PlayableTones;
    var pool := Pool(chord, insts);
    PoolAscends(chord, insts);
    PlayableLeft(pool, insts, j, insts[j]);
    PlayableReaches(PoolBefore(pool, insts, j), insts[j]);
    PickedInRange(PoolBefore(pool, insts, j), insts[j].minNote, insts[j].maxNote, j);
    PoolShrinks(pool, insts, 0, j);
    WholePool(pool, insts);
  }

  lemma {:induction false} Extremes(insts: seq<Instrument>)
    requires forall i :: 0 <= i < |insts| ==> 0 <= insts[i].minNote <= insts[i].maxNote <= 127
    ensures 0 <= LowestNote(insts) <= 127 && 0 <= HighestNote(insts) <= 127
  {
    if insts != [] {
      Extremes(insts[..|insts| - 1]);
    }
  }

  /** In the keyboard's range the pool is never empty, so its fallback is unreachable. */
  lemma PoolHasTones(chord: Chord, insts: seq<Instrument>)
    requires forall i :: 0 <= i < |insts| ==> 0 <= insts[i].minNote <= insts[i].maxNote <= 127
    ensures Pool(chord, insts) == Tones(chord, Center(insts), 128) != []
    ensures forall n :: n in Pool(chord, insts) ==> (n - chord.rootPc) % 12 in OffsetsFor(chord.quality)
  {
    hide Tones, OffsetsFor;
    Extremes(insts);
    var center, offsets := Center(insts), OffsetsFor(chord.quality);
    TonesAre(chord, center, 128);
    var octave := if center < 12 then 0 else center / 12 - 1;
    var n := octave * 12 + (chord.rootPc + offsets[0]) % 12;
    ToneAt(n, octave, chord.rootPc, offsets[0]);
    assert offsets[0] in offsets;
    assert PoolTone(chord, center, n);
  }

  /** While the pool lasts, every harmony instrument of at least an octave plays a chord tone. */
  lemma HarmonyIsChordTone(chord: Chord, insts: seq<Instrument>, i: nat)
    requires forall k :: 0 <= k < |insts| ==> 0 <= insts[k].minNote <= insts[k].maxNote <= 127
    requires i < |insts| && i < |Pool(chord, insts)| && insts[i].maxNote - insts[i].minNote >= 11
    ensures (HarmonyNote(Pool(chord, insts), insts, i) - chord.rootPc) % 12 in OffsetsFor(chord.quality)
  {
    hide Pool, Picked, OffsetsFor, Removed, Tones, PoolBefore, Increasing;
    var pool := Pool(chord, insts);
    PoolHasTones(chord, insts);
    TonesAre(chord, Center(insts), 128);
    PoolShrinks(pool, insts, 0, i);
    WholePool(pool, insts);
    var left := PoolBefore(pool, insts, i);
    PickedFrom(left, insts[i], i, chord);
  }

  lemma WholePool(pool: seq<nat>, insts: seq<Instrument>)
    ensures PoolBefore(pool, insts, 0) == pool
  {
  }

  /** A note picked from chord tones is one, or lies octaves away from one. */
  lemma PickedFrom(left: seq<nat>, inst: Instrument, i: nat, chord: Chord)
    requires left != [] && inst.maxNote - inst.minNote >= 11
    requires forall n :: n in left ==> (n - chord.rootPc) % 12 in OffsetsFor(chord.quality)
    ensures (Picked(left, inst.minNote, inst.maxNote, i) - chord.rootPc) % 12 in OffsetsFor(chord.quality)
  {
    hide Picked, OffsetsFor;
    PickedInRange(left, inst.minNote, inst.maxNote, i);
    if !Reaches(left, inst) {
      assert left[0] in left;
      SameClass(Picked(left, inst.minNote, inst.maxNote, i), left[0], chord.rootPc);
    }
  }

  lemma SameClass(a: int, b: int, root: nat)
    requires a % 12 == b % 12
    ensures (a - root) % 12 == (b - root) % 12
  {
  }

  // ----- a section of instruments with one range

  /** A tone that left the pool was taken by an earlier instrument. */
  lemma {:induction false} TakenBy(pool: seq<nat>, insts: seq<Instrument>, j: nat, t: nat)
    requires Increasing(pool) && j <= |insts| && t in pool && t !in PoolBefore(pool, insts, j)
    ensures exists k: nat :: k < j && HarmonyNote(pool, insts, k) == t
  {
    hide Increasing, Removed, Picked;
    if j > 0 && t !in PoolBefore(pool, insts, j - 1) {
      TakenBy(pool, insts, j - 1, t);
      var k: nat :| k < j - 1 && HarmonyNote(pool, insts, k) == t;
    } else if j > 0 {
      PoolShrinks(pool, insts, 0, j - 1);
      RemovedFrom(PoolBefore(pool, insts, j - 1), HarmonyNote(pool, insts, j - 1));
    }
  }

  /** With one range, every instrument takes a playable tone as long as there is one. */
  lemma {:induction false} SectionLeft(pool: seq<nat>, insts: seq<Instrument>, i: nat, inst: Instrument)
    requires i <= |insts| && inst.minNote <= inst.maxNote
    requires forall k :: 0 <= k < i ==> insts[k].minNote == inst.minNote && insts[k].maxNote == inst.maxNote
    ensures PlayableTones(PoolBefore(pool, insts, i), inst) == if PlayableTones(pool, inst) > i then PlayableTones(pool, inst) - i else 0
  {
    hide Removed, Picked, PlayableTones;
    if i > 0 {
      var left := PoolBefore(pool, insts, i - 1);
      SectionLeft(pool, insts, i - 1, inst);
      PlayableReaches(left, inst);
      PickedInRange(left, inst.minNote, inst.maxNote, i - 1);
      PlayableRemoved(left, HarmonyNote(pool, insts, i - 1), inst);
    }
  }

  /**
   In a section of instruments that share a range of at least an octave inside the four octaves
   of the pool, an instrument doubles an earlier one exactly when there are at least as many
   instruments before it as tones that the section can play.
   */
  lemma SectionDoublesIff(chord: Chord, insts: seq<Instrument>, j: nat)
    requires forall k :: 0 <= k < |insts| ==> 0 <= insts[k].minNote <= insts[k].maxNote <= 127
    requires j < |insts| && j < |Pool(chord, insts)| && insts[j].maxNote - insts[j].minNote >= 11
    requires forall k :: 0 <= k < j ==> insts[k].minNote == insts[j].minNote && insts[k].maxNote == insts[j].maxNote
    requires Quotient(Center(insts), 12) - 1 <= insts[j].minNote / 12 && insts[j].maxNote / 12 <= Quotient(Center(insts), 12) + 2
    ensures (exists i: nat :: i < j && HarmonyNote(Pool(chord, insts), insts, i) == HarmonyNote(Pool(chord, insts), insts, j))
       <==> PlayableTones(Pool(chord, insts), insts[j]) <= j
  {
    hide Pool, PoolBefore, Picked, PlayableTones, Tones, OffsetsFor, Increasing, Quotient, Center;
    var pool, inst := Pool(chord, insts), insts[j];
    if PlayableTones(pool, inst) > j {
      NoDoubling(chord, insts, j);
    } else {
      var left, note := PoolBefore(pool, insts, j), HarmonyNote(pool, insts, j);
      PoolAscends(chord, insts);
      SectionLeft(pool, insts, j, inst);
      PlayableReaches(left, inst);
      PickedInRange(left, inst.minNote, inst.maxNote, j);
      HarmonyIsChordTone(chord, insts, j);
      PoolHasTones(chord, insts);
      TonesAre(chord, Center(insts), 128);
      InOctaves(inst.minNote, note, inst.maxNote);
      assert PoolTone(chord, Center(insts), note);
      assert note in pool && note !in left;
      TakenBy(pool, insts, j, note);
    }
  }

  lemma InOctaves(lo: nat, n: nat, hi: nat)
    requires lo <= n <= hi
    ensures lo / 12 <= n / 12 <= hi / 12
  {
  }

  // ----- the pool and the choice, said directly

  lemma {:induction false} ExtremesAre(insts: seq<Instrument>)
    requires insts != [] && forall i :: 0 <= i < |insts| ==> 0 <= insts[i].minNote <= insts[i].maxNote <= 127
    ensures (exists i :: 0 <= i < |insts| && insts[i].minNote == LowestNote(insts)) && forall i :: 0 <= i < |insts| ==> LowestNote(insts) <= insts[i].minNote
    ensures (exists i :: 0 <= i < |insts| && insts[i].maxNote == HighestNote(insts)) && forall i :: 0 <= i < |insts| ==> insts[i].maxNote <= HighestNote(insts)
  {
    var n := |insts| - 1;
    var rest := insts[..n];
    if n > 0 {
      ExtremesAre(rest);
      var i :| 0 <= i < n && rest[i].minNote == LowestNote(rest);
      var j :| 0 <= j < n && rest[j].maxNote == HighestNote(rest);
      assert insts[i] == rest[i] && insts[j] == rest[j];
      forall k | 0 <= k < n ensures LowestNote(rest) <= insts[k].minNote && insts[k].maxNote <= HighestNote(rest) {
        assert insts[k] == rest[k];
      }
    }
    assert insts[n] == insts[|insts| - 1];
  }

  /**
   The pool holds, ascending, exactly the chord tones of the keyboard in the octave below that of the
   center, in that octave and in the two above it; the center is halfway between the lowest and the
   highest note of all instruments.
   */
  lemma PoolIs(chord: Chord, insts: seq<Instrument>)
    requires insts != [] && forall i :: 0 <= i < |insts| ==> 0 <= insts[i].minNote <= insts[i].maxNote <= 127
    ensures Increasing(Pool(chord, insts))
    ensures 2 * Center(insts) <= LowestNote(insts) + HighestNote(insts) <= 2 * Center(insts) + 1
    ensures forall t: nat :: t in Pool(chord, insts) <==>
      && t <= 127 && (t - chord.rootPc) % 12 in OffsetsFor(chord.quality)
      && Center(insts) / 12 * 12 - 12 <= t < Center(insts) / 12 * 12 + 36
  {
    hide Tones, OffsetsFor, LowestNote, HighestNote, Pool;
    Extremes(insts);
    PoolHasTones(chord, insts);
    PoolAscends(chord, insts);
    TonesAre(chord, Center(insts), 128);
    MiddleBetweenAny(LowestNote(insts), HighestNote(insts));
    forall t: nat ensures Center(insts) / 12 - 1 <= t / 12 <= Center(insts) / 12 + 2 <==> Center(insts) / 12 * 12 - 12 <= t < Center(insts) / 12 * 12 + 36 {
    }
  }

  lemma MiddleBetweenAny(lo: nat, hi: nat)
    ensures 0 <= Middle(lo, hi) && 2 * Middle(lo, hi) <= lo + hi <= 2 * Middle(lo, hi) + 1
  {
  }

  lemma {:induction false} CandidatesBelow(pool: seq<nat>, lo: int, hi: int, x: nat)
    requires Increasing(pool) && x < |Candidates(pool, lo, hi)|
    ensures |Candidates(pool, lo, Candidates(pool, lo, hi)[x] - 1)| == x
  {
    var n := |pool| - 1;
    var rest, last: int := pool[..n], pool[n];
    var few, all := Candidates(rest, lo, hi), Candidates(pool, lo, hi);
    forall y: int ensures y in few ==> y < last {
      CandidatesAre(rest, lo, hi, y);
    }
    if x < |few| {
      CandidatesBelow(rest, lo, hi, x);
      assert all[x] == few[x] && few[x] in few;
    } else {
      assert all[x] == last;
      SameBelow(rest, lo, hi, last - 1);
    }
  }

  lemma {:induction false} SameBelow(pool: seq<nat>, lo: int, hi: int, top: int)
    requires top <= hi && forall i :: 0 <= i < |pool| ==> pool[i] <= top
    ensures Candidates(pool, lo, top) == Candidates(pool, lo, hi)
  {
    if pool != [] {
      SameBelow(pool[..|pool| - 1], lo, hi, top);
    }
  }

  /** Instrument `i` takes, of the tones left that it can play, number `i` counted from below and around. */
  lemma ChoiceByRank(chord: Chord, insts: seq<Instrument>, i: nat)
    requires i < |insts| && PlayableTones(PoolBefore(Pool(chord, insts), insts, i), insts[i]) > 0
    ensures var (left, note) := (PoolBefore(Pool(chord, insts), insts, i), HarmonyNote(Pool(chord, insts), insts, i));
            && note in left
            && |Candidates(left, insts[i].minNote, note - 1)| == i % PlayableTones(left, insts[i])
  {
    hide Pool, PoolBefore, Candidates, Increasing;
    var pool := Pool(chord, insts);
    var left := PoolBefore(pool, insts, i);
    PoolAscends(chord, insts);
    PoolShrinks(pool, insts, 0, i);
    var candidates := Candidates(left, insts[i].minNote, insts[i].maxNote);
    var x := i % |candidates|;
    CandidatesBelow(left, insts[i].minNote, insts[i].maxNote, x);
    CandidatesAre(left, insts[i].minNote, insts[i].maxNote, candidates[x]);
  }
}
