/**
 Octave transposition into the register of an instrument, as `orchestration_engine.cpp`
 does for melodies, basses, chord tones and harmony notes.
 */
module Register {
  import opened Arithmetic
  import opened Bytes
  import opened Permutations

  /** The middle of a range. */
  function Middle(lo: int, hi: int): int {
    Quotient(lo + hi, 2)
  }

  // ----- the two loops

  /** The first of `n`, `n + 12`, `n + 24`, ... that is not below the bound. */
  function Raised(n: int, bound: int): (r: int)
    ensures r >= bound && r >= n && r % 12 == n % 12
    ensures n < bound ==> r < bound + 12
    ensures n >= bound ==> r == n
    decreases bound - n
  {
    if n < bound then Raised(n + 12, bound) else n
  }

  /** The first of `n`, `n - 12`, `n - 24`, ... that is not above the bound. */
  function Lowered(n: int, bound: int): (r: int)
    ensures r <= bound && r <= n && r % 12 == n % 12
    ensures n > bound ==> r > bound - 12
    ensures n <= bound ==> r == n
    decreases n - bound
  {
    if n > bound then Lowered(n - 12, bound) else n
  }

  method RaiseLoop(n: int, bound: int) returns (r: int)
    ensures r == Raised(n, bound)
  {
    r := n;
    while r < bound
      invariant Raised(r, bound) == Raised(n, bound)
      decreases bound - r
    {
      r := r + 12;
    }
  }

  method LowerLoop(n: int, bound: int) returns (r: int)
    ensures r == Lowered(n, bound)
  {
    r := n;
    while r > bound
      invariant Lowered(r, bound) == Lowered(n, bound)
      decreases r - bound
    {
      r := r - 12;
    }
  }

  // ----- melodies

  /** Into `[lo+6, hi-6]` by octaves if that works out, to the middle of the range otherwise. */
  function PlacedMelody(n: int, lo: int, hi: int): int {
    var r := Lowered(Raised(n, lo + 6), hi - 6);
    if r < lo || r > hi then Middle(lo, hi) else r
  }

  method PlaceMelody(n: int, lo: int, hi: int) returns (r: int)
    ensures r == PlacedMelody(n, lo, hi)
  {
    r := RaiseLoop(n, lo + 6);
    r := LowerLoop(r, hi - 6);
    if r < lo || r > hi {
      r := Middle(lo, hi);
    }
  }

  lemma PlacedInRange(n: int, lo: int, hi: int)
    requires lo <= hi
    ensures lo <= PlacedMelody(n, lo, hi) <= hi
  {
  }

  lemma WideRangeKeepsClass(n: int, lo: int, hi: int)
    requires hi - lo >= 17
    ensures PlacedMelody(n, lo, hi) % 12 == n % 12
  {
  }

  lemma ApartByOctaves(a: int, b: int) returns (k: int)
    requires a % 12 == b % 12
    ensures a == b + 12 * k
  {
    k := a / 12 - b / 12;
  }

  lemma MiddleBetween(lo: int, hi: int)
    requires 0 <= lo <= hi
    ensures 2 * Middle(lo, hi) <= lo + hi <= 2 * Middle(lo, hi) + 1
  {
  }

  /** In a narrower range some pitch class is lost: the one that comes down past the bottom. */
  lemma NarrowRangeLosesClass(lo: int, hi: int) returns (n: int)
    requires 0 <= lo <= hi && hi - lo <= 16
    ensures 0 <= n < 12 && PlacedMelody(n, lo, hi) % 12 != n % 12
  {
    hide Raised, Lowered, Middle;
    var middle := Middle(lo, hi);
    MiddleBetween(lo, hi);
    var target := if middle == hi - 5 then hi - 16 else hi - 17;
    n := target % 12;
    var up := Raised(n, lo + 6);
    var risen := ApartByOctaves(up, target);
    var down := Lowered(up, hi - 6);
    var fallen := ApartByOctaves(down, target);
    assert risen >= 1 && fallen == 0;
    if middle % 12 == target % 12 {
      var apart := ApartByOctaves(middle, target);
    }
  }

  /** Every note keeps its pitch class exactly when the range spans at least 17 semitones. */
  lemma ClassKeptIffWide(lo: int, hi: int)
    requires 0 <= lo <= hi
    ensures (forall n: int :: 0 <= n <= 127 ==> PlacedMelody(n, lo, hi) % 12 == n % 12) <==> hi - lo >= 17
  {
    hide PlacedMelody;
    if hi - lo >= 17 {
      forall n: int | 0 <= n <= 127 ensures PlacedMelody(n, lo, hi) % 12 == n % 12 {
        WideRangeKeepsClass(n, lo, hi);
      }
    } else {
      var n := NarrowRangeLosesClass(lo, hi);
    }
  }

  // ----- basses

  /** The root on beat one and the fifth on beat three. */
  function BassRoot(pc: nat, lo: int, hi: int): int {
    var r := Lowered(Raised(Quotient(lo, 12) * 12 + pc % 12, lo + 6), lo + 18);
    var r1 := if r < lo then r + 12 else r;
    if r1 > hi then r1 - 12 else r1
  }

  function BassFifth(root: int, lo: int, hi: int): int {
    var f := if root + 7 > hi then root + 7 - 12 else root + 7;
    if f < lo then f + 12 else f
  }

  method PlaceBass(pc: nat, lo: int, hi: int) returns (root: int, fifth: int)
    ensures root == BassRoot(pc, lo, hi) && fifth == BassFifth(root, lo, hi)
  {
    root := Quotient(lo, 12) * 12 + pc % 12;
    root := RaiseLoop(root, lo + 6);
    root := LowerLoop(root, lo + 18);
    if root < lo { root := root + 12; }
    if root > hi { root := root - 12; }
    fifth := root + 7;
    if fifth > hi { fifth := fifth - 12; }
    if fifth < lo { fifth := fifth + 12; }
  }

  /** Root and fifth lie in the range for every chord exactly when the range spans at least 11 semitones. */
  lemma BassInRangeIffOctave(lo: nat, hi: nat)
    requires lo <= hi
    ensures (forall pc: nat :: pc < 12 ==>
              && lo <= BassRoot(pc, lo, hi) <= hi
              && lo <= BassFifth(BassRoot(pc, lo, hi), lo, hi) <= hi)
       <==> hi - lo >= 11
  {
    hide Raised, Lowered, BassFifth, BassRoot;
    if hi - lo >= 11 {
      forall pc: nat | pc < 12 ensures lo <= BassRoot(pc, lo, hi) <= hi && lo <= BassFifth(BassRoot(pc, lo, hi), lo, hi) <= hi {
        BassPlaced(pc, lo, hi);
      }
    } else {
      BassBelow((lo + 11) % 12, lo, hi);
    }
  }

  lemma BassStart(pc: nat, lo: nat)
    requires pc < 12
    ensures var r := Lowered(Raised(lo / 12 * 12 + pc, lo + 6), lo + 18); lo + 6 <= r <= lo + 17 && r % 12 == pc
  {
    hide Raised, Lowered;
    OctaveBelow(lo, pc);
    assert Raised(lo / 12 * 12 + pc, lo + 6) < lo + 18;
  }

  lemma OctaveBelow(lo: nat, pc: nat)
    requires pc < 12
    ensures (lo / 12 * 12 + pc) % 12 == pc && lo - 11 <= lo / 12 * 12 + pc <= lo + 11
  {
  }

  lemma Octaves(x: int, pc: nat)
    requires x % 12 == pc
    ensures (x + 12) % 12 == pc && (x - 12) % 12 == pc && (x + 7) % 12 == (pc + 7) % 12
  {
  }

  /** The placed notes are the root and the fifth of the chord. */
  lemma BassClasses(pc: nat, lo: nat, hi: nat)
    requires pc < 12
    ensures BassRoot(pc, lo, hi) % 12 == pc
    ensures BassFifth(BassRoot(pc, lo, hi), lo, hi) % 12 == (pc + 7) % 12
  {
    hide Raised, Lowered;
    BassStart(pc, lo);
    var r := Lowered(Raised(lo / 12 * 12 + pc, lo + 6), lo + 18);
    Octaves(r, pc);
    var root := BassRoot(pc, lo, hi);
    Octaves(root, pc);
    Octaves(root + 7, (pc + 7) % 12);
    Octaves(root + 7 - 12, (pc + 7) % 12);
  }

  lemma BassPlaced(pc: nat, lo: nat, hi: nat)
    requires pc < 12 && hi - lo >= 11
    ensures lo <= BassRoot(pc, lo, hi) <= hi && lo <= BassFifth(BassRoot(pc, lo, hi), lo, hi) <= hi
  {
    hide Raised, Lowered;
    BassStart(pc, lo);
  }

  lemma BassBelow(pc: nat, lo: nat, hi: nat)
    requires lo <= hi && hi - lo < 11 && pc == (lo + 11) % 12
    ensures BassRoot(pc, lo, hi) == lo - 1
  {
    hide Raised, Lowered;
    BassStart(pc, lo);
    var r := Lowered(Raised(lo / 12 * 12 + pc, lo + 6), lo + 18);
    assert r == lo + 11;
  }

  // ----- chord tones and harmony notes

  /** A pad, countermelody or stab tone near the middle of the range; `None` when it is skipped. */
  function ChordTone(pc: nat, lo: int, hi: int): (r: Option<int>)
    ensures r.Some? ==> lo <= r.value <= hi && r.value % 12 == pc % 12
  {
    var n := Quotient(Middle(lo, hi), 12) * 12 + pc % 12;
    var n1 := if n < lo then n + 12 else n;
    var n2 := if n1 > hi then n1 - 12 else n1;
    assert n % 12 == pc % 12;
    if n2 < lo || n2 > hi then None else Some(n2)
  }

  /** No tone is skipped exactly when the range spans at least 11 semitones. */
  lemma ChordToneKeptIffOctave(lo: nat, hi: nat)
    requires lo <= hi
    ensures (forall pc: nat :: pc < 12 ==> ChordTone(pc, lo, hi).Some?) <==> hi - lo >= 11
  {
    hide ChordTone;
    if hi - lo >= 11 {
      forall pc: nat | pc < 12 ensures ChordTone(pc, lo, hi).Some? {
        ToneKept(pc, lo, hi);
      }
    } else {
      ToneSkipped((hi + 1) % 12, lo, hi);
    }
  }

  lemma ToneKept(pc: nat, lo: nat, hi: nat)
    requires pc < 12 && hi - lo >= 11
    ensures ChordTone(pc, lo, hi).Some?
  {
  }

  lemma ToneSkipped(pc: nat, lo: nat, hi: nat)
    requires lo <= hi && hi - lo < 11 && pc == (hi + 1) % 12
    ensures ChordTone(pc, lo, hi).None?
  {
    hide Middle, Quotient;
    var n := Quotient(Middle(lo, hi), 12) * 12 + pc;
    NearMiddle(lo, hi, pc);
    var k := ApartByOctaves(n, hi + 1);
  }

  /** The tone of the octave that holds the middle. */
  lemma NearMiddle(lo: nat, hi: nat, pc: nat)
    requires lo <= hi && pc < 12
    ensures var n := Quotient(Middle(lo, hi), 12) * 12 + pc;
            n % 12 == pc && Middle(lo, hi) - 11 <= n <= Middle(lo, hi) + 11 && lo <= Middle(lo, hi) <= hi
  {
    hide Middle;
    MiddleBetween(lo, hi);
    OctaveBelow(Middle(lo, hi), pc);
  }

  ghost function InRange(lo: int, hi: int): int -> bool {
    (n: int) => lo <= n <= hi
  }

  ghost function Candidates(pool: seq<int>, lo: int, hi: int): seq<int> {
    Collect(InRange(lo, hi), (n: int) => n, pool)
  }

  /** A harmony note: one of the pool in range, by instrument index, or the first one transposed. */
  ghost function Picked(pool: seq<int>, lo: int, hi: int, index: nat): int {
    var candidates := Candidates(pool, lo, hi);
    if candidates != [] then candidates[index % |candidates|]
    else
      var r := Lowered(Raised(if pool == [] then 60 else pool[0], lo), hi);
      if r < lo || r > hi then Middle(lo, hi) else r
  }

  method PickNoteInRange(pool: seq<int>, lo: int, hi: int, index: nat) returns (note: int)
    ensures note == Picked(pool, lo, hi, index)
  {
    hide Raised, Lowered;
    var candidates := [];
    for i := 0 to |pool|
      invariant candidates == Candidates(pool[..i], lo, hi)
    {
      assert pool[..i + 1][..i] == pool[..i];
      if lo <= pool[i] <= hi {
        candidates := candidates + [pool[i]];
      }
    }
    assert pool[..|pool|] == pool;
    if candidates == [] {
      note := RaiseLoop(if pool == [] then 60 else pool[0], lo);
      note := LowerLoop(note, hi);
      if note < lo || note > hi {
        note := Middle(lo, hi);
      }
    } else {
      note := candidates[index % |candidates|];
    }
  }

  lemma {:induction false} CandidatesAre(pool: seq<int>, lo: int, hi: int, n: int)
    ensures n in Candidates(pool, lo, hi) <==> n in pool && lo <= n <= hi
  {
    if pool != [] {
      var k := |pool| - 1;
      CandidatesAre(pool[..k], lo, hi, n);
      assert pool == pool[..k] + [pool[k]];
    }
  }

  /** The note is always in range, comes from the pool if the pool reaches the range, and otherwise keeps the pitch class of an octave-wide range. */
  lemma PickedInRange(pool: seq<int>, lo: int, hi: int, index: nat)
    requires lo <= hi
    ensures lo <= Picked(pool, lo, hi, index) <= hi
    ensures (exists n :: n in pool && lo <= n <= hi) ==> Picked(pool, lo, hi, index) in pool
    ensures pool != [] && hi - lo >= 11 && !(exists n :: n in pool && lo <= n <= hi) ==> Picked(pool, lo, hi, index) % 12 == pool[0] % 12
  {
    hide Candidates, Raised, Lowered;
    var candidates := Candidates(pool, lo, hi);
    forall n: int ensures n in candidates <==> n in pool && lo <= n <= hi {
      CandidatesAre(pool, lo, hi, n);
    }
    if candidates != [] {
      assert candidates[index % |candidates|] in candidates;
    }
  }

  // ----- how far notes are moved

  /**
   A melody note six semitones inside the range stays; a lower one goes up to the octave just above
   that margin, a higher one down to the octave just below it.
   */
  lemma MelodyMovesLeast(n: int, lo: int, hi: int)
    requires hi - lo >= 23
    ensures var r := PlacedMelody(n, lo, hi);
            && (lo + 6 <= n <= hi - 6 ==> r == n)
            && (n < lo + 6 ==> lo + 6 <= r < lo + 18)
            && (n > hi - 6 ==> hi - 18 < r <= hi - 6)
  {
  }

  /** The bass root lies in the octave from six semitones above the lowest note; the fifth is above it if it fits, else below. */
  lemma BassStaysLow(pc: nat, lo: nat, hi: nat)
    requires pc < 12 && hi - lo >= 17
    ensures lo + 6 <= BassRoot(pc, lo, hi) <= lo + 17
    ensures var root := BassRoot(pc, lo, hi); BassFifth(root, lo, hi) == if root + 7 <= hi then root + 7 else root - 5
  {
    hide Raised, Lowered;
    BassStart(pc, lo);
  }

  /** In a range of two octaves a chord tone is less than an octave from the middle. */
  lemma ToneNearMiddle(pc: nat, lo: nat, hi: nat)
    requires pc < 12 && hi - lo >= 23
    ensures ChordTone(pc, lo, hi).Some?
    ensures lo + hi - 24 < 2 * ChordTone(pc, lo, hi).value < lo + hi + 24
  {
    hide Middle, Quotient;
    MiddleBetween(lo, hi);
    NearMiddle(lo, hi, pc);
  }
}
