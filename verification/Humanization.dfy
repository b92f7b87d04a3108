/**
 Humanization of events in place, as `humanization_engine.cpp` does it: swing, jitter,
 velocity variation and grid snap. `HumanizationStyles` holds the style presets.
 */
module Humanization {
  import opened Arithmetic
  import opened Bytes
  import opened SmfTrack
  import opened NoteBalance
  import opened Permutations

  const PPQ := 480

  /** Swing is given by its delay in ticks, `int(groove_swing * 480 / 4)`. */
  datatype Params = Params(jitter: nat, variation: nat, swingDelay: nat, snap: bool, grid: int)

  // ----- integer conversions

  function Signed(x: Word32): int {
    if x < 0x8000_0000 then x else x - 0x1_0000_0000
  }

  function Unsigned(x: int): Word32 {
    x % 0x1_0000_0000
  }

  function Max(a: int, b: int): int {
    if a < b then b else a
  }

  function Clamp(v: int, lo: int, hi: int): int {
    Max(lo, if v < hi then v else hi)
  }

  /** A random offset in `-spread..spread`. */
  function Offset(random: nat, spread: nat): (d: int)
    ensures -(spread as int) <= d <= spread
  {
    random % (2 * spread + 1) - spread
  }

  // ----- one event

  function Swung(ev: MidiEvent, delay: nat): MidiEvent {
    if delay > 0 && ev.tickOn % PPQ == PPQ / 2
    then ev.(tickOn := Unsigned(ev.tickOn + delay), tickOff := Unsigned(ev.tickOff + delay))
    else ev
  }

  function Jittered(ev: MidiEvent, jitter: int): MidiEvent {
    if jitter == 0 then ev
    else
      var newOn, newOff := Signed(ev.tickOn) + jitter, Signed(ev.tickOff) + jitter;
      ev.(tickOn := Unsigned(Max(0, newOn)), tickOff := Unsigned(Max(newOn + 1, newOff)))
  }

  function Varied(ev: MidiEvent, delta: int): MidiEvent {
    ev.(velocity := Clamp(ev.velocity + delta, 1, 127))
  }

  /** An event never ends before it begins. */
  function Lengthened(ev: MidiEvent, least: nat): MidiEvent {
    if ev.tickOff <= ev.tickOn then ev.(tickOff := Unsigned(ev.tickOn + least)) else ev
  }

  function Humanized(ev: MidiEvent, p: Params, r1: nat, r2: nat): MidiEvent {
    Lengthened(Varied(Jittered(Swung(ev, p.swingDelay), Offset(r1, p.jitter)), Offset(r2, p.variation)), 1)
  }

  function SnapTick(tick: Word32, resolution: int): Word32 {
    if resolution <= 0 then tick
    else Unsigned(Quotient(Signed(tick) + resolution / 2, resolution) * resolution)
  }

  function Snapped(ev: MidiEvent, resolution: nat): MidiEvent {
    Lengthened(ev.(tickOn := SnapTick(ev.tickOn, resolution), tickOff := SnapTick(ev.tickOff, resolution)), resolution)
  }

  function Final(ev: MidiEvent, p: Params, r1: nat, r2: nat): MidiEvent {
    var h := Humanized(ev, p, r1, r2);
    if p.snap && p.grid > 0 then Snapped(h, p.grid) else h
  }

  /** `apply`: one loop that draws random numbers, then one that snaps. */
  method Apply(events: seq<MidiEvent>, p: Params, rng: nat -> nat) returns (out: seq<MidiEvent>)
    ensures |out| == |events|
    ensures forall i :: 0 <= i < |events| ==> out[i] == Final(events[i], p, rng(2 * i), rng(2 * i + 1))
  {
    hide Humanized, Snapped;
    out := events;
    for i := 0 to |events|
      invariant |out| == |events|
      invariant forall k :: 0 <= k < i ==> out[k] == Humanized(events[k], p, rng(2 * k), rng(2 * k + 1))
      invariant forall k :: i <= k < |events| ==> out[k] == events[k]
    {
      out := out[i := Humanized(out[i], p, rng(2 * i), rng(2 * i + 1))];
    }
    if p.snap && p.grid > 0 {
      for i := 0 to |events|
        invariant |out| == |events|
        invariant forall k :: 0 <= k < i ==> out[k] == Final(events[k], p, rng(2 * k), rng(2 * k + 1))
        invariant forall k :: i <= k < |events| ==> out[k] == Humanized(events[k], p, rng(2 * k), rng(2 * k + 1))
      {
        out := out[i := Snapped(out[i], p.grid)];
      }
    }
  }

  // ----- what one event keeps

  /** Moving a tick by up to `jitter` stays within a signed 32-bit integer. */
  predicate Shiftable(tick: Word32, jitter: nat) {
    -0x8000_0000 <= Signed(tick) - jitter && Signed(tick) + jitter + 1 < 0x8000_0000
  }

  /** The signed additions of the source do not overflow; any tick but those next to 2^31 will do. */
  predicate Defined(ev: MidiEvent, p: Params) {
    && p.jitter < 0x2000_0000 && p.swingDelay < 0x2000_0000
    && Shiftable(Swung(ev, p.swingDelay).tickOn, p.jitter) && Shiftable(Swung(ev, p.swingDelay).tickOff, p.jitter)
  }

  lemma UnsignedIs(x: int)
    requires -0x8000_0000 <= x < 0x1_0000_0000
    ensures Unsigned(x) == if x >= 0 then x else x + 0x1_0000_0000
  {
  }

  lemma SignedIs(tick: Word32)
    ensures Signed(tick) == if tick < 0x8000_0000 then tick else tick - 0x1_0000_0000
  {
  }

  lemma SwungIs(ev: MidiEvent, delay: nat)
    ensures Swung(ev, delay) == ev.(tickOn := Swung(ev, delay).tickOn, tickOff := Swung(ev, delay).tickOff)
    ensures ev.tickOn + delay < 0x1_0000_0000 ==> ev.tickOn <= Swung(ev, delay).tickOn <= ev.tickOn + delay
    ensures ev.tickOff + delay < 0x1_0000_0000 ==> ev.tickOff <= Swung(ev, delay).tickOff <= ev.tickOff + delay
    ensures ev.tickOn + delay < 0x1_0000_0000 && ev.tickOff + delay < 0x1_0000_0000 ==>
      Swung(ev, delay).tickOff - Swung(ev, delay).tickOn == ev.tickOff - ev.tickOn
    ensures delay < 0x1_0000_0000 && Swung(ev, delay).tickOn < ev.tickOn ==> Swung(ev, delay).tickOn == ev.tickOn + delay - 0x1_0000_0000
  {
  }

  /** The end that jitter gives an event before it is stored as an unsigned number. */
  function JitteredEnd(ev: MidiEvent, jitter: int): int {
    Max(Signed(ev.tickOn) + jitter + 1, Signed(ev.tickOff) + jitter)
  }

  /** Jitter moves the onset, but not below zero, and the end with it; an end below zero wraps. */
  lemma JitteredIs(ev: MidiEvent, jitter: int, spread: nat)
    requires -(spread as int) <= jitter <= spread && Shiftable(ev.tickOn, spread) && Shiftable(ev.tickOff, spread)
    ensures jitter == 0 ==> Jittered(ev, jitter) == ev
    ensures var (on, end) := (Max(0, Signed(ev.tickOn) + jitter), JitteredEnd(ev, jitter));
            jitter != 0 ==> Jittered(ev, jitter) == ev.(tickOn := on, tickOff := if end >= 0 then end else end + 0x1_0000_0000)
  {
    hide Unsigned;
    UnsignedIs(Max(0, Signed(ev.tickOn) + jitter));
    UnsignedIs(JitteredEnd(ev, jitter));
  }

  lemma LengthenedIs(ev: MidiEvent, least: nat)
    requires 0 < least < 0x1_0000_0000
    ensures Lengthened(ev, least) == ev.(tickOff := Lengthened(ev, least).tickOff)
    ensures ev.tickOn < ev.tickOff ==> Lengthened(ev, least) == ev
    ensures ev.tickOff <= ev.tickOn && ev.tickOn + least < 0x1_0000_0000 ==> Lengthened(ev, least).tickOff == ev.tickOn + least
    ensures ev.tickOn < Lengthened(ev, least).tickOff <==> ev.tickOn < ev.tickOff || ev.tickOn + least < 0x1_0000_0000
  {
  }

  lemma VariedIs(ev: MidiEvent, delta: int)
    ensures Varied(ev, delta) == ev.(velocity := Varied(ev, delta).velocity) && 1 <= Varied(ev, delta).velocity <= 127
    ensures 1 <= ev.velocity + delta <= 127 ==> Varied(ev, delta).velocity == ev.velocity + delta
    ensures ev.velocity + delta < 1 ==> Varied(ev, delta).velocity == 1
    ensures ev.velocity + delta > 127 ==> Varied(ev, delta).velocity == 127
  {
  }

  /**
   Pitch, channel and articulation stay, the note is audible and its velocity changes by no more
   than the variation. It lasts unless it began at the last tick of all and was not moved.
   */
  lemma HumanizedKeeps(ev: MidiEvent, p: Params, r1: nat, r2: nat)
    requires Defined(ev, p)
    ensures var (h, s) := (Humanized(ev, p, r1, r2), Swung(ev, p.swingDelay));
            && h == ev.(tickOn := h.tickOn, tickOff := h.tickOff, velocity := h.velocity)
            && 1 <= h.velocity <= 127
            && (1 <= ev.velocity <= 127 ==> ev.velocity - p.variation <= h.velocity <= ev.velocity + p.variation)
            && (h.tickOn < h.tickOff <==> !(s.tickOn == 0xFFFF_FFFF && Offset(r1, p.jitter) == 0))
  {
    hide Offset, Swung, Jittered, Lengthened, Varied;
    var s, jitter := Swung(ev, p.swingDelay), Offset(r1, p.jitter);
    SwungIs(ev, p.swingDelay);
    JitteredIs(s, jitter, p.jitter);
    VariedIs(Jittered(s, jitter), Offset(r2, p.variation));
    LengthenedIs(Varied(Jittered(s, jitter), Offset(r2, p.variation)), 1);
  }

  /** Where the onset and the end go. */
  lemma HumanizedTicks(ev: MidiEvent, p: Params, r1: nat, r2: nat)
    requires Defined(ev, p)
    ensures var (h, s, j) := (Humanized(ev, p, r1, r2), Swung(ev, p.swingDelay), Offset(r1, p.jitter));
            var end := JitteredEnd(s, j);
            && h.tickOn == (if j == 0 then s.tickOn else Max(0, Signed(s.tickOn) + j))
            && (j == 0 && s.tickOn < s.tickOff ==> h.tickOff == s.tickOff)
            && (j != 0 ==> h.tickOff == if end < 0 then end + 0x1_0000_0000 else Max(h.tickOn + 1, end))
  {
    hide Offset, Swung, Jittered, Lengthened, Varied;
    var s, jitter := Swung(ev, p.swingDelay), Offset(r1, p.jitter);
    JitteredIs(s, jitter, p.jitter);
    VariedIs(Jittered(s, jitter), Offset(r2, p.variation));
    LengthenedIs(Varied(Jittered(s, jitter), Offset(r2, p.variation)), 1);
  }

  lemma EarliestOffset(spread: nat)
    ensures Offset(0, spread) == -(spread as int) && Offset(spread, spread) == 0
  {
  }

  /**
   Whatever the seed, the onset moves by at most jitter plus swing, exactly when the swing does
   not wrap it around and jitter does not take it for a negative number.
   */
  lemma OnsetBoundedIff(ev: MidiEvent, p: Params)
    requires Defined(ev, p)
    ensures var s := Swung(ev, p.swingDelay);
            (forall r1: nat, r2: nat :: ev.tickOn - p.jitter <= Humanized(ev, p, r1, r2).tickOn <= ev.tickOn + p.swingDelay + p.jitter)
            <==> s.tickOn >= ev.tickOn && (s.tickOn < 0x8000_0000 || p.jitter == 0)
  {
    hide Humanized, Swung, Offset, JitteredEnd;
    var s := Swung(ev, p.swingDelay);
    SwungIs(ev, p.swingDelay);
    EarliestOffset(p.jitter);
    if s.tickOn >= ev.tickOn && (s.tickOn < 0x8000_0000 || p.jitter == 0) {
      SwungNoFurther(ev, p.swingDelay);
      forall r1: nat, r2: nat
        ensures ev.tickOn - p.jitter <= Humanized(ev, p, r1, r2).tickOn <= ev.tickOn + p.swingDelay + p.jitter
      {
        HumanizedTicks(ev, p, r1, r2);
      }
    } else {
      HumanizedTicks(ev, p, 0, 0);
      HumanizedTicks(ev, p, p.jitter, 0);
    }
  }

  lemma SwungNoFurther(ev: MidiEvent, delay: nat)
    ensures Swung(ev, delay).tickOn <= ev.tickOn + delay
  {
  }

  /**
   Whatever the seed, the end moves by at most jitter plus swing, exactly when the swung end is
   not within the jitter of tick zero. Otherwise some seed stores a negative end as an unsigned
   number past 2^31.
   */
  lemma EndBoundedIff(ev: MidiEvent, p: Params)
    requires Defined(ev, p) && ev.tickOn < ev.tickOff && ev.tickOff + p.swingDelay < 0x8000_0000
    ensures (forall r1: nat, r2: nat :: ev.tickOff - p.jitter <= Humanized(ev, p, r1, r2).tickOff <= ev.tickOff + p.swingDelay + p.jitter)
       <==> Swung(ev, p.swingDelay).tickOff >= p.jitter
  {
    hide Humanized, Swung, Offset;
    var s := Swung(ev, p.swingDelay);
    SwungIs(ev, p.swingDelay);
    EarliestOffset(p.jitter);
    if s.tickOff >= p.jitter {
      forall r1: nat, r2: nat
        ensures ev.tickOff - p.jitter <= Humanized(ev, p, r1, r2).tickOff <= ev.tickOff + p.swingDelay + p.jitter
      {
        HumanizedTicks(ev, p, r1, r2);
      }
    } else {
      HumanizedTicks(ev, p, 0, 0);
    }
  }

  /** Every offset within the spread can be drawn. */
  lemma OffsetReached(spread: nat, d: int) returns (random: nat)
    requires -(spread as int) <= d <= spread
    ensures Offset(random, spread) == d
  {
    random := d + spread;
    SmallMod(random, 2 * spread + 1);
  }

  /**
   Away from tick zero a note is moved as a whole: by the swing if it lies on the off-beat eighth,
   and by the drawn jitter; its length stays.
   */
  lemma MovedAsAWhole(ev: MidiEvent, p: Params, r1: nat, r2: nat)
    requires Defined(ev, p) && p.jitter <= ev.tickOn < ev.tickOff && ev.tickOff + p.swingDelay + p.jitter < 0x8000_0000
    ensures var h := Humanized(ev, p, r1, r2);
            && h.tickOn == ev.tickOn + (if ev.tickOn % 480 == 240 then p.swingDelay else 0) + Offset(r1, p.jitter)
            && h.tickOff - h.tickOn == ev.tickOff - ev.tickOn
  {
    hide Humanized, Offset, Swung;
    SwungExactly(ev, p.swingDelay);
    HumanizedTicks(ev, p, r1, r2);
  }

  lemma SwungExactly(ev: MidiEvent, delay: nat)
    requires ev.tickOn < ev.tickOff && ev.tickOff + delay < 0x8000_0000
    ensures var shift := if ev.tickOn % 480 == 240 then delay else 0;
            Swung(ev, delay) == ev.(tickOn := ev.tickOn + shift, tickOff := ev.tickOff + shift)
  {
  }

  /** A note of two ticks at the start of a track, pulled five ticks forward, ends after four thousand million ticks. */
  lemma ShortNoteRunsAway()
    ensures Humanized(MidiEvent(0, 2, 0, 60, 64, 0), Params(5, 0, 0, false, 120), 0, 0).tickOff == 0xFFFF_FFFD
  {
    hide Humanized;
    assert Offset(0, 5) == -5;
    HumanizedTicks(MidiEvent(0, 2, 0, 60, 64, 0), Params(5, 0, 0, false, 120), 0, 0);
  }

  // ----- snapping

  /** Snapping goes to a multiple of the grid, no further than half a step away. */
  lemma SnapNearest(tick: Word32, resolution: nat)
    requires 0 < resolution && tick + resolution / 2 < 0x8000_0000
    ensures SnapTick(tick, resolution) % resolution == 0
    ensures -(resolution as int) <= 2 * (SnapTick(tick, resolution) - tick) <= resolution
  {
    hide SnapTick;
    var q := SnapIs(tick, resolution);
    MultipleRemainder(q, resolution);
  }

  /** Below the sign bit, snapping is adding half a step and rounding down. */
  lemma SnapIs(tick: Word32, resolution: nat) returns (q: nat)
    requires 0 < resolution && tick + resolution / 2 < 0x8000_0000
    ensures SnapTick(tick, resolution) == q * resolution
    ensures q * resolution <= tick + resolution / 2 < q * resolution + resolution
  {
    hide Unsigned, Signed, Quotient;
    SignedIs(tick);
    Floored(tick + resolution / 2, resolution);
    q := Quotient(tick + resolution / 2, resolution);
    UnsignedIs(q * resolution);
  }

  lemma Floored(a: nat, n: nat)
    requires n > 0
    ensures Quotient(a, n) >= 0 && Quotient(a, n) * n <= a < Quotient(a, n) * n + n
  {
    assert a == n * (a / n) + a % n;
  }

  lemma MultipleRemainder(q: nat, n: nat)
    requires n > 0
    ensures (q * n) % n == 0
  {
    DivUnique(n * q, n, q, 0);
  }

  lemma SnapFixes(tick: Word32, resolution: nat)
    requires 0 < resolution && tick + resolution / 2 < 0x8000_0000 && tick % resolution == 0
    ensures SnapTick(tick, resolution) == tick
  {
    hide SnapTick;
    var q := SnapIs(tick, resolution);
    DivUnique(tick + resolution / 2, resolution, tick / resolution, resolution / 2);
    DivUnique(tick + resolution / 2, resolution, q, tick + resolution / 2 - resolution * q);
  }

  lemma SnappedKeeps(ev: MidiEvent, resolution: nat)
    requires 0 < resolution && ev.tickOn + resolution < 0x8000_0000
    ensures var s := Snapped(ev, resolution);
            && s == ev.(tickOn := s.tickOn, tickOff := s.tickOff)
            && s.tickOn < s.tickOff && s.tickOn == SnapTick(ev.tickOn, resolution)
  {
    hide SnapTick, Lengthened;
    SnapNearest(ev.tickOn, resolution);
    LengthenedIs(ev.(tickOn := SnapTick(ev.tickOn, resolution), tickOff := SnapTick(ev.tickOff, resolution)), resolution);
  }

  /** Both ends go to their nearest grid points, unless those coincide; then the note lasts one step. */
  lemma SnappedEnds(ev: MidiEvent, resolution: nat)
    requires 0 < resolution && ev.tickOn + resolution < 0x8000_0000 && ev.tickOff + resolution < 0x8000_0000
    ensures var (s, on, off) := (Snapped(ev, resolution), SnapTick(ev.tickOn, resolution), SnapTick(ev.tickOff, resolution));
            s.tickOn == on && s.tickOff == if on < off then off else on + resolution
  {
    hide SnapTick, Lengthened;
    SnapNearest(ev.tickOn, resolution);
    LengthenedIs(ev.(tickOn := SnapTick(ev.tickOn, resolution), tickOff := SnapTick(ev.tickOff, resolution)), resolution);
  }

  /** Snapping twice is snapping once. */
  lemma SnapIdempotent(ev: MidiEvent, resolution: nat)
    requires 0 < resolution && ev.tickOn + 2 * resolution < 0x8000_0000 && ev.tickOff + 2 * resolution < 0x8000_0000
    ensures Snapped(Snapped(ev, resolution), resolution) == Snapped(ev, resolution)
    ensures Snapped(ev, resolution).tickOn % resolution == 0 && Snapped(ev, resolution).tickOff % resolution == 0
  {
    hide SnapTick, Lengthened;
    var s := Snapped(ev, resolution);
    SnapNearest(ev.tickOn, resolution);
    SnapNearest(ev.tickOff, resolution);
    LengthenedIs(ev.(tickOn := SnapTick(ev.tickOn, resolution), tickOff := SnapTick(ev.tickOff, resolution)), resolution);
    NextMultiple(SnapTick(ev.tickOn, resolution), resolution);
    SnapFixes(s.tickOn, resolution);
    SnapFixes(s.tickOff, resolution);
    LengthenedIs(s, resolution);
  }

  lemma NextMultiple(x: nat, n: nat)
    requires n > 0 && x % n == 0
    ensures (x + n) % n == 0
  {
    assert x + n == n * (x / n + 1) + 0;
    DivUnique(x + n, n, x / n + 1, 0);
  }

  // ----- whole tracks

  /** The additions are defined, the note does not begin at the last tick of all, and a snapped onset stays below the sign bit. */
  predicate Roomy(ev: MidiEvent, p: Params) {
    && Defined(ev, p) && Swung(ev, p.swingDelay).tickOn != 0xFFFF_FFFF
    && (p.snap ==> Swung(ev, p.swingDelay).tickOn + p.jitter + Max(0, p.grid) < 0x8000_0000)
  }

  lemma FinalKeeps(ev: MidiEvent, p: Params, r1: nat, r2: nat)
    requires Roomy(ev, p)
    ensures var f := Final(ev, p, r1, r2);
            && f == ev.(tickOn := f.tickOn, tickOff := f.tickOff, velocity := f.velocity)
            && f.tickOn < f.tickOff && 1 <= f.velocity <= 127
  {
    hide Humanized, Snapped, Swung, Offset, JitteredEnd;
    HumanizedKeeps(ev, p, r1, r2);
    if p.snap && p.grid > 0 {
      HumanizedTicks(ev, p, r1, r2);
      SnappedKeeps(Humanized(ev, p, r1, r2), p.grid);
    }
  }

  /** Humanizing keeps the number, order, pitch and channel of events, and its result always lasts. */
  lemma HumanizedTrack(events: seq<MidiEvent>, out: seq<MidiEvent>, p: Params, rng: nat -> nat)
    requires |out| == |events| && (forall i :: 0 <= i < |events| ==> Roomy(events[i], p))
    requires forall i :: 0 <= i < |events| ==> out[i] == Final(events[i], p, rng(2 * i), rng(2 * i + 1))
    ensures Lasting(out)
    ensures forall i :: 0 <= i < |events| ==>
      && out[i] == events[i].(tickOn := out[i].tickOn, tickOff := out[i].tickOff, velocity := out[i].velocity)
      && 1 <= out[i].velocity <= 127
  {
    hide Final, Roomy;
    forall i | 0 <= i < |events|
      ensures out[i].tickOn < out[i].tickOff
      ensures out[i] == events[i].(tickOn := out[i].tickOn, tickOff := out[i].tickOff, velocity := out[i].velocity)
      ensures 1 <= out[i].velocity <= 127
    {
      FinalKeeps(events[i], p, rng(2 * i), rng(2 * i + 1));
    }
  }

  /** However a humanized track is rendered, no key is released more often than it was pressed. */
  lemma HumanizedStreamBalanced(events: seq<MidiEvent>, out: seq<MidiEvent>, p: Params, rng: nat -> nat,
                                sorted: seq<WireEvent>, channel: nat, pitch: nat)
    requires |out| == |events| && (forall i :: 0 <= i < |events| ==> Roomy(events[i], p))
    requires forall i :: 0 <= i < |events| ==> out[i] == Final(events[i], p, rng(2 * i), rng(2 * i + 1))
    requires IsSortOf(WireEvents(out), sorted) && channel < 16
    ensures forall k :: 0 <= k <= |sorted| ==>
      Count(Offs(channel, pitch), sorted[..k]) <= Count(Ons(channel, pitch), sorted[..k])
    ensures Count(Offs(channel, pitch), sorted) == Count(Ons(channel, pitch), sorted)
  {
    hide Final, Roomy, Lasting, Count;
    HumanizedTrack(events, out, p, rng);
    StreamBalanced(out, sorted, channel, pitch);
  }
}
