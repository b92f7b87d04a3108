/**
 The style presets of `humanization_engine.cpp`: a base pass of humanization with the
 parameters of the style, then a delay or an advance for two of them.
 */
module HumanizationStyles {
  import opened Bytes
  import opened SmfTrack
  import opened NoteBalance
  import opened Permutations
  import opened Humanization

  datatype Style = Standard | Swing | LaidBack | Pushed | SnapToGrid

  const DELAY := 10
  const ADVANCE := 5

  /** A swing of 0.30 is a delay of 36 ticks. */
  function StyleParams(style: Style): Params {
    match style
    case Standard => Params(5, 10, 0, false, 120)
    case Swing => Params(3, 8, 36, false, 120)
    case LaidBack => Params(5, 8, 0, false, 120)
    case Pushed => Params(5, 8, 0, false, 120)
    case SnapToGrid => Params(0, 0, 0, true, 120)
  }

  /** Moving an event without letting it begin before zero or end at its onset. */
  function Shifted(ev: MidiEvent, shift: int): MidiEvent {
    var on := Unsigned(Max(0, Signed(ev.tickOn) + shift));
    ev.(tickOn := on, tickOff := Unsigned(Max(Signed(on) + 1, Signed(ev.tickOff) + shift)))
  }

  function Softer(velocity: Byte): int {
    Max(1, velocity * 9 / 10)
  }

  function Louder(velocity: Byte): int {
    if velocity * 11 / 10 < 127 then velocity * 11 / 10 else 127
  }

  function PostProcessed(style: Style, ev: MidiEvent): MidiEvent {
    match style
    case LaidBack => Shifted(ev, DELAY).(velocity := Softer(ev.velocity) % 0x100)
    case Pushed => Shifted(ev, -ADVANCE).(velocity := Louder(ev.velocity) % 0x100)
    case _ => ev
  }

  function Styled(style: Style, ev: MidiEvent, r1: nat, r2: nat): MidiEvent {
    PostProcessed(style, Final(ev, StyleParams(style), r1, r2))
  }

  function StyledTrack(style: Style, input: seq<MidiEvent>, rng: nat -> nat): (out: seq<MidiEvent>)
    ensures |out| == |input|
  {
    seq(|input|, (i: nat) requires i < |input| => Styled(style, input[i], rng(2 * i), rng(2 * i + 1)))
  }

  method HumanizeByStyle(input: seq<MidiEvent>, style: Style, rng: nat -> nat) returns (out: seq<MidiEvent>)
    ensures out == StyledTrack(style, input, rng)
  {
    hide Final, Unsigned, Signed, Softer, Louder;
    var base := Apply(input, StyleParams(style), rng);
    out := base;
    if style.LaidBack? || style.Pushed? {
      for i := 0 to |out|
        invariant |out| == |base|
        invariant forall k :: 0 <= k < i ==> out[k] == PostProcessed(style, base[k])
        invariant forall k :: i <= k < |out| ==> out[k] == base[k]
      {
        var ev := out[i];
        var shift := if style.LaidBack? then DELAY else -ADVANCE;
        var newOn, newOff := Signed(ev.tickOn) + shift, Signed(ev.tickOff) + shift;
        ev := ev.(tickOn := Unsigned(Max(0, newOn)));
        ev := ev.(tickOff := Unsigned(Max(Signed(ev.tickOn) + 1, newOff)));
        ev := ev.(velocity := (if style.LaidBack? then Softer(ev.velocity) else Louder(ev.velocity)) % 0x100);
        out := out[i := ev];
      }
    }
  }

  // ----- what every style keeps

  /** Onsets and ends far enough below the sign bit for every step of every style. */
  predicate Early(ev: MidiEvent) {
    ev.tickOn < 0x8000_0000 - 400 && ev.tickOff < 0x8000_0000 - 400
  }

  lemma EarlyIsRoomy(ev: MidiEvent, style: Style)
    requires Early(ev)
    ensures Roomy(ev, StyleParams(style))
    ensures var s := Swung(ev, StyleParams(style).swingDelay); s.tickOn <= ev.tickOn + 36 && s.tickOff <= ev.tickOff + 36
    ensures var s := Swung(ev, StyleParams(style).swingDelay); ev.tickOn <= s.tickOn && ev.tickOff <= s.tickOff
  {
    hide Swung, Signed;
    var s := Swung(ev, StyleParams(style).swingDelay);
    SwungIs(ev, StyleParams(style).swingDelay);
    SignedIs(s.tickOn);
    SignedIs(s.tickOff);
  }

  /** A shift never wraps the onset, repairs an end that did, and keeps the event lasting. */
  lemma ShiftedIs(ev: MidiEvent, shift: int)
    requires ev.tickOn < 0x8000_0000 - 20 && -10 <= shift <= 10 && (ev.tickOff < 0x8000_0000 - 20 || ev.tickOff >= 0x8000_0000 + 20)
    ensures var (r, end) := (Shifted(ev, shift), if ev.tickOff < 0x8000_0000 then ev.tickOff + shift else 0);
            && r.tickOn == Max(0, ev.tickOn + shift) && r.tickOn < r.tickOff
            && r.tickOff == Max(r.tickOn + 1, end)
            && r == ev.(tickOn := r.tickOn, tickOff := r.tickOff)
  {
    hide Unsigned, Signed;
    SignedIs(ev.tickOn);
    SignedIs(ev.tickOff);
    UnsignedIs(Max(0, ev.tickOn + shift));
    SignedIs(Max(0, ev.tickOn + shift));
    UnsignedIs(Max(Max(0, ev.tickOn + shift) + 1, Signed(ev.tickOff) + shift));
  }

  lemma VelocityKept(velocity: Byte)
    requires 1 <= velocity <= 127
    ensures 1 <= Softer(velocity) <= velocity && velocity <= Louder(velocity) <= 127
  {
  }

  /** Where the base pass leaves an event of a style that does not snap. */
  lemma BasePass(style: Style, ev: MidiEvent, r1: nat, r2: nat)
    requires Early(ev) && !style.SnapToGrid?
    ensures var (f, p) := (Final(ev, StyleParams(style), r1, r2), StyleParams(style));
            && f == Humanized(ev, p, r1, r2)
            && ev.tickOn - p.jitter <= f.tickOn <= ev.tickOn + p.swingDelay + p.jitter
            && (f.tickOff < 0x8000_0000 - 20 || f.tickOff >= 0x8000_0000 + 20)
  {
    hide Humanized, Swung, Offset, Signed;
    var p := StyleParams(style);
    EarlyIsRoomy(ev, style);
    SwungIs(ev, p.swingDelay);
    var s := Swung(ev, p.swingDelay);
    SignedIs(s.tickOn);
    SignedIs(s.tickOff);
    HumanizedTicks(ev, p, r1, r2);
    HumanizedEnd(ev, p, r1, r2);
  }

  lemma HumanizedEnd(ev: MidiEvent, p: Params, r1: nat, r2: nat)
    requires Defined(ev, p) && p.jitter <= 5 && Swung(ev, p.swingDelay).tickOn < 0x8000_0000 - 100 && Swung(ev, p.swingDelay).tickOff < 0x8000_0000 - 100
    ensures Humanized(ev, p, r1, r2).tickOff < 0x8000_0000 - 20 || Humanized(ev, p, r1, r2).tickOff >= 0x8000_0000 + 20
  {
    hide Offset, Swung, Jittered, Lengthened, Varied, Signed;
    var s, jitter := Swung(ev, p.swingDelay), Offset(r1, p.jitter);
    SignedIs(s.tickOn);
    SignedIs(s.tickOff);
    JitteredIs(s, jitter, p.jitter);
    VariedIs(Jittered(s, jitter), Offset(r2, p.variation));
    LengthenedIs(Varied(Jittered(s, jitter), Offset(r2, p.variation)), 1);
  }

  /** In every style pitch and channel stay, the note lasts and is audible. */
  lemma StyledKeeps(style: Style, ev: MidiEvent, r1: nat, r2: nat)
    requires Early(ev)
    ensures var o := Styled(style, ev, r1, r2);
            && o == ev.(tickOn := o.tickOn, tickOff := o.tickOff, velocity := o.velocity)
            && o.tickOn < o.tickOff && 1 <= o.velocity <= 127
  {
    hide Final, Shifted, Softer, Louder, Roomy, Swung, Humanized;
    var f := Final(ev, StyleParams(style), r1, r2);
    EarlyIsRoomy(ev, style);
    FinalKeeps(ev, StyleParams(style), r1, r2);
    if style.LaidBack? || style.Pushed? {
      BasePass(style, ev, r1, r2);
      PostProcessedKeeps(style, f);
    }
  }

  lemma PostProcessedKeeps(style: Style, f: MidiEvent)
    requires f.tickOn < 0x8000_0000 - 20 && (f.tickOff < 0x8000_0000 - 20 || f.tickOff >= 0x8000_0000 + 20)
    requires 1 <= f.velocity <= 127 && (style.LaidBack? || style.Pushed?)
    ensures var o := PostProcessed(style, f);
            && o == f.(tickOn := o.tickOn, tickOff := o.tickOff, velocity := o.velocity)
            && o.tickOn < o.tickOff && 1 <= o.velocity <= 127
  {
    hide Shifted, Softer, Louder;
    VelocityKept(f.velocity);
    ShiftedIs(f, if style.LaidBack? then DELAY else -ADVANCE);
  }

  /** A laid-back note is never less than 5 ticks late, a pushed one never late; the others stay near. */
  lemma StyleFeel(style: Style, ev: MidiEvent, r1: nat, r2: nat)
    requires Early(ev)
    ensures var shift := Styled(style, ev, r1, r2).tickOn - ev.tickOn;
            match style
            case Standard => -5 <= shift <= 5
            case Swing => -3 <= shift <= (if ev.tickOn % PPQ == PPQ / 2 then 39 else 3)
            case LaidBack => 5 <= shift <= 15
            case Pushed => -10 <= shift <= 0
            case SnapToGrid => -60 <= shift <= 60 && (ev.tickOn + shift) % 120 == 0
  {
    hide Final, Shifted, Softer, Louder;
    if style.SnapToGrid? {
      SnapStyleTicks(ev, r1, r2);
    } else {
      BasePass(style, ev, r1, r2);
      if style.LaidBack? {
        ShiftedIs(Final(ev, StyleParams(style), r1, r2), DELAY);
      } else if style.Pushed? {
        ShiftedIs(Final(ev, StyleParams(style), r1, r2), -ADVANCE);
      } else if style.Swing? && ev.tickOn % PPQ != PPQ / 2 {
        StraightIsNear(ev, r1, r2);
      }
    }
  }

  /** Swing leaves notes on the beat alone. */
  lemma StraightIsNear(ev: MidiEvent, r1: nat, r2: nat)
    requires Early(ev) && ev.tickOn % PPQ != PPQ / 2
    ensures Final(ev, StyleParams(Swing), r1, r2).tickOn <= ev.tickOn + 3
  {
    hide Humanized, Offset, Signed;
    EarlyIsRoomy(ev, Swing);
    SignedIs(ev.tickOn);
    HumanizedTicks(ev, StyleParams(Swing), r1, r2);
  }

  lemma SnapBase(ev: MidiEvent, r1: nat, r2: nat) returns (h: MidiEvent)
    requires Early(ev)
    ensures Final(ev, StyleParams(SnapToGrid), r1, r2) == Snapped(h, 120)
    ensures h == ev.(tickOff := h.tickOff, velocity := h.velocity) && ev.tickOff <= h.tickOff <= Max(ev.tickOff, ev.tickOn + 1)
    ensures ev.tickOn < ev.tickOff && 1 <= ev.velocity <= 127 ==> h == ev
    ensures 1 <= h.velocity <= 127
  {
    hide Snapped, Lengthened;
    var p := StyleParams(SnapToGrid);
    assert Offset(r1, 0) == 0 && Offset(r2, 0) == 0;
    h := Humanized(ev, p, r1, r2);
    assert Swung(ev, 0) == ev && Jittered(ev, 0) == ev;
    LengthenedIs(Varied(ev, 0), 1);
  }

  lemma SnapStyleTicks(ev: MidiEvent, r1: nat, r2: nat)
    requires Early(ev)
    ensures var o := Styled(SnapToGrid, ev, r1, r2);
            -60 <= o.tickOn - ev.tickOn <= 60 && o.tickOn % 120 == 0
  {
    hide Final, Lengthened, SnapTick;
    var h := SnapBase(ev, r1, r2);
    SnapNearest(ev.tickOn, 120);
    SnappedKeeps(h, 120);
  }

  /** The snap style applied twice, with any seeds, is the snap style applied once. */
  lemma SnapStyleIdempotent(ev: MidiEvent, r1: nat, r2: nat, r3: nat, r4: nat)
    requires Early(ev)
    ensures Styled(SnapToGrid, Styled(SnapToGrid, ev, r1, r2), r3, r4) == Styled(SnapToGrid, ev, r1, r2)
  {
    hide Final, Snapped;
    var h := SnapBase(ev, r1, r2);
    var o := Styled(SnapToGrid, ev, r1, r2);
    SnappedTicks(h);
    SnapAgain(o, r3, r4);
    SnapIdempotent(h, 120);
  }

  lemma SnappedTicks(h: MidiEvent)
    requires h.tickOn < 0x8000_0000 - 400 && h.tickOff <= 0x8000_0000 - 400
    ensures var o := Snapped(h, 120);
            o == h.(tickOn := o.tickOn, tickOff := o.tickOff) && o.tickOn < o.tickOff && o.tickOn < 0x8000_0000 - 300 && o.tickOff < 0x8000_0000 - 200
  {
    hide SnapTick, Lengthened;
    SnapNearest(h.tickOn, 120);
    SnapNearest(h.tickOff, 120);
    LengthenedIs(h.(tickOn := SnapTick(h.tickOn, 120), tickOff := SnapTick(h.tickOff, 120)), 120);
  }

  lemma SnapAgain(o: MidiEvent, r3: nat, r4: nat)
    requires o.tickOn < o.tickOff && 1 <= o.velocity <= 127
    ensures Final(o, StyleParams(SnapToGrid), r3, r4) == Snapped(o, 120)
  {
    hide Snapped;
    assert Offset(r3, 0) == 0 && Offset(r4, 0) == 0;
  }

  /** Snapping a whole track again, with another seed, changes nothing. */
  lemma SnappedTrackIdempotent(events: seq<MidiEvent>, rng: nat -> nat, rng': nat -> nat)
    requires forall i :: 0 <= i < |events| ==> Early(events[i])
    ensures StyledTrack(SnapToGrid, StyledTrack(SnapToGrid, events, rng), rng') == StyledTrack(SnapToGrid, events, rng)
  {
    hide Styled;
    forall i | 0 <= i < |events|
      ensures Styled(SnapToGrid, Styled(SnapToGrid, events[i], rng(2 * i), rng(2 * i + 1)), rng'(2 * i), rng'(2 * i + 1))
           == Styled(SnapToGrid, events[i], rng(2 * i), rng(2 * i + 1))
    {
      SnapStyleIdempotent(events[i], rng(2 * i), rng(2 * i + 1), rng'(2 * i), rng'(2 * i + 1));
    }
  }

  /** In every style and for every seed the whole track lasts, is audible and keeps count, order, pitch and channel. */
  lemma StyledTrackKeeps(style: Style, events: seq<MidiEvent>, rng: nat -> nat)
    requires forall i :: 0 <= i < |events| ==> Early(events[i])
    ensures Lasting(StyledTrack(style, events, rng))
    ensures forall i :: 0 <= i < |events| ==>
      var o := StyledTrack(style, events, rng)[i];
      o == events[i].(tickOn := o.tickOn, tickOff := o.tickOff, velocity := o.velocity) && 1 <= o.velocity <= 127
  {
    hide Styled;
    forall i | 0 <= i < |events|
      ensures var o := Styled(style, events[i], rng(2 * i), rng(2 * i + 1));
              && o == events[i].(tickOn := o.tickOn, tickOff := o.tickOff, velocity := o.velocity)
              && o.tickOn < o.tickOff && 1 <= o.velocity <= 127
    {
      StyledKeeps(style, events[i], rng(2 * i), rng(2 * i + 1));
    }
  }

  /** However a styled track is sorted and rendered, no key is released more often than it was pressed. */
  lemma StyledStreamBalanced(style: Style, events: seq<MidiEvent>, rng: nat -> nat, sorted: seq<WireEvent>, channel: nat, pitch: nat)
    requires forall i :: 0 <= i < |events| ==> Early(events[i])
    requires IsSortOf(WireEvents(StyledTrack(style, events, rng)), sorted) && channel < 16
    ensures forall k :: 0 <= k <= |sorted| ==>
      Count(Offs(channel, pitch), sorted[..k]) <= Count(Ons(channel, pitch), sorted[..k])
    ensures Count(Offs(channel, pitch), sorted) == Count(Ons(channel, pitch), sorted)
  {
    hide StyledTrack, Lasting, Count, Early;
    StyledTrackKeeps(style, events, rng);
    StreamBalanced(StyledTrack(style, events, rng), sorted, channel, pitch);
  }

  /**
   Whatever the seed, a style moves the end of a lasting note by less than two grid steps, exactly when the
   base pass cannot pull it below tick zero, or a later shift repairs it.
   */
  lemma StyleEndBoundedIff(style: Style, ev: MidiEvent)
    requires Early(ev) && ev.tickOn < ev.tickOff
    ensures (forall r1: nat, r2: nat :: ev.tickOff - 180 <= Styled(style, ev, r1, r2).tickOff <= ev.tickOff + 180)
       <==> style.LaidBack? || style.Pushed? || ev.tickOff >= StyleParams(style).jitter
  {
    hide Styled, Swung;
    var p := StyleParams(style);
    EarlyIsRoomy(ev, style);
    if style.LaidBack? || style.Pushed? || ev.tickOff >= p.jitter {
      forall r1: nat, r2: nat ensures ev.tickOff - 180 <= Styled(style, ev, r1, r2).tickOff <= ev.tickOff + 180 {
        StyledEnd(style, ev, r1, r2);
      }
    } else {
      StyledRunsAway(style, ev);
    }
  }

  lemma StyledEnd(style: Style, ev: MidiEvent, r1: nat, r2: nat)
    requires Early(ev) && ev.tickOn < ev.tickOff
    requires style.LaidBack? || style.Pushed? || ev.tickOff >= StyleParams(style).jitter
    ensures ev.tickOff - 180 <= Styled(style, ev, r1, r2).tickOff <= ev.tickOff + 180
  {
    hide Final, Shifted, Softer, Louder, Swung, Signed, Offset, Humanized;
    var p := StyleParams(style);
    EarlyIsRoomy(ev, style);
    if style.SnapToGrid? {
      SnapStyleEnd(ev, r1, r2);
    } else {
      BasePass(style, ev, r1, r2);
      var s := Swung(ev, p.swingDelay);
      SignedIs(s.tickOn);
      SignedIs(s.tickOff);
      SwungIs(ev, p.swingDelay);
      HumanizedTicks(ev, p, r1, r2);
      if style.LaidBack? || style.Pushed? {
        ShiftedIs(Final(ev, p, r1, r2), if style.LaidBack? then DELAY else -ADVANCE);
      }
    }
  }

  lemma SnapStyleEnd(ev: MidiEvent, r1: nat, r2: nat)
    requires Early(ev) && ev.tickOn < ev.tickOff
    ensures ev.tickOff - 180 <= Styled(SnapToGrid, ev, r1, r2).tickOff <= ev.tickOff + 180
  {
    hide Final, Lengthened, SnapTick;
    var h := SnapBase(ev, r1, r2);
    SnapNearest(h.tickOn, 120);
    SnapNearest(h.tickOff, 120);
    LengthenedIs(h.(tickOn := SnapTick(h.tickOn, 120), tickOff := SnapTick(h.tickOff, 120)), 120);
  }

  /** An end inside the jitter is pulled below zero by the seed that draws the earliest offset. */
  lemma StyledRunsAway(style: Style, ev: MidiEvent)
    requires ev.tickOn < ev.tickOff && (style.Standard? || style.Swing?) && ev.tickOff < StyleParams(style).jitter
    ensures Styled(style, ev, 0, 0).tickOff > ev.tickOff + 180
  {
    hide Humanized, Signed, Offset;
    var p := StyleParams(style);
    assert Swung(ev, p.swingDelay) == ev;
    SignedIs(ev.tickOn);
    SignedIs(ev.tickOff);
    EarliestOffset(p.jitter);
    HumanizedTicks(ev, p, 0, 0);
  }

  // ----- how far a style goes

  /** The laid-back style plays nine tenths of the velocity, the pushed one eleven tenths, rounded down and kept audible. */
  lemma VelocityScaled(velocity: Byte)
    requires 1 <= velocity <= 127
    ensures velocity > 1 ==> 9 * velocity - 9 <= 10 * Softer(velocity) <= 9 * velocity
    ensures Softer(1) == 1
    ensures velocity <= 115 ==> 11 * velocity - 9 <= 10 * Louder(velocity) <= 11 * velocity
    ensures velocity > 115 ==> Louder(velocity) == 127
  {
  }

  /** The shift of the onset that a style adds to the jitter. */
  function Lean(style: Style, ev: MidiEvent): int {
    match style
    case Standard => 0
    case Swing => if ev.tickOn % 480 == 240 then 36 else 0
    case LaidBack => 10
    case Pushed => -5
    case SnapToGrid => 0
  }

  /** The jitter and the variation of a style. */
  function Looseness(style: Style): (nat, nat) {
    match style
    case Standard => (5, 10)
    case Swing => (3, 8)
    case LaidBack => (5, 8)
    case Pushed => (5, 8)
    case SnapToGrid => (0, 0)
  }

  /**
   Away from tick zero, every style but the snap moves a note as a whole, by its lean and an offset
   within its jitter, and keeps its length.
   */
  lemma StyleMoves(style: Style, ev: MidiEvent, r1: nat, r2: nat)
    requires Early(ev) && 20 <= ev.tickOn < ev.tickOff && !style.SnapToGrid?
    ensures var o := Styled(style, ev, r1, r2);
            && o.tickOn == ev.tickOn + Lean(style, ev) + Offset(r1, Looseness(style).0)
            && o.tickOff - o.tickOn == ev.tickOff - ev.tickOn
  {
    hide Final, Shifted, Softer, Louder, Swung, Offset, Humanized;
    var p := StyleParams(style);
    EarlyIsRoomy(ev, style);
    BasePass(style, ev, r1, r2);
    MovedAsAWhole(ev, p, r1, r2);
    if style.LaidBack? || style.Pushed? {
      ShiftedIs(Final(ev, p, r1, r2), if style.LaidBack? then DELAY else -ADVANCE);
    }
  }

  /** Every offset within the jitter of a style is drawn by some seed. */
  lemma StyleReaches(style: Style, ev: MidiEvent, d: int) returns (r1: nat)
    requires Early(ev) && 20 <= ev.tickOn < ev.tickOff && !style.SnapToGrid?
    requires -(Looseness(style).0 as int) <= d <= Looseness(style).0
    ensures forall r2: nat :: Styled(style, ev, r1, r2).tickOn == ev.tickOn + Lean(style, ev) + d
  {
    hide Styled, Offset;
    r1 := OffsetReached(Looseness(style).0, d);
    forall r2: nat ensures Styled(style, ev, r1, r2).tickOn == ev.tickOn + Lean(style, ev) + d {
      StyleMoves(style, ev, r1, r2);
    }
  }

  /** The velocity before scaling stays within the variation of the style, which every draw within it reaches. */
  lemma StyleVelocity(style: Style, ev: MidiEvent, r1: nat, r2: nat)
    requires Early(ev) && 1 <= ev.velocity <= 127
    ensures var (o, v) := (Styled(style, ev, r1, r2), Clamp(ev.velocity + Offset(r2, Looseness(style).1), 1, 127));
            o.velocity == if style.LaidBack? then Softer(v) else if style.Pushed? then Louder(v) else v
  {
    hide Offset, Swung, Jittered, Lengthened, Softer, Louder, Unsigned, Signed, SnapTick;
    var p := StyleParams(style);
    var s := Jittered(Swung(ev, p.swingDelay), Offset(r1, p.jitter));
    assert s.velocity == ev.velocity by { TimingKeepsVelocity(ev, p.swingDelay, Offset(r1, p.jitter)); }
    var v := Varied(s, Offset(r2, p.variation));
    LengthKeepsVelocity(v, 1);
    LengthKeepsVelocity(Lengthened(v, 1).(tickOn := SnapTick(Lengthened(v, 1).tickOn, 120), tickOff := SnapTick(Lengthened(v, 1).tickOff, 120)), 120);
    VelocityKept(v.velocity);
  }

  lemma TimingKeepsVelocity(ev: MidiEvent, delay: nat, jitter: int)
    ensures Jittered(Swung(ev, delay), jitter).velocity == ev.velocity
  {
  }

  lemma LengthKeepsVelocity(ev: MidiEvent, least: nat)
    ensures Lengthened(ev, least).velocity == ev.velocity
  {
  }

  /** The snap style puts both ends on their nearest grid points, or lets the note last one step. */
  lemma SnapStyleEnds(ev: MidiEvent, r1: nat, r2: nat)
    requires Early(ev) && ev.tickOn < ev.tickOff
    ensures var (o, on, off) := (Styled(SnapToGrid, ev, r1, r2), SnapTick(ev.tickOn, 120), SnapTick(ev.tickOff, 120));
            o.tickOn == on && o.tickOff == if on < off then off else on + 120
  {
    hide Final, Snapped, SnapTick;
    var h := SnapBase(ev, r1, r2);
    SnappedEnds(h, 120);
  }
}
