/**
 What `ChordEngine::voicing` plays, event by event: the stacked tones of every chord, the
 first of them an octave lower as the inversion says, for the length of the chord.
 */
module VoicedHarmony {
  import opened Bytes
  import opened SmfTrack
  import opened Ordered
  import opened Permutations
  import opened NoteBalance
  import opened ChordDetection
  import opened ChordPipeline

  /** Tone `k` of a chord in inversion `p`: the tones from number `p` on, then the first `p` an octave lower. */
  function StackedTone(cs: ChordSpec, p: nat, k: nat): int
    requires p < |Offsets(cs.quality)| && k < |Offsets(cs.quality)|
  {
    var n := |Offsets(cs.quality)|;
    var root := 48 + cs.rootPc % 12;
    if p + k < n then root + Offsets(cs.quality)[p + k] else root + Offsets(cs.quality)[p + k - n] - 12
  }

  /** The event sounds tone `k` of the chord from its onset to its end, on its channel. */
  ghost predicate Sounds(cs: ChordSpec, p: nat, k: nat, velocity: nat, e: MidiEvent)
    requires p < |Offsets(cs.quality)| && k < |Offsets(cs.quality)|
  {
    && e.note == StackedTone(cs, p, k) && e.velocity == velocity && e.channel == cs.channel && e.articulation == 0
    && e.tickOn == cs.startTick
    && e.tickOff == if cs.startTick + cs.durationTicks < 0x1_0000_0000 then cs.startTick + cs.durationTicks
                    else cs.startTick + cs.durationTicks - 0x1_0000_0000
  }

  lemma ThreeOrFour(quality: string)
    ensures 3 <= |Offsets(quality)| <= 4 && Offsets(quality)[0] == 0
    ensures forall i, j :: 0 <= i < j < |Offsets(quality)| ==> Offsets(quality)[i] < Offsets(quality)[j] < 12
  {
  }

  /** One chord, in any inversion that the random number gives. */
  lemma ChordSounds(cs: ChordSpec, inv: nat, velocity: Byte)
    requires inv < 3
    ensures |ChordEvents(cs, inv, velocity)| == |Offsets(cs.quality)| > inv
    ensures forall k :: 0 <= k < |Offsets(cs.quality)| ==> Sounds(cs, inv, k, velocity, ChordEvents(cs, inv, velocity)[k])
  {
    hide Offsets, Collect, RootPosition, Inverted, StackedTone;
    ThreeOrFour(cs.quality);
    NotesInRange(cs);
    var root := RootPosition(cs);
    InvertedRange(root, inv);
    CollectEvery(cs, velocity, Inverted(root, inv));
    forall k | 0 <= k < |root| ensures Sounds(cs, inv, k, velocity, ChordEvents(cs, inv, velocity)[k]) {
      InvertedIs(cs, inv, k);
    }
  }

  lemma InvertedIs(cs: ChordSpec, inv: nat, k: nat)
    requires inv < |Offsets(cs.quality)| && k < |Offsets(cs.quality)|
    ensures Inverted(RootPosition(cs), inv)[k] == StackedTone(cs, inv, k)
  {
    hide Offsets;
  }

  // ----- a whole progression

  /** Where the events of chord `i` begin. */
  function BlockStart(chords: seq<ChordSpec>, i: nat): nat
    requires i <= |chords|
  {
    if i == 0 then 0 else BlockStart(chords, i - 1) + |Offsets(chords[i - 1].quality)|
  }

  lemma {:induction false} BlocksAscend(chords: seq<ChordSpec>, i: nat, j: nat)
    requires i <= j <= |chords|
    ensures BlockStart(chords, i) <= BlockStart(chords, j)
  {
    hide Offsets;
    if i < j {
      BlocksAscend(chords, i, j - 1);
    }
  }

  lemma {:induction false} VoicedLength(chords: seq<ChordSpec>, n: nat, rng: nat -> nat)
    requires n <= |chords|
    ensures |Voiced(chords, n, rng)| == BlockStart(chords, n)
  {
    hide ChordEvents, Offsets;
    if n > 0 {
      VoicedLength(chords, n - 1, rng);
      VoicedStep(chords, n, rng);
      ChordSounds(chords[n - 1], rng(2 * (n - 1)) % 3, 50 + rng(2 * (n - 1) + 1) % 51);
    }
  }

  /**
   The voiced progression is, chord after chord, the tones of the chord in a random inversion
   and at one random velocity in 50..100, and nothing else.
   */
  lemma {:induction false} VoicedSounds(chords: seq<ChordSpec>, n: nat, rng: nat -> nat, i: nat, k: nat)
    requires i < n <= |chords| && k < |Offsets(chords[i].quality)|
    ensures |Voiced(chords, n, rng)| == BlockStart(chords, n)
    ensures BlockStart(chords, i) + k < |Voiced(chords, n, rng)|
    ensures rng(2 * i) % 3 < |Offsets(chords[i].quality)| && 50 <= 50 + rng(2 * i + 1) % 51 <= 100
    ensures Sounds(chords[i], rng(2 * i) % 3, k, 50 + rng(2 * i + 1) % 51, Voiced(chords, n, rng)[BlockStart(chords, i) + k])
  {
    hide ChordEvents, Offsets, Sounds, Voiced;
    ThreeOrFour(chords[i].quality);
    VoicedLength(chords, n, rng);
    BlocksAscend(chords, i + 1, n);
    VoicedStep(chords, n, rng);
    VoicedLength(chords, n - 1, rng);
    if i < n - 1 {
      VoicedSounds(chords, n - 1, rng, i, k);
    } else {
      LastChordSounds(chords, rng, i, k);
    }
  }

  lemma LastChordSounds(chords: seq<ChordSpec>, rng: nat -> nat, i: nat, k: nat)
    requires i < |chords| && k < |Offsets(chords[i].quality)|
    ensures |EventsOf(chords, rng, i)| == |Offsets(chords[i].quality)| > rng(2 * i) % 3
    ensures Sounds(chords[i], rng(2 * i) % 3, k, 50 + rng(2 * i + 1) % 51, EventsOf(chords, rng, i)[k])
  {
    hide ChordEvents, Offsets, Sounds;
    ChordSounds(chords[i], rng(2 * i) % 3, 50 + rng(2 * i + 1) % 51);
  }

  /** Every event belongs to some chord. */
  lemma {:induction false} BlockOf(chords: seq<ChordSpec>, n: nat, x: nat) returns (i: nat, k: nat)
    requires n <= |chords| && x < BlockStart(chords, n)
    ensures i < n && k < |Offsets(chords[i].quality)| && x == BlockStart(chords, i) + k
  {
    hide Offsets;
    if x < BlockStart(chords, n - 1) {
      i, k := BlockOf(chords, n - 1, x);
    } else {
      i, k := n - 1, x - BlockStart(chords, n - 1);
    }
  }

  // ----- voiced harmony can be rendered

  /** The last chord ends before the 32-bit ticks run out. */
  predicate EndsInTime(chords: seq<ChordSpec>) {
    chords != [] ==> chords[|chords| - 1].startTick + TICKS_PER_BAR < 0x1_0000_0000
  }

  lemma ChordLasts(chords: seq<ChordSpec>, i: nat)
    requires Spaced(chords) && i < |chords|
    ensures 0 < chords[i].durationTicks
    ensures chords[i].startTick + chords[i].durationTicks < 0x1_0000_0000 || (i == |chords| - 1 && !EndsInTime(chords))
    ensures i == |chords| - 1 && !EndsInTime(chords) ==> chords[i].durationTicks == TICKS_PER_BAR
  {
    hide Increasing, Starts;
    if i + 1 < |chords| {
      assert Starts(chords)[i] < Starts(chords)[i + 1] by { Ascend(Starts(chords), i); }
    }
  }

  lemma Ascend(ticks: seq<nat>, i: nat)
    requires Increasing(ticks) && i + 1 < |ticks|
    ensures ticks[i] < ticks[i + 1]
  {
  }

  /** Every note of a spaced progression lasts exactly when the last chord ends in time. */
  lemma VoicedLastsIff(chords: seq<ChordSpec>, rng: nat -> nat)
    requires Spaced(chords)
    ensures Lasting(Voiced(chords, |chords|, rng)) <==> EndsInTime(chords)
  {
    hide Voiced, Offsets, Spaced, BlockStart;
    var n, out := |chords|, Voiced(chords, |chords|, rng);
    VoicedLength(chords, n, rng);
    if EndsInTime(chords) {
      forall x | 0 <= x < |out| ensures out[x].tickOn < out[x].tickOff {
        var i, k := BlockOf(chords, n, x);
        VoicedSounds(chords, n, rng, i, k);
        ChordLasts(chords, i);
      }
    } else {
      ThreeOrFour(chords[n - 1].quality);
      VoicedSounds(chords, n, rng, n - 1, 0);
      ChordLasts(chords, n - 1);
    }
  }

  /** However voiced harmony is sorted and rendered, no key is released more often than it was pressed. */
  lemma VoicedStreamBalanced(chords: seq<ChordSpec>, rng: nat -> nat, sorted: seq<WireEvent>, channel: nat, pitch: nat)
    requires Spaced(chords) && EndsInTime(chords)
    requires IsSortOf(WireEvents(Voiced(chords, |chords|, rng)), sorted) && channel < 16
    ensures forall k :: 0 <= k <= |sorted| ==>
      Count(Offs(channel, pitch), sorted[..k]) <= Count(Ons(channel, pitch), sorted[..k])
    ensures Count(Offs(channel, pitch), sorted) == Count(Ons(channel, pitch), sorted)
  {
    hide Voiced, Spaced, Lasting, Count;
    VoicedLastsIff(chords, rng);
    StreamBalanced(Voiced(chords, |chords|, rng), sorted, channel, pitch);
  }

  // ----- what comes back from any events

  /**
   Each recovered spec begins at its onset, lasts until the next one or a bar, is on channel 0, and
   names the largest template held by the notes there, or C major when they hold none.
   */
  lemma RecoveredIs(events: seq<MidiEvent>, ticks: seq<nat>, i: nat)
    requires Increasing(ticks) && i < |ticks| && (forall k :: 0 <= k < |ticks| ==> ticks[k] < 0x1_0000_0000)
    ensures var (r, pcs) := (Recovered(events, ticks, i), PitchClasses(Notes(Group(events, ticks[i]))));
            && r.startTick == ticks[i] && r.channel == 0
            && r.durationTicks == (if i + 1 < |ticks| then ticks[i + 1] - ticks[i] else 1920)
            && (if exists root, t :: Fit(pcs, root, t)
                then exists root, t :: FirstLargest(pcs, 12, 0, root, t) && r.rootPc == root && r.quality == TemplateAt(t).name
                else r.rootPc == 0 && r.quality == "maj")
  {
    hide Group, Detect, PitchClasses, Notes, TemplateAt, FirstLargest, Fit;
    var pcs := PitchClasses(Notes(Group(events, ticks[i])));
    ClassesBelow12(Notes(Group(events, ticks[i])));
    DetectsLargest(pcs);
    if i + 1 < |ticks| {
      Ascend(ticks, i);
    }
  }

  // ----- the progression itself

  /** The tones of the C major scale. */
  predicate InCMajor(pc: nat) {
    pc in [0, 2, 4, 5, 7, 9, 11]
  }

  lemma ScaleChord(root: nat, quality: string)
    requires (root, quality) in [(2, "m7"), (7, "7"), (0, "maj7")]
    ensures |Offsets(quality)| == 4 && forall k :: 0 <= k < 4 ==> InCMajor((root + Offsets(quality)[k]) % 12)
  {
  }

  lemma BarShape(bar: nat)
    ensures (Bar(bar).rootPc, Bar(bar).quality)
         == if bar % 4 == 0 then (2, "m7") else if bar % 4 == 1 then (7, "7") else (0, "maj7")
    ensures bar * 1920 < 0x1_0000_0000 ==> Bar(bar).startTick == bar * 1920
    ensures Bar(bar).durationTicks == 1920 && Bar(bar).channel == 0
  {
  }

  /** Every chord of the engine is a seventh chord of scale tones, one bar long, on its bar. */
  lemma HarmonyInScale(bars: nat, i: nat)
    requires i < bars
    ensures var cs := Harmony(bars)[i];
            && 0 <= cs.rootPc && |Offsets(cs.quality)| == 4
            && (forall k :: 0 <= k < 4 ==> InCMajor((cs.rootPc + Offsets(cs.quality)[k]) % 12))
            && cs.durationTicks == 1920 && cs.channel == 0 && (i * 1920 < 0x1_0000_0000 ==> cs.startTick == i * 1920)
  {
    hide Harmony, Bar, Offsets, InCMajor;
    assert Harmony(bars)[i] == Bar(i);
    BarShape(i);
    ScaleChord(Bar(i).rootPc, Bar(i).quality);
  }

  /** In every four bars the roots fall by a fifth twice, to the tonic, which is repeated. */
  lemma HarmonyIsCadence(bars: nat, q: nat)
    requires 4 * q + 3 < bars
    ensures var (a, b, c, d) := (Harmony(bars)[4 * q], Harmony(bars)[4 * q + 1], Harmony(bars)[4 * q + 2], Harmony(bars)[4 * q + 3]);
            && (a.rootPc - b.rootPc) % 12 == 7 && (b.rootPc - c.rootPc) % 12 == 7 && c.rootPc == 0
            && d.rootPc == c.rootPc && d.quality == c.quality
  {
    hide Harmony, Bar;
    BarShape(4 * q);
    BarShape(4 * q + 1);
    BarShape(4 * q + 2);
    BarShape(4 * q + 3);
  }
}
