/**
 Normalising a music blueprint, as `blueprint_generator.cpp` does: defaults,
 validation, section energies and the channel allocator.
 */
module Blueprint {
  import opened Bytes
  import opened NoteNames

  datatype Energy = Unspecified | Low | Mid | High

  datatype Emotion = Emotion(valence: real, arousal: real, dominance: real)

  datatype Section = Section(name: string, bars: int, energy: Energy, density: real, complexity: real)

  datatype Instrument = Instrument(name: string, role: string, channel: int, program: int)

  datatype MusicBlueprint = MusicBlueprint(
    seed: nat, rootKey: string, scale: string, bpm: int, ppq: int, genres: seq<string>,
    emotion: Emotion, energy: Energy, sections: seq<Section>, instruments: seq<Instrument>)

  const NEUTRAL := Emotion(0.5, 0.5, 0.5)

  /** The blueprint that stands for a rejected one. */
  const REJECTED := MusicBlueprint(0, "C", "major", 120, 480, [], NEUTRAL, Mid, [], [])

  // ----- tables

  predicate ValidRoot(key: string) {
    key in ["C", "C#", "Db", "D", "D#", "Eb", "E", "F", "F#", "Gb", "G", "G#", "Ab", "A", "A#", "Bb", "B"]
  }

  predicate ValidScale(scale: string) {
    scale in ["major", "minor", "dorian", "phrygian", "lydian", "mixolydian", "aeolian", "locrian",
              "harmonic_minor", "melodic_minor", "pentatonic_major", "pentatonic_minor", "blues", "chromatic"]
  }

  function DensityFor(e: Energy): real {
    match e case Low => 0.3 case Mid => 0.5 case High => 0.8 case Unspecified => 0.5
  }

  function ComplexityFor(e: Energy): real {
    match e case Low => 0.2 case Mid => 0.4 case High => 0.6 case Unspecified => 0.4
  }

  function EmotionFor(e: Energy): Emotion {
    match e
    case Low => Emotion(0.3, 0.2, 0.4)
    case Mid => Emotion(0.5, 0.5, 0.5)
    case High => Emotion(0.8, 0.7, 0.6)
    case Unspecified => NEUTRAL
  }

  function DefaultSections(): seq<Section> {
    [Section("intro", 2, Unspecified, 0.5, 0.5), Section("verse", 4, Unspecified, 0.5, 0.5),
     Section("chorus", 4, Unspecified, 0.5, 0.5), Section("outro", 2, Unspecified, 0.5, 0.5)]
  }

  function DefaultInstruments(): seq<Instrument> {
    [Instrument("piano", "comping", 0, 1), Instrument("bass", "bass", 1, 34), Instrument("drums", "drum", 9, 1)]
  }

  // ----- the channel allocator

  /** The channels of the first `n` instruments. */
  function Channels(insts: seq<Instrument>, n: nat): (used: seq<int>)
    requires n <= |insts|
    ensures |used| == n
    ensures forall i :: 0 <= i < n ==> used[i] == insts[i].channel
  {
    if n == 0 then [] else Channels(insts, n - 1) + [insts[n - 1].channel]
  }

  /** The first channel from `ch` on, below `limit`, that is not in use; `limit` when there is none. */
  function FirstFree(used: seq<int>, ch: nat, limit: nat): (free: nat)
    requires ch <= limit
    ensures ch <= free <= limit
    ensures free < limit ==> free !in used
    ensures forall c :: ch <= c < free ==> c in used
    decreases limit - ch
  {
    if ch == limit || ch !in used then ch else FirstFree(used, ch + 1, limit)
  }

  /** The channel an instrument asks for. */
  function Wanted(inst: Instrument): int {
    if inst.role == "drum" then 9 else inst.channel
  }

  /** One turn of the allocator: drums ask for 9, and a taken channel is replaced if one is free. */
  function Allocate(used: seq<int>, inst: Instrument): Instrument {
    var limit := if inst.role == "drum" then 10 else 9;
    var free := FirstFree(used, 0, limit);
    inst.(channel := if Wanted(inst) in used && free < limit then free else Wanted(inst))
  }

  function Allocated(insts: seq<Instrument>): (out: seq<Instrument>)
    ensures |out| == |insts|
  {
    if insts == [] then []
    else
      var front := Allocated(insts[..|insts| - 1]);
      front + [Allocate(Channels(front, |front|), insts[|insts| - 1])]
  }

  method AllocateOne(used: seq<int>, inst: Instrument) returns (out: Instrument)
    ensures out == Allocate(used, inst)
  {
    out := inst;
    if out.role == "drum" {
      out := out.(channel := 9);
    }
    if out.channel in used {
      var limit := if out.role == "drum" then 10 else 9;
      var ch := 0;
      while ch < limit && ch in used
        invariant 0 <= ch <= limit && FirstFree(used, ch, limit) == FirstFree(used, 0, limit)
      {
        ch := ch + 1;
      }
      if ch < limit {
        out := out.(channel := ch);
      }
    }
  }

  method AllocateChannels(insts: seq<Instrument>) returns (out: seq<Instrument>)
    ensures out == Allocated(insts)
  {
    hide Allocate;
    out := [];
    var used: seq<int> := [];
    for i := 0 to |insts|
      invariant out == Allocated(insts[..i]) && used == Channels(out, i)
    {
      assert insts[..i + 1][..i] == insts[..i];
      var inst := AllocateOne(used, insts[i]);
      ChannelsAppend(out, inst);
      used := used + [inst.channel];
      out := out + [inst];
    }
    assert insts[..|insts|] == insts;
  }

  lemma ChannelsAppend(insts: seq<Instrument>, inst: Instrument)
    ensures Channels(insts + [inst], |insts| + 1) == Channels(insts, |insts|) + [inst.channel]
  {
  }

  /** Allocating again changes nothing. */
  lemma {:induction false} AllocatedIdempotent(insts: seq<Instrument>)
    ensures Allocated(Allocated(insts)) == Allocated(insts)
  {
    hide Allocate;
    if insts != [] {
      var n := |insts| - 1;
      var front, last := Allocated(insts[..n]), insts[n];
      AllocatedIdempotent(insts[..n]);
      var out := Allocated(insts);
      assert out[..n] == front;
      AllocateTwice(Channels(front, n), last);
    }
  }

  lemma AllocateTwice(used: seq<int>, inst: Instrument)
    ensures Allocate(used, Allocate(used, inst)) == Allocate(used, inst)
  {
  }

  /** Holding every channel below `limit` takes that many entries. */
  lemma {:induction false} AllTaken(used: seq<int>, limit: nat)
    requires forall c :: 0 <= c < limit ==> c in used
    ensures |used| >= limit
  {
    if limit > 0 {
      assert limit - 1 in used;
      var k :| 0 <= k < |used| && used[k] == limit - 1;
      var rest := used[..k] + used[k + 1..];
      forall c | 0 <= c < limit - 1 ensures c in rest {
        assert c in used;
        var i :| 0 <= i < |used| && used[i] == c;
        assert rest[if i < k then i else i - 1] == c;
      }
      AllTaken(rest, limit - 1);
    }
  }

  lemma Pigeonhole(used: seq<int>, limit: nat)
    requires |used| < limit
    ensures FirstFree(used, 0, limit) < limit
  {
    if FirstFree(used, 0, limit) == limit {
      AllTaken(used, limit);
    }
  }

  /** With at most nine instruments no two share a channel. */
  lemma {:induction false} ChannelsDistinct(insts: seq<Instrument>)
    requires |insts| <= 9
    ensures forall i, j :: 0 <= i < j < |insts| ==> Allocated(insts)[i].channel != Allocated(insts)[j].channel
  {
    hide FirstFree;
    if insts != [] {
      var n := |insts| - 1;
      var front, last := Allocated(insts[..n]), insts[n];
      ChannelsDistinct(insts[..n]);
      var used := Channels(front, n);
      Pigeonhole(used, if last.role == "drum" then 10 else 9);
      assert Allocate(used, last).channel !in used;
      forall i | 0 <= i < n ensures front[i].channel != Allocate(used, last).channel {
        assert used[i] in used;
      }
    }
  }

  /** A sole drum, when nobody else asks for channel 9, is alone on it. */
  lemma {:induction false} DrumAlone(insts: seq<Instrument>)
    requires forall i, j :: 0 <= i < j < |insts| ==> !(insts[i].role == "drum" && insts[j].role == "drum")
    requires forall i :: 0 <= i < |insts| && insts[i].role != "drum" ==> insts[i].channel != 9
    ensures forall i :: 0 <= i < |insts| ==> (Allocated(insts)[i].channel == 9 <==> insts[i].role == "drum")
  {
    hide FirstFree;
    if insts != [] {
      var n := |insts| - 1;
      var front, last := Allocated(insts[..n]), insts[n];
      DrumAlone(insts[..n]);
      var used := Channels(front, n);
      if last.role == "drum" {
        forall i | 0 <= i < n ensures used[i] != 9 {
          assert insts[i].role != "drum";
          assert front[i].channel != 9;
        }
      }
    }
  }

  // ----- when a drum is on channel 9

  /** The channels other than 0..8 that were asked for; whoever asks first gets them. */
  function Outer(insts: seq<Instrument>): set<int> {
    if insts == [] then {}
    else
      var w := Wanted(insts[|insts| - 1]);
      Outer(insts[..|insts| - 1]) + if 0 <= w < 9 then {} else {w}
  }

  function Inner(used: seq<int>): set<int> {
    set c | c in used && 0 <= c < 9
  }

  lemma {:induction false} SetBelow(s: set<int>, n: nat)
    requires forall c :: c in s ==> 0 <= c < n
    ensures |s| <= n && (|s| == n <==> forall c :: 0 <= c < n ==> c in s)
  {
    if n == 0 {
      assert forall c :: c !in s;
      assert s == {};
    } else {
      var rest := s - {n - 1};
      SetBelow(rest, n - 1);
      if n - 1 in s {
        assert s == rest + {n - 1};
      } else {
        assert s == rest;
      }
    }
  }

  lemma InnerMore(used: seq<int>, c: int)
    ensures Inner(used + [c]) == Inner(used) + if 0 <= c < 9 then {c} else {}
  {
  }

  /** A taken channel is replaced by a fresh one of 0..8 as long as there is one, and kept otherwise. */
  lemma Displaced(used: seq<int>, inst: Instrument)
    requires Wanted(inst) in used
    ensures var ch := Allocate(used, inst).channel;
            if |Inner(used)| == 9 then ch == Wanted(inst) else 0 <= ch < 9 && ch !in used
    ensures |Inner(used)| <= 9
  {
    hide FirstFree;
    SetBelow(Inner(used), 9);
    var limit := if inst.role == "drum" then 10 else 9;
    var free := FirstFree(used, 0, limit);
    if |Inner(used)| == 9 {
      assert free < 9 ==> free in Inner(used);
    } else {
      var c :| 0 <= c < 9 && c !in Inner(used);
      assert c !in used;
    }
  }

  /** Everyone who did not get a channel outside 0..8 first filled one more of 0..8, until those were full. */
  ghost predicate Occupied(used: seq<int>, outer: set<int>, n: nat) {
    && (forall c :: !(0 <= c < 9) ==> (c in used <==> c in outer))
    && |outer| <= n && |Inner(used)| == if n - |outer| < 9 then n - |outer| else 9
  }

  lemma InnerTaken(used: seq<int>, outer: set<int>, n: nat, ch: int)
    requires Occupied(used, outer, n) && 0 <= ch < 9 && ch !in used
    ensures Occupied(used + [ch], outer, n + 1)
  {
    InnerMore(used, ch);
    SetBelow(Inner(used + [ch]), 9);
    assert ch !in Inner(used);
    hide Inner;
    assert |Inner(used) + {ch}| == |Inner(used)| + 1;
  }

  lemma OuterTaken(used: seq<int>, outer: set<int>, n: nat, ch: int)
    requires Occupied(used, outer, n) && !(0 <= ch < 9) && ch !in used
    ensures Occupied(used + [ch], outer + {ch}, n + 1)
  {
    InnerMore(used, ch);
    hide Inner;
    assert Inner(used) + {} == Inner(used) && ch !in outer;
    assert |outer + {ch}| == |outer| + 1;
  }

  lemma NothingTaken(used: seq<int>, outer: set<int>, n: nat, ch: int)
    requires Occupied(used, outer, n) && ch in used && |Inner(used)| == 9
    ensures Occupied(used + [ch], outer, n + 1)
  {
    assert Inner(used + [ch]) == Inner(used);
  }

  lemma OccupiedMore(used: seq<int>, outer: set<int>, n: nat, inst: Instrument)
    requires Occupied(used, outer, n)
    ensures var w := Wanted(inst);
            Occupied(used + [Allocate(used, inst).channel], outer + (if 0 <= w < 9 then {} else {w}), n + 1)
  {
    hide FirstFree, Allocate, Inner, Wanted;
    var w, ch := Wanted(inst), Allocate(used, inst).channel;
    if w in used {
      assert outer + (if 0 <= w < 9 then {} else {w}) == outer;
      Displaced(used, inst);
      hide Occupied;
      if |Inner(used)| == 9 {
        NothingTaken(used, outer, n, ch);
      } else {
        InnerTaken(used, outer, n, ch);
      }
    } else {
      Granted(used, inst);
      hide Occupied;
      if 0 <= w < 9 {
        assert outer + {} == outer;
        InnerTaken(used, outer, n, ch);
      } else {
        OuterTaken(used, outer, n, ch);
      }
    }
  }

  lemma {:induction false} Occupancy(insts: seq<Instrument>)
    ensures Occupied(Channels(Allocated(insts), |insts|), Outer(insts), |insts|)
  {
    hide FirstFree, Allocate, Occupied;
    if insts == [] {
      NothingOccupied();
    } else {
      var n := |insts| - 1;
      var front, last := Allocated(insts[..n]), insts[n];
      Occupancy(insts[..n]);
      ChannelsAppend(front, Allocate(Channels(front, n), last));
      OccupiedMore(Channels(front, n), Outer(insts[..n]), n, last);
    }
  }

  lemma NothingOccupied()
    ensures Occupied([], {}, 0)
  {
    assert Inner([]) == {};
  }

  lemma Granted(used: seq<int>, inst: Instrument)
    requires Wanted(inst) !in used
    ensures Allocate(used, inst).channel == Wanted(inst)
  {
  }

  /**
   A drum ends on channel 9 exactly when nobody before it asked for 9, or the instruments before
   it filled all other channels, because at least nine of them were not the first to ask for a
   channel outside 0..8.
   */
  lemma DrumOnNineIff(insts: seq<Instrument>, i: nat)
    requires i < |insts| && insts[i].role == "drum"
    ensures Allocated(insts)[i].channel == 9
       <==> (forall k :: 0 <= k < i ==> Wanted(insts[k]) != 9) || i - |Outer(insts[..i])| >= 9
  {
    hide FirstFree, Allocate, Inner;
    var used := Channels(Allocated(insts[..i]), i);
    AllocatedAt(insts, i);
    Occupancy(insts[..i]);
    OuterHas(insts[..i], 9);
    if 9 in used {
      Displaced(used, insts[i]);
      var k :| 0 <= k < i && Wanted(insts[..i][k]) == 9;
      assert Wanted(insts[k]) == 9;
    } else {
      Granted(used, insts[i]);
      forall k | 0 <= k < i ensures Wanted(insts[k]) != 9 {
        assert insts[..i][k] == insts[k];
      }
    }
  }

  lemma {:induction false} OuterHas(insts: seq<Instrument>, c: int)
    requires !(0 <= c < 9)
    ensures c in Outer(insts) <==> exists k :: 0 <= k < |insts| && Wanted(insts[k]) == c
  {
    if insts != [] {
      var n := |insts| - 1;
      OuterHas(insts[..n], c);
      if k :| 0 <= k < n && Wanted(insts[..n][k]) == c {
        assert Wanted(insts[k]) == c;
      }
      if k :| 0 <= k < n && Wanted(insts[k]) == c {
        assert Wanted(insts[..n][k]) == c;
      }
    }
  }

  /** Later instruments do not change the channel of an earlier one. */
  lemma {:induction false} AllocatedAt(insts: seq<Instrument>, i: nat)
    requires i < |insts|
    ensures Allocated(insts)[i] == Allocate(Channels(Allocated(insts[..i]), i), insts[i])
  {
    hide Allocate;
    var n := |insts| - 1;
    if i < n {
      AllocatedAt(insts[..n], i);
      assert insts[..n][..i] == insts[..i];
    }
  }

  // ----- the whole generator

  function FillDefaults(bp: MusicBlueprint, hash: string -> nat, show: int -> string): MusicBlueprint {
    bp.(ppq := if bp.ppq == 0 then 480 else bp.ppq,
        sections := if bp.sections == [] then DefaultSections() else bp.sections,
        instruments := if bp.instruments == [] then DefaultInstruments() else bp.instruments,
        seed := if bp.seed == 0 then hash(bp.rootKey + bp.scale + show(bp.bpm)) else bp.seed,
        emotion := if bp.emotion == NEUTRAL then EmotionFor(bp.energy) else bp.emotion)
  }

  predicate Acceptable(bp: MusicBlueprint) {
    && ValidRoot(bp.rootKey) && ValidScale(bp.scale)
    && 40 <= bp.bpm <= 300
    && bp.sections != [] && bp.instruments != []
    && forall i :: 0 <= i < |bp.sections| ==> 1 <= bp.sections[i].bars <= 256
  }

  function Normalised(s: Section, energy: Energy): Section {
    var e := if s.energy == Unspecified then energy else s.energy;
    s.(energy := e, density := DensityFor(e), complexity := ComplexityFor(e))
  }

  function AllNormalised(sections: seq<Section>, energy: Energy): (out: seq<Section>)
    ensures |out| == |sections|
    ensures forall i :: 0 <= i < |sections| ==> out[i] == Normalised(sections[i], energy)
  {
    if sections == [] then [] else [Normalised(sections[0], energy)] + AllNormalised(sections[1..], energy)
  }

  /** `generate`, with the FNV hash and the decimal printing of the tempo left open. */
  function Generate(input: MusicBlueprint, hash: string -> nat, show: int -> string): MusicBlueprint {
    var bp := FillDefaults(input, hash, show);
    if !Acceptable(bp) then REJECTED
    else bp.(sections := AllNormalised(bp.sections, bp.energy), instruments := Allocated(bp.instruments))
  }

  lemma {:induction false} NormalisedTwice(sections: seq<Section>, energy: Energy)
    ensures AllNormalised(AllNormalised(sections, energy), energy) == AllNormalised(sections, energy)
  {
    var once := AllNormalised(sections, energy);
    var twice := AllNormalised(once, energy);
    forall i | 0 <= i < |sections| ensures twice[i] == once[i] {
      assert once[i] == Normalised(sections[i], energy);
    }
  }

  lemma AcceptedIsFixed(input: MusicBlueprint, hash: string -> nat, show: int -> string)
    requires Acceptable(FillDefaults(input, hash, show))
    ensures Generate(Generate(input, hash, show), hash, show) == Generate(input, hash, show)
  {
    hide Allocated, ValidRoot, ValidScale, AllNormalised;
    var bp := FillDefaults(input, hash, show);
    var out := Generate(input, hash, show);
    forall i | 0 <= i < |out.sections| ensures 1 <= out.sections[i].bars <= 256 {
      assert out.sections[i] == Normalised(bp.sections[i], bp.energy);
    }
    NormalisedTwice(bp.sections, bp.energy);
    AllocatedIdempotent(bp.instruments);
  }

  /** The stand-in for a rejected blueprint is itself accepted, and filled with defaults. */
  lemma RejectedIsAccepted(hash: string -> nat, show: int -> string)
    ensures Generate(REJECTED, hash, show) != REJECTED
  {
    assert ValidRoot("C") && ValidScale("major");
    var bp := FillDefaults(REJECTED, hash, show);
    assert bp.sections == DefaultSections();
    assert |Generate(REJECTED, hash, show).sections| == 4;
  }

  /** Generating twice is generating once, exactly for the blueprints that are accepted. */
  lemma GenerateIdempotent(input: MusicBlueprint, hash: string -> nat, show: int -> string)
    ensures Generate(Generate(input, hash, show), hash, show) == Generate(input, hash, show)
       <==> Acceptable(FillDefaults(input, hash, show))
  {
    hide Acceptable, FillDefaults, AllNormalised, Allocated;
    RejectedIsAccepted(hash, show);
    if Acceptable(FillDefaults(input, hash, show)) {
      AcceptedIsFixed(input, hash, show);
    }
  }

  // ----- what an accepted blueprint keeps

  /** The section as it was, with the energy of the whole piece where it had none. */
  predicate SectionKept(before: Section, after: Section, energy: Energy) {
    && after.name == before.name && after.bars == before.bars
    && after.energy == (if before.energy.Unspecified? then energy else before.energy)
  }

  /** The instrument as it was, up to the channel. */
  predicate InstrumentKept(before: Instrument, after: Instrument) {
    after.name == before.name && after.role == before.role && after.program == before.program
  }

  lemma AllocatedKeeps(insts: seq<Instrument>)
    ensures forall i :: 0 <= i < |insts| ==> InstrumentKept(insts[i], Allocated(insts)[i])
  {
    hide FirstFree, Allocated;
    forall i | 0 <= i < |insts| ensures InstrumentKept(insts[i], Allocated(insts)[i]) {
      AllocatedAt(insts, i);
    }
  }

  /** When no two instruments ask for the same channel, everybody gets the one asked for. */
  lemma {:induction false} DistinctWishesGranted(insts: seq<Instrument>)
    requires forall i, j :: 0 <= i < j < |insts| ==> Wanted(insts[i]) != Wanted(insts[j])
    ensures forall i :: 0 <= i < |insts| ==> Allocated(insts)[i].channel == Wanted(insts[i])
  {
    hide Allocate;
    if insts != [] {
      var n := |insts| - 1;
      DistinctWishesGranted(insts[..n]);
      Granted(Channels(Allocated(insts[..n]), n), insts[n]);
    }
  }

  /**
   An accepted blueprint keeps its key, scale, tempo, genres and energy, its sections by name,
   length and energy, and its instruments up to the channel; defaults fill only what is missing.
   */
  lemma AcceptedKeeps(input: MusicBlueprint, hash: string -> nat, show: int -> string)
    requires Acceptable(FillDefaults(input, hash, show))
    ensures var out := Generate(input, hash, show);
            && out.rootKey == input.rootKey && out.scale == input.scale && out.bpm == input.bpm
            && out.genres == input.genres && out.energy == input.energy
            && out.ppq == (if input.ppq == 0 then 480 else input.ppq)
            && out.seed == (if input.seed == 0 then hash(input.rootKey + input.scale + show(input.bpm)) else input.seed)
            && (input.emotion != NEUTRAL ==> out.emotion == input.emotion)
            && |out.sections| == (if input.sections == [] then 4 else |input.sections|)
            && (forall i :: 0 <= i < |input.sections| ==> SectionKept(input.sections[i], out.sections[i], input.energy))
            && |out.instruments| == (if input.instruments == [] then 3 else |input.instruments|)
            && (forall i :: 0 <= i < |input.instruments| ==> InstrumentKept(input.instruments[i], out.instruments[i]))
  {
    hide Allocated, ValidRoot, ValidScale, AllNormalised, EmotionFor, DensityFor, ComplexityFor;
    AllocatedKeeps(FillDefaults(input, hash, show).instruments);
  }

  /** A blueprint is accepted exactly when its root is one of the seventeen names, its scale is known, and tempo and lengths are in range. */
  lemma AcceptedIff(input: MusicBlueprint, hash: string -> nat, show: int -> string)
    ensures Acceptable(FillDefaults(input, hash, show)) <==>
      && Fifths(input.rootKey).Some? && -6 <= Fifths(input.rootKey).value <= 10
      && ValidScale(input.scale) && 40 <= input.bpm <= 300
      && forall i :: 0 <= i < |input.sections| ==> 1 <= input.sections[i].bars <= 256
  {
    hide Allocated, ValidRoot, ValidScale, EmotionFor;
    RootsAreFifths(input.rootKey);
  }

  lemma RootsAreFifths(key: string)
    ensures ValidRoot(key) <==> Fifths(key).Some? && -6 <= Fifths(key).value <= 10
  {
    Spelled(key);
  }

  /** A blueprint without sections and instruments becomes twelve bars for piano, bass and drums, each on its own channel. */
  lemma DefaultsFilled(input: MusicBlueprint, hash: string -> nat, show: int -> string)
    requires Acceptable(FillDefaults(input, hash, show))
    ensures var s := Generate(input, hash, show).sections;
            input.sections == [] ==>
              && |s| == 4 && s[0].bars + s[1].bars + s[2].bars + s[3].bars == 12 && s[0].bars == s[3].bars && s[1].bars == s[2].bars == 2 * s[0].bars
              && [s[0].name, s[1].name, s[2].name, s[3].name] == ["intro", "verse", "chorus", "outro"]
              && s[0].energy == s[1].energy == s[2].energy == s[3].energy == input.energy
    ensures var p := Generate(input, hash, show).instruments;
            input.instruments == [] ==>
              && |p| == 3 && [p[0].role, p[1].role, p[2].role] == ["comping", "bass", "drum"]
              && [p[0].channel, p[1].channel, p[2].channel] == [0, 1, 9]
              && [p[0].program, p[1].program, p[2].program] == [1, 34, 1]
  {
    hide Allocated, ValidRoot, ValidScale, EmotionFor, DensityFor, ComplexityFor;
    var insts := FillDefaults(input, hash, show).instruments;
    if input.instruments == [] {
      AllocatedKeeps(insts);
      DistinctWishesGranted(insts);
    }
  }

  /** With more energy come more valence, arousal and dominance, where the input has none of its own. */
  lemma EnergyMoves(input: MusicBlueprint, lower: Energy, higher: Energy, hash: string -> nat, show: int -> string)
    requires (lower, higher) in [(Low, Mid), (Mid, High), (Low, High)] && input.emotion == NEUTRAL
    requires Acceptable(FillDefaults(input, hash, show))
    ensures var (a, b) := (Generate(input.(energy := lower), hash, show).emotion, Generate(input.(energy := higher), hash, show).emotion);
            a.valence < b.valence && a.arousal < b.arousal && a.dominance < b.dominance
  {
    hide Allocated, AllNormalised, ValidRoot, ValidScale;
  }

  /** The more energy, the denser and the more complex a section is. */
  lemma EnergyOrders(s: Section, lower: Energy, higher: Energy)
    requires (lower, higher) in [(Low, Mid), (Mid, High), (Low, High)]
    ensures 0.0 < Normalised(s, lower).density <= 1.0 && 0.0 < Normalised(s, lower).complexity <= 1.0
    ensures s.energy.Unspecified? ==>
      Normalised(s, lower).density < Normalised(s, higher).density && Normalised(s, lower).complexity < Normalised(s, higher).complexity
  {
  }
}
