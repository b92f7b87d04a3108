/**
 A whole composition, from its notes through the bytes of a file and back to the
 notes on the piano roll.
 */
module EndToEnd {
  import opened Bytes
  import opened SmfTrack
  import opened SmfRenderer
  import opened SmfFile
  import opened NotePairing
  import opened Humanization

  /** Compositions that the file format and the piano roll can carry. */
  ghost predicate Faithful(comp: SmfComposition) {
    && comp.bpm % 0x1_0000_0000 != 0 && |comp.tracks| < 0xFFFF
    && forall i :: 0 <= i < |comp.tracks| ==> |comp.tracks[i].name| <= 127 && Sound(comp.tracks[i].events)
  }

  /**
   Rendering a composition and reading the file gives one chunk per track, and each chunk
   shows exactly the notes of its track if and only if no note of the track ends strictly
   inside another of the same pitch and the track has no rest too long for a delta time.
   */
  lemma FileShowsComposition(comp: SmfComposition, sorts: seq<seq<WireEvent>>, out: seq<Byte>, ppq: nat)
    requires Faithful(comp) && SortsOf(comp, sorts) && Fits(Bodies(comp, sorts))
    requires out == HeaderBytes(1, (|comp.tracks| + 1) % 0x1_0000, comp.ppq % 0x1_0000) + Chunks(Bodies(comp, sorts))
    ensures Read(out).Ok? && |Read(out).value.tracks| == |comp.tracks| + 1
    ensures forall i :: 0 <= i < |comp.tracks| ==>
      (Shows(Read(out).value.tracks[i + 1], ppq) == multiset(NotesOf(comp.tracks[i].events, comp.tracks[i].name))
       <==> Undisturbed(comp.tracks[i].events) && NoLongRest(comp.tracks[i].events))
  {
    hide Read, HeaderBytes, Chunks, Bodies, Sound, IsSortOf, WireEvents, Undisturbed, NoLongRest, NotesOf, DecodeTrack, TrackBody, Shows;
    ReadRendered(comp, sorts, out);
    forall i | 0 <= i < |comp.tracks|
      ensures Shows(Read(out).value.tracks[i + 1], ppq) == multiset(NotesOf(comp.tracks[i].events, comp.tracks[i].name))
         <==> Undisturbed(comp.tracks[i].events) && NoLongRest(comp.tracks[i].events)
    {
      RollShowsTrack(comp.tracks[i], sorts[i], ppq);
    }
  }

  /** Render, read back and show: a track appears as it was written exactly when it has no overlaps and no long rest. */
  method RenderAndRead(comp: SmfComposition) returns (r: Result<Smf>, sorts: seq<seq<WireEvent>>)
    requires Faithful(comp)
    ensures SortsOf(comp, sorts)
    ensures Fits(Bodies(comp, sorts)) ==>
      && r.Ok? && |r.value.tracks| == |comp.tracks| + 1
      && r.value.header == Header(1, |comp.tracks| + 1, comp.ppq % 0x1_0000)
      && DecodeTrack(r.value.tracks[0]) == DecodeTrack(TempoBody(comp))
      && forall i :: 0 <= i < |comp.tracks| ==>
        (Shows(r.value.tracks[i + 1], 480) == multiset(NotesOf(comp.tracks[i].events, comp.tracks[i].name))
         <==> Undisturbed(comp.tracks[i].events) && NoLongRest(comp.tracks[i].events))
  {
    hide Read, HeaderBytes, Chunks, Bodies, Sound, IsSortOf, WireEvents, Undisturbed, NoLongRest, NotesOf, DecodeTrack, TrackBody, Shows, TempoBody;
    var out;
    out, sorts := Render(comp);
    if Fits(Bodies(comp, sorts)) {
      FileShowsComposition(comp, sorts, out, 480);
      ReadRendered(comp, sorts, out);
    }
    r := ReadSmf(out);
  }

  // ----- a humanized track

  lemma EndpointBefore(events: seq<MidiEvent>, t: nat) returns (u: nat)
    requires NoLongRest(events) && Endpoint(events, t) && t > LARGEST_QUANTITY
    ensures Endpoint(events, u) && t - LARGEST_QUANTITY <= u < t
  {
    hide Endpoint;
    u :| Endpoint(events, u) && t - LARGEST_QUANTITY <= u < t;
  }

  /** Endpoints from `high` on, with none for too long before, go back to a first one that no delta time reaches. */
  lemma {:induction false} OutOfReach(events: seq<MidiEvent>, high: nat, t: nat)
    requires Endpoint(events, t) && t >= high > LARGEST_QUANTITY
    requires forall u: nat :: Endpoint(events, u) ==> u < high - LARGEST_QUANTITY || u >= high
    ensures !NoLongRest(events)
    decreases t
  {
    hide Endpoint, NoLongRest;
    if NoLongRest(events) {
      var u := EndpointBefore(events, t);
      OutOfReach(events, high, u);
    }
  }

  /** Where jitter may leave a note: below the sign bit, but for an end below zero, which goes to the far end. */
  lemma HumanizedPlace(ev: MidiEvent, p: Params, r1: nat, r2: nat)
    requires Defined(ev, p) && ev.tickOn < ev.tickOff && ev.tickOff + p.swingDelay + p.jitter < 0x8000_0000
    ensures var h := Humanized(ev, p, r1, r2);
            && h.tickOn < 0x8000_0000 && h.tickOn < h.tickOff && 1 <= h.velocity <= 127
            && h == ev.(tickOn := h.tickOn, tickOff := h.tickOff, velocity := h.velocity)
            && (h.tickOff < 0x8000_0000 || h.tickOff >= 0xE000_0000)
            && (h.tickOff >= 0xE000_0000 <==> Swung(ev, p.swingDelay).tickOff + Offset(r1, p.jitter) < 0)
  {
    hide Humanized, Swung, Offset;
    SwungIs(ev, p.swingDelay);
    HumanizedKeeps(ev, p, r1, r2);
    HumanizedTicks(ev, p, r1, r2);
  }

  /** One note whose end jitter pulls below tick zero makes its whole track unreadable. */
  lemma RunawayTrackLost(name: seq<Byte>, events: seq<MidiEvent>, out: seq<MidiEvent>, p: Params, rng: nat -> nat, i: nat,
                         sorted: seq<WireEvent>)
    requires |name| <= 127 && !p.snap && i < |events| == |out| && IsSortOf(WireEvents(out), sorted)
    requires forall k :: 0 <= k < |events| ==>
      && Defined(events[k], p) && events[k].tickOn < events[k].tickOff && events[k].note <= 127 && events[k].channel <= 15
      && events[k].tickOff + p.swingDelay + p.jitter < 0x8000_0000
    requires forall k :: 0 <= k < |events| ==> out[k] == Final(events[k], p, rng(2 * k), rng(2 * k + 1))
    requires Swung(events[i], p.swingDelay).tickOff + Offset(rng(2 * i), p.jitter) < 0
    ensures DecodeTrack(TrackBody(name, sorted)) == None
  {
    hide Humanized, Swung, Offset, IsSortOf, WireEvents, DecodeTrack, TrackBody, NoLongRest, Defined;
    forall k | 0 <= k < |events|
      ensures out[k].tickOn < out[k].tickOff && out[k].note <= 127 && 1 <= out[k].velocity <= 127 && out[k].channel <= 15
      ensures out[k].tickOn < 0x8000_0000 && (out[k].tickOff < 0x8000_0000 || out[k].tickOff >= 0xE000_0000)
    {
      HumanizedPlace(events[k], p, rng(2 * k), rng(2 * k + 1));
    }
    HumanizedPlace(events[i], p, rng(2 * i), rng(2 * i + 1));
    assert Endpoint(out, out[i].tickOff);
    OutOfReach(out, 0xE000_0000, out[i].tickOff);
    RollShowsTrack(MidiTrack(name, out), sorted, 0);
  }
}
