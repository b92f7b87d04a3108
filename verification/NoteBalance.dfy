/**
 The stream an instrument track emits never releases a key that is not held, however
 the renderer's sort orders equivalent events.
 */
module NoteBalance {
  import opened SmfTrack
  import opened Permutations

  /** Note-ons and note-offs of one key on one channel. */
  ghost function Ons(channel: nat, pitch: nat): WireEvent -> bool {
    (e: WireEvent) => e.status == 0x90 + channel && e.data1 == pitch
  }

  ghost function Offs(channel: nat, pitch: nat): WireEvent -> bool {
    (e: WireEvent) => e.status == 0x80 + channel && e.data1 == pitch
  }

  ghost function OnsBefore(channel: nat, pitch: nat, tick: nat): WireEvent -> bool {
    (e: WireEvent) => e.status == 0x90 + channel && e.data1 == pitch && e.tick < tick
  }

  ghost function OffsUpTo(channel: nat, pitch: nat, tick: nat): WireEvent -> bool {
    (e: WireEvent) => e.status == 0x80 + channel && e.data1 == pitch && e.tick <= tick
  }

  ghost predicate Lasting(events: seq<MidiEvent>) {
    forall i :: 0 <= i < |events| ==> events[i].tickOn < events[i].tickOff
  }

  lemma CountPair(p: WireEvent -> bool, a: WireEvent, b: WireEvent)
    ensures Count(p, [a, b]) == (if p(a) then 1 else 0) + if p(b) then 1 else 0
  {
    assert [a, b][..1] == [a];
    assert [a][..0] == [];
    assert Count(p, [a]) == if p(a) then 1 else 0;
  }

  lemma CountLastEvent(p: WireEvent -> bool, events: seq<MidiEvent>)
    requires events != []
    ensures var (n, ev) := (|events| - 1, events[|events| - 1]);
            Count(p, WireEvents(events)) == Count(p, WireEvents(events[..n]))
              + if ev.note > 127 then 0 else (if p(OnOf(ev)) then 1 else 0) + if p(OffOf(ev)) then 1 else 0
  {
    hide Count;
    var n, ev := |events| - 1, events[|events| - 1];
    var rest := WireEvents(events[..n]);
    if ev.note > 127 {
      assert rest + [] == rest;
    } else {
      CountConcat(p, rest, [OnOf(ev), OffOf(ev)]);
      CountPair(p, OnOf(ev), OffOf(ev));
    }
  }

  /** Whatever ended by a tick began before it. */
  lemma {:induction false} EndedHaveBegun(events: seq<MidiEvent>, channel: nat, pitch: nat, tick: nat)
    requires Lasting(events) && channel < 16
    ensures Count(OffsUpTo(channel, pitch, tick), WireEvents(events))
         <= Count(OnsBefore(channel, pitch, tick), WireEvents(events))
  {
    hide Count;
    if events == [] {
      CountNone(OffsUpTo(channel, pitch, tick), WireEvents(events));
    } else {
      EndedHaveBegun(events[..|events| - 1], channel, pitch, tick);
      CountLastEvent(OffsUpTo(channel, pitch, tick), events);
      CountLastEvent(OnsBefore(channel, pitch, tick), events);
    }
  }

  lemma {:induction false} AsManyOffsAsOns(events: seq<MidiEvent>, channel: nat, pitch: nat)
    requires channel < 16
    ensures Count(Offs(channel, pitch), WireEvents(events)) == Count(Ons(channel, pitch), WireEvents(events))
  {
    hide Count;
    if events == [] {
      CountNone(Offs(channel, pitch), WireEvents(events));
      CountNone(Ons(channel, pitch), WireEvents(events));
    } else {
      AsManyOffsAsOns(events[..|events| - 1], channel, pitch);
      CountLastEvent(Offs(channel, pitch), events);
      CountLastEvent(Ons(channel, pitch), events);
    }
  }

  /** Everything before tick `sorted[k-1].tick` lies in the first `k` events. */
  lemma EarlierInPrefix(sorted: seq<WireEvent>, k: nat, channel: nat, pitch: nat)
    requires Sorted(sorted) && 0 < k <= |sorted|
    ensures Count(OnsBefore(channel, pitch, sorted[k - 1].tick), sorted)
         <= Count(Ons(channel, pitch), sorted[..k])
  {
    hide Count;
    var p := OnsBefore(channel, pitch, sorted[k - 1].tick);
    assert sorted == sorted[..k] + sorted[k..];
    CountConcat(p, sorted[..k], sorted[k..]);
    forall i | 0 <= i < |sorted[k..]| ensures !p(sorted[k..][i]) {
      assert !Before(sorted[k + i], sorted[k - 1]);
    }
    CountNone(p, sorted[k..]);
    CountMonotone(p, Ons(channel, pitch), sorted[..k]);
  }

  /** The first `k` events reach no further than tick `sorted[k-1].tick`. */
  lemma PrefixNoLater(sorted: seq<WireEvent>, k: nat, channel: nat, pitch: nat)
    requires Sorted(sorted) && 0 < k <= |sorted|
    ensures Count(Offs(channel, pitch), sorted[..k])
         <= Count(OffsUpTo(channel, pitch, sorted[k - 1].tick), sorted)
  {
    hide Count;
    var p := OffsUpTo(channel, pitch, sorted[k - 1].tick);
    assert sorted == sorted[..k] + sorted[k..];
    CountConcat(p, sorted[..k], sorted[k..]);
    forall i | 0 <= i < |sorted[..k]| && Offs(channel, pitch)(sorted[..k][i]) ensures p(sorted[..k][i]) {
      assert i < k - 1 ==> !Before(sorted[k - 1], sorted[i]);
    }
    CountMonotone(Offs(channel, pitch), p, sorted[..k]);
  }

  /**
   If every note lasts, then in every prefix of the stream each key on each channel
   was pressed at least as often as released, and at the end just as often.
   */
  lemma StreamBalanced(events: seq<MidiEvent>, sorted: seq<WireEvent>, channel: nat, pitch: nat)
    requires Lasting(events) && IsSortOf(WireEvents(events), sorted) && channel < 16
    ensures forall k :: 0 <= k <= |sorted| ==>
      Count(Offs(channel, pitch), sorted[..k]) <= Count(Ons(channel, pitch), sorted[..k])
    ensures Count(Offs(channel, pitch), sorted) == Count(Ons(channel, pitch), sorted)
  {
    hide Count;
    var wire := WireEvents(events);
    forall k | 0 <= k <= |sorted|
      ensures Count(Offs(channel, pitch), sorted[..k]) <= Count(Ons(channel, pitch), sorted[..k])
    {
      if k == 0 {
        CountNone(Offs(channel, pitch), sorted[..0]);
      } else {
        var tick := sorted[k - 1].tick;
        PrefixNoLater(sorted, k, channel, pitch);
        CountPermutation(OffsUpTo(channel, pitch, tick), wire, sorted);
        EndedHaveBegun(events, channel, pitch, tick);
        CountPermutation(OnsBefore(channel, pitch, tick), wire, sorted);
        EarlierInPrefix(sorted, k, channel, pitch);
      }
    }
    AsManyOffsAsOns(events, channel, pitch);
    CountPermutation(Offs(channel, pitch), wire, sorted);
    CountPermutation(Ons(channel, pitch), wire, sorted);
  }
}
