/**
 Splitting a piano part into its top line and the rest, as `separate_melody_harmony`
 does in `orchestrate_workflow.cpp`.
 */
module MelodySplit {
  import opened SmfTrack
  import opened Ordered
  import opened Permutations
  import opened ChordPipeline
  import opened Ensemble
  import Orchestrator
  import EnsembleScore

  // ----- the split

  /** The position of the first highest note among the first `n` events. */
  function TopOf(group: seq<MidiEvent>, n: nat): (h: nat)
    requires 0 < n <= |group|
    ensures h < n
  {
    if n == 1 then 0
    else
      var h := TopOf(group, n - 1);
      if group[n - 1].note > group[h].note then n - 1 else h
  }

  function Top(group: seq<MidiEvent>): MidiEvent
    requires group != []
  {
    group[TopOf(group, |group|)]
  }

  function Rest(group: seq<MidiEvent>): seq<MidiEvent>
    requires group != []
  {
    var h := TopOf(group, |group|);
    group[..h] + group[h + 1..]
  }

  lemma {:induction false} TopIsHighest(group: seq<MidiEvent>, n: nat)
    requires 0 < n <= |group|
    ensures forall k :: 0 <= k < n ==> group[k].note <= group[TopOf(group, n)].note
    ensures forall k :: 0 <= k < TopOf(group, n) ==> group[k].note < group[TopOf(group, n)].note
  {
    if n > 1 {
      TopIsHighest(group, n - 1);
    }
  }

  /** The notes under the top one stay in order: putting it back where it was gives the group again. */
  lemma RestInOrder(group: seq<MidiEvent>)
    requires group != []
    ensures |Rest(group)| == |group| - 1
    ensures var h := TopOf(group, |group|);
            group == Rest(group)[..h] + [Top(group)] + Rest(group)[h..]
  {
  }

  /** The top line and the rest over the first `n` onsets. */
  ghost function TopLine(piano: seq<MidiEvent>, keys: seq<nat>, n: nat): seq<MidiEvent>
    requires n <= |keys| && forall t: nat :: t in keys ==> Group(piano, t) != []
  {
    if n == 0 then [] else TopLine(piano, keys, n - 1) + [Top(Group(piano, keys[n - 1]))]
  }

  ghost function Below(piano: seq<MidiEvent>, keys: seq<nat>, n: nat): seq<MidiEvent>
    requires n <= |keys| && forall t: nat :: t in keys ==> Group(piano, t) != []
  {
    if n == 0 then [] else Below(piano, keys, n - 1) + Rest(Group(piano, keys[n - 1]))
  }

  method SeparateMelodyHarmony(piano: seq<MidiEvent>)
    returns (melody: seq<MidiEvent>, harmony: seq<MidiEvent>, keys: seq<nat>)
    ensures IsOnsets(keys, piano)
    ensures melody == TopLine(piano, keys, |keys|) && harmony == Below(piano, keys, |keys|)
  {
    hide Group, TopOf;
    var ticks, groups := GroupByOnset(piano);
    keys := ticks;
    melody, harmony := [], [];
    for i := 0 to |ticks|
      invariant melody == TopLine(piano, keys, i) && harmony == Below(piano, keys, i)
    {
      var events := groups[ticks[i]];
      assert ticks[i] in ticks;
      var highest := FindHighest(events);
      melody := melody + [events[highest]];
      var others := AllBut(events, highest);
      harmony := harmony + others;
    }
  }

  method FindHighest(events: seq<MidiEvent>) returns (highest: nat)
    requires events != []
    ensures highest == TopOf(events, |events|)
  {
    highest := 0;
    for i := 1 to |events|
      invariant highest == TopOf(events, i)
    {
      if events[i].note > events[highest].note {
        highest := i;
      }
    }
  }

  method AllBut(events: seq<MidiEvent>, k: nat) returns (others: seq<MidiEvent>)
    requires k < |events|
    ensures others == events[..k] + events[k + 1..]
  {
    others := [];
    for i := 0 to |events|
      invariant others == if i <= k then events[..i] else events[..k] + events[k + 1..i]
    {
      if i != k {
        others := others + [events[i]];
      }
    }
  }

  // ----- nothing is lost

  ghost function Regrouped(piano: seq<MidiEvent>, keys: seq<nat>, n: nat): seq<MidiEvent>
    requires n <= |keys|
  {
    if n == 0 then [] else Regrouped(piano, keys, n - 1) + Group(piano, keys[n - 1])
  }

  lemma {:induction false} RegroupedGrows(piano: seq<MidiEvent>, e: MidiEvent, keys: seq<nat>, n: nat)
    requires Increasing(keys) && n <= |keys|
    ensures multiset(Regrouped(piano + [e], keys, n))
         == multiset(Regrouped(piano, keys, n)) + if e.tickOn in keys[..n] then multiset{e} else multiset{}
  {
    hide Group, Increasing;
    if n > 0 {
      RegroupedGrows(piano, e, keys, n - 1);
      GroupGrows(piano, e, keys[n - 1]);
      LastKey(keys, n, e.tickOn);
      var grown := if e.tickOn == keys[n - 1] then [e] else [];
      var early := if e.tickOn in keys[..n - 1] then multiset{e} else multiset{};
      GrownTogether(Regrouped(piano + [e], keys, n - 1), Regrouped(piano, keys, n - 1), Group(piano, keys[n - 1]), early, grown);
      assert early + multiset(grown) == if e.tickOn in keys[..n] then multiset{e} else multiset{};
    }
  }

  lemma LastKey(keys: seq<nat>, n: nat, t: nat)
    requires Increasing(keys) && 0 < n <= |keys|
    ensures t in keys[..n] <==> t in keys[..n - 1] || t == keys[n - 1]
    ensures keys[n - 1] !in keys[..n - 1]
  {
    assert keys[..n] == keys[..n - 1] + [keys[n - 1]];
  }

  lemma GrownTogether(after: seq<MidiEvent>, before: seq<MidiEvent>, group: seq<MidiEvent>, early: multiset<MidiEvent>, grown: seq<MidiEvent>)
    requires multiset(after) == multiset(before) + early
    ensures multiset(after + (group + grown)) == multiset(before + group) + (early + multiset(grown))
  {
    assert multiset(after + (group + grown)) == multiset(after) + (multiset(group) + multiset(grown));
    assert multiset(before + group) == multiset(before) + multiset(group);
    Rearranged(multiset(before), multiset(group), early, multiset(grown));
  }

  lemma {:induction false} RegroupedIsAll(piano: seq<MidiEvent>, keys: seq<nat>)
    requires Increasing(keys) && forall i :: 0 <= i < |piano| ==> piano[i].tickOn in keys
    ensures multiset(Regrouped(piano, keys, |keys|)) == multiset(piano)
  {
    hide Group;
    if piano == [] {
      NothingRegrouped(keys, |keys|);
    } else {
      var n := |piano| - 1;
      RegroupedIsAll(piano[..n], keys);
      RegroupedGrows(piano[..n], piano[n], keys, |keys|);
      assert piano == piano[..n] + [piano[n]] && keys[..|keys|] == keys;
    }
  }

  lemma {:induction false} NothingRegrouped(keys: seq<nat>, n: nat)
    requires n <= |keys|
    ensures Regrouped([], keys, n) == []
  {
    if n > 0 {
      NothingRegrouped(keys, n - 1);
      NoOnsets();
    }
  }

  lemma TopAndRest(group: seq<MidiEvent>)
    requires group != []
    ensures multiset{Top(group)} + multiset(Rest(group)) == multiset(group)
  {
    var h := TopOf(group, |group|);
    Without(group, h);
    assert group[h] in multiset(group);
  }

  lemma {:induction false} SplitConserves(piano: seq<MidiEvent>, keys: seq<nat>, n: nat)
    requires n <= |keys| && forall t: nat :: t in keys ==> Group(piano, t) != []
    ensures multiset(TopLine(piano, keys, n)) + multiset(Below(piano, keys, n)) == multiset(Regrouped(piano, keys, n))
  {
    hide Group, Top, Rest;
    if n > 0 {
      SplitConserves(piano, keys, n - 1);
      assert keys[n - 1] in keys;
      var group := Group(piano, keys[n - 1]);
      TopAndRest(group);
      var a, b, c := TopLine(piano, keys, n - 1), Below(piano, keys, n - 1), Regrouped(piano, keys, n - 1);
      assert multiset(a + [Top(group)]) == multiset(a) + multiset{Top(group)};
      assert multiset(b + Rest(group)) == multiset(b) + multiset(Rest(group));
      assert multiset(c + group) == multiset(c) + multiset(group);
      Rearranged(multiset(a), multiset(b), multiset{Top(group)}, multiset(Rest(group)));
    }
  }

  lemma Rearranged(a: multiset<MidiEvent>, b: multiset<MidiEvent>, t: multiset<MidiEvent>, r: multiset<MidiEvent>)
    ensures (a + t) + (b + r) == (a + b) + (t + r)
  {
  }

  lemma {:induction false} InGroup(events: seq<MidiEvent>, i: nat)
    requires i < |events|
    ensures Group(events, events[i].tickOn) != []
  {
    hide Group;
    var n := |events| - 1;
    GroupGrows(events[..n], events[n], events[i].tickOn);
    assert events == events[..n] + [events[n]];
    if i < n {
      InGroup(events[..n], i);
    }
  }

  lemma {:induction false} GroupMembers(events: seq<MidiEvent>, t: nat)
    ensures forall k :: 0 <= k < |Group(events, t)| ==> Group(events, t)[k].tickOn == t && Group(events, t)[k] in events
    ensures forall i :: 0 <= i < |events| && events[i].tickOn == t ==> events[i] in Group(events, t)
  {
    hide Group;
    if events == [] {
      NoOnsets();
    } else {
      var n := |events| - 1;
      GroupMembers(events[..n], t);
      GroupGrows(events[..n], events[n], t);
      assert events == events[..n] + [events[n]];
    }
  }

  /**
   The split loses and invents nothing; the top line has strictly increasing onsets, one
   note for every onset of the piano, and each is a highest one at its onset.
   */
  lemma SplitCorrect(piano: seq<MidiEvent>, keys: seq<nat>)
    requires IsOnsets(keys, piano)
    ensures multiset(TopLine(piano, keys, |keys|)) + multiset(Below(piano, keys, |keys|)) == multiset(piano)
    ensures |TopLine(piano, keys, |keys|)| == |keys|
    ensures forall i :: 0 <= i < |keys| ==> TopLine(piano, keys, |keys|)[i].tickOn == keys[i]
    ensures forall i, j :: 0 <= i < |keys| && 0 <= j < |piano| && piano[j].tickOn == keys[i] ==>
      piano[j].note <= TopLine(piano, keys, |keys|)[i].note
  {
    hide Group, Increasing, Top, Rest;
    forall i | 0 <= i < |piano| ensures piano[i].tickOn in keys {
      InGroup(piano, i);
    }
    RegroupedIsAll(piano, keys);
    SplitConserves(piano, keys, |keys|);
    TopLineElements(piano, keys, |keys|);
    forall i | 0 <= i < |keys|
      ensures TopLine(piano, keys, |keys|)[i].tickOn == keys[i]
      ensures forall j :: 0 <= j < |piano| && piano[j].tickOn == keys[i] ==> piano[j].note <= TopLine(piano, keys, |keys|)[i].note
    {
      assert keys[i] in keys;
      TopOfGroup(piano, keys[i]);
    }
  }

  lemma TopOfGroup(piano: seq<MidiEvent>, t: nat)
    requires Group(piano, t) != []
    ensures Top(Group(piano, t)).tickOn == t
    ensures forall j :: 0 <= j < |piano| && piano[j].tickOn == t ==> piano[j].note <= Top(Group(piano, t)).note
  {
    hide Group;
    GroupMembers(piano, t);
    TopIsHighest(Group(piano, t), |Group(piano, t)|);
    forall j | 0 <= j < |piano| && piano[j].tickOn == t ensures piano[j].note <= Top(Group(piano, t)).note {
      var k :| 0 <= k < |Group(piano, t)| && Group(piano, t)[k] == piano[j];
    }
  }

  lemma {:induction false} TopLineElements(piano: seq<MidiEvent>, keys: seq<nat>, n: nat)
    requires n <= |keys| && forall t: nat :: t in keys ==> Group(piano, t) != []
    ensures |TopLine(piano, keys, n)| == n
    ensures forall i :: 0 <= i < n ==> keys[i] in keys && TopLine(piano, keys, n)[i] == Top(Group(piano, keys[i]))
  {
    hide Group, Top;
    if n > 0 {
      TopLineElements(piano, keys, n - 1);
      assert keys[n - 1] in keys;
    }
  }

  // ----- the top line in an ensemble

  /** The split and `orchestrate_full` composed. */
  method PlayTopLine(piano: seq<MidiEvent>, progression: seq<string>, ensemble: seq<Section>, bars: int, rng: nat -> nat)
    returns (result: Orchestrator.Result, keys: seq<nat>)
    ensures IsOnsets(keys, piano)
    ensures result == Orchestrator.OrchestratedFull(TopLine(piano, keys, |keys|), progression, ensemble, bars, rng)
  {
    var melody, harmony;
    melody, harmony, keys := SeparateMelodyHarmony(piano);
    result := Orchestrator.OrchestrateFull(melody, progression, ensemble, bars, rng);
  }

  /**
   Each melody instrument plays one note per onset of the piano: a highest piano note there, with its
   ticks and velocity, in the instrument's range, and of the same pitch class in a range of 17 semitones.
   */
  lemma TopLinePlayed(piano: seq<MidiEvent>, keys: seq<nat>, progression: seq<string>, ensemble: seq<Section>, bars: int, rng: nat -> nat,
                      inst: Instrument, track: seq<MidiEvent>)
    requires IsOnsets(keys, piano)
    requires DistinctNames(Instruments(ensemble)) && inst in Instruments(ensemble) && inst.role == Melody
    requires 0 <= inst.minNote <= inst.maxNote <= 127
    requires (inst.name, track) in Orchestrator.OrchestratedFull(TopLine(piano, keys, |keys|), progression, ensemble, bars, rng)
    ensures |track| == |keys| == |TopLine(piano, keys, |keys|)|
    ensures forall i :: 0 <= i < |keys| ==>
      var top := TopLine(piano, keys, |keys|)[i];
      && top in piano && top.tickOn == keys[i]
      && (forall j :: 0 <= j < |piano| && piano[j].tickOn == keys[i] ==> piano[j].note <= top.note)
      && track[i] == top.(channel := inst.channel % 0x100, note := track[i].note)
      && inst.minNote <= track[i].note <= inst.maxNote
      && (inst.maxNote - inst.minNote >= 17 ==> track[i].note % 12 == top.note % 12)
  {
    hide Group, TopLine, Below, DistinctNames, Instruments, Orchestrator.OrchestratedFull;
    SplitCorrect(piano, keys);
    var line := TopLine(piano, keys, |keys|);
    forall i | 0 <= i < |keys| ensures line[i] in piano {
      assert line[i] in multiset(line) + multiset(Below(piano, keys, |keys|));
    }
    EnsembleScore.MelodyTrackFollows(line, progression, ensemble, bars, rng, inst, track);
  }
}
