/**
 Chord symbols to pitches and back: the interval tables of `chord_engine.cpp` and the
 template matching of `detect_chord` in `mte_cli.cpp`.
 */
module ChordDetection {

  /** Semitones above the root; unknown qualities are major triads. */
  function Offsets(quality: string): seq<nat> {
    match quality
    case "maj" => [0, 4, 7]
    case "min" => [0, 3, 7]
    case "7" => [0, 4, 7, 10]
    case "m7" => [0, 3, 7, 10]
    case "maj7" => [0, 4, 7, 11]
    case "m7b5" => [0, 3, 6, 10]
    case "dim" => [0, 3, 6]
    case "dim7" => [0, 3, 6, 9]
    case _ => [0, 4, 7]
  }

  datatype Template = Template(name: string, intervals: seq<nat>)

  /** The templates of the detector, in its order. */
  function TemplateAt(t: nat): Template
    requires t < 5
  {
    [Template("maj", [4, 7]),
     Template("min", [3, 7]),
     Template("7", [4, 7, 10]),
     Template("m7", [3, 7, 10]),
     Template("maj7", [4, 7, 11])][t]
  }

  predicate Detectable(quality: string) {
    exists t :: 0 <= t < 5 && TemplateAt(t).name == quality
  }

  datatype Detection = Detection(valid: bool, rootPc: nat, quality: string)

  /** The best match so far; score -1 when there is none. */
  datatype Best = Best(root: nat, quality: string, score: int)

  /** All intervals of the template are present above the root. */
  predicate Matches(pcs: set<nat>, root: nat, t: Template) {
    forall k :: 0 <= k < |t.intervals| ==> (root + t.intervals[k]) % 12 in pcs
  }

  function Better(pcs: set<nat>, root: nat, t: Template, best: Best): Best {
    if Matches(pcs, root, t) && |t.intervals| > best.score then Best(root, t.name, |t.intervals|) else best
  }

  /** The templates from the first to the `k`-th, tried at a root. */
  function AtRoot(pcs: set<nat>, root: nat, k: nat, best: Best): Best
    requires k <= 5
  {
    if k == 0 then best else Better(pcs, root, TemplateAt(k - 1), AtRoot(pcs, root, k - 1, best))
  }

  /** The roots below `n` that are present, in ascending order. */
  function UpToRoot(pcs: set<nat>, n: nat, best: Best): Best {
    if n == 0 then best
    else
      var before := UpToRoot(pcs, n - 1, best);
      if n - 1 in pcs then AtRoot(pcs, n - 1, 5, before) else before
  }

  /** The smallest pitch class present, where the search starts from. */
  function Lowest(pcs: set<nat>, from: nat): nat
    decreases 12 - from
  {
    if from >= 12 || from in pcs then from else Lowest(pcs, from + 1)
  }

  function Detect(pcs: set<nat>): Detection {
    if pcs == {} then Detection(false, 0, "maj")
    else
      var best := UpToRoot(pcs, 12, Best(Lowest(pcs, 0), "maj", -1));
      Detection(best.score >= 0, best.root, best.quality)
  }

  method AllPresent(t: Template, intervals: set<nat>) returns (matched: bool)
    ensures matched <==> forall k :: 0 <= k < |t.intervals| ==> t.intervals[k] in intervals
  {
    matched := true;
    for j := 0 to |t.intervals|
      invariant matched <==> forall i :: 0 <= i < j ==> t.intervals[i] in intervals
    {
      if t.intervals[j] !in intervals {
        matched := false;
        break;
      }
    }
  }

  /** `detect_chord`, with its running best and its interval sets. */
  method DetectChord(notes: seq<nat>) returns (d: Detection)
    ensures d == Detect(PitchClasses(notes))
  {
    if notes == [] {
      return Detection(false, 0, "maj");
    }
    var pcs: set<nat> := {};
    for i := 0 to |notes|
      invariant pcs == PitchClasses(notes[..i])
    {
      pcs := pcs + {notes[i] % 12};
      assert notes[..i + 1] == notes[..i] + [notes[i]];
    }
    assert notes[..|notes|] == notes;
    assert notes[0] % 12 in pcs;
    var best := Best(Lowest(pcs, 0), "maj", -1);
    for root := 0 to 12
      invariant best == UpToRoot(pcs, root, Best(Lowest(pcs, 0), "maj", -1))
    {
      if root in pcs {
        var intervals := IntervalsAbove(pcs, root);
        ghost var before := best;
        for k := 0 to 5
          invariant best == AtRoot(pcs, root, k, before)
        {
          var t := TemplateAt(k);
          IntervalsMatch(pcs, root, t);
          var matched := AllPresent(t, intervals);
          if matched && |t.intervals| > best.score {
            best := Best(root, t.name, |t.intervals|);
          }
        }
      }
    }
    d := Detection(best.score >= 0, best.root, best.quality);
  }

  function PitchClasses(notes: seq<nat>): set<nat> {
    set i | 0 <= i < |notes| :: notes[i] % 12
  }

  /** The distances from a root up to the other tones. */
  function IntervalsAbove(pcs: set<nat>, root: nat): set<nat>
    requires root < 12
  {
    set pc | pc in pcs && pc != root :: (pc + 12 - root) % 12
  }

  lemma IntervalAt(root: nat, pc: nat, iv: nat)
    requires root < 12 && pc < 12 && 0 < iv < 12
    ensures (pc != root && (pc + 12 - root) % 12 == iv) <==> pc == (root + iv) % 12
  {
  }

  lemma IntervalsMatch(pcs: set<nat>, root: nat, t: Template)
    requires root < 12 && (forall pc :: pc in pcs ==> pc < 12)
    requires forall k :: 0 <= k < |t.intervals| ==> 0 < t.intervals[k] < 12
    ensures Matches(pcs, root, t) <==> forall k :: 0 <= k < |t.intervals| ==> t.intervals[k] in IntervalsAbove(pcs, root)
  {
    var intervals := IntervalsAbove(pcs, root);
    forall k | 0 <= k < |t.intervals| ensures t.intervals[k] in intervals <==> (root + t.intervals[k]) % 12 in pcs {
      var iv := t.intervals[k];
      IntervalAt(root, (root + iv) % 12, iv);
      if iv in intervals {
        var q :| q in pcs && q != root && (q + 12 - root) % 12 == iv;
        IntervalAt(root, q, iv);
      }
    }
  }

  // ----- a chord is recognised from its own tones

  /** The pitch classes of a chord. */
  function ChordTones(root: nat, offsets: seq<nat>): set<nat> {
    set k | 0 <= k < |offsets| :: (root + offsets[k]) % 12
  }

  lemma TemplateOffsets(q: nat)
    requires q < 5
    ensures Offsets(TemplateAt(q).name) == [0] + TemplateAt(q).intervals
  {
  }

  /** Whether a tone belongs to a chord depends on its distance from the root only. */
  lemma InChord(root: nat, offsets: seq<nat>, d: nat)
    requires root < 12 && (forall k :: 0 <= k < |offsets| ==> offsets[k] < 12)
    ensures (root + d) % 12 in ChordTones(root, offsets) <==> d % 12 in offsets
  {
    if d % 12 in offsets {
      var k :| 0 <= k < |offsets| && offsets[k] == d % 12;
      SameTone(root, offsets[k], d);
    }
    if (root + d) % 12 in ChordTones(root, offsets) {
      var k :| 0 <= k < |offsets| && (root + offsets[k]) % 12 == (root + d) % 12;
      SameTone(root, offsets[k], d);
    }
  }

  lemma SameTone(root: nat, x: nat, d: nat)
    requires x < 12
    ensures (root + x) % 12 == (root + d) % 12 <==> x == d % 12
  {
  }

  predicate ToneOf(q: nat, x: nat)
    requires q < 5
  {
    x in [0] + TemplateAt(q).intervals
  }

  /** The tones of template `t`, `d` semitones above the root of chord `q`, all lie in that chord. */
  predicate Embeds(q: nat, d: nat, t: nat)
    requires q < 5 && t < 5
  {
    var ivs := TemplateAt(t).intervals;
    ToneOf(q, d) && forall k :: 0 <= k < |ivs| ==> ToneOf(q, (d + ivs[k]) % 12)
  }

  /** A template is a third, a fifth and perhaps a seventh (0 when there is none). */
  function Third(t: nat): nat {
    if t == 1 || t == 3 then 3 else 4
  }

  function Seventh(t: nat): nat {
    if t == 2 || t == 3 then 10 else if t == 4 then 11 else 0
  }

  lemma TemplateShape(t: nat)
    requires t < 5
    ensures TemplateAt(t).intervals == if Seventh(t) == 0 then [Third(t), 7] else [Third(t), 7, Seventh(t)]
  {
  }

  /** One of the tones of a chord with that third and seventh. */
  predicate Tone(third: nat, seventh: nat, x: nat) {
    x == 0 || x == third || x == 7 || x == seventh
  }

  lemma BestFit(q: nat, t: nat, d: nat)
    requires q < 5 && t < 5 && d < 12
    requires Tone(Third(q), Seventh(q), d)
    requires Tone(Third(q), Seventh(q), (d + Third(t)) % 12) && Tone(Third(q), Seventh(q), (d + 7) % 12)
    requires Seventh(t) != 0 ==> Tone(Third(q), Seventh(q), (d + Seventh(t)) % 12)
    ensures (d == 0 && t == q) || (Seventh(t) == 0 && Seventh(q) != 0)
  {
  }

  lemma ToneOfTemplate(q: nat, x: nat)
    requires q < 5
    ensures ToneOf(q, x) <==> Tone(Third(q), Seventh(q), x)
  {
    TemplateShape(q);
  }

  /** No other template fits a chord as well as its own does at its own root. */
  lemma OwnTemplateBest(q: nat, d: nat, t: nat)
    requires q < 5 && t < 5 && d < 12 && Embeds(q, d, t)
    ensures (d == 0 && t == q) || |TemplateAt(t).intervals| < |TemplateAt(q).intervals|
  {
    hide Third, Seventh, Tone, TemplateAt, ToneOf;
    TemplateShape(q);
    TemplateShape(t);
    var ivs := TemplateAt(t).intervals;
    ToneOfTemplate(q, d);
    ToneOfTemplate(q, (d + ivs[0]) % 12);
    ToneOfTemplate(q, (d + ivs[1]) % 12);
    if Seventh(t) != 0 {
      ToneOfTemplate(q, (d + ivs[2]) % 12);
    }
    BestFit(q, t, d);
  }

  lemma OwnTemplateFits(q: nat)
    requires q < 5
    ensures Embeds(q, 0, q)
  {
    var own := TemplateAt(q).intervals;
    forall k | 0 <= k < |own| ensures ToneOf(q, (0 + own[k]) % 12) {
      assert own[k] == ([0] + own)[k + 1] && own[k] < 12;
    }
  }

  // ----- the search

  /** At every root that is present, only the chord's own template at its own root reaches the full score. */
  lemma MatchIsEmbedding(r: nat, q: nat, root: nat, t: nat)
    requires r < 12 && root < 12 && q < 5 && t < 5
    ensures var pcs := ChordTones(r, [0] + TemplateAt(q).intervals);
            root in pcs && Matches(pcs, root, TemplateAt(t)) <==> Embeds(q, (root + 12 - r) % 12, t)
  {
    hide ChordTones, TemplateAt, ToneOf;
    var ivs := TemplateAt(t).intervals;
    var pcs, d := ChordTones(r, [0] + TemplateAt(q).intervals), (root + 12 - r) % 12;
    Distance(r, root);
    ToneAbove(r, q, root, d, 0);
    forall k | 0 <= k < |ivs| ensures (root + ivs[k]) % 12 in pcs <==> ToneOf(q, (d + ivs[k]) % 12) {
      ToneAbove(r, q, root, d, ivs[k]);
    }
  }

  lemma ToneAbove(r: nat, q: nat, root: nat, d: nat, iv: nat)
    requires r < 12 && q < 5 && (r + d) % 12 == root
    ensures (root + iv) % 12 in ChordTones(r, [0] + TemplateAt(q).intervals) <==> ToneOf(q, (d + iv) % 12)
  {
    hide ChordTones, TemplateAt;
    TonesBelow12(q);
    InChord(r, [0] + TemplateAt(q).intervals, d + iv);
    Shift(r, d, iv, root);
  }

  lemma TonesBelow12(q: nat)
    requires q < 5
    ensures forall k :: 0 <= k < |[0] + TemplateAt(q).intervals| ==> ([0] + TemplateAt(q).intervals)[k] < 12
  {
  }

  lemma Distance(r: nat, root: nat)
    requires r < 12 && root < 12
    ensures var d := (root + 12 - r) % 12; (r + d) % 12 == root && d % 12 == d
  {
  }

  lemma Shift(r: nat, d: nat, iv: nat, root: nat)
    requires (r + d) % 12 == root
    ensures (r + (d + iv)) % 12 == (root + iv) % 12
  {
  }

  /** The score never exceeds what matching templates offer. */
  lemma {:induction false} AtRootScan(r: nat, q: nat, root: nat, k: nat, best: Best)
    requires r < 12 && root < 12 && q < 5 && k <= 5
    requires var pcs := ChordTones(r, [0] + TemplateAt(q).intervals); root in pcs
    ensures var pcs := ChordTones(r, [0] + TemplateAt(q).intervals);
            var full, own := |TemplateAt(q).intervals|, Best(r, TemplateAt(q).name, |TemplateAt(q).intervals|);
            var after := AtRoot(pcs, root, k, best);
            && (best == own ==> after == own)
            && (best.score < full && !(root == r && q < k) ==> after.score < full)
            && (best.score < full && root == r && q < k ==> after == own)
  {
    hide ChordTones, Matches, TemplateAt, Embeds;
    if k > 0 {
      AtRootScan(r, q, root, k - 1, best);
      MatchIsEmbedding(r, q, root, k - 1);
      var d := (root + 12 - r) % 12;
      assert d == 0 <==> root == r;
      if Embeds(q, d, k - 1) {
        OwnTemplateBest(q, d, k - 1);
      }
      if root == r && q == k - 1 {
        OwnTemplateFits(q);
      }
    }
  }

  lemma {:induction false} RootScan(r: nat, q: nat, n: nat, best: Best)
    requires r < 12 && q < 5 && n <= 12 && best.score < 0
    ensures var pcs := ChordTones(r, [0] + TemplateAt(q).intervals);
            var full := |TemplateAt(q).intervals|;
            var after := UpToRoot(pcs, n, best);
            && (r < n ==> after == Best(r, TemplateAt(q).name, full))
            && (n <= r ==> after.score < full)
  {
    hide ChordTones, AtRoot, TemplateAt;
    if n > 0 {
      RootScan(r, q, n - 1, best);
      var pcs := ChordTones(r, [0] + TemplateAt(q).intervals);
      RootPresent(r, q);
      if n - 1 in pcs {
        AtRootScan(r, q, n - 1, 5, UpToRoot(pcs, n - 1, best));
      }
    }
  }

  lemma RootPresent(r: nat, q: nat)
    requires r < 12 && q < 5
    ensures r in ChordTones(r, [0] + TemplateAt(q).intervals)
  {
    var tones := [0] + TemplateAt(q).intervals;
    assert tones[0] == 0 && (r + tones[0]) % 12 == r;
  }

  /** Detection undoes voicing: from the tones of a chord it finds the root and the quality. */
  lemma DetectsOwnChord(r: nat, quality: string)
    requires r < 12 && Detectable(quality)
    ensures Detect(ChordTones(r, Offsets(quality))) == Detection(true, r, quality)
  {
    hide ChordTones, UpToRoot, TemplateAt, Offsets;
    var q :| 0 <= q < 5 && TemplateAt(q).name == quality;
    TemplateOffsets(q);
    RootPresent(r, q);
    var pcs := ChordTones(r, Offsets(quality));
    RootScan(r, q, 12, Best(Lowest(pcs, 0), "maj", -1));
  }

  /** Whatever the notes, the detector only ever names one of its templates, with a root below 12. */
  lemma {:induction false} DetectsDetectable(pcs: set<nat>)
    requires forall pc :: pc in pcs ==> pc < 12
    ensures Detectable(Detect(pcs).quality) && (Detect(pcs).valid ==> Detect(pcs).rootPc < 12)
  {
    assert TemplateAt(0).name == "maj";
    if pcs != {} {
      DetectableScan(pcs, 12, Best(Lowest(pcs, 0), "maj", -1));
    }
  }

  lemma {:induction false} DetectableScan(pcs: set<nat>, n: nat, best: Best)
    requires n <= 12 && best.score < 0 && Detectable(best.quality)
    ensures var after := UpToRoot(pcs, n, best); Detectable(after.quality) && (after.score >= 0 ==> after.root < 12)
  {
    hide AtRoot;
    if n > 0 {
      DetectableScan(pcs, n - 1, best);
      DetectableAtRoot(pcs, n - 1, 5, UpToRoot(pcs, n - 1, best));
    }
  }

  lemma {:induction false} DetectableAtRoot(pcs: set<nat>, root: nat, k: nat, best: Best)
    requires k <= 5 && root < 12 && Detectable(best.quality) && (best.score >= 0 ==> best.root < 12)
    ensures var after := AtRoot(pcs, root, k, best); Detectable(after.quality) && (after.score >= 0 ==> after.root < 12)
  {
    hide TemplateAt;
    if k > 0 {
      DetectableAtRoot(pcs, root, k - 1, best);
      assert TemplateAt(k - 1).name == TemplateAt(k - 1).name;
    }
  }

  // ----- what the detector finds in any notes

  /** The tones of template `t` above a root that is present are all there. */
  ghost predicate Fit(pcs: set<nat>, root: nat, t: nat) {
    t < 5 && root in pcs && forall k :: 0 <= k < |TemplateAt(t).intervals| ==> (root + TemplateAt(t).intervals[k]) % 12 in pcs
  }

  /** Root and template come earlier in the search. */
  predicate Earlier(root: nat, t: nat, root': nat, t': nat) {
    root < root' || (root == root' && t < t')
  }

  /** Of all that was tried before root `n` and template `k`, this is the largest, and the first of that size. */
  ghost predicate FirstLargest(pcs: set<nat>, n: nat, k: nat, root: nat, t: nat) {
    && Fit(pcs, root, t) && Earlier(root, t, n, k)
    && forall root', t' :: Fit(pcs, root', t') && Earlier(root', t', n, k) ==>
      && |TemplateAt(t').intervals| <= |TemplateAt(t).intervals|
      && (Earlier(root', t', root, t) ==> |TemplateAt(t').intervals| < |TemplateAt(t).intervals|)
  }

  /** The running best after everything before root `n` and template `k`. */
  ghost predicate Running(pcs: set<nat>, n: nat, k: nat, start: Best, best: Best) {
    || (best == start && forall root, t :: Fit(pcs, root, t) ==> !Earlier(root, t, n, k))
    || (exists root, t :: FirstLargest(pcs, n, k, root, t) && best == Best(root, TemplateAt(t).name, |TemplateAt(t).intervals|))
  }

  lemma TemplateSizes(t: nat)
    requires t < 5
    ensures |TemplateAt(t).intervals| >= 2
  {
  }

  lemma OneMore(n: nat, k: nat)
    ensures forall root: nat, t: nat {:trigger Earlier(root, t, n, k)} {:trigger Earlier(root, t, n, k + 1)} ::
      Earlier(root, t, n, k + 1) <==> (Earlier(root, t, n, k) || (root == n && t == k))
  {
  }

  lemma RunningStep(pcs: set<nat>, n: nat, k: nat, start: Best, best: Best)
    requires k < 5 && n in pcs && start.score < 0 && Running(pcs, n, k, start, best)
    ensures Running(pcs, n, k + 1, start, Better(pcs, n, TemplateAt(k), best))
  {
    hide TemplateAt;
    TemplateSizes(k);
    var next := Better(pcs, n, TemplateAt(k), best);
    assert Fit(pcs, n, k) <==> Matches(pcs, n, TemplateAt(k));
    OneMore(n, k);
    if best == start && forall root, t :: Fit(pcs, root, t) ==> !Earlier(root, t, n, k) {
      if Fit(pcs, n, k) {
        assert FirstLargest(pcs, n, k + 1, n, k);
      }
    } else {
      var root, t :| FirstLargest(pcs, n, k, root, t) && best == Best(root, TemplateAt(t).name, |TemplateAt(t).intervals|);
      if Fit(pcs, n, k) && |TemplateAt(k).intervals| > best.score {
        assert FirstLargest(pcs, n, k + 1, n, k);
      } else {
        assert FirstLargest(pcs, n, k + 1, root, t);
      }
    }
  }

  lemma {:induction false} RunningAtRoot(pcs: set<nat>, n: nat, k: nat, start: Best, best: Best)
    requires k <= 5 && n in pcs && start.score < 0 && Running(pcs, n, 0, start, best)
    ensures Running(pcs, n, k, start, AtRoot(pcs, n, k, best))
  {
    hide Running, Better;
    if k > 0 {
      RunningAtRoot(pcs, n, k - 1, start, best);
      RunningStep(pcs, n, k - 1, start, AtRoot(pcs, n, k - 1, best));
    }
  }

  lemma NextRoot(pcs: set<nat>, n: nat, start: Best, best: Best)
    ensures Running(pcs, n, 5, start, best) ==> Running(pcs, n + 1, 0, start, best)
    ensures n !in pcs && Running(pcs, n, 0, start, best) ==> Running(pcs, n + 1, 0, start, best)
  {
    hide TemplateAt;
    assert forall root, t: nat :: t < 5 ==> (Earlier(root, t, n + 1, 0) <==> Earlier(root, t, n, 5));
    assert n !in pcs ==> forall root, t: nat :: Fit(pcs, root, t) ==> (Earlier(root, t, n + 1, 0) <==> Earlier(root, t, n, 0));
    if root, t :| FirstLargest(pcs, n, 5, root, t) && best == Best(root, TemplateAt(t).name, |TemplateAt(t).intervals|) {
      assert FirstLargest(pcs, n + 1, 0, root, t);
    }
    if root, t :| n !in pcs && FirstLargest(pcs, n, 0, root, t) && best == Best(root, TemplateAt(t).name, |TemplateAt(t).intervals|) {
      assert FirstLargest(pcs, n + 1, 0, root, t);
    }
  }

  lemma {:induction false} RunningUpTo(pcs: set<nat>, n: nat, start: Best)
    requires start.score < 0
    ensures Running(pcs, n, 0, start, UpToRoot(pcs, n, start))
  {
    hide AtRoot;
    if n == 0 {
      assert forall root, t: nat :: !Earlier(root, t, 0, 0);
    } else {
      RunningUpTo(pcs, n - 1, start);
      var before := UpToRoot(pcs, n - 1, start);
      NextRoot(pcs, n - 1, start, before);
      if n - 1 in pcs {
        RunningAtRoot(pcs, n - 1, 5, start, before);
        NextRoot(pcs, n - 1, start, AtRoot(pcs, n - 1, 5, before));
      }
    }
  }

  /**
   Whatever the notes, the detector names the largest template that they hold, at the first root and
   by the first template of that size; it fails exactly when they hold none.
   */
  lemma DetectsLargest(pcs: set<nat>)
    requires forall pc :: pc in pcs ==> pc < 12
    ensures Detect(pcs).valid <==> exists root, t :: Fit(pcs, root, t)
    ensures Detect(pcs).valid ==>
      exists root, t :: FirstLargest(pcs, 12, 0, root, t) && Detect(pcs).rootPc == root && Detect(pcs).quality == TemplateAt(t).name
  {
    hide TemplateAt, UpToRoot, Lowest;
    var start := Best(Lowest(pcs, 0), "maj", -1);
    RunningUpTo(pcs, 12, start);
    assert forall root, t: nat :: Fit(pcs, root, t) ==> Earlier(root, t, 12, 0);
    if pcs != {} {
      var best := UpToRoot(pcs, 12, start);
      if root, t :| FirstLargest(pcs, 12, 0, root, t) && best == Best(root, TemplateAt(t).name, |TemplateAt(t).intervals|) {
        assert Fit(pcs, root, t);
      }
    }
  }
}
