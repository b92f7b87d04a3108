/**
 Chord symbols and their tones, as `parse_chord` and `offsets_for` read them in
 `orchestration_engine.cpp`.
 */
module ChordSymbols {

  type PitchClass = p: nat | p < 12

  datatype Chord = Chord(rootPc: PitchClass, quality: string)

  /** Unknown names count as C. */
  function RootClass(key: string): PitchClass {
    match key
    case "C" => 0 case "C#" => 1 case "Db" => 1 case "D" => 2 case "D#" => 3 case "Eb" => 3
    case "E" => 4 case "F" => 5 case "F#" => 6 case "Gb" => 6 case "G" => 7 case "G#" => 8
    case "Ab" => 8 case "A" => 9 case "A#" => 10 case "Bb" => 10 case "B" => 11
    case _ => 0
  }

  function ParseChord(symbol: string): Chord {
    if symbol == [] then Chord(0, "maj")
    else
      var pos := if |symbol| > 1 && (symbol[1] == '#' || symbol[1] == 'b') then 2 else 1;
      var quality := symbol[pos..];
      Chord(RootClass(symbol[..pos]),
            if quality == "" || quality == "M" then "maj" else if quality == "m" then "min" else quality)
  }

  /** Semitones above the root; unknown qualities count as major. */
  function OffsetsFor(quality: string): (offsets: seq<nat>)
    ensures |offsets| >= 3 && forall k :: 0 <= k < |offsets| ==> offsets[k] < 12
  {
    match quality
    case "min" => [0, 3, 7]
    case "7" => [0, 4, 7, 10]
    case "m7" => [0, 3, 7, 10]
    case "maj7" => [0, 4, 7, 11]
    case "m7b5" => [0, 3, 6, 10]
    case "dim" => [0, 3, 6]
    case "dim7" => [0, 3, 6, 9]
    case _ => [0, 4, 7]
  }

  /** The name of a pitch class. */
  function SymbolOf(pc: PitchClass): string {
    match pc
    case 0 => "C" case 1 => "C#" case 2 => "D" case 3 => "Eb" case 4 => "E" case 5 => "F"
    case 6 => "F#" case 7 => "G" case 8 => "Ab" case 9 => "A" case 10 => "Bb" case 11 => "B"
  }

  /** Every pitch class is the root of some symbol. */
  lemma SymbolRoundTrip(pc: PitchClass)
    ensures ParseChord(SymbolOf(pc)) == Chord(pc, "maj")
  {
    var s := SymbolOf(pc);
    assert s[..|s|] == s && s[|s|..] == "";
  }
}
