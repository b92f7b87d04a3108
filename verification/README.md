# AI MIDI composer: verified core

A Dafny 4.11 model of the parts of the AI MIDI composer where getting it right is hard:
the Fourier transform behind the audio analysis, the lock-free ring between the message
thread and the audio thread, the Standard MIDI File writer with the reader and merger that
consume its files, the note pairing of the piano roll, and the musical transformations in
between. `dafny verify dfyconfig.toml` checks the whole project.

## What is proved

* **Fourier transform** (`Complex`, `Roots`, `BitReversal`, `Dft`, `Fft`). The three nested
  in-place butterfly loops leave the defining Fourier sum in every bin, for every power-of-two
  size and every real input. The inverse undoes the forward transform on every real buffer; the
  forward transform undoes the inverse exactly on the Hermitian spectra; `size/2 + 1` bins
  determine a real buffer.
* **Lock-free ring** (`FifoProtocol`, `FifoInvariant`, `FifoSafety`, `FifoExact`, `MidiFifo`). Push, pop and
  clear are broken into atomic micro-steps, run by an arbitrary scheduler, with stale loads of
  the other thread's index. The ring with wrapping indices goes through exactly the states of a
  ring with unbounded counters; consumption is a prefix of publication, publication is a prefix
  of every batch, a slot is never written while it is read, and `size`, called from either
  thread, errs only to the safe side. A batch is cut only by a full ring, reading stops only at an
  empty one, and an uninterrupted call does what the sequential method does.
* **MIDI files** (`Bytes`, `SmfTrack`, `SmfNameLimit`, `SmfRenderer`, `SmfFile`, `SmfMeta`, `NoteNames`,
  `Permutations`, `NoteBalance`, `NotePairing`, `EndToEnd`). Rendered tracks read back by the rules of the
  standard, for every order the unstable sort may choose; files read back and merge without
  loss; rendering, reading and pairing shows exactly the notes that were written, if and only
  if no note ends strictly inside another of the same pitch and no rest is too long for a delta
  time.
* **Counterpoint** (`Counterpoint`). Every generated line is consonant, in range and framed by
  unisons or octaves, and an inner step avoids parallels and answers the cantus exactly when the
  previous note lies on the right side of the lowest or highest usable note.
* **Chords** (`ChordDetection`, `ChordPipeline`, `VoicedHarmony`). Voicing a progression with any inversions and
  detecting it again returns the progression, if and only if its chords are of the five known
  qualities; the harmony engine's own progression survives exactly up to the bar whose onset no
  longer fits 32 bits.
* **Orchestration** (`Ensemble`, `ChordSymbols`, `Register`, `HarmonyPool`, `Orchestration`,
  `Orchestrator`, `EnsembleScore`, `EnsembleHarmony`, `MelodySplit`). Both orchestration functions are proved against
  the log of every event they push, in order, with its random number. Every bar sounds the chord of
  that bar, each role on its beats, and leaves no tone out. For every progression,
  number of bars and seed, each track stays in the range of its instrument, exactly when every
  bass spans 11 semitones; a harmony instrument doubles no earlier one while its range holds more
  tones of the shared pool than there are instruments before it, and exactly then in a section
  of equal ranges; each melody track is the melody up to channel and octave, and, behind the split
  of a piano part, the top line of the piano.
* **Feel** (`Humanization`, `HumanizationStyles`). For every seed, onsets and ends move within
  their bounds exactly under conditions on the event and the parameters; in every style the
  result lasts, is audible and satisfies what the renderer needs; the snap style is idempotent.
* **Planning** (`Blueprint`, `Arrangement`). Blueprint generation is idempotent exactly on the
  accepted blueprints and its channel allocator separates up to nine instruments; over every
  section sequence the arrangement stays between the ideals of the lowest and the highest energy.

Random generators are arbitrary streams of naturals, so every statement holds for every seed.
Integers are unbounded; every 8-, 16-, 24-, 32- and 64-bit truncation that the code performs is
written out, except where "Left out" says otherwise. `Arithmetic` and `Ordered` hold the few
facts about quotients, powers of two and sorted lists that the rest shares.

## Where the code falls short of its own description

* `processBlock` pops before it looks at the block size, so an empty block loses one event
  (`MidiFifo.Drain`).
* A track name of 128 bytes or more cannot be read back, because its length is written as one
  byte that readers take for a variable-length quantity (`SmfNameLimit.NameLimit`).
* Delta times above 0x0FFFFFFF are written in five bytes, which the standard does not allow, so a
  track with a longer rest cannot be read back (`SmfNameLimit.NameLimit`, `NotePairing.RollShowsTrack`).
* Jitter can push the end of a short early note below tick zero, where the cast to an unsigned
  number makes it end past tick 2^31 (`Humanization.EndBoundedIff`, `Humanization.ShortNoteRunsAway`),
  and the rest before that end makes the whole track unreadable (`EndToEnd.RunawayTrackLost`);
  of the styles, only the standard and the swing style let that through
  (`HumanizationStyles.StyleEndBoundedIff`).
* Merged files of more than 65535 tracks, and tempos outside the stated condition, do not come
  back (`SmfFile.MergeConserves`, `SmfFile.TempoRecovered`).
* Bass notes leave the range of an instrument that spans less than 11 semitones
  (`Register.BassInRangeIffOctave`, `EnsembleScore.StaysInRangeIff`, `EnsembleScore.FullStaysInRangeIff`).
* The countermelody of a melody note softer than velocity 11 is silent or wraps to a velocity
  above 127 (`EnsembleScore.CountermelodyAudibleIff`).
* Merging three files depends on the grouping as soon as one neighbouring pair has more than
  65535 tracks and the other does not (`SmfFile.MergeAssociativeIff`).
* Drums are not always on channel 9: a second drum, or one after an instrument that asked for 9,
  goes elsewhere (`Blueprint.DrumOnNineIff`).
* A rejected blueprint is returned as the default one, which a second call accepts
  (`Blueprint.GenerateIdempotent`).

## Model

| member | source | states |
|---|---|---|
| `RootsOfUnity.TableSpansCircle` | engine/cpp/src/dsp/fft.cpp:21-25 | a half table whose products add angles continues to a full circle of roots: angles add, half a turn flips the sign, whole turns cancel |
| `RootsOfUnity.Orthogonal` | engine/cpp/src/dsp/fft.cpp:21-25 | the roots sum to the size at angle zero and to zero at every other angle |
| `RootsOfUnity.QuarterTurns` | engine/cpp/src/dsp/fft.cpp:21-25 | the table for size 4, `1` and `-i`, meets the laws that the theorems assume |
| `BitReversal.ReverseInvolution` | engine/cpp/src/dsp/fft.cpp:11-19 | reversing the bits of an index twice gives the index back, so the table is a permutation |
| `FastFourier.ReversedIndex` | engine/cpp/src/dsp/fft.cpp:14-18 | the shift-and-or loop computes the reversal of the low bits |
| `FastFourier.FFT.constructor` | engine/cpp/src/dsp/fft.cpp:8-26 | both tables are filled as the transform needs them |
| `FourierSum.CooleyTukey` | engine/cpp/src/dsp/fft.cpp:37-41 | two transforms of the even and odd samples give both halves of the larger transform with one product per pair |
| `FastFourier.CrossBlock` | engine/cpp/src/dsp/fft.cpp:36-42 | the innermost loop replaces exactly one block by its butterflies, in place |
| `FastFourier.CrossStage` | engine/cpp/src/dsp/fft.cpp:35-43 | the middle loop crosses every block of the stage |
| `FastFourier.StageAdvance` | engine/cpp/src/dsp/fft.cpp:33-44 | a pass turns finished transforms of half a block into finished transforms of whole blocks, for any family that obeys the butterfly |
| `FastFourier.Network` | engine/cpp/src/dsp/fft.cpp:33-44 | the three nested loops turn bit-reversed samples into their spectrum |
| `FastFourier.FFT.Forward` | engine/cpp/src/dsp/fft.cpp:28-45 | every output bin is the defining Fourier sum of the real input |
| `FastFourier.FFT.Inverse` | engine/cpp/src/dsp/fft.cpp:47-69 | every output sample is the real part of the inverse Fourier sum divided by the size |
| `FourierSum.InverseByConjugation` | engine/cpp/src/dsp/fft.cpp:50-51 | conjugating before and after the forward network is the inverse sum |
| `FourierSum.Inversion` | engine/cpp/src/dsp/fft.cpp:28-69 | the inverse sum of the bins of any signal is the size times the signal |
| `FourierSum.SynthesisOfSpectrum` | engine/cpp/src/dsp/fft.cpp:28-69 | inverse after forward is the identity on every real buffer |
| `FourierSum.SpectrumOfSynthesis` | engine/cpp/src/dsp/fft.cpp:28-69 | forward after inverse is the identity if and only if the spectrum is Hermitian |
| `FourierSum.RealIsHermitian` | engine/cpp/include/aimidi/dsp/FFT.hpp:19-19 | bins k and n-k of a real input are conjugate |
| `FourierSum.LowerBinsSuffice` | engine/cpp/include/aimidi/dsp/FFT.hpp:19-19 | two real buffers that agree on `size/2 + 1` bins are equal |
| `FastFourier.FFT.ForwardThenInverse` | engine/cpp/src/dsp/fft.cpp:28-69 | running both methods returns the input buffer, also when input and output are the same buffer |
| `FifoProtocol.MaskIsModulo` | plugin/src/engine/MidiFifo.hpp:77-77 | masking with a power of two minus one is the remainder |
| `FifoInvariant.StepInv` | plugin/src/engine/MidiFifo.hpp:71-113 | every micro-step of push, pop, size, clear and the enqueue loop keeps the ring invariant, also after stale loads |
| `FifoInvariant.RunInv` | plugin/src/engine/MidiFifo.hpp:71-113 | every state that any schedule reaches satisfies the invariant |
| `FifoSafety.WrapStep` | plugin/src/engine/MidiFifo.hpp:71-113 | one micro-step with wrapping indices is the same step with unbounded ones, reduced |
| `FifoSafety.WrappingRefines` | plugin/src/engine/MidiFifo.hpp:53-99 | over schedules of any length the wrapping ring passes through exactly the unbounded states reduced to the index width |
| `FifoSafety.FirstInFirstOut` | plugin/src/engine/MidiFifo.hpp:71-113 | what was consumed is a prefix of what was published, and what was published is a prefix of every batch offered |
| `FifoSafety.DeliveredInOrder` | plugin/src/engine/MidiFifo.hpp:83-92 | without a clear, the host received a prefix of the published events |
| `FifoSafety.OccupancyBounded` | plugin/src/engine/MidiFifo.hpp:94-100 | at any instant the wrapped difference of the indices is the number of waiting events, between zero and the capacity |
| `FifoSafety.SizeBounded` | plugin/src/engine/MidiFifo.hpp:94-100 | every result of `size`, whose two loads are separate micro-steps of the producer or the consumer, lies between zero and the capacity; the producer never sees too few waiting events, the consumer never too many |
| `FifoSafety.NoSlotShared` | plugin/src/engine/MidiFifo.hpp:77-89 | the producer never writes the slot that the consumer is reading |
| `FifoExact.FullTestExact` | plugin/src/engine/MidiFifo.hpp:71-76 | over every schedule, the full test gives the batch up if and only if, by the read index the producer saw, the ring holds as many events as it has slots; with a current index, if and only if the ring is full; otherwise it goes on to write |
| `FifoExact.EmptyTestExact` | plugin/src/engine/MidiFifo.hpp:83-88 | the empty test goes on to read if and only if something the consumer saw published is not consumed; with a current index, if and only if something is waiting |
| `FifoExact.CutByFullRing` | plugin/src/PluginProcessor.cpp:101-111 | a batch leaves events behind only at a full test that saw a full ring |
| `FifoExact.BatchesAreOffered` | plugin/src/PluginProcessor.cpp:101-111 | every batch that was offered is finished or being worked on, whole and in order |
| `FifoExact.PushAlone` | plugin/src/engine/MidiFifo.hpp:71-80 | an uninterrupted push with a current index publishes the next event when there is room and gives the rest of the batch up when there is none |
| `FifoExact.PopAlone` | plugin/src/engine/MidiFifo.hpp:83-92 | an uninterrupted pop with a current index delivers the oldest waiting event, or nothing when none waits |
| `FifoExact.ClearAlone` | plugin/src/engine/MidiFifo.hpp:110-113 | an uninterrupted clear with a current index drops exactly what is waiting |
| `FifoExact.SizeAlone` | plugin/src/engine/MidiFifo.hpp:94-100 | an uninterrupted size with a current index, on either thread, is the number of waiting events |
| `MidiFifo.Fifo.Push` | plugin/src/engine/MidiFifo.hpp:71-80 | appends the event and succeeds exactly when there was room |
| `MidiFifo.Fifo.Pop` | plugin/src/engine/MidiFifo.hpp:83-92 | removes the oldest event and succeeds exactly when there was one |
| `MidiFifo.Fifo.Clear` | plugin/src/engine/MidiFifo.hpp:110-113 | leaves the ring empty |
| `MidiFifo.EnqueueMidiEvents` | plugin/src/PluginProcessor.cpp:101-111 | a prefix of the batch is appended, and a remainder is dropped only when the ring is full |
| `MidiFifo.Drain` | plugin/src/PluginProcessor.cpp:72-96 | before each pop the next batch arrives, whole when there is room and otherwise up to a full ring; everything that was waiting and exactly those prefixes of the batches go to the host in order, each message with the kind, note and velocity of its event, the channel counted from one and the position clamped to the block, and the ring ends empty; an empty block loses one event |
| `Bytes.EncodeVlq` | engine/cpp/src/theory/midi_renderer.cpp:37-47 | the collect-and-reverse loop writes the quantity, seven bits per byte, most significant first |
| `Bytes.VlqRoundTrip` | engine/cpp/src/theory/midi_renderer.cpp:37-47 | a quantity up to 0x0FFFFFFF reads back, whatever bytes follow, and a larger one is refused by a reader of the standard |
| `Bytes.VlqLength` | engine/cpp/src/theory/midi_renderer.cpp:37-47 | four bytes suffice exactly up to 0x0FFFFFFF |
| `SmfTrack.DecodeWire` | engine/cpp/src/theory/midi_renderer.cpp:214-234 | delta times never underflow, every omitted status byte is reconstructed, and the events are refused exactly when some delta time exceeds 0x0FFFFFFF |
| `SmfTrack.TrackRoundTrip` | engine/cpp/src/theory/midi_renderer.cpp:159-248 | a reader of the standard recovers the name, the sorted events with absolute ticks and the end of the track, or refuses the track because a delta time exceeds 0x0FFFFFFF |
| `SmfNameLimit.DecodeCost` | engine/cpp/src/theory/midi_renderer.cpp:214-242 | no reading of a byte string yields messages whose shortest encoding is longer than the string |
| `SmfNameLimit.NameLimit` | engine/cpp/src/theory/midi_renderer.cpp:167-174 | the track reads back as meant if and only if the name has at most 127 bytes and no delta time exceeds 0x0FFFFFFF |
| `SmfRenderer.CollectWireEvents` | engine/cpp/src/theory/midi_renderer.cpp:176-197 | a note-on and a note-off per event, notes above 127 skipped |
| `SmfRenderer.SortWire` | engine/cpp/src/theory/midi_renderer.cpp:199-205 | a permutation ordered by tick with note-offs first, and nothing more |
| `SmfRenderer.AppendEvents` | engine/cpp/src/theory/midi_renderer.cpp:214-234 | the loop appends exactly the running-status layout of the events |
| `SmfRenderer.BuildInstrumentTrack` | engine/cpp/src/theory/midi_renderer.cpp:159-248 | appends the chunk of some sort of the track's wire events |
| `SmfRenderer.BuildTempoTrack` | engine/cpp/src/theory/midi_renderer.cpp:106-154 | appends the chunk with the tempo, time signature and key signature events |
| `SmfRenderer.Render` | engine/cpp/src/theory/midi_renderer.cpp:77-100 | the file is the header, the tempo chunk and one chunk per track |
| `SmfFile.ReadSmf` | engine/go/internal/workflow/workflow_manager.go:110-145 | the cursor loop computes the header and track data, with its error cases |
| `SmfFile.ReadWrite` | engine/go/internal/workflow/workflow_manager.go:110-145 | a written file reads back as its header and as many tracks as the header announces |
| `SmfFile.ReadIsWritten` | engine/go/internal/workflow/workflow_manager.go:110-145 | whatever file is accepted, the header and tracks read from it, written again, are its beginning; only a file that ends inside its last track is filled up with zeros |
| `SmfFile.ReadRendered` | engine/cpp/src/theory/midi_renderer.cpp:77-100 | a rendered file reads back with format 1, its ppq and its bodies, all of them exactly when there are fewer than 65535 tracks |
| `SmfFile.MergeSmf` | engine/go/internal/workflow/workflow_manager.go:150-186 | the write loop produces the base header with the new count and the tracks of both files |
| `SmfFile.ReadMerge` | engine/go/internal/workflow/workflow_manager.go:150-186 | reading a merged file gives the base header, the wrapped track count and that many of the concatenated tracks |
| `SmfFile.MergeConserves` | engine/go/internal/workflow/workflow_manager.go:150-186 | merging keeps every track, byte for byte, if and only if there are at most 65535 |
| `SmfFile.MergeAssociativeIff` | engine/go/internal/workflow/workflow_manager.go:150-186 | merging three files in either order gives the same bytes if and only if both neighbouring pairs fit 65535 tracks, or neither does and the third file holds what the two wraps cut away |
| `SmfFile.TempoTrackRoundTrip` | engine/cpp/src/theory/midi_renderer.cpp:106-154 | the tempo track reads back as three meta events and the end of the track |
| `SmfMeta.TempoTrackDecoded` | engine/cpp/src/theory/midi_renderer.cpp:106-154 | a reader of the bytes finds the tempo, the numerator, the denominator as a power of two with 24 and 8 behind it, the signed number of sharps and the mode, in this order |
| `SmfMeta.SharpsAreFifths` | engine/cpp/src/theory/midi_renderer.cpp:53-61 | the key signature counts fifths from C, seven in either direction, and unknown keys count as C |
| `SmfFile.TempoRecovered` | engine/cpp/src/theory/midi_renderer.cpp:115-118 | the tempo comes back if and only if it is at least 4 and the remainder of its division is below the quotient |
| `SmfFile.UsualTempoRecovered` | engine/cpp/src/theory/midi_renderer.cpp:115-118 | every tempo from 4 to 7745 comes back |
| `SmfFile.DenominatorRecovered` | engine/cpp/src/theory/midi_renderer.cpp:126-131 | the power that the shift loop finds is the denominator if and only if that is a power of two, and otherwise the next lower one |
| `NoteBalance.StreamBalanced` | engine/cpp/src/theory/midi_renderer.cpp:177-205 | in every prefix of the stream, in any sort order, no key was released more often than pressed, and at the end just as often |
| `NotePairing.ParseTrack` | plugin/src/ui/PianoRollComponent.cpp:153-180 | the nested loops pair each note-on with the first later note-off of its pitch |
| `NotePairing.NoteShown` | plugin/src/ui/PianoRollComponent.cpp:160-180 | a sounding note-on of any track is shown from its tick to the first later message that ends its pitch, a note-on of velocity zero included, or for a quarter note when there is none |
| `NotePairing.PairedElements` | plugin/src/ui/PianoRollComponent.cpp:160-180 | there is a note on the roll for every sounding note-on, and no other |
| `NotePairing.LastNameIs` | plugin/src/ui/PianoRollComponent.cpp:153-158 | the last of several track names is the one shown |
| `NotePairing.PairedEnd` | plugin/src/ui/PianoRollComponent.cpp:171-177 | in any sort order, the end found is the earliest end of that pitch after the note-on |
| `NotePairing.DeltasFitIff` | engine/cpp/src/theory/midi_renderer.cpp:199-219 | in any sort order, all delta times are at most 0x0FFFFFFF if and only if every begin or end of a note is within that distance of tick zero or of an earlier begin or end |
| `NotePairing.NoteOnTheWire` | engine/cpp/src/theory/midi_renderer.cpp:176-197 | a reader finds the note-on and the note-off of every note, with pitch, velocity and channel |
| `NotePairing.RollShowsTrack` | plugin/src/ui/PianoRollComponent.cpp:160-180 | rendering, decoding and pairing shows exactly the notes of a track, if and only if no note ends strictly inside another of its pitch and no rest exceeds 0x0FFFFFFF ticks; the track can be read at all exactly under the second condition |
| `NotePairing.DisjointIsUndisturbed` | plugin/src/ui/PianoRollComponent.cpp:160-180 | tracks whose equal pitches do not overlap meet that condition |
| `EndToEnd.FileShowsComposition` | engine/cpp/src/theory/midi_renderer.cpp:77-248 | the same for every track of a whole file, through the header, chunks and reader |
| `EndToEnd.RenderAndRead` | engine/cpp/src/theory/midi_renderer.cpp:77-248 | the render and read methods composed give that file, and a track of it shows its notes exactly under those two conditions |
| `EndToEnd.RunawayTrackLost` | engine/cpp/src/theory/humanization_engine.cpp:52-57 | one note whose end jitter pulls below tick zero makes the whole rendered track unreadable, in any sort order |
| `Counterpoint.ValidMidiNotes` | engine/cpp/src/theory/counterpoint_engine.cpp:27-43 | the scan by pitch class finds exactly the consonances in range |
| `Counterpoint.FilterFirstSpecies` | engine/cpp/src/theory/counterpoint_engine.cpp:253-307 | the filter keeps the passing candidates, or all when none pass |
| `Counterpoint.FilterPromise` | engine/cpp/src/theory/counterpoint_engine.cpp:253-307 | any choice is consonant and in range, perfect at the ends, and at an inner step avoids parallels and moves down against a rising cantus and up against a falling one, if and only if some candidate does |
| `Counterpoint.FilteredNonempty` | engine/cpp/src/theory/counterpoint_engine.cpp:133-141 | the filter never leaves the list empty, so the fallback note is unreachable |
| `Counterpoint.AnswerExistsIff` | engine/cpp/src/theory/counterpoint_engine.cpp:279-304 | a stationary cantus can always be answered, a rising one if and only if the previous note is above the lowest usable note, a falling one if and only if it is below the highest |
| `Counterpoint.AnswerExists` | engine/cpp/src/theory/counterpoint_engine.cpp:279-304 | a stationary cantus can always be answered, a moving one whenever the previous note lies in 66..78 |
| `Counterpoint.NoAnswerAtTheEdge` | engine/cpp/src/theory/counterpoint_engine.cpp:279-304 | at the edges of the range the matching motion has no answer |
| `Counterpoint.GenerateFirstSpecies` | engine/cpp/src/theory/counterpoint_engine.cpp:108-153 | for every bass, cantus and seed the line is framed, and an inner step avoids parallels and moves against the cantus if and only if a usable note lies on the right side of the previous one |
| `Counterpoint.InnerStepsAnswer` | engine/cpp/src/theory/counterpoint_engine.cpp:279-304 | no parallels over a stationary cantus; from 66..78 no parallels, down when the cantus rises and up when it falls |
| `Counterpoint.InnerStepAnswersIff` | engine/cpp/src/theory/counterpoint_engine.cpp:279-304 | an inner step of the line avoids parallels and moves against the rise or fall of the cantus if and only if that condition holds |
| `Counterpoint.SlotsTile` | engine/cpp/src/theory/counterpoint_engine.cpp:143-150 | each note begins with its slot and ends five ticks before the next one |
| `ChordDetection.DetectChord` | engine/cpp/tools/mte_cli.cpp:129-176 | the running-best search over roots and templates |
| `ChordDetection.OwnTemplateBest` | engine/cpp/tools/mte_cli.cpp:137-173 | no template at any root of a chord scores as high as the chord's own |
| `ChordDetection.DetectsOwnChord` | engine/cpp/tools/mte_cli.cpp:129-176 | from the tones of a known chord the detector finds its root and quality |
| `ChordDetection.DetectsLargest` | engine/cpp/tools/mte_cli.cpp:129-176 | from any notes the detector names the largest template they hold, at the first root and by the first template of that size, and fails if and only if they hold none |
| `ChordPipeline.ApplyInversion` | engine/cpp/src/theory/chord_engine.cpp:48-59 | the chord is rotated and the wrapped tones drop an octave |
| `ChordPipeline.Voicing` | engine/cpp/src/theory/chord_engine.cpp:65-104 | the events of every chord, with its random inversion and velocity, in order |
| `ChordPipeline.VoicedClasses` | engine/cpp/src/theory/chord_engine.cpp:73-101 | whatever inversion is drawn, the pitch classes are those of the chord |
| `VoicedHarmony.ChordSounds` | engine/cpp/src/theory/chord_engine.cpp:70-101 | one chord is its stacked tones from 48 upward with the first of them an octave lower as the inversion says, from its onset to its end, on its channel, at one velocity |
| `VoicedHarmony.VoicedSounds` | engine/cpp/src/theory/chord_engine.cpp:65-104 | a progression is, chord after chord, exactly these tones, with the drawn inversion and a velocity in 50..100 |
| `VoicedHarmony.VoicedLastsIff` | engine/cpp/src/theory/chord_engine.cpp:93-96 | every note of a spaced progression lasts if and only if the last chord ends before tick 2^32 |
| `VoicedHarmony.VoicedStreamBalanced` | engine/cpp/src/theory/chord_engine.cpp:65-104 | however voiced harmony is sorted and rendered, its stream is balanced |
| `ChordPipeline.ConvertHarmony` | engine/cpp/tools/mte_cli.cpp:376-404 | one recovered spec per distinct onset, in ascending order |
| `VoicedHarmony.RecoveredIs` | engine/cpp/tools/mte_cli.cpp:376-404 | each spec begins at its onset, lasts until the next one or a bar, and names the largest template of the notes there, or C major when they hold none |
| `ChordPipeline.ProgressionRoundTrip` | engine/cpp/tools/mte_cli.cpp:376-404 | voicing and recovering a progression gives it back if and only if every chord is of a known quality with a root in 0..11 |
| `ChordPipeline.HarmonySpecs` | engine/cpp/src/theory/harmony.cpp:69-99 | the bar loop builds the II-V-I-I specs |
| `VoicedHarmony.HarmonyIsCadence` | engine/cpp/src/theory/harmony.cpp:50-91 | in every four bars the roots fall by a fifth twice, to the tonic, which is then repeated with its quality |
| `VoicedHarmony.HarmonyInScale` | engine/cpp/src/theory/harmony.cpp:50-91 | every spec is a seventh chord of tones of C major, one bar long, on its own bar while that onset fits 32 bits, on channel 0 |
| `ChordPipeline.HarmonyRecovered` | engine/cpp/src/theory/harmony.cpp:50-104 | the command line recovers the engine's specs if and only if there are at most 2236963 bars |
| `MelodySplit.SeparateMelodyHarmony` | engine/cpp/src/theory/orchestrate_workflow.cpp:149-181 | per onset the first highest note goes to the melody, the others in order to the harmony |
| `MelodySplit.SplitCorrect` | engine/cpp/src/theory/orchestrate_workflow.cpp:149-181 | melody and harmony together are the piano part; the melody has each onset once, ascending, with a highest note |
| `MelodySplit.RestInOrder` | engine/cpp/src/theory/orchestrate_workflow.cpp:165-179 | the notes under the top one stay in order |
| `MelodySplit.PlayTopLine` | engine/cpp/src/theory/orchestrate_workflow.cpp:149-181 | the split and `orchestrate_full` composed: the top line of the piano, one note per onset, is what is orchestrated |
| `MelodySplit.TopLinePlayed` | engine/cpp/src/theory/orchestration_engine.cpp:525-539 | each melody instrument plays, per onset, a highest piano note with its ticks and velocity, in range, and of its pitch class when the range spans 17 semitones |
| `Register.ClassKeptIffWide` | engine/cpp/src/theory/orchestration_engine.cpp:527-533 | every note keeps its pitch class if and only if the range spans at least 17 semitones |
| `Register.PlaceBass` | engine/cpp/src/theory/orchestration_engine.cpp:230-240 | the transposition loops compute the placed root and fifth |
| `Register.BassClasses` | engine/cpp/src/theory/orchestration_engine.cpp:230-240 | the placed notes are the root and the fifth of the chord |
| `Register.BassInRangeIffOctave` | engine/cpp/src/theory/orchestration_engine.cpp:230-240 | root and fifth lie in range for every chord if and only if the range spans at least 11 semitones |
| `Register.ChordToneKeptIffOctave` | engine/cpp/src/theory/orchestration_engine.cpp:277-286 | no chord tone is skipped if and only if the range spans at least 11 semitones |
| `Register.PickNoteInRange` | engine/cpp/src/theory/orchestration_engine.cpp:138-162 | the candidate scan with its transposed fallback |
| `Register.PickedInRange` | engine/cpp/src/theory/orchestration_engine.cpp:138-162 | the note is always in range, and from the pool whenever the pool reaches the range |
| `Register.MelodyMovesLeast` | engine/cpp/src/theory/orchestration_engine.cpp:527-533 | a note six semitones inside the range stays, a lower or higher one goes just inside that margin |
| `Register.BassStaysLow` | engine/cpp/src/theory/orchestration_engine.cpp:230-240 | the root lies in the octave from six semitones above the lowest note, the fifth above it if it fits and below it otherwise |
| `Register.ToneNearMiddle` | engine/cpp/src/theory/orchestration_engine.cpp:277-286 | in two octaves a chord tone is less than an octave from the middle |
| `ChordSymbols.SymbolRoundTrip` | engine/cpp/src/theory/orchestration_engine.cpp:54-73 | every pitch class is the root of some chord symbol that is read back |
| `EnsembleHarmony.SymbolParsed` | engine/cpp/src/theory/orchestration_engine.cpp:54-73 | a symbol is a root counted in fifths from C, then the quality, where nothing and `M` mean major and `m` minor |
| `EnsembleHarmony.TablesAgree` | engine/cpp/src/theory/orchestration_engine.cpp:88-98 | the orchestrator and the chord engine give every quality the same tones |
| `Ensemble.StableSorts` | engine/cpp/src/theory/orchestration_engine.cpp:112-120 | the sort yields a permutation in order of role and name |
| `Ensemble.FlattenEnsemble` | engine/cpp/src/theory/orchestration_engine.cpp:123-134 | the loops collect the instruments of all sections and sort them |
| `Ensemble.FlattenedIs` | engine/cpp/src/theory/orchestration_engine.cpp:123-134 | flattening keeps the instruments, in order, and keeps distinct names distinct |
| `Ensemble.ScoreOrder` | engine/cpp/src/theory/orchestration_engine.cpp:98-120 | flattened instruments stand in score order, from the melody to the fills, and by name within a role |
| `Ensemble.NamesAsInDictionary` | engine/cpp/src/theory/orchestration_engine.cpp:118-118 | names are ordered as words in a dictionary |
| `Ensemble.GroupByRole` | engine/cpp/src/theory/orchestration_engine.cpp:301-321 | the loop splits the instruments by role, in order |
| `Ensemble.SecondSortIdle` | engine/cpp/src/theory/orchestration_engine.cpp:510-519 | the groups are sorted by name already, so sorting them again changes nothing |
| `HarmonyPool.BuildPool` | engine/cpp/src/theory/orchestration_engine.cpp:174-197 | the nested loops with sort and unique give the chord tones of four octaves around the center, ascending and within 0..127 |
| `HarmonyPool.PoolHasTones` | engine/cpp/src/theory/orchestration_engine.cpp:183-197 | for keyboard ranges the pool is never empty, so its fallback is unreachable, and holds chord tones only |
| `HarmonyPool.PoolIs` | engine/cpp/src/theory/orchestration_engine.cpp:174-197 | the pool is exactly the chord tones of the keyboard from one octave below that of the center to two above it, ascending |
| `HarmonyPool.ChoiceByRank` | engine/cpp/src/theory/orchestration_engine.cpp:199-218 | instrument number i takes, of the tones left that it can play, number i counted from below and around |
| `HarmonyPool.NoDoubling` | engine/cpp/src/theory/orchestration_engine.cpp:199-218 | an instrument whose range holds more tones of the pool than there are instruments before it takes one of them and differs from all earlier instruments |
| `HarmonyPool.HarmonyIsChordTone` | engine/cpp/src/theory/orchestration_engine.cpp:199-218 | while the pool lasts, every harmony instrument of at least an octave plays a chord tone |
| `HarmonyPool.SectionDoublesIff` | engine/cpp/src/theory/orchestration_engine.cpp:199-218 | among instruments that share a range of at least an octave inside the pool, one doubles an earlier one if and only if at least as many instruments came before it as the range holds tones of the pool |
| `Orchestration.AssignMelody` | engine/cpp/src/theory/orchestration_engine.cpp:393-411 | pushes one placed root per melody instrument, with its ticks, channel and random velocity |
| `Orchestration.AssignCounter` | engine/cpp/src/theory/orchestration_engine.cpp:413-433 | pushes the chord tones that fit on four beats, cycling through the chord, with one random number per note kept |
| `Orchestration.AssignChordToHarmony` | engine/cpp/src/theory/orchestration_engine.cpp:165-219 | pushes one note of the shared, shrinking pool per instrument |
| `Orchestration.AssignBass` | engine/cpp/src/theory/orchestration_engine.cpp:222-262 | pushes root and fifth per bass instrument, the fifth five softer |
| `Orchestration.AssignPad` | engine/cpp/src/theory/orchestration_engine.cpp:265-298 | pushes the chord tones that fit, sustained, with one velocity per instrument |
| `Orchestration.AssignStabs` | engine/cpp/src/theory/orchestration_engine.cpp:451-474 | pushes the chord tones that fit on beats two and four, with one random number per note kept |
| `Orchestrator.AssignLines` | engine/cpp/src/theory/orchestration_engine.cpp:525-562 | pushes the melody, or the third below it, note by note for every instrument of the group |
| `Orchestrator.ListedTracks` | engine/cpp/src/theory/orchestration_engine.cpp:477-483 | exactly the nonempty tracks of the instruments are listed, whole, each under its name |
| `Orchestrator.ListedInOrder` | engine/cpp/src/theory/orchestration_engine.cpp:477-483 | the tracks are listed in the order of their instruments |
| `Orchestrator.OrchestrateChords` | engine/cpp/src/theory/orchestration_engine.cpp:348-486 | the bar loop lists the tracks of exactly the specified log of events, for every stream of random numbers; what the log says is the subject of the rows below |
| `Orchestrator.OrchestrateFull` | engine/cpp/src/theory/orchestration_engine.cpp:488-618 | the same with the melody and countermelody lines in front |
| `EnsembleHarmony.ChordsFollowProgression` | engine/cpp/src/theory/orchestration_engine.cpp:386-475 | every event of every track begins in some bar and plays the chord of that bar of the cycled progression: pads and stabs chord tones, countermelodies the tone of their beat, basses root and fifth, harmonies chord tones while the pool lasts, each on the beats, with the length and in the velocities of the role |
| `EnsembleHarmony.ChordsSoundProgression` | engine/cpp/src/theory/orchestration_engine.cpp:386-475 | in every bar, every instrument of sufficient range sounds every tone that its role calls for, at its beat |
| `EnsembleHarmony.FullFollowsProgression` | engine/cpp/src/theory/orchestration_engine.cpp:564-607 | the same as the first for the accompaniment of `orchestrate_full` |
| `EnsembleHarmony.FullSoundsProgression` | engine/cpp/src/theory/orchestration_engine.cpp:564-607 | the same as the second for the accompaniment of `orchestrate_full` |
| `EnsembleScore.ChordsInRange` | engine/cpp/src/theory/orchestration_engine.cpp:348-486 | with distinct names, every track of `orchestrate_chords` is on the channel and in the range of its instrument, and sounds and lasts while ticks fit 32 bits |
| `EnsembleScore.StaysInRangeIff` | engine/cpp/src/theory/orchestration_engine.cpp:348-486 | with distinct names and keyboard ranges, all notes of all progressions, bar counts and seeds stay in range if and only if every bass spans at least 11 semitones |
| `EnsembleScore.ChordsStreamBalanced` | engine/cpp/src/theory/orchestration_engine.cpp:348-486 | however an orchestrated track is sorted and rendered, its stream is balanced |
| `EnsembleScore.FullInRange` | engine/cpp/src/theory/orchestration_engine.cpp:488-618 | with distinct names, every track of `orchestrate_full` is on the channel and in the range of its instrument, and sounds and lasts when the melody is strong enough |
| `EnsembleScore.FullStaysInRangeIff` | engine/cpp/src/theory/orchestration_engine.cpp:488-618 | the same exact condition for `orchestrate_full`, over all melodies as well |
| `EnsembleScore.SungTrack` | engine/cpp/src/theory/orchestration_engine.cpp:525-562 | each melody or countermelody instrument has exactly one track, its line of the whole melody |
| `EnsembleScore.MelodyTrackFollows` | engine/cpp/src/theory/orchestration_engine.cpp:525-539 | each melody track has the melody's events one for one, with ticks and velocities, in range, and of the same pitch class when the range spans 17 semitones |
| `EnsembleScore.CountermelodyTrackFollows` | engine/cpp/src/theory/orchestration_engine.cpp:541-562 | each countermelody track has the melody's events one for one, with their ticks, ten softer, in range, and a minor third below up to octaves when the range spans 17 semitones |
| `EnsembleScore.CountermelodyAudibleIff` | engine/cpp/src/theory/orchestration_engine.cpp:557-558 | the countermelody of a note sounds if and only if the note's velocity is at least 11 |
| `Humanization.Apply` | engine/cpp/src/theory/humanization_engine.cpp:31-83 | the two loops apply swing, jitter, variation and snap to every event with its own random numbers |
| `Humanization.HumanizedKeeps` | engine/cpp/src/theory/humanization_engine.cpp:40-70 | pitch and channel stay, velocity is in 1..127 and changes by at most the variation; the event lasts unless it began at the last 32-bit tick and was not moved |
| `Humanization.MovedAsAWhole` | engine/cpp/src/theory/humanization_engine.cpp:41-57 | away from tick zero a note moves by the swing if it is on the off-beat eighth and by the drawn jitter, and keeps its length |
| `Humanization.OffsetReached` | engine/cpp/src/theory/humanization_engine.cpp:47-49 | every offset from minus to plus the jitter is drawn by some number |
| `Humanization.OnsetBoundedIff` | engine/cpp/src/theory/humanization_engine.cpp:41-57 | for every seed the onset moves by at most jitter plus swing, if and only if the swing does not wrap it and jitter does not take it for negative |
| `Humanization.EndBoundedIff` | engine/cpp/src/theory/humanization_engine.cpp:52-57 | for every seed the end moves back by at most the jitter and forth by at most jitter plus swing, if and only if the swung end is at least the jitter |
| `Humanization.ShortNoteRunsAway` | engine/cpp/src/theory/humanization_engine.cpp:52-57 | a note from tick 0 to 2 with jitter -5 ends at 0xFFFFFFFD |
| `Humanization.SnapNearest` | engine/cpp/src/theory/humanization_engine.cpp:20-25 | snapping goes to a multiple of the grid at most half a step away |
| `Humanization.SnappedEnds` | engine/cpp/src/theory/humanization_engine.cpp:72-82 | both ends go to their nearest grid points, or the note lasts one step when those coincide |
| `Humanization.SnapIdempotent` | engine/cpp/src/theory/humanization_engine.cpp:72-82 | snapping an event twice is snapping it once, and both ticks are multiples of the grid |
| `Humanization.HumanizedTrack` | engine/cpp/src/theory/humanization_engine.cpp:31-83 | a humanized track keeps count, order, pitch and channel, and every event lasts |
| `Humanization.HumanizedStreamBalanced` | engine/cpp/src/theory/humanization_engine.cpp:31-83 | however a humanized track is sorted and rendered, its stream is balanced |
| `HumanizationStyles.HumanizeByStyle` | engine/cpp/src/theory/humanization_engine.cpp:85-176 | a base pass with the parameters of the style, then the delay or advance loop, for every event |
| `HumanizationStyles.StyledTrackKeeps` | engine/cpp/src/theory/humanization_engine.cpp:85-176 | in every style and for every seed the track keeps count, order, pitch and channel, lasts, and has velocities in 1..127 |
| `HumanizationStyles.StyleFeel` | engine/cpp/src/theory/humanization_engine.cpp:104-176 | a laid-back note comes 5 to 15 ticks late, a pushed one never late, a swung one late only off the beat, a snapped one on the nearest grid point |
| `HumanizationStyles.StyleMoves` | engine/cpp/src/theory/humanization_engine.cpp:104-176 | away from tick zero every style but the snap moves a note by its lean and an offset within its jitter, and keeps its length |
| `HumanizationStyles.StyleReaches` | engine/cpp/src/theory/humanization_engine.cpp:104-176 | every offset within the jitter of a style is drawn by some seed |
| `HumanizationStyles.StyleVelocity` | engine/cpp/src/theory/humanization_engine.cpp:104-176 | the velocity is varied within the bound of the style and clamped, then scaled down or up by the laid-back and the pushed style |
| `HumanizationStyles.SnapStyleEnds` | engine/cpp/src/theory/humanization_engine.cpp:131-136 | the snap style puts both ends on their nearest grid points or lets the note last one step |
| `HumanizationStyles.SnapStyleIdempotent` | engine/cpp/src/theory/humanization_engine.cpp:131-139 | the snap style applied twice, with any seeds, is the snap style applied once |
| `HumanizationStyles.SnappedTrackIdempotent` | engine/cpp/src/theory/humanization_engine.cpp:85-176 | the same for whole tracks |
| `HumanizationStyles.StyleEndBoundedIff` | engine/cpp/src/theory/humanization_engine.cpp:139-176 | for every seed a style keeps the end of a lasting note within 180 ticks of where it was, if and only if the style is laid-back or pushed or the end is at least the jitter |
| `HumanizationStyles.StyledStreamBalanced` | engine/cpp/src/theory/humanization_engine.cpp:85-176 | however a styled track is sorted and rendered, its stream is balanced |
| `Blueprint.AllocateChannels` | engine/cpp/src/theory/blueprint_generator.cpp:173-195 | the allocator loop with its growing list of used channels |
| `Blueprint.AllocatedIdempotent` | engine/cpp/src/theory/blueprint_generator.cpp:173-195 | allocating again changes nothing |
| `Blueprint.ChannelsDistinct` | engine/cpp/src/theory/blueprint_generator.cpp:173-195 | at most nine instruments end on pairwise distinct channels |
| `Blueprint.DistinctWishesGranted` | engine/cpp/src/theory/blueprint_generator.cpp:173-195 | when no two instruments ask for the same channel, everybody gets the one asked for |
| `Blueprint.DrumAlone` | engine/cpp/src/theory/blueprint_generator.cpp:173-195 | a sole drum, when nobody else asks for 9, is alone on channel 9 |
| `Blueprint.DrumOnNineIff` | engine/cpp/src/theory/blueprint_generator.cpp:173-195 | a drum ends on channel 9 if and only if nobody before it asked for 9, or at least nine before it were not the first to ask for a channel outside 0..8 |
| `Blueprint.GenerateIdempotent` | engine/cpp/src/theory/blueprint_generator.cpp:120-198 | generating twice is generating once if and only if the blueprint is accepted |
| `Blueprint.AcceptedKeeps` | engine/cpp/src/theory/blueprint_generator.cpp:120-198 | an accepted blueprint keeps key, scale, tempo, genres and energy, its sections by name, length and energy, and its instruments up to the channel; defaults fill only what is missing |
| `Blueprint.AcceptedIff` | engine/cpp/src/theory/blueprint_generator.cpp:148-162 | a blueprint is accepted if and only if its root is one of the seventeen names from Gb to A#, its scale is known, the tempo is in 40..300 and every section has 1 to 256 bars |
| `Blueprint.DefaultsFilled` | engine/cpp/src/theory/blueprint_generator.cpp:94-113 | a blueprint without sections becomes intro, verse, chorus and outro of twelve bars with the energy of the piece, one without instruments gets piano, bass and drums on channels 0, 1 and 9 |
| `Blueprint.EnergyOrders` | engine/cpp/src/theory/blueprint_generator.cpp:51-67 | a section of more energy is denser and more complex |
| `Blueprint.EnergyMoves` | engine/cpp/src/theory/blueprint_generator.cpp:71-86 | a blueprint of neutral emotion gets more valence, arousal and dominance with more energy |
| `Arrangement.AddOne` | engine/cpp/src/theory/arrangement_planner.cpp:34-42 | the first wanted instrument that is missing joins, in order |
| `Arrangement.RemoveOne` | engine/cpp/src/theory/arrangement_planner.cpp:44-51 | the first active instrument that is not wanted leaves |
| `Arrangement.Plan` | engine/cpp/src/theory/arrangement_planner.cpp:57-90 | the active list of every section follows from the previous one and the two energies |
| `Arrangement.PlanBounded` | engine/cpp/src/theory/arrangement_planner.cpp:57-90 | in every section the list is sorted and in bounds, holds the ideal of the lowest energy so far and stays within that of the highest |
| `Arrangement.OneChangeAtATime` | engine/cpp/src/theory/arrangement_planner.cpp:34-51 | an energy change adds or removes at most one instrument: a rise the first one wanted and missing, a fall the first one no longer wanted |
| `Arrangement.AlwaysPlayingKept` | engine/cpp/src/theory/arrangement_planner.cpp:15-22 | drums, pads, comping and unknown roles play in every section |
| `Arrangement.SteadySection` | engine/cpp/src/theory/arrangement_planner.cpp:15-32 | in the first section, and in every section as energetic as the one before, leads play at high energy only, basses and rhythms from mid energy on, and all others always |
| `Arrangement.SilentUntilCalled` | engine/cpp/src/theory/arrangement_planner.cpp:57-90 | no lead plays before the first section of high energy, no bass or rhythm before the first of mid energy |

## Left out

- FastFourier.FFT.constructor: takes the exact cosines and sines as a parameter constrained by the laws of angles, because rounding and the real trigonometric functions are not modelled; size 0, which the assertion lets through and for which no loop runs, is excluded.
- FifoProtocol: a store becomes visible at one point of the run; slot contents need no staleness of their own, since a slot is never written while it may be read.
- MidiFifo.Drain: batches arrive whole between two pops; arbitrary interleavings of single micro-steps are the subject of `FifoSafety`.
- SmfFile.ReadSmf: models regular files, where a read returns all bytes that are left; interrupted reads and the file system are not modelled.
- NotePairing.ParseTrack: works on the messages of the standard's reader instead of JUCE's parsed sequence, and does not narrow ticks to 32-bit signed integers.
- Humanization.HumanizedKeeps: assumes a jitter and a swing delay below 2^29 and no tick within the jitter of 2^31, where the signed additions of the source would overflow; the same holds for the lemmas built on it.
- Humanization.SnapNearest: assumes a tick whose rounding stays below 2^31, beyond which the source takes ticks for negative numbers.
- HumanizationStyles.HumanizeByStyle: a swing of 0.30 is taken as its delay of 36 ticks; the tempo argument, which the source ignores, is dropped. The lemmas about styles assume ticks at least 400 below 2^31.
- ChordPipeline.ConvertHarmony: the warning printed for an undetected chord is not modelled, only its fallback to C major.
- Orchestrator.OrchestrateChords: the melody of chord roots that the source builds and never uses is modelled by the random numbers it draws; names compare by characters instead of bytes.
- EnsembleScore.ChordsStreamBalanced: assumes at most 2236962 bars, whose ticks fit 32 bits; a note across tick 2^32 wraps and ends before it begins.
- Second-species counterpoint, the ensembles of `suggest_ensemble` and the timeline: they would only add easier members over the same parts.
- The chord scoring of `orchestrate_workflow.cpp` and its chord requests, the prompt interpreter, style detection, general MIDI tables, and the pattern emitters for bass, drums, rhythm, piano, guitar and strings: table lookups.
- Window shapes, filters, and key, chord and onset detection from audio: numeric heuristics without an exact statement.
- The user interface, the gRPC server, storage, subprocesses and temporary files: input and output.
