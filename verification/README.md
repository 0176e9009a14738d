# midi-ann-synthwerk: a Dafny model of the symbolic pipeline

This project models the symbol-level core of midi-ann-synthwerk in Dafny 4.11 and proves properties about it. The repository turns MIDI files into training data for a sequence model and turns model output back into music. The MIDI and machine-learning libraries it calls are treated as opaque. The model covers these parts:

* **Symbol encoder** (`src/encode_data.py`), in modules `Music` and `Encoder`. Every note or chord gets a string key built from its pitch spellings; for a chord the pitches are sorted ascending first. The first element seen with a key is normalised and stored in an insert-if-absent dictionary. Each stream adds one list of keys and one parallel list of offsets.
* **Symbol decoder** (`src/decode_data.py`), in module `Decoder`. Each `(x, y, delta)` row is resolved to the nearest vocabulary word by a linear-scan argmin, where the first minimum wins. The offsets are rebuilt as running sums of deltas snapped to the sixteenth-note grid. Copies of dictionary entries are stamped with ids `"0"`, `"1"`, … and inserted. An insertion the stream rejects is skipped.
* **Training-window builders** (`src/prep_learn_data.py`, `src/prepare_inputs.py`), in modules `Vectors`, `Windows` and `Chunks`. Offsets are delta-encoded. The vector list is then cut in one of two ways:
  * sliding windows whose inputs and targets are taken with a stride;
  * 128-wide chunks, the last of them back-aligned.
* **Measure encoder** (`src/StreamHandler.py`), in module `Measures`. Each non-empty measure becomes a block of `length + 1` rows of `width` reals:
  * a tag line of measure offset, program, drum flag, tempo and time signature;
  * the note rows, padded or cut.

  Consecutive blocks are paired as input and target only when the second one starts exactly one measure after the first.
* **Splitter and handler** (`src/MidiHandler.py`), in module `Splitter`. Per-file ordinals and output names are assigned. The program and drum flag are recorded under each output name. When a split file is parsed back, its instruments are replaced by the recorded one or by a default. The toggles, the status strings and `clear_dict` are included.
* Shared pieces:
  * `Results`: the `Result`/`Option` error paths.
  * `Decimal`: Python's `str(n)` and `float(s)` on non-negative integers.
  * `Rounding`: numpy's half-to-even `round` and the sixteenth-note grid.
  * `RoundTrip`: the end-to-end lemma connecting encoder, vectoriser and decoder.

Floating-point numbers are modelled as `real`, so offsets, deltas and coordinates are exact. Library calls are parameters:
* pretty_midi's `program_to_instrument_name` is the function `nameOf`;
* music21's `Stream.insert` success is the predicate `accept`.

Module-level and object state is passed and returned explicitly as datatypes:
* the encoder's `master_dict`, `sequence_data` and `offset_data`;
* `StreamHandler`'s input and target lists;
* the splitter's `instruments_dict` and switches.

Some behaviours of the code are easy to misread; the model follows the code:
* **The drum switch.** The `split_midi` docstring calls the inclusion of drum tracks optional (`src/MidiHandler.py:249`). The function never reads `extract_drums`, so every track is written and registered. `Splitter.SplitIgnoresExtractDrums` proves that the switch changes nothing.
* **Overwriting the instrument dictionary.** `instruments_dict[out_name] = …` (`src/MidiHandler.py:291`) replaces an entry already stored under the same name, for instance when a file is split twice. `Splitter.RegisterUpTo` replaces it too.
* **Failures during decoding.** `data_to_stream` skips an element that the stream rejects and carries on. Everything else that can go wrong raises: an empty vocabulary, a word list shorter than the coordinate list, or a word missing from the dictionary. The model returns `Failure` for these.
* **Width below six.** `prepare_data` with a width below 6 prints a message (`src/StreamHandler.py:128-129`) and returns with both lists emptied. `Measures.PrepareData` returns exactly that state.
* **A part without a time signature.** `time_signature` starts as the part's own signature, which may be `None`. It is first read at the first non-empty measure, after that measure's own signature (if any) has replaced it. So a part fails exactly when neither is there, and the model reports `NoTimeSignature` for it.
* **A score the splitter never saw.** `prepare_data` reads `sequence[0]` and then the first editorial comment of that part's instrument (`src/StreamHandler.py:50`, `src/StreamHandler.py:58-60`). A score without parts, or an instrument without a comment, raises `IndexError` there. The comment is missing, for instance, when a score was loaded without going through the reassignment step. The model reports `NoPart` and `NoComment` for these.
* **The default record.** When a file name is not in the dictionary, the default instrument stores the string `"0"` as its drum flag (`src/MidiHandler.py:219-220`). `prepare_data` reads that as not a drum, since only `"True"` counts.

## Model

| member | source | states |
|---|---|---|
| Music.Normalise | src/encode_data.py:46-49 | the stored representative keeps what sounds; its offset is 0, duration 1, velocity 100 and id "none" |
| Music.NormaliseIdempotent | src/encode_data.py:46-49 | normalising twice is normalising once, and an already normalised element is unchanged |
| Music.SortAscending | src/encode_data.py:21 | `sortAscending` yields a permutation of the chord's pitches, ordered from lowest to highest (by MIDI number here; see Left out) |
| Music.KeyIgnoresPerformance | src/encode_data.py:18-25 | the key depends only on what sounds: offset, duration, velocity and id never change it, so normalisation keeps it |
| Music.ChordKeyOrderIndependent | src/encode_data.py:19-23 | two chords with the same pitches, listed in any order, get the same key |
| Music.KeyKinds | src/encode_data.py:18-25 | a note's key never equals a chord's key; two notes share a key exactly when their pitch spellings agree |
| Decimal.NatToString | src/MidiHandler.py:285-288 | `str(n)` is a non-empty run of decimal digits, with two or more digits exactly when n >= 10 |
| Decimal.ParseNat | src/StreamHandler.py:60 | `float(s)` succeeds exactly on non-empty digit strings |
| Decimal.ParseNatToString | src/StreamHandler.py:60 | reading back the stored `str(program)` gives the program number |
| Decimal.NatToStringInjective | src/MidiHandler.py:285-288 | different ordinals have different decimal spellings |
| Rounding.RoundHalfEven | src/decode_data.py:30 | `np.round` gives an integer within 1/2 of its argument, and the even one on a tie |
| Rounding.RoundHalfEvenUnique | src/decode_data.py:30 | those two properties determine the rounded value uniquely |
| Rounding.Quantise | src/decode_data.py:30 | a snapped step lies on the sixteenth-note grid and at most 1/8 from the raw step |
| Rounding.QuantiseOnGrid | src/decode_data.py:30 | snapping leaves a step that is already on the grid unchanged |
| Rounding.OnGridArithmetic | src/decode_data.py:30 | sums and differences of grid values stay on the grid |
| Encoder.Keys | src/encode_data.py:41-43 | the symbol list has one entry per element, entry i being element i's key |
| Encoder.Offsets | src/encode_data.py:41-44 | the offset list has one entry per element, entry i being element i's original offset |
| Encoder.Absorb | src/encode_data.py:45-50 | insert-if-absent: existing entries are never replaced, and the keys become the old keys plus the stream's keys |
| Encoder.AbsorbStoresFirst | src/encode_data.py:45-50 | a new key is bound to the normalised first element of the stream carrying it |
| Encoder.AbsorbCanonical | src/encode_data.py:45-50 | every stored entry is normalised and sits under its own key, and absorbing keeps it so |
| Encoder.AbsorbKnown | src/encode_data.py:45 | a stream whose keys are all known leaves the dictionary unchanged |
| Encoder.AbsorbIdempotent | src/encode_data.py:45-50 | encoding the same stream twice leaves the dictionary as after the first time |
| Encoder.StreamToData | src/encode_data.py:39-52 | one call appends exactly one key list and one offset list; the dictionary's keys become the old keys plus the stream's keys, old entries are kept, a canonical dictionary stays canonical, and the key and offset lists stay parallel |
| Encoder.EncodeAll | src/encode_data.py:69-72 | the directory loop appends the i-th stream's key and offset lists as the i-th new entries; the dictionary's keys become the old keys plus the key of every element of every stream, old entries are kept, and a canonical dictionary stays canonical |
| Decoder.Distances | src/decode_data.py:50 | entry j is the squared Euclidean distance from point j to the query |
| Decoder.ArgMin | src/decode_data.py:51 | `np.argmin` returns a minimal index, and it is the first one: every earlier value is strictly larger |
| Decoder.ClosestIndex | src/decode_data.py:50-51 | the chosen point is nearest to the query, and the lowest index among equally near points |
| Decoder.ClosestIndexUnique | src/decode_data.py:50-51 | no other index is both nearest and first, so the choice is deterministic |
| Decoder.NameClosestCoord | src/decode_data.py:42-51 | an empty vocabulary fails; with at least as many words as points, every query (however far away) names the word of the closest index |
| Decoder.NameClosestUnique | src/decode_data.py:50-51 | a query strictly nearer to point i than to all others names word i |
| Decoder.PrefixOffset | src/decode_data.py:24-30 | the running offset starts at 0 and is always a multiple of 1/4 |
| Decoder.PrefixOffsetStep | src/decode_data.py:29-30 | each row moves the running offset by its delta snapped to the grid, so by the raw delta to within 1/8 |
| Decoder.Stamp | src/decode_data.py:32-34 | the inserted copy sounds, lasts and plays like the dictionary entry, carrying id `str(k)` and the running offset |
| Decoder.Resolve | src/decode_data.py:25-34 | the rows from k on resolve exactly when each one names a dictionary word; row j then yields the stamped copy for j |
| Decoder.InsertAll | src/decode_data.py:35-38 | rejected insertions are skipped without aborting: the stream keeps its prefix, grows by at most the number of items and holds only offered items; an accepted first item comes right after the prefix, and if nothing is accepted the stream is unchanged |
| Decoder.InsertAllSnoc | src/decode_data.py:35-38 | item by item: each item is appended exactly when the stream built from the items before it accepts it, and skipped otherwise |
| Decoder.InsertAllAcceptingEverything | src/decode_data.py:35-38 | when every insertion succeeds, all items are appended in order |
| Decoder.DataToStream | src/decode_data.py:9-39 | decoding succeeds exactly when every row resolves, and yields at most one element per row |
| Decoder.DecodedElements | src/decode_data.py:25-38 | every decoded element is the stamped copy for some row j: its id is `str(j)`, it sounds like that row's word, and its offset is on the grid |
| Decoder.DecodedIdsDistinct | src/decode_data.py:33 | no two decoded elements share an id |
| Decoder.DecodeAcceptingEverything | src/decode_data.py:25-38 | with every insertion accepted, element j is row j's stamped copy, one element per row |
| Vectors.EncodePrefix | src/prep_learn_data.py:28-34 | the first n rows are built exactly when none of the first n symbols lacks coordinates; otherwise the first missing symbol is reported |
| Vectors.DeltaEncode | src/prep_learn_data.py:27-34 | `zip` length; row i carries the coordinates of symbol i and the step offset_i - offset_(i-1), with offset_(-1) = 0; a missing symbol aborts |
| Vectors.DeltaSumRecoversOffsets | src/prep_learn_data.py:28-34 | the steps telescope: the first n of them sum to offset n-1 |
| Windows.DivTensorList | src/prep_learn_data.py:51-55 | there are max(0, n - L - 1) windows, and window i is exactly elements i to i+L |
| Windows.WindowsOverlap | src/prep_learn_data.py:54 | every window has L elements, and neighbouring windows overlap in all but one element |
| Windows.LastTwoNeverWindowed | src/prep_learn_data.py:53 | no window reaches the last two elements |
| Windows.Stride | src/prep_learn_data.py:38-39 | `s[start::p]` visits element start + k*p as its k-th entry |
| Windows.StrideIndexValue | src/prep_learn_data.py:38-39 | the k-th visit of a stride is at start + k*p |
| Windows.StrideCountIsCeiling | src/prep_learn_data.py:38-39 | a stride over m > 0 remaining elements makes ceil(m/p) visits, and none when m <= 0 |
| Windows.InputsAndTargetsPair | src/prep_learn_data.py:38-39 | `[:-1:p]` and `[1::p]` have equal length; the k-th input is window k*p and the k-th target is window k*p+1 |
| Windows.WindowShifted | src/prep_learn_data.py:51-55 | every window but the last has L vectors, and the next window is it moved on by one vector |
| Windows.WindowsPaired | src/prep_learn_data.py:38-39 | with p >= 1, each strided input window of L vectors is followed by its target window moved on by one vector |
| Windows.WindowPairs | src/prep_learn_data.py:33-39 | a vector list with w windows gives ceil((w-1)/p) pairs; input k is window k*p and its target is window k*p+1, and every pair is two shifted windows of width L |
| Windows.PrepareSequence | src/prep_learn_data.py:25-39 | one sequence succeeds exactly when it vectorises and p >= 1, and then gives exactly the window pairs of its vector list: shifted windows of width L |
| Windows.PrepareUpTo | src/prep_learn_data.py:23-39 | the outer loop succeeds exactly when every sequence vectorises (and p >= 1 if there is one); the inputs and targets are then each sequence's window pairs appended in sequence order, and zero sequences give two empty lists |
| Windows.SequenceWindowsPaired | src/prep_learn_data.py:23-39 | appending the window pairs of any number of sequences keeps every input followed by its target, a shifted window of width L |
| Windows.PrepareTensors | src/prep_learn_data.py:6-48 | `prepare_tensors` over `zip(sequence_data, offset_data)`: same success condition; the batch lists are every sequence's window pairs in sequence order, empty when there is no sequence, and every pair is two shifted windows of width L |
| Chunks.CeilDiv | src/prepare_inputs.py:25 | `ceil(n/d)` is the least c with c*d >= n |
| Chunks.SliceBound | src/prepare_inputs.py:28 | a Python slice bound: a negative bound counts from the end, and the result is clamped to 0..n |
| Chunks.PySlice | src/prepare_inputs.py:27-28 | `s[a:b]` has length max(0, b'-a') for the clamped bounds, and element k is `s[a'+k]` |
| Chunks.ChunkSequence | src/prepare_inputs.py:25-30 | a sequence of n vectors gives ceil(n/128) chunks; chunk t is block t when it fits, else the slice `[n-128:n]` |
| Chunks.ChunksBeforeLast | src/prepare_inputs.py:29-30 | every non-final chunk t is exactly elements 128t to 128t+128 |
| Chunks.LastChunkBackAligned | src/prepare_inputs.py:26-28 | for n >= 128 the final chunk is exactly the last 128 elements, whether or not 128 divides n |
| Chunks.LongSequenceFullChunks | src/prepare_inputs.py:25-30 | for n >= 128 every chunk has exactly 128 elements |
| Chunks.LongSequenceCovered | src/prepare_inputs.py:25-30 | for n >= 128 every element lands in some chunk |
| Chunks.ExactChunksFlatten | src/prepare_inputs.py:25-30 | when 128 divides n, concatenating the chunks gives back the sequence |
| Chunks.ShortSequenceChunk | src/prepare_inputs.py:26-28 | for 0 < n < 128 the negative-start slice gives one chunk: the whole sequence if n <= 64, else only its last 128 - n elements |
| Chunks.EmptySequenceNoChunk | src/prepare_inputs.py:25 | an empty sequence gives no chunk |
| Chunks.ChunksUpTo | src/prepare_inputs.py:15-30 | the loop succeeds exactly when every sequence so far vectorises; the result is then each sequence's chunk list appended in sequence order |
| Chunks.SequenceChunksCount | src/prepare_inputs.py:15-30 | when every sequence vectorises, the appended chunk lists hold ceil(len/128) chunks per sequence in total |
| Chunks.SequenceChunksMembers | src/prepare_inputs.py:15-30 | every chunk in the appended lists is a chunk of one of the sequences; nothing else gets in |
| Chunks.PrepareInputs | src/prepare_inputs.py:7-34 | over all of `zip(sequence_data, offset_data)`: success exactly when every sequence vectorises, and then every sequence's chunks in sequence order, ceil(len/128) per sequence, each one a chunk of some sequence |
| Measures.Zeros | src/StreamHandler.py:108 | a zero row of the given width |
| Measures.Fit | src/StreamHandler.py:95-100 | the pad/pop loops give exactly n entries: the original entry where there is one, the filler after it |
| Measures.NoteRow | src/StreamHandler.py:88-102 | a note row is [offset, quarterLength, pitch numbers...], zero-padded or cut from the end to exactly width |
| Measures.TagLine | src/StreamHandler.py:82-84 | the tag line is [measure offset, program, is_drum, tempo, numerator, denominator] followed by zeros, of length exactly width |
| Measures.FitRows | src/StreamHandler.py:104-111 | padding or cutting to length+1 rows keeps the tag line first; row j is note row j-1 or a zero row |
| Measures.MeasureBlock | src/StreamHandler.py:69-111 | a measure's block has length+1 rows of width entries: its tag line, then its note rows, then zero rows |
| Measures.WalkUpTo | src/StreamHandler.py:67-113 | the measure loop yields at most one well-shaped, tagged block per measure |
| Measures.MeasureBlocks | src/StreamHandler.py:67-113 | a part yields at most one well-shaped, tagged block per measure |
| Measures.MeasureLoop | src/StreamHandler.py:65-113 | the loop as written, with the time signature as loop state, builds exactly those blocks |
| Measures.NonEmpty | src/StreamHandler.py:72-74 | the kept measures are measures of the part whose highestOffset is not 0.0, and every such measure is kept |
| Measures.NonEmptyCounts | src/StreamHandler.py:72-74 | exactly the empty measures go: every other measure is kept as often as it occurs |
| Measures.NonEmptyAppend | src/StreamHandler.py:67-74 | dropping empty measures works piece by piece, so the kept measures stay in their original order |
| Measures.EmptyMeasuresIgnored | src/StreamHandler.py:71-78 | an empty measure contributes nothing, not even its time signature: dropping empty measures first gives the same result |
| Measures.BlocksOfNonEmpty | src/StreamHandler.py:76-85 | over non-empty measures, block k encodes measure k with the time signature in force there, carried forward from earlier measures |
| Measures.MeasureBlocksContents | src/StreamHandler.py:67-113 | a part's blocks are its non-empty measures in order, each with the time signature carried forward to it |
| Measures.TargetIndices | src/StreamHandler.py:116-125 | targets are at increasing positions >= 1, and each one starts one measure after its predecessor |
| Measures.TargetIndicesComplete | src/StreamHandler.py:118-125 | every position whose block starts one measure after its predecessor's block is a target |
| Measures.PairsUpTo | src/StreamHandler.py:116-125 | inputs and targets have equal length; pair k is (block before target k, target k) |
| Measures.PairsStepFollows | src/StreamHandler.py:121-123 | a following block appends the pair (previous block, this block) |
| Measures.PairsStepSkips | src/StreamHandler.py:121-125 | the first block, or one that does not follow, adds nothing |
| Measures.PairLoop | src/StreamHandler.py:116-125 | the loop as written, with `expected_offset` and `past_subsequence` as state, produces exactly those pairs |
| Measures.PairedAt | src/StreamHandler.py:116-125 | each recorded pair is two consecutive blocks, the second starting one measure after the first |
| Measures.DrumFlag | src/StreamHandler.py:59 | is_drum is 1.0 exactly when the stored string is "True", else 0.0 |
| Measures.FirstPart | src/StreamHandler.py:50 | `sequence[0]` gives the score's first part, and fails with `NoPart` exactly when the score has none |
| Measures.PartHeader | src/StreamHandler.py:53-60 | the tag-line header exists exactly when the instrument carries a comment whose program string parses; it holds the program, the drum flag and the first tempo; a missing comment fails with `NoComment`, an unparsable program with `BadProgram` |
| Measures.StartSignature | src/StreamHandler.py:55-84 | a part fails with `NoTimeSignature` exactly when it has no signature of its own and its first non-empty measure has none either; a part's own signature is used when present |
| Measures.MissingStartUnread | src/StreamHandler.py:55-84 | when a part without its own signature gets through, the starting value of `time_signature` is never read: any two starting values give the same blocks |
| Measures.PartPairs | src/StreamHandler.py:50-125 | one part contributes well-shaped tagged pairs, the target following the input; a part that cannot be encoded contributes none |
| Measures.ScorePairs | src/StreamHandler.py:47-125 | a score contributes the pairs of its first part, and nothing when it cannot be encoded |
| Measures.ScoresUpTo | src/StreamHandler.py:47-127 | the loop succeeds exactly when every score so far has a first part carrying a comment with a parsing program string and a time signature in force; the lists are then each score's pairs appended in order, all well-shaped and following |
| Measures.ScoresUpToStops | src/StreamHandler.py:47-127 | the first score that cannot be encoded decides the outcome: later scores change nothing |
| Measures.UnreadableScoreReported | src/StreamHandler.py:47-60 | when the first score that cannot be encoded has no part, `prepare_data` fails with `NoPart`; when its first part has no comment, with `NoComment` |
| Measures.PrepareData | src/StreamHandler.py:23-129 | with width < 6 both lists end up empty; otherwise success exactly when every score can be encoded, and the input and target lists are every score's pairs in order; the loaded scores are kept and every pair has the right shape and follows |
| Measures.PrepareDataResets | src/StreamHandler.py:38-40 | the result does not depend on the lists from earlier calls: nothing accumulates |
| Measures.ClearData | src/StreamHandler.py:136-138 | both lists are emptied and the loaded scores are kept |
| Measures.LoadSequences | src/StreamHandler.py:12-13 | the scores are replaced and the lists are kept |
| Splitter.BoolToString | src/MidiHandler.py:278 | `str(bool)` is "True" exactly for true and "False" exactly for false |
| Splitter.Record | src/MidiHandler.py:276-281 | the record's program string parses back to the program, and its drum string is "True" exactly for drum tracks |
| Splitter.PartNameShape | src/MidiHandler.py:284-288 | every name is file, "_part_", the ordinal in decimal, "_", the label ("Percussion" for drums) and ".mid" |
| Splitter.PartNamesDistinct | src/MidiHandler.py:284-288 | within one file, equal names imply equal ordinals |
| Splitter.DrumNameSuffix | src/MidiHandler.py:287-288 | a drum track's name ends in "_Percussion.mid" |
| Splitter.PartFile | src/MidiHandler.py:262-273 | the written file holds just that instrument and the original time signatures; its tempo map is either the rounded initial tempo or the original one |
| Splitter.RegisterUpTo | src/MidiHandler.py:260-292 | the dictionary's keys grow by exactly the names of the file's instruments |
| Splitter.RegisteredRecord | src/MidiHandler.py:291 | each instrument's name ends up bound to its own record; no later instrument overwrites it |
| Splitter.RegisterKeepsOthers | src/MidiHandler.py:291 | bindings of other names are left unchanged |
| Splitter.SplitMidi | src/MidiHandler.py:244-293 | a file with no tempo change fails; otherwise instrument k is written under its name with only itself in the file, the right tempo map and the original time signatures, and its name is bound to its record; other keys and both switches are unchanged |
| Splitter.NameSetSize | src/MidiHandler.py:284-292 | the n first instruments of a file get n different names |
| Splitter.OneEntryPerInstrument | src/MidiHandler.py:261-292 | splitting a file whose names are new adds exactly one dictionary entry per instrument |
| Splitter.SplitIgnoresExtractDrums | src/MidiHandler.py:261-293 | the drum switch changes neither the written files nor the dictionary |
| Splitter.Status | src/MidiHandler.py:298-308 | the status text is "enabled" exactly when the flag is on, and "disabled" otherwise |
| Splitter.ClearDict | src/MidiHandler.py:295-296 | the dictionary is empty afterwards and the switches are kept |
| Splitter.ToggleDrumSplitter | src/MidiHandler.py:70-71 | the drum flag is negated and nothing else changes |
| Splitter.ToggleUniformTempo | src/MidiHandler.py:73-74 | the tempo flag is negated and nothing else changes |
| Splitter.TogglesInvolutive | src/MidiHandler.py:70-74 | toggling twice restores the handler, and one toggle flips the status text |
| Splitter.ClearData | src/MidiHandler.py:165-173 | no sequences remain and the splitter is a fresh one: empty dictionary, both switches on |
| Splitter.Flatten | src/MidiHandler.py:228-229 | flattening keeps every note of every voice and adds nothing: the result holds exactly the voices' notes, counted with multiplicity |
| Splitter.RecordFor | src/MidiHandler.py:214-225 | a dictionary hit gives the recorded instrument; a miss gives the default ("0", "0") without failing |
| Splitter.ReassignPart | src/MidiHandler.py:206-229 | the part holds exactly one instrument, at offset 0; its notes are exactly its own plus those of its voices, counted with multiplicity, and no voices remain |
| Splitter.ReassignProgram | src/MidiHandler.py:206-229 | every part is reassigned, one for one |
| Splitter.ReassignedInstruments | src/MidiHandler.py:206-225 | afterwards every part holds exactly one instrument, at offset 0: the recorded one, or the default on a miss |
| Splitter.ReassignIdempotent | src/MidiHandler.py:206-229 | reassigning twice is the same as reassigning once |
| Splitter.SplitThenReassign | src/MidiHandler.py:214-215 | a split file parsed back gets its own recorded instrument, whose program string parses to the track's program |
| RoundTrip.OffsetsRoundTrip | src/decode_data.py:24-30 | with offsets on the grid, the decoder's running offset after n delta-encoded rows is exactly offset n-1 |
| RoundTrip.NameOwnPoint | src/decode_data.py:50-51 | in a vocabulary of pairwise distinct points, a word's own point names that word |
| RoundTrip.RowResolves | src/decode_data.py:31 | row j of a stream's vectors resolves to element j's key |
| RoundTrip.RowDecodes | src/decode_data.py:30-34 | decoded element j has element j's key and offset and id `str(j)` |
| RoundTrip.EncodeDecodeRoundTrip | src/decode_data.py:9-39 | encode a stream, delta-encode it and decode it again: with on-grid offsets, distinct vocabulary points and all insertions accepted, every element comes back in order with the same key, the same offset and id `str(j)` |

## Left out

- Threads: `SplitterThread`, `ReassignerThread`, the work queue and the join loops in `src/MidiHandler.py` are concurrency and are not modelled. Each split and reassignment is modelled as one sequential call.
- MIDI and music21 library internals are not modelled: loading and writing MIDI files, `makeMeasures`, `metronomeMarkBoundaries`, `converter.parse`, `getInstruments` and deep copies. Measures, parts and instruments are plain datatypes. `program_to_instrument_name` and `Stream.insert` are parameters.
- The deep copy in the non-uniform-tempo branch keeps more of the file than tempo changes and time signatures. `MidiFile` only has those two and the instruments, so key signatures, resolution and lyrics are not modelled.
- Removing a measure from the list while iterating over it (`src/StreamHandler.py:73`) depends on music21 iterator behaviour. The model only states that empty measures yield nothing.
- Floating point: offsets, deltas, coordinates, tempos and tag-line values are exact reals. float32 tensor storage and floating-point rounding of the delta subtraction are not modelled.
- File I/O, pickling (`file.py`), `save_file`/`load_file` and `backup`/`rollback` are not modelled. The loaded dictionary, vocabulary and sequences are parameters.
- `__clear_files`, `regenerate_midis`, `status` printing and progress printing are I/O and are not modelled.
- Tensor conversion (`tf.Variable`, `tf.stack`, `get_data`) is not modelled. Tensors are nested sequences.
- `w2v.py`, `main.py`, `utilities.py` and `tests.py` are training glue, plotting, random noise, timestamps and a smoke test; none of them is part of this model.
- Decimal.ParseNat: `float()` is modelled only on plain digit strings. Signs, decimal points and exponents are treated as failures. Only `str(program)` or "0" is ever stored there.
- Measures.PrepareData: `subsequence_length` is a `nat`, so negative lengths are not modelled. In the source a length of -1 pops every row of each block, and the pairing loop then raises `IndexError` at `subsequence[0]` (`src/StreamHandler.py:119`). A length below -1 makes `pop` raise on the emptied block (`src/StreamHandler.py:110`). A part with no non-empty measure raises neither.
- Measures.PrepareData: when a score cannot be encoded, the source raises after earlier scores' pairs were already appended. The model returns only the error, not that partial state.
- Measures.Tagged: the pairing loop divides by the tag line's denominator. music21 denominators are positive, so the model requires it to be non-zero rather than modelling a division error.
- Splitter.Flatten: `flattenUnnecessaryVoices` may interleave the voices' notes by offset. The model states which notes end up in the part, counted with multiplicity, but not their order.
- Splitter.SplitMidi: pretty_midi's `get_tempo_changes` always reports at least one tempo (a default one for a file without tempo events). The model's tempo list may be empty, and then the `[0]` index raises, which the model returns as `NoTempo`.
- Decoder.DataToStream: music21's rules for rejecting an insertion are the `accept` parameter. The decoded stream keeps insertion order; music21's internal sorting by offset is not modelled.
- Music.SortAscending: music21's `sortAscending` orders by diatonic step first and pitch space second, so `F##4` comes before `G-4`. The model orders by MIDI number. The two orders agree on the spellings MIDI import produces, one per pitch class: C, C#, D, E-, E, F, F#, G, G#, A, B- and B.
- Windows.PrepareTensors: `length_of_vector` and `partition` are `nat`s. Python accepts negative values; with a negative `partition`, `[:-1:p]` is empty while `[1::p]` is not, so the inputs and targets stop pairing up. The defaults are 128 and 1 (`src/prep_learn_data.py:6`), and nothing in the repository calls the function with other values.
